/**
 `Buffer.from(text, 'utf8')` on UTF-16 text. Node writes U+FFFD for an unpaired surrogate, so the
 encoding is injective exactly on text without one; that is what `assertUnicodeScalarString`
 protects (packages/canonicalization/src/index.ts).
 */
module Utf8 {
  import opened Texts
  import opened Hashes
  import opened Outcomes

  datatype SurrogateFault = UnpairedHigh | UnpairedLow

  predicate IsHigh(u: Unit) {
    0xd800 <= u <= 0xdbff
  }

  predicate IsLow(u: Unit) {
    0xdc00 <= u <= 0xdfff
  }

  /** The first unpaired surrogate of `text`, left to right. */
  function FirstFault(text: Text): Option<SurrogateFault> {
    if text == [] then None
    else if IsHigh(text[0]) then
      if |text| > 1 && IsLow(text[1]) then FirstFault(text[2..]) else Some(UnpairedHigh)
    else if IsLow(text[0]) then Some(UnpairedLow)
    else FirstFault(text[1..])
  }

  predicate IsScalarText(text: Text) {
    FirstFault(text) == None
  }

  lemma {:induction false} ScalarConcat(a: Text, b: Text)
    requires IsScalarText(a) && IsScalarText(b)
    ensures IsScalarText(a + b)
  {
    if a == [] {
      assert a + b == b;
    } else if IsHigh(a[0]) {
      assert (a + b)[2..] == a[2..] + b;
      ScalarConcat(a[2..], b);
    } else {
      assert (a + b)[1..] == a[1..] + b;
      ScalarConcat(a[1..], b);
    }
  }

  lemma {:induction false} ScalarPlain(a: Text)
    requires forall i :: 0 <= i < |a| ==> !IsHigh(a[i]) && !IsLow(a[i])
    ensures IsScalarText(a)
  {
    if a != [] {
      ScalarPlain(a[1..]);
    }
  }

  /** How many code units the first encoded character takes. */
  function Width(text: Text): (w: nat)
    requires text != []
    ensures 1 <= w <= |text| && w <= 2
  {
    if IsHigh(text[0]) && |text| > 1 && IsLow(text[1]) then 2 else 1
  }

  /** The code point the first character stands for; U+FFFD for an unpaired surrogate. */
  function CodePoint(text: Text): (c: nat)
    requires text != []
    ensures c < 0x110000
  {
    if Width(text) == 2 then
      var high: int, low: int := text[0], text[1];
      0x10000 + 0x400 * (high - 0xd800) + (low - 0xdc00)
    else if IsHigh(text[0]) || IsLow(text[0]) then 0xfffd
    else text[0]
  }

  function EncodePoint(c: nat): (bytes: Bytes)
    requires c < 0x110000
    ensures 1 <= |bytes| <= 4
  {
    if c < 0x80 then [c]
    else if c < 0x800 then [0xc0 + c / 64, 0x80 + c % 64]
    else if c < 0x10000 then [0xe0 + c / 4096, 0x80 + c / 64 % 64, 0x80 + c % 64]
    else [0xf0 + c / 262144, 0x80 + c / 4096 % 64, 0x80 + c / 64 % 64, 0x80 + c % 64]
  }

  function Encode(text: Text): Bytes {
    if text == [] then []
    else EncodePoint(CodePoint(text)) + Encode(text[Width(text)..])
  }

  /** The length of the character that starts with `lead`. */
  function LeadLength(lead: Byte): (n: nat)
    ensures 1 <= n <= 4
  {
    if lead < 0x80 then 1 else if lead < 0xe0 then 2 else if lead < 0xf0 then 3 else 4
  }

  lemma LeadOfPoint(c: nat)
    requires c < 0x110000
    ensures LeadLength(EncodePoint(c)[0]) == |EncodePoint(c)|
  {
    if c < 0x80 {
    } else if c < 0x800 {
      assert c / 64 < 32;
    } else if c < 0x10000 {
      assert c / 4096 < 16;
    } else {
    }
  }

  lemma PointFromThree(c: nat)
    ensures 4096 * (c / 4096) + 64 * (c / 64 % 64) + c % 64 == c
  {
    assert c / 64 == 64 * (c / 64 / 64) + c / 64 % 64;
    assert c / 64 / 64 == c / 4096;
  }

  lemma {:induction false} PointFromFour(c: nat)
    ensures 262144 * (c / 262144) + 4096 * (c / 4096 % 64) + 64 * (c / 64 % 64) + c % 64 == c
  {
    PointFromThree(c);
    assert c / 4096 == 64 * (c / 4096 / 64) + c / 4096 % 64;
    assert c / 4096 / 64 == c / 262144;
  }

  lemma {:induction false} EncodePointInjective(c: nat, d: nat)
    requires c < 0x110000 && d < 0x110000
    requires EncodePoint(c) == EncodePoint(d)
    ensures c == d
  {
    var e, f := EncodePoint(c), EncodePoint(d);
    assert e[0] == f[0] && |e| == |f|;
    if |e| == 2 {
      assert e[1] == f[1];
    } else if |e| == 3 {
      assert e[1] == f[1] && e[2] == f[2];
      PointFromThree(c);
      PointFromThree(d);
    } else if |e| == 4 {
      assert e[1] == f[1] && e[2] == f[2] && e[3] == f[3];
      PointFromFour(c);
      PointFromFour(d);
    }
  }

  /** On scalar text the first character is determined by its code point. */
  lemma FirstCharacter(a: Text, b: Text)
    requires a != [] && b != []
    requires IsScalarText(a) && IsScalarText(b)
    requires CodePoint(a) == CodePoint(b)
    ensures Width(a) == Width(b) && a[..Width(a)] == b[..Width(b)]
  {
    if Width(a) == 2 && Width(b) == 2 {
      assert a[0] == b[0] && a[1] == b[1];
    }
  }

  lemma ScalarTail(a: Text)
    requires a != [] && IsScalarText(a)
    ensures IsScalarText(a[Width(a)..])
  {}

  /** UTF-8 loses nothing of text without unpaired surrogates. */
  lemma {:induction false} EncodeInjective(a: Text, b: Text)
    requires IsScalarText(a) && IsScalarText(b)
    requires Encode(a) == Encode(b)
    ensures a == b
  {
    if a != [] && b != [] {
      var ea, eb := EncodePoint(CodePoint(a)), EncodePoint(CodePoint(b));
      var ra, rb := a[Width(a)..], b[Width(b)..];
      assert Encode(a) == ea + Encode(ra) && Encode(b) == eb + Encode(rb);
      LeadOfPoint(CodePoint(a));
      LeadOfPoint(CodePoint(b));
      assert ea[0] == Encode(a)[0] == eb[0];
      assert ea == Encode(a)[..|ea|] == Encode(b)[..|eb|] == eb;
      EncodePointInjective(CodePoint(a), CodePoint(b));
      FirstCharacter(a, b);
      assert Encode(ra) == Encode(a)[|ea|..] == Encode(b)[|eb|..] == Encode(rb);
      ScalarTail(a);
      ScalarTail(b);
      EncodeInjective(ra, rb);
      assert a == a[..Width(a)] + ra && b == b[..Width(b)] + rb;
    }
  }

  /** The six bits a continuation byte carries, of the bytes 0x80 to 0xbf. */
  function Six(b: Byte): (bits: int)
    ensures 0 <= bits < 0x40 <==> 0x80 <= b < 0xc0
  {
    var value: int := b;
    value - 0x80
  }

  predicate IsContinuation(b: Byte) {
    0 <= Six(b) < 0x40
  }

  /** The code point a character's bytes stand for, as section 3 of RFC 3629 lays them out, in the fewest bytes. */
  predicate StandsFor(bytes: Bytes, c: nat)
    requires bytes != []
  {
    var lead: int := bytes[0];
    && (forall i :: 1 <= i < |bytes| ==> IsContinuation(bytes[i]))
    && match |bytes|
       case 1 => c < 0x80 && c == lead
       case 2 => 0x80 <= c < 0x800 && 0xc0 <= lead < 0xe0 && c == 0x40 * (lead - 0xc0) + Six(bytes[1])
       case 3 =>
         && 0x800 <= c < 0x10000 && 0xe0 <= lead < 0xf0
         && c == 0x1000 * (lead - 0xe0) + 0x40 * Six(bytes[1]) + Six(bytes[2])
       case 4 =>
         && 0x10000 <= c < 0x110000 && 0xf0 <= lead < 0xf8
         && c == 0x40000 * (lead - 0xf0) + 0x1000 * Six(bytes[1]) + 0x40 * Six(bytes[2]) + Six(bytes[3])
       case _ => false
  }

  lemma {:induction false} PointStandsFor(c: nat)
    requires c < 0x110000
    ensures StandsFor(EncodePoint(c), c)
  {
    if c < 0x80 {
    } else if c < 0x800 {
      assert c == 64 * (c / 64) + c % 64;
    } else if c < 0x10000 {
      PointFromThree(c);
    } else {
      PointFromFour(c);
    }
  }

  /** The first character of a text, as section 2.1 of RFC 2781 writes a code point in code units. */
  predicate WrittenAs(text: Text, c: nat)
    requires text != []
  {
    if c >= 0x10000 then
      && |text| > 1
      && text[0] == 0xd800 + (c - 0x10000) / 0x400 && text[1] == 0xdc00 + (c - 0x10000) % 0x400
    else text[0] == c
  }

  /**
   The encoding, character by character: each becomes the bytes that stand for the code point it is written
   as, and an unpaired surrogate those of U+FFFD.
   */
  lemma {:induction false} EncodeByCharacters(text: Text)
    requires text != []
    ensures var c, w := CodePoint(text), Width(text);
            && Encode(text) == EncodePoint(c) + Encode(text[w..])
            && StandsFor(EncodePoint(c), c)
            && (w == 2 <==> IsHigh(text[0]) && |text| > 1 && IsLow(text[1]))
            && (if w == 1 && (IsHigh(text[0]) || IsLow(text[0])) then c == 0xfffd else WrittenAs(text, c))
            && (c >= 0x10000 <==> w == 2)
  {
    PointStandsFor(CodePoint(text));
    if Width(text) == 2 {
      var high: int, low: int := text[0], text[1];
      var offset := 0x400 * (high - 0xd800) + (low - 0xdc00);
      assert offset / 0x400 == high - 0xd800 && offset % 0x400 == low - 0xdc00;
    }
  }

  /** Why the check is needed: without it two texts share their bytes. */
  lemma UnpairedSurrogateLost()
    ensures var lone: Text, replacement: Text := [0xd800], [0xfffd];
            lone != replacement && Encode(lone) == Encode(replacement) && !IsScalarText(lone)
  {
    var lone: Text, replacement: Text := [0xd800], [0xfffd];
    assert Encode(lone) == EncodePoint(0xfffd) + Encode(lone[1..]);
    assert Encode(replacement) == EncodePoint(0xfffd) + Encode(replacement[1..]);
    assert lone[1..] == replacement[1..] == [];
    assert lone[0] != replacement[0];
  }
}
