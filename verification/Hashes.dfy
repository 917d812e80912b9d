/**
 Bytes, SHA-256 as an arbitrary 32-byte function, and lowercase hex.

 No function from all byte strings to 32 bytes is injective, so nothing here assumes it. A theorem
 about digests says instead: either the inputs agree, or two DIFFERENT byte strings among those the
 computation really hashed have the same digest. The set of hashed strings is always given.
 */
module Hashes {
  import opened Texts

  type Byte = b: nat | b < 0x100

  type Bytes = seq<Byte>

  const DIGEST_BYTES: nat := 32

  type Hash = h: Bytes -> Bytes | forall x: Bytes :: |h(x)| == DIGEST_BYTES
    witness (x: Bytes) => seq(DIGEST_BYTES, i => 0)

  /** Two different strings of `hashed` share a digest. */
  ghost predicate CollisionAmong(h: Hash, hashed: set<Bytes>) {
    exists x, y :: x in hashed && y in hashed && x != y && h(x) == h(y)
  }

  lemma CollisionMonotone(h: Hash, small: set<Bytes>, large: set<Bytes>)
    requires small <= large
    requires CollisionAmong(h, small)
    ensures CollisionAmong(h, large)
  {
    var x, y :| x in small && y in small && x != y && h(x) == h(y);
    assert x in large && y in large;
  }

  // --- Lowercase hex --------------------------------------------------------------------------

  function HexUnit(n: nat): (u: Unit)
    requires n < 16
    ensures IsHexUnit(u) && HexValue(u) == n
  {
    if n < 10 then '0' as int + n else 'a' as int + (n - 10)
  }

  predicate IsHexUnit(u: Unit) {
    '0' as int <= u <= '9' as int || 'a' as int <= u <= 'f' as int
  }

  function HexValue(u: Unit): (n: nat)
    requires IsHexUnit(u)
    ensures n < 16
  {
    if u <= '9' as int then u - '0' as int else u - 'a' as int + 10
  }

  predicate IsHexText(t: Text) {
    |t| % 2 == 0 && forall i :: 0 <= i < |t| ==> IsHexUnit(t[i])
  }

  /** `buffer.toString('hex')`. */
  function Hex(bytes: Bytes): (t: Text)
    ensures |t| == 2 * |bytes| && IsHexText(t)
  {
    if bytes == [] then []
    else [HexUnit(bytes[0] / 16), HexUnit(bytes[0] % 16)] + Hex(bytes[1..])
  }

  /** `Buffer.from(text, 'hex')` on well-formed text. */
  function Unhex(t: Text): (bytes: Bytes)
    requires IsHexText(t)
    ensures 2 * |bytes| == |t|
  {
    if t == [] then []
    else [16 * HexValue(t[0]) + HexValue(t[1])] + Unhex(t[2..])
  }

  lemma {:induction false} UnhexHex(bytes: Bytes)
    ensures Unhex(Hex(bytes)) == bytes
  {
    if bytes != [] {
      var t := Hex(bytes);
      assert t[2..] == Hex(bytes[1..]);
      UnhexHex(bytes[1..]);
      assert 16 * (bytes[0] / 16) + bytes[0] % 16 == bytes[0];
    }
  }

  lemma {:induction false} HexUnhex(t: Text)
    requires IsHexText(t)
    ensures Hex(Unhex(t)) == t
  {
    if t != [] {
      HexUnhex(t[2..]);
      var b := 16 * HexValue(t[0]) + HexValue(t[1]);
      assert b / 16 == HexValue(t[0]) && b % 16 == HexValue(t[1]);
      assert t == [t[0], t[1]] + t[2..];
    }
  }

  /** `/^[0-9a-f]{64}$/`: the one spelling of a digest. */
  predicate IsDigestText(t: Text) {
    |t| == 2 * DIGEST_BYTES && IsHexText(t)
  }

  /** `createHash('sha256').update(x).digest('hex')`. */
  function HexDigest(h: Hash, x: Bytes): (t: Text)
    ensures IsDigestText(t)
  {
    Hex(h(x))
  }

  lemma HexDigestEqual(h: Hash, x: Bytes, y: Bytes)
    requires HexDigest(h, x) == HexDigest(h, y)
    ensures h(x) == h(y)
  {
    UnhexHex(h(x));
    UnhexHex(h(y));
  }

  /** Two digests agree exactly when their inputs agree, or are a collision. */
  lemma {:induction false} HexDigestAgree(h: Hash, x: Bytes, y: Bytes)
    ensures HexDigest(h, x) == HexDigest(h, y) <==> x == y || CollisionAmong(h, {x, y})
  {
    if HexDigest(h, x) == HexDigest(h, y) {
      HexDigestEqual(h, x, y);
      assert x in {x, y} && y in {x, y};
    }
  }
}
