/**
 RFC 8785 canonical text (packages/canonicalization/src/index.ts): which values are accepted, what
 is printed for them, and which error is raised at which path otherwise.

 A finite number is its ECMAScript `Number::toString` text; `-0` and `0` are one number here, as
 they print alike. Arrays are dense.
 */
module Canonical {
  import opened Texts
  import opened Outcomes
  import opened Utf8
  import opened Hashes

  // --- Values ---------------------------------------------------------------------------------

  datatype NumeralState = Start | Minus | Zero | Whole | Point | Fraction | Exp | ExpSign | ExpDigits | Bad

  predicate IsDigit(u: Unit) {
    '0' as int <= u <= '9' as int
  }

  /** One step of the automaton of RFC 8259 section 6, `number`. */
  function NumeralStep(s: NumeralState, u: Unit): NumeralState {
    match s
    case Start => if u == '-' as int then Minus else if u == '0' as int then Zero else if IsDigit(u) then Whole else Bad
    case Minus => if u == '0' as int then Zero else if IsDigit(u) then Whole else Bad
    case Zero => if u == '.' as int then Point else if u == 'e' as int then Exp else Bad
    case Whole => if IsDigit(u) then Whole else if u == '.' as int then Point else if u == 'e' as int then Exp else Bad
    case Point => if IsDigit(u) then Fraction else Bad
    case Fraction => if IsDigit(u) then Fraction else if u == 'e' as int then Exp else Bad
    case Exp => if u == '-' as int || u == '+' as int then ExpSign else if IsDigit(u) then ExpDigits else Bad
    case ExpSign => if IsDigit(u) then ExpDigits else Bad
    case ExpDigits => if IsDigit(u) then ExpDigits else Bad
    case Bad => Bad
  }

  function NumeralRun(t: Text): NumeralState {
    if t == [] then Start else NumeralStep(NumeralRun(t[..|t| - 1]), t[|t| - 1])
  }

  /** The units a number is written with. */
  predicate IsNumeralUnit(u: Unit) {
    IsDigit(u) || u == '-' as int || u == '+' as int || u == '.' as int || u == 'e' as int
  }

  predicate IsNumeral(t: Text) {
    NumeralRun(t) in {Zero, Whole, Fraction, ExpDigits}
  }

  type Numeral = t: Text | IsNumeral(t) witness (var zero: Text := ['0' as int]; assert zero[..0] == []; zero)

  datatype Number = NonFinite | Finite(numeral: Numeral)

  datatype Property = Property(key: Text, value: Value)

  /** What `serialize` is handed: `unknown`, without `toJSON` and prototypes. */
  datatype Value =
    | Undefined
    | Null
    | Boolean(flag: bool)
    | Numeric(number: Number)
    | String(text: Text)
    | BigInt
    | Callable
    | Symbol
    | Array(items: seq<Value>)
    | Object(properties: seq<Property>)

  function Keys(properties: seq<Property>): (keys: seq<Text>)
    ensures |keys| == |properties|
    ensures forall i :: 0 <= i < |keys| ==> keys[i] == properties[i].key
  {
    seq(|properties|, i requires 0 <= i < |properties| => properties[i].key)
  }

  /** `Object.keys(obj).sort()` */
  function SortedKeys(properties: seq<Property>): (keys: seq<Text>)
    ensures forall i :: 0 <= i < |keys| ==> keys[i] in Keys(properties)
  {
    SortMembers(Keys(properties));
    Sort(Keys(properties))
  }

  ghost predicate Distinct(keys: seq<Text>) {
    forall i, j :: 0 <= i < j < |keys| ==> keys[i] != keys[j]
  }

  /** What the language guarantees: an object has one property per key, in some order. */
  ghost predicate WellFormed(v: Value) {
    match v
    case Array(items) => forall i :: 0 <= i < |items| ==> WellFormed(items[i])
    case Object(properties) =>
      && Distinct(Keys(properties))
      && forall i :: 0 <= i < |properties| ==> WellFormed(properties[i].value)
    case _ => true
  }

  /** `obj[key]` for a key the object has: its position. */
  function Position(properties: seq<Property>, key: Text): (i: nat)
    requires key in Keys(properties)
    ensures i < |properties| && properties[i].key == key
  {
    if properties[0].key == key then 0
    else
      assert key in Keys(properties[1..]) by {
        var j :| 0 <= j < |properties| && Keys(properties)[j] == key;
        assert Keys(properties[1..])[j - 1] == key;
      }
      1 + Position(properties[1..], key)
  }

  // --- Errors ---------------------------------------------------------------------------------

  datatype Reason =
    | NonFiniteNumber
    | Surrogate(fault: SurrogateFault)
    | BigIntValue
    | UndefinedValue
    | CallableValue
    | SymbolValue
    | UndefinedElement
    | MalformedTag
    | NotAPlainObject
    | OwnFormat
    | MalformedPrevious
    | UnknownLinkFormat

  datatype CanonicalizationError = CanonicalizationError(reason: Reason, path: Text)

  type Printed = Result<Text, CanonicalizationError>

  function Decimal(n: nat): (t: Text)
    ensures t != []
    ensures forall i :: 0 <= i < |t| ==> IsDigit(t[i])
  {
    if n < 10 then [n + '0' as int] else Decimal(n / 10) + [n % 10 + '0' as int]
  }

  /** `${path}[${i}]` */
  function ItemPath(path: Text, i: nat): Text {
    path + ['[' as int] + Decimal(i) + [']' as int]
  }

  /** `path === '' ? key : `${path}.${key}`` */
  function KeyPath(path: Text, key: Text): Text {
    if path == [] then key else path + ['.' as int] + key
  }

  function CheckScalar(text: Text, path: Text): Result<(), CanonicalizationError> {
    match FirstFault(text)
    case None => Ok(())
    case Some(fault) => Err(CanonicalizationError(Surrogate(fault), path))
  }

  // --- Strings --------------------------------------------------------------------------------

  const QUOTE: Unit := 0x22
  const BACKSLASH: Unit := 0x5c
  const COMMA: Unit := ',' as int
  const COLON: Unit := ':' as int
  const OPEN_BRACKET: Unit := '[' as int
  const CLOSE_BRACKET: Unit := ']' as int
  const OPEN_BRACE: Unit := '{' as int
  const CLOSE_BRACE: Unit := '}' as int

  /** RFC 8785 section 3.2.2.2. Unpaired surrogates never reach it. */
  function EscapeUnit(u: Unit): (t: Text)
    ensures t != []
  {
    if u == QUOTE || u == BACKSLASH then [BACKSLASH, u]
    else if u == 0x08 then [BACKSLASH, 'b' as int]
    else if u == 0x09 then [BACKSLASH, 't' as int]
    else if u == 0x0a then [BACKSLASH, 'n' as int]
    else if u == 0x0c then [BACKSLASH, 'f' as int]
    else if u == 0x0d then [BACKSLASH, 'r' as int]
    else if u < 0x20 then
      [BACKSLASH, 'u' as int, '0' as int, '0' as int, HexUnit(u / 16), HexUnit(u % 16)]
    else [u]
  }

  function Escape(text: Text): Text {
    if text == [] then [] else EscapeUnit(text[0]) + Escape(text[1..])
  }

  /** `JSON.stringify` of a scalar string. */
  function Quote(text: Text): Text {
    [QUOTE] + Escape(text) + [QUOTE]
  }

  // --- The printer ----------------------------------------------------------------------------

  const NULL_TEXT: Text := ['n' as int, 'u' as int, 'l' as int, 'l' as int]
  const TRUE_TEXT: Text := ['t' as int, 'r' as int, 'u' as int, 'e' as int]
  const FALSE_TEXT: Text := ['f' as int, 'a' as int, 'l' as int, 's' as int, 'e' as int]

  function Print(v: Value, path: Text): Printed
    decreases v, 1
  {
    match v
    case Null => Ok(NULL_TEXT)
    case Boolean(flag) => Ok(if flag then TRUE_TEXT else FALSE_TEXT)
    case Numeric(NonFinite) => Err(CanonicalizationError(NonFiniteNumber, path))
    case Numeric(Finite(numeral)) => Ok(numeral)
    case String(text) =>
      var _ :- CheckScalar(text, path);
      Ok(Quote(text))
    case BigInt => Err(CanonicalizationError(BigIntValue, path))
    case Undefined => Err(CanonicalizationError(UndefinedValue, path))
    case Callable => Err(CanonicalizationError(CallableValue, path))
    case Symbol => Err(CanonicalizationError(SymbolValue, path))
    case Array(items) =>
      var parts :- PrintItems(v, 0, path);
      Ok([OPEN_BRACKET] + Join(parts, COMMA) + [CLOSE_BRACKET])
    case Object(properties) =>
      var parts :- PrintKeys(v, SortedKeys(properties), path);
      Ok([OPEN_BRACE] + Join(parts, COMMA) + [CLOSE_BRACE])
  }

  /** The parts of the items from `from` on. */
  function PrintItems(v: Value, from: nat, path: Text): (r: Result<seq<Text>, CanonicalizationError>)
    requires v.Array? && from <= |v.items|
    decreases v, 0, |v.items| - from
    ensures r.Ok? ==> |r.value| == |v.items| - from
  {
    if from == |v.items| then Ok([])
    else if v.items[from] == Undefined then
      Err(CanonicalizationError(UndefinedElement, ItemPath(path, from)))
    else
      var part :- Print(v.items[from], ItemPath(path, from));
      var rest :- PrintItems(v, from + 1, path);
      Ok([part] + rest)
  }

  /** The parts of the properties named by `keys`, in that order; an undefined one has none. */
  function PrintKeys(v: Value, keys: seq<Text>, path: Text): (r: Result<seq<Text>, CanonicalizationError>)
    requires v.Object?
    requires forall i :: 0 <= i < |keys| ==> keys[i] in Keys(v.properties)
    decreases v, 0, |keys|
    ensures r.Ok? ==> |r.value| <= |keys|
  {
    if keys == [] then Ok([])
    else
      var key := keys[0];
      var _ :- CheckScalar(key, KeyPath(path, key));
      var child := v.properties[Position(v.properties, key)].value;
      if child == Undefined then PrintKeys(v, keys[1..], path)
      else
        var printed :- Print(child, KeyPath(path, key));
        var rest :- PrintKeys(v, keys[1..], path);
        Ok([Quote(key) + [COLON] + printed] + rest)
  }

  // --- The printer as it runs -----------------------------------------------------------------

  lemma FaultFrom(text: Text, i: nat)
    requires i < |text|
    ensures FirstFault(text[i..]) ==
            if IsHigh(text[i]) then
              if i + 1 < |text| && IsLow(text[i + 1]) then FirstFault(text[i + 2..]) else Some(UnpairedHigh)
            else if IsLow(text[i]) then Some(UnpairedLow)
            else FirstFault(text[i + 1..])
  {
    var t := text[i..];
    assert t[1..] == text[i + 1..];
    if i + 1 < |text| {
      assert t[1] == text[i + 1] && t[2..] == text[i + 2..];
    }
  }

  /** `assertUnicodeScalarString`: one pass over the code units. */
  method AssertUnicodeScalarString(text: Text, path: Text) returns (r: Result<(), CanonicalizationError>)
    ensures r == CheckScalar(text, path)
  {
    var index := 0;
    assert text[0..] == text;
    while index < |text|
      invariant index <= |text|
      invariant FirstFault(text[index..]) == FirstFault(text)
    {
      FaultFrom(text, index);
      var unit := text[index];
      if IsHigh(unit) {
        if index + 1 >= |text| || !IsLow(text[index + 1]) {
          return Err(CanonicalizationError(Surrogate(UnpairedHigh), path));
        }
        index := index + 1;
      } else if IsLow(unit) {
        return Err(CanonicalizationError(Surrogate(UnpairedLow), path));
      }
      index := index + 1;
    }
    r := Ok(());
  }

  lemma ItemsFrom(v: Value, i: nat, path: Text)
    requires v.Array? && i < |v.items|
    ensures v.items[i] == Undefined ==>
              PrintItems(v, i, path) == Err(CanonicalizationError(UndefinedElement, ItemPath(path, i)))
    ensures v.items[i] != Undefined && Print(v.items[i], ItemPath(path, i)).Err? ==>
              PrintItems(v, i, path) == Err(Print(v.items[i], ItemPath(path, i)).error)
    ensures v.items[i] != Undefined && Print(v.items[i], ItemPath(path, i)).Ok? && PrintItems(v, i + 1, path).Err? ==>
              PrintItems(v, i, path) == PrintItems(v, i + 1, path)
    ensures v.items[i] != Undefined && Print(v.items[i], ItemPath(path, i)).Ok? && PrintItems(v, i + 1, path).Ok? ==>
              PrintItems(v, i, path) == Ok([Print(v.items[i], ItemPath(path, i)).value] + PrintItems(v, i + 1, path).value)
  {}

  /** The parts already pushed, then those still to come. */
  function Prepend<T>(done: seq<T>, rest: Result<seq<T>, CanonicalizationError>): Result<seq<T>, CanonicalizationError> {
    match rest
    case Ok(parts) => Ok(done + parts)
    case Err(error) => Err(error)
  }

  lemma PrependNone<T>(rest: Result<seq<T>, CanonicalizationError>)
    ensures Prepend([], rest) == rest
  {
    if rest.Ok? {
      assert [] + rest.value == rest.value;
    }
  }

  lemma PrependOne<T>(done: seq<T>, part: T, rest: seq<T>)
    ensures done + ([part] + rest) == (done + [part]) + rest
  {}

  /** One turn of the key loop: what the parts pushed so far and the keys still to come print. */
  lemma KeysFrom(v: Value, keys: seq<Text>, i: nat, path: Text, parts: seq<Text>)
    requires v.Object? && i < |keys|
    requires forall j :: 0 <= j < |keys| ==> keys[j] in Keys(v.properties)
    ensures var key := keys[i];
            var child := v.properties[Position(v.properties, key)].value;
            Prepend(parts, PrintKeys(v, keys[i..], path)) ==
              if CheckScalar(key, KeyPath(path, key)).Err? then Err(CheckScalar(key, KeyPath(path, key)).error)
              else if child == Undefined then Prepend(parts, PrintKeys(v, keys[i + 1..], path))
              else if Print(child, KeyPath(path, key)).Err? then Err(Print(child, KeyPath(path, key)).error)
              else Prepend(parts + [Quote(key) + [COLON] + Print(child, KeyPath(path, key)).value],
                           PrintKeys(v, keys[i + 1..], path))
  {
    assert keys[i..][0] == keys[i] && keys[i..][1..] == keys[i + 1..];
    var key, after := keys[i], PrintKeys(v, keys[i + 1..], path);
    var child := v.properties[Position(v.properties, key)].value;
    if child != Undefined && Print(child, KeyPath(path, key)).Ok? && after.Ok? {
      PrependOne(parts, Quote(key) + [COLON] + Print(child, KeyPath(path, key)).value, after.value);
    }
  }

  /** `serialize`, part by part: the same text, or the same first error. */
  method Serialize(value: Value, path: Text) returns (r: Printed)
    ensures r == Print(value, path)
    decreases value, 1
  {
    match value {
      case Null => r := Ok(NULL_TEXT);
      case Boolean(flag) => r := Ok(if flag then TRUE_TEXT else FALSE_TEXT);
      case Numeric(number) =>
        match number {
          case NonFinite => r := Err(CanonicalizationError(NonFiniteNumber, path));
          case Finite(numeral) => r := Ok(numeral);
        }
      case String(text) =>
        var checked := AssertUnicodeScalarString(text, path);
        r := if checked.Ok? then Ok(Quote(text)) else Err(checked.error);
      case BigInt => r := Err(CanonicalizationError(BigIntValue, path));
      case Undefined => r := Err(CanonicalizationError(UndefinedValue, path));
      case Callable => r := Err(CanonicalizationError(CallableValue, path));
      case Symbol => r := Err(CanonicalizationError(SymbolValue, path));
      case Array(_) => r := SerializeArray(value, path);
      case Object(_) => r := SerializeObject(value, path);
    }
  }

  method SerializeArray(value: Value, path: Text) returns (r: Printed)
    requires value.Array?
    ensures r == Print(value, path)
    decreases value, 0
  {
    var parts: seq<Text> := [];
    var i := 0;
    PrependNone(PrintItems(value, 0, path));
    while i < |value.items|
      invariant i <= |value.items|
      invariant PrintItems(value, 0, path) == Prepend(parts, PrintItems(value, i, path))
    {
      ItemsFrom(value, i, path);
      if value.items[i] == Undefined {
        return Err(CanonicalizationError(UndefinedElement, ItemPath(path, i)));
      }
      var part := Serialize(value.items[i], ItemPath(path, i));
      if part.Err? {
        return Err(part.error);
      }
      if PrintItems(value, i + 1, path).Ok? {
        PrependOne(parts, part.value, PrintItems(value, i + 1, path).value);
      }
      parts := parts + [part.value];
      i := i + 1;
    }
    assert parts + [] == parts;
    r := Ok([OPEN_BRACKET] + Join(parts, COMMA) + [CLOSE_BRACKET]);
  }

  method SerializeObject(value: Value, path: Text) returns (r: Printed)
    requires value.Object?
    ensures r == Print(value, path)
    decreases value, 0
  {
    var keys := SortedKeys(value.properties);
    var parts: seq<Text> := [];
    var i := 0;
    assert keys[0..] == keys;
    PrependNone(PrintKeys(value, keys, path));
    while i < |keys|
      invariant i <= |keys|
      invariant PrintKeys(value, keys, path) == Prepend(parts, PrintKeys(value, keys[i..], path))
    {
      var key := keys[i];
      KeysFrom(value, keys, i, path, parts);
      var checked := AssertUnicodeScalarString(key, KeyPath(path, key));
      if checked.Err? {
        return Err(checked.error);
      }
      var child := value.properties[Position(value.properties, key)].value;
      if child != Undefined {
        var printed := Serialize(child, KeyPath(path, key));
        if printed.Err? {
          return Err(printed.error);
        }
        parts := parts + [Quote(key) + [COLON] + printed.value];
      }
      i := i + 1;
    }
    assert parts + [] == parts;
    r := Ok([OPEN_BRACE] + Join(parts, COMMA) + [CLOSE_BRACE]);
  }
}
