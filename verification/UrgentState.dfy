/**
 The urgent run's state file (apps/notify/src/run.ts): what is accepted, and that a saved state reads
 back as it was.
 */
module UrgentState {
  import opened Outcomes
  import opened Texts

  /** What `JSON.parse` yields. */
  datatype Json =
    | Null
    | Flag(flag: bool)
    | Number(value: real)
    | String(text: Text)
    | Array(items: seq<Json>)
    | Object(properties: map<Text, Json>)

  datatype Boundary = Boundary(at: Text, item: Option<Text>)

  datatype Lag = Lag(cursor: Boundary, failures: int)

  datatype State = State(head: Boundary, lagging: map<Text, Lag>)

  // --- The three patterns ---------------------------------------------------------------------

  datatype Atom = Digit | HexDigit | HexOrDash | Exactly(u: Unit)

  predicate Fits(u: Unit, pattern: Atom) {
    match pattern
    case Digit => '0' as int <= u <= '9' as int
    case HexDigit => '0' as int <= u <= '9' as int || 'a' as int <= u <= 'f' as int
    case HexOrDash => '0' as int <= u <= '9' as int || 'a' as int <= u <= 'f' as int || u == '-' as int
    case Exactly(v) => u == v
  }

  lemma DigitUnits(u: Unit)
    ensures '0' as int <= u <= '9' as int <==> u in Ascii("0123456789")
  {
    var all := Ascii("0123456789");
    assert |all| == 10 && forall i :: 0 <= i < 10 ==> all[i] == 0x30 + i;
    if '0' as int <= u <= '9' as int {
      assert all[u - 0x30] == u;
    }
  }

  lemma LetterUnits(u: Unit)
    ensures 'a' as int <= u <= 'f' as int <==> u in Ascii("abcdef")
  {
    var all := Ascii("abcdef");
    assert |all| == 6 && forall i :: 0 <= i < 6 ==> all[i] == 0x61 + i;
    if 'a' as int <= u <= 'f' as int {
      assert all[u - 0x61] == u;
    }
  }

  /** Each class unit by unit. */
  lemma AtomsByUnit(u: Unit)
    ensures Fits(u, Digit) <==> u in Ascii("0123456789")
    ensures Fits(u, HexDigit) <==> u in Ascii("0123456789") || u in Ascii("abcdef")
    ensures Fits(u, HexOrDash) <==> u in Ascii("0123456789") || u in Ascii("abcdef") || u in Ascii("-")
  {
    hide Ascii;
    DigitUnits(u);
    LetterUnits(u);
    DashUnit();
  }

  lemma DashUnit()
    ensures Ascii("-") == ['-' as int]
  {
  }

  predicate Matches(t: Text, pattern: seq<Atom>) {
    |t| == |pattern| && forall i :: 0 <= i < |t| ==> Fits(t[i], pattern[i])
  }

  function Times(n: nat, p: Atom): (pattern: seq<Atom>)
    ensures |pattern| == n
  {
    if n == 0 then [] else [p] + Times(n - 1, p)
  }

  const DASH := Exactly('-' as int)
  const COLON := Exactly(':' as int)

  const TO_SECONDS: seq<Atom> :=
    [Digit, Digit, Digit, Digit, DASH, Digit, Digit, DASH, Digit, Digit, Exactly('T' as int),
     Digit, Digit, COLON, Digit, Digit, COLON, Digit, Digit]

  /** An instant with a fraction of so many digits. */
  function WithFraction(digits: nat): seq<Atom> {
    TO_SECONDS + [Exactly('.' as int)] + Times(digits, Digit) + [Exactly('Z' as int)]
  }

  /** `MICROSECOND_INSTANT`: no fraction, or one to six digits of it. */
  predicate IsInstant(t: Text) {
    || Matches(t, TO_SECONDS + [Exactly('Z' as int)])
    || exists digits: nat :: 1 <= digits <= 6 && Matches(t, WithFraction(digits))
  }

  const FOUR: seq<Atom> := [HexDigit, HexDigit, HexDigit, HexDigit]

  const UUID_PATTERN: seq<Atom> :=
    FOUR + FOUR + [DASH] + FOUR + [DASH] + FOUR + [DASH] + FOUR + [DASH] + FOUR + FOUR + FOUR

  predicate IsUuid(t: Text) {
    Matches(t, UUID_PATTERN)
  }

  /** `LAGGING_KEY` */
  predicate IsLaggingKey(t: Text) {
    Matches(t, Times(36, HexOrDash) + [Exactly('/' as int)] + Times(36, HexOrDash))
  }

  lemma {:induction false} TimesAt(n: nat, p: Atom, i: nat)
    requires i < n
    ensures Times(n, p)[i] == p
  {
    if i > 0 {
      TimesAt(n - 1, p, i - 1);
    }
  }

  /** A UUID as it is accepted: lower-case hexadecimal digits with dashes at their four places. */
  lemma UuidForm(t: Text)
    ensures IsUuid(t) <==>
            && |t| == 36 && t[8] == t[13] == t[18] == t[23] == '-' as int
            && forall i :: 0 <= i < 36 && i !in {8, 13, 18, 23} ==> Fits(t[i], HexDigit)
  {
    assert |UUID_PATTERN| == 36;
    assert forall i :: 0 <= i < 36 ==> UUID_PATTERN[i] == if i in {8, 13, 18, 23} then DASH else HexDigit;
    hide UUID_PATTERN;
    if IsUuid(t) {
      assert Fits(t[8], UUID_PATTERN[8]) && Fits(t[13], UUID_PATTERN[13]);
      assert Fits(t[18], UUID_PATTERN[18]) && Fits(t[23], UUID_PATTERN[23]);
    }
  }

  /** A lagging key as it is accepted: two runs of 36 hexadecimal digits and dashes, with a slash between them. */
  lemma LaggingKeyForm(t: Text)
    ensures IsLaggingKey(t) <==>
            && |t| == 73 && t[36] == '/' as int
            && forall i :: 0 <= i < 73 && i != 36 ==> Fits(t[i], HexOrDash)
  {
    var pattern := Times(36, HexOrDash) + [Exactly('/' as int)] + Times(36, HexOrDash);
    forall i | 0 <= i < 36 ensures Times(36, HexOrDash)[i] == HexOrDash {
      TimesAt(36, HexOrDash, i);
    }
    assert forall i :: 0 <= i < 73 ==> pattern[i] == if i == 36 then Exactly('/' as int) else HexOrDash;
    hide Times;
    if IsLaggingKey(t) {
      assert Fits(t[36], pattern[36]);
    }
  }

  /** `YYYY-MM-DDTHH:MM:SS`, in digits. */
  predicate ToSeconds(t: Text) {
    && |t| >= 19
    && t[4] == t[7] == '-' as int && t[10] == 'T' as int && t[13] == t[16] == ':' as int
    && forall i :: 0 <= i < 19 && i !in {4, 7, 10, 13, 16} ==> Fits(t[i], Digit)
  }

  lemma SecondsForm(t: Text)
    requires |t| >= 19
    ensures Matches(t[..19], TO_SECONDS) <==> ToSeconds(t)
  {
    var u := t[..19];
    assert |TO_SECONDS| == 19;
    assert forall i :: 0 <= i < 19 ==> u[i] == t[i];
    assert forall i :: 0 <= i < 19 && i !in {4, 7, 10, 13, 16} ==> TO_SECONDS[i] == Digit;
    assert TO_SECONDS[4] == TO_SECONDS[7] == DASH && TO_SECONDS[13] == TO_SECONDS[16] == COLON;
    assert TO_SECONDS[10] == Exactly('T' as int);
    hide TO_SECONDS;
    if Matches(u, TO_SECONDS) {
      assert Fits(u[4], TO_SECONDS[4]) && Fits(u[7], TO_SECONDS[7]) && Fits(u[10], TO_SECONDS[10]);
      assert Fits(u[13], TO_SECONDS[13]) && Fits(u[16], TO_SECONDS[16]);
    }
  }

  lemma MatchesSplit(t: Text, a: seq<Atom>, b: seq<Atom>)
    ensures Matches(t, a + b) <==> |t| == |a| + |b| && Matches(t[..|a|], a) && Matches(t[|a|..], b)
  {
    if |t| == |a| + |b| {
      assert forall i :: 0 <= i < |a| ==> t[..|a|][i] == t[i] && (a + b)[i] == a[i];
      assert forall i :: 0 <= i < |b| ==> t[|a|..][i] == t[i + |a|] && (a + b)[i + |a|] == b[i];
      if Matches(t[..|a|], a) && Matches(t[|a|..], b) {
        forall i | 0 <= i < |t| ensures Fits(t[i], (a + b)[i]) {
          if i >= |a| {
            assert Fits(t[|a|..][i - |a|], b[i - |a|]);
          }
        }
      }
      if Matches(t, a + b) {
        forall i | 0 <= i < |b| ensures Fits(t[|a|..][i], b[i]) {
          assert Fits(t[i + |a|], (a + b)[i + |a|]);
        }
      }
    }
  }

  /** An instant as it is accepted: to seconds, then a point and one to six digits or nothing, then `Z`. */
  lemma {:induction false} InstantForm(t: Text)
    ensures IsInstant(t) <==>
            && ToSeconds(t) && (|t| == 20 || (22 <= |t| <= 27 && t[19] == '.' as int))
            && t[|t| - 1] == 'Z' as int
            && forall i :: 20 <= i < |t| - 1 ==> Fits(t[i], Digit)
  {
    assert |TO_SECONDS| == 19;
    hide TO_SECONDS;
    MatchesSplit(t, TO_SECONDS, [Exactly('Z' as int)]);
    forall digits: nat | 1 <= digits <= 6
      ensures Matches(t, WithFraction(digits)) <==>
              && |t| == 21 + digits && Matches(t[..19], TO_SECONDS) && t[19] == '.' as int && t[|t| - 1] == 'Z' as int
              && forall i :: 20 <= i < |t| - 1 ==> Fits(t[i], Digit)
    {
      FractionForm(t, digits);
    }
    if |t| >= 19 {
      SecondsForm(t);
      hide ToSeconds, Matches, WithFraction;
      if |t| == 20 {
        assert t[19..] == [t[19]];
        OneAtom(t[19], 'Z' as int);
      }
      if 22 <= |t| <= 27 {
        var digits := |t| - 21;
        assert IsInstant(t) <==> Matches(t, WithFraction(digits));
      }
    }
  }

  lemma OneAtom(u: Unit, v: Unit)
    ensures Matches([u], [Exactly(v)]) <==> u == v
  {
    assert Matches([u], [Exactly(v)]) ==> Fits([u][0], [Exactly(v)][0]);
  }

  lemma FractionForm(t: Text, digits: nat)
    ensures Matches(t, WithFraction(digits)) <==>
            && |t| == 21 + digits && Matches(t[..19], TO_SECONDS) && t[19] == '.' as int && t[|t| - 1] == 'Z' as int
            && forall i :: 20 <= i < |t| - 1 ==> Fits(t[i], Digit)
  {
    var tail := [Exactly('.' as int)] + Times(digits, Digit) + [Exactly('Z' as int)];
    assert |TO_SECONDS| == 19;
    assert WithFraction(digits) == TO_SECONDS + tail;
    hide TO_SECONDS, WithFraction;
    MatchesSplit(t, TO_SECONDS, tail);
    if |t| == 21 + digits {
      TailForm(t[19..], digits);
      hide Matches, Times, Fits;
      ShiftedDigits(t, digits);
    }
  }

  lemma ShiftedDigits(t: Text, digits: nat)
    requires |t| == 21 + digits
    ensures (forall i :: 20 <= i < |t| - 1 ==> Fits(t[i], Digit)) <==>
            (forall i :: 1 <= i < digits + 1 ==> Fits(t[19..][i], Digit))
    ensures t[19..][0] == t[19] && t[19..][digits + 1] == t[|t| - 1]
  {
    var u := t[19..];
    hide Fits;
    if forall i :: 20 <= i < |t| - 1 ==> Fits(t[i], Digit) {
      forall i | 1 <= i < digits + 1 ensures Fits(u[i], Digit) {
        assert u[i] == t[i + 19];
      }
    }
    if forall i :: 1 <= i < digits + 1 ==> Fits(u[i], Digit) {
      forall i | 20 <= i < |t| - 1 ensures Fits(t[i], Digit) {
        assert u[i - 19] == t[i];
      }
    }
  }

  lemma TailForm(u: Text, digits: nat)
    requires |u| == digits + 2
    ensures Matches(u, [Exactly('.' as int)] + Times(digits, Digit) + [Exactly('Z' as int)]) <==>
            && u[0] == '.' as int && u[digits + 1] == 'Z' as int
            && forall i :: 1 <= i < digits + 1 ==> Fits(u[i], Digit)
  {
    var tail := [Exactly('.' as int)] + Times(digits, Digit) + [Exactly('Z' as int)];
    forall i | 0 <= i < digits ensures Times(digits, Digit)[i] == Digit {
      TimesAt(digits, Digit, i);
    }
    assert forall i :: 0 <= i < digits + 2 ==>
             tail[i] == if i == 0 then Exactly('.' as int) else if i == digits + 1 then Exactly('Z' as int) else Digit;
    hide Times;
    if Matches(u, tail) {
      assert Fits(u[0], tail[0]) && Fits(u[digits + 1], tail[digits + 1]);
      assert forall i :: 1 <= i < digits + 1 ==> Fits(u[i], tail[i]);
    }
  }

  // --- Reading --------------------------------------------------------------------------------

  const AT: Text := Ascii("at")
  const ITEM: Text := Ascii("item")
  const LAGGING: Text := Ascii("lagging")
  const FAILURES: Text := Ascii("failures")

  lemma NamesDiffer()
    ensures AT != ITEM && AT != LAGGING && AT != FAILURES && ITEM != LAGGING && ITEM != FAILURES && LAGGING != FAILURES
    ensures AT == Ascii("at") && ITEM == Ascii("item") && LAGGING == Ascii("lagging") && FAILURES == Ascii("failures")
  {
    assert |AT| == 2 && |ITEM| == 4 && |LAGGING| == 7 && |FAILURES| == 8;
  }

  /** `value[key]`, absent for anything without properties of its own. */
  function At(value: Json, key: Text): Option<Json> {
    if value.Object? && key in value.properties then Some(value.properties[key]) else None
  }

  /** `boundaryOf` */
  function BoundaryOf(value: Json): Option<Boundary> {
    var at, item := At(value, AT), At(value, ITEM);
    if !(at.Some? && at.value.String? && IsInstant(at.value.text)) then None
    else if item == None || item == Some(Null) then Some(Boundary(at.value.text, None))
    else if item.value.String? && IsUuid(item.value.text) then Some(Boundary(at.value.text, Some(item.value.text)))
    else None
  }

  /** One entry of the lagging map. */
  function LagOf(key: Text, value: Json): Option<Lag> {
    if !IsLaggingKey(key) || !(value.Object? || value.Array?) then None
    else
      var boundary, failures := BoundaryOf(value), At(value, FAILURES);
      if boundary == None || !(failures.Some? && failures.value.Number? && failures.value.value.Floor as real == failures.value.value)
      then None
      else Some(Lag(boundary.value, failures.value.value.Floor))
  }

  /** Every entry is well formed. */
  ghost predicate AllLags(properties: map<Text, Json>) {
    forall k :: k in properties ==> LagOf(k, properties[k]).Some?
  }

  ghost function LagsOf(properties: map<Text, Json>): map<Text, Lag>
    requires AllLags(properties)
  {
    map k | k in properties :: LagOf(k, properties[k]).value
  }

  /** What `parseUrgentState` accepts of a parsed object's `lagging`. */
  ghost function LaggingOf(value: Option<Json>): Option<map<Text, Lag>> {
    match value
    case None => Some(map[])
    case Some(Object(properties)) => if AllLags(properties) then Some(LagsOf(properties)) else None
    case Some(Array(items)) => if items == [] then Some(map[]) else None
    case Some(_) => None
  }

  ghost function StateOf(trimmed: Text, json: Option<Json>): Option<State> {
    if IsInstant(trimmed) then Some(State(Boundary(trimmed, None), map[]))
    else if json == None then None
    else
      var head, lagging := BoundaryOf(json.value), LaggingOf(At(json.value, LAGGING));
      if head == None || lagging == None then None else Some(State(head.value, lagging.value))
  }

  /** The loop over the entries: every one read, or nothing. */
  method ParseLagging(properties: map<Text, Json>) returns (lagging: Option<map<Text, Lag>>)
    ensures lagging == LaggingOf(Some(Object(properties)))
  {
    var lags: map<Text, Lag> := map[];
    var rest := properties.Keys;
    while rest != {}
      invariant rest <= properties.Keys
      invariant lags.Keys == properties.Keys - rest
      invariant forall k :: k in lags ==> LagOf(k, properties[k]) == Some(lags[k])
      decreases rest
    {
      var key :| key in rest;
      var lag := LagOf(key, properties[key]);
      if lag == None {
        return None;
      }
      lags := lags[key := lag.value];
      rest := rest - {key};
    }
    assert lags.Keys == properties.Keys;
    assert AllLags(properties);
    assert lags == LagsOf(properties);
    return Some(lags);
  }

  /** `parseUrgentState`; `json` is what `JSON.parse` makes of the text, nothing when it throws. */
  method ParseUrgentState(trimmed: Text, json: Option<Json>) returns (state: Option<State>)
    ensures state == StateOf(trimmed, json)
  {
    if IsInstant(trimmed) {
      return Some(State(Boundary(trimmed, None), map[]));
    }
    if json == None {
      return None;
    }
    var head := BoundaryOf(json.value);
    if head == None {
      return None;
    }
    var entries := At(json.value, LAGGING);
    if entries == None {
      return Some(State(head.value, map[]));
    }
    match entries.value {
      case Object(properties) =>
        var lagging := ParseLagging(properties);
        if lagging == None {
          return None;
        }
        return Some(State(head.value, lagging.value));
      case Array(items) =>
        // An array's entries are named by index, which no lagging key is.
        return if items == [] then Some(State(head.value, map[])) else None;
      case _ =>
        return None;
    }
  }

  // --- Saving ---------------------------------------------------------------------------------

  function ItemJson(item: Option<Text>): Json {
    if item.Some? then String(item.value) else Null
  }

  function SavedLag(lag: Lag): Json {
    Object(map[AT := String(lag.cursor.at), ITEM := ItemJson(lag.cursor.item), FAILURES := Number(lag.failures as real)])
  }

  function SavedLags(lagging: map<Text, Lag>): map<Text, Json> {
    map k | k in lagging :: SavedLag(lagging[k])
  }

  /** `save`: the head's two fields, and the lagging map unless it is empty. */
  function Saved(s: State): Json {
    Object(map[AT := String(s.head.at), ITEM := ItemJson(s.head.item)]
           + if s.lagging == map[] then map[] else map[LAGGING := Object(SavedLags(s.lagging))])
  }

  ghost predicate ValidBoundary(b: Boundary) {
    IsInstant(b.at) && (b.item.Some? ==> IsUuid(b.item.value))
  }

  ghost predicate ValidLagging(lagging: map<Text, Lag>) {
    forall k :: k in lagging ==> IsLaggingKey(k) && ValidBoundary(lagging[k].cursor)
  }

  /** What a state read from the file satisfies. */
  ghost predicate Valid(s: State) {
    ValidBoundary(s.head) && ValidLagging(s.lagging)
  }

  lemma SavedLagReads(key: Text, lag: Lag)
    requires IsLaggingKey(key) && ValidBoundary(lag.cursor)
    ensures LagOf(key, SavedLag(lag)) == Some(lag)
  {
    NamesDiffer();
    hide IsInstant, IsUuid, IsLaggingKey, AT, ITEM, FAILURES;
  }

  lemma SavedHeadReads(s: State)
    requires Valid(s)
    ensures BoundaryOf(Saved(s)) == Some(s.head)
    ensures At(Saved(s), LAGGING) ==
            if s.lagging == map[] then None else Some(Object(SavedLags(s.lagging)))
  {
    NamesDiffer();
    hide IsInstant, IsUuid, IsLaggingKey, AT, ITEM, LAGGING, SavedLags;
  }

  lemma SavedLagsRead(lagging: map<Text, Lag>)
    requires ValidLagging(lagging)
    ensures AllLags(SavedLags(lagging)) && LagsOf(SavedLags(lagging)) == lagging
  {
    hide SavedLag, LagOf, ValidBoundary, IsLaggingKey;
    forall k | k in lagging ensures LagOf(k, SavedLags(lagging)[k]) == Some(lagging[k]) {
      SavedLagReads(k, lagging[k]);
    }
  }

  /** A saved state reads back as it was. */
  lemma {:induction false} SavedReadsBack(s: State, trimmed: Text)
    requires Valid(s) && !IsInstant(trimmed)
    ensures StateOf(trimmed, Some(Saved(s))) == Some(s)
  {
    hide IsInstant, IsUuid, IsLaggingKey, Saved, SavedLags, BoundaryOf, AllLags, LagsOf, ValidBoundary, At, AT, ITEM, LAGGING, FAILURES;
    SavedHeadReads(s);
    SavedLagsRead(s.lagging);
  }

  /** Whatever is accepted is valid, the earlier one-instant format included. */
  lemma {:induction false} ReadIsValid(trimmed: Text, json: Option<Json>)
    requires StateOf(trimmed, json).Some?
    ensures Valid(StateOf(trimmed, json).value)
  {
    hide IsInstant, IsUuid, IsLaggingKey;
  }

  // --- What is read and written, by name ------------------------------------------------------

  /** A parsed value that gives this boundary: its instant, and its item unless that is absent or null. */
  ghost predicate Gives(value: Json, b: Boundary) {
    && At(value, Ascii("at")) == Some(String(b.at)) && IsInstant(b.at)
    && match b.item
       case None => At(value, Ascii("item")) == None || At(value, Ascii("item")) == Some(Null)
       case Some(item) => At(value, Ascii("item")) == Some(String(item)) && IsUuid(item)
  }

  ghost predicate GivesLag(key: Text, value: Json, lag: Lag) {
    IsLaggingKey(key) && Gives(value, lag.cursor) && At(value, Ascii("failures")) == Some(Number(lag.failures as real))
  }

  ghost predicate GivesLags(properties: map<Text, Json>, lagging: map<Text, Lag>) {
    properties.Keys == lagging.Keys && forall k :: k in lagging ==> GivesLag(k, properties[k], lagging[k])
  }

  ghost predicate GivesState(value: Json, s: State) {
    && Gives(value, s.head)
    && match At(value, Ascii("lagging"))
       case None => s.lagging == map[]
       case Some(Object(properties)) => GivesLags(properties, s.lagging)
       case Some(other) => other == Array([]) && s.lagging == map[]
  }

  lemma BoundaryExactly(value: Json, b: Boundary)
    ensures BoundaryOf(value) == Some(b) <==> Gives(value, b)
  {
    NamesDiffer();
    hide IsInstant, IsUuid, AT, ITEM, At, Ascii;
  }

  lemma LagExactly(key: Text, value: Json, lag: Lag)
    ensures LagOf(key, value) == Some(lag) <==> GivesLag(key, value, lag)
  {
    NamesDiffer();
    BoundaryExactly(value, lag.cursor);
    if GivesLag(key, value, lag) {
      assert (lag.failures as real).Floor == lag.failures;
    }
    hide IsInstant, IsUuid, IsLaggingKey, BoundaryOf, FAILURES, Ascii;
  }

  lemma LaggingExactly(properties: map<Text, Json>, lagging: map<Text, Lag>)
    ensures LaggingOf(Some(Object(properties))) == Some(lagging) <==> GivesLags(properties, lagging)
  {
    hide LagOf, GivesLag;
    if properties.Keys == lagging.Keys {
      forall k | k in lagging ensures LagOf(k, properties[k]) == Some(lagging[k]) <==> GivesLag(k, properties[k], lagging[k]) {
        LagExactly(k, properties[k], lagging[k]);
      }
      if forall k :: k in lagging ==> GivesLag(k, properties[k], lagging[k]) {
        assert AllLags(properties) && LagsOf(properties) == lagging;
      }
    }
  }

  /** What is accepted, exactly: a bare instant, or an object that gives the state; anything else is refused. */
  lemma {:induction false} ReadExactly(trimmed: Text, json: Option<Json>, s: State)
    ensures StateOf(trimmed, json) == Some(s) <==>
            if IsInstant(trimmed) then s == State(Boundary(trimmed, None), map[])
            else json.Some? && GivesState(json.value, s)
  {
    NamesDiffer();
    hide IsInstant, BoundaryOf, LAGGING, GivesLags, Gives, LaggingOf, At, Ascii;
    if json.Some? {
      BoundaryExactly(json.value, s.head);
      LaggingRead(At(json.value, LAGGING), s.lagging);
    }
  }

  lemma LaggingRead(value: Option<Json>, lagging: map<Text, Lag>)
    ensures LaggingOf(value) == Some(lagging) <==>
            match value
            case None => lagging == map[]
            case Some(Object(properties)) => GivesLags(properties, lagging)
            case Some(other) => other == Array([]) && lagging == map[]
  {
    hide GivesLags;
    if value.Some? && value.value.Object? {
      LaggingExactly(value.value.properties, lagging);
    }
  }

  /** A value that was written with this boundary. */
  ghost predicate WritesBoundary(value: Json, b: Boundary) {
    && At(value, Ascii("at")) == Some(String(b.at))
    && At(value, Ascii("item")) == Some(match b.item case None => Null case Some(item) => String(item))
  }

  ghost predicate WritesLag(value: Json, lag: Lag) {
    WritesBoundary(value, lag.cursor) && At(value, Ascii("failures")) == Some(Number(lag.failures as real))
  }

  /** What is written, exactly: the head's fields by name, and each lagging person's, unless nobody lags. */
  lemma {:induction false} SavedFields(s: State)
    ensures WritesBoundary(Saved(s), s.head)
    ensures match At(Saved(s), Ascii("lagging"))
            case None => s.lagging == map[]
            case Some(lagging) =>
              && s.lagging != map[] && lagging.Object? && lagging.properties.Keys == s.lagging.Keys
              && forall k :: k in s.lagging ==> WritesLag(lagging.properties[k], s.lagging[k])
  {
    NamesDiffer();
    hide AT, ITEM, LAGGING, FAILURES, Ascii;
  }
}
