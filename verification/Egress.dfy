/**
 What a conversation lets leave the host (packages/agent/src: classification.ts, router.ts, seal.ts,
 backends.ts, turn.ts).

 A seal is the message it was computed over: the client may present any seal it was given, or one that
 verifies against nothing, but cannot make another.
 */
module Egress {
  import opened Texts
  import opened Outcomes
  import opened Hashes
  import opened Utf8

  // --- Classifications ------------------------------------------------------------------------

  datatype Classification = Public | Internal | Confidential | Restricted

  function Name(c: Classification): Text {
    match c
    case Public => Ascii("public")
    case Internal => Ascii("internal")
    case Confidential => Ascii("confidential")
    case Restricted => Ascii("restricted")
  }

  function Known(mark: Text): Option<Classification> {
    if mark == Name(Public) then Some(Public)
    else if mark == Name(Internal) then Some(Internal)
    else if mark == Name(Confidential) then Some(Confidential)
    else if mark == Name(Restricted) then Some(Restricted)
    else None
  }

  function Rank(c: Classification): nat {
    match c
    case Public => 0
    case Internal => 1
    case Confidential => 2
    case Restricted => 3
  }

  /** `rankOf`: anything unknown ranks above `restricted`. */
  function RankOf(mark: Text): nat {
    if Known(mark).Some? then Rank(Known(mark).value) else 4
  }

  /** What a label counts as when labels are compared: an unknown one is `restricted`. */
  function Level(mark: Text): Classification {
    if Known(mark).Some? then Known(mark).value else Restricted
  }

  function Higher(highest: Option<Classification>, c: Classification): Option<Classification> {
    if highest == None || Rank(c) > Rank(highest.value) then Some(c) else highest
  }

  function Highest(labels: seq<Text>): Option<Classification> {
    if labels == [] then None
    else Higher(Highest(labels[..|labels| - 1]), Level(labels[|labels| - 1]))
  }

  /** `highestOf` */
  method HighestOf(labels: seq<Text>) returns (highest: Option<Classification>)
    ensures highest == Highest(labels)
  {
    highest := None;
    for i := 0 to |labels|
      invariant highest == Highest(labels[..i])
    {
      assert labels[..i + 1][..i] == labels[..i];
      var known := Level(labels[i]);
      if highest == None || Rank(known) > Rank(highest.value) {
        highest := Some(known);
      }
    }
    assert labels[..|labels|] == labels;
  }

  /** Nothing for no labels; otherwise the level of one of them that none exceeds. */
  lemma {:induction false} HighestIsMaximum(labels: seq<Text>)
    ensures Highest(labels) == None <==> labels == []
    ensures forall i :: 0 <= i < |labels| ==> Rank(Level(labels[i])) <= Rank(Highest(labels).value)
    ensures labels != [] ==> exists i :: 0 <= i < |labels| && Level(labels[i]) == Highest(labels).value
  {
    hide Level;
    if labels != [] {
      var init := labels[..|labels| - 1];
      HighestIsMaximum(init);
      assert forall i :: 0 <= i < |init| ==> labels[i] == init[i];
      if Highest(init).Some? && Highest(labels) == Highest(init) {
        var i :| 0 <= i < |init| && Level(init[i]) == Highest(init).value;
        assert Level(labels[i]) == Highest(labels).value;
      }
    }
  }

  datatype Ceiling = NothingLeaves | UpToPublic | UpToInternal

  function CeilingRank(ceiling: Ceiling): nat {
    if ceiling == UpToInternal then 1 else 0
  }

  /** `mayLeaveHost`: never above `internal`, never above the ceiling, never when nothing leaves. */
  predicate MayLeave(mark: Text, ceiling: Ceiling) {
    ceiling != NothingLeaves && RankOf(mark) <= Rank(Internal) && RankOf(mark) <= CeilingRank(ceiling)
  }

  /** The labels a ceiling lets out, by name. */
  predicate Released(mark: Text, ceiling: Ceiling) {
    match ceiling
    case NothingLeaves => false
    case UpToPublic => mark == Ascii("public")
    case UpToInternal => mark == Ascii("public") || mark == Ascii("internal")
  }

  /** The comparison of ranks lets out exactly the labels named. */
  lemma MayLeaveExactly(mark: Text, ceiling: Ceiling)
    ensures MayLeave(mark, ceiling) <==> Released(mark, ceiling)
  {
    NameKnown(Public);
    NameKnown(Internal);
  }

  // --- A turn's request -----------------------------------------------------------------------

  /** One record read for a turn, with the label it was served under. */
  datatype Item = Item(n: nat, record: Text, mark: Text)

  /** An earlier turn, every agent turn's label verified. */
  datatype Turn = PersonTurn(text: Text) | AgentTurn(text: Text, mark: Text)

  function ItemLabels(context: seq<Item>): seq<Text> {
    if context == [] then [] else [context[0].mark] + ItemLabels(context[1..])
  }

  function TurnLabels(history: seq<Turn>): seq<Text> {
    if history == [] then []
    else (if history[0].AgentTurn? then [history[0].mark] else []) + TurnLabels(history[1..])
  }

  function RequestLabels(context: seq<Item>, history: seq<Turn>): seq<Text> {
    ItemLabels(context) + TurnLabels(history)
  }

  datatype Backends = Backends(onHost: bool, provider: bool, preferOnHost: bool)

  datatype Decision = AskProvider | AskHost | RefuseControlled | RefuseNoModel

  /** `chooseBackend` */
  function ChooseBackend(labels: seq<Text>, ceiling: Ceiling, backends: Backends): Decision {
    var highest := Highest(labels);
    var leaves := MayLeave(Name(if highest.Some? then highest.value else Public), ceiling);
    if leaves && backends.provider && (!backends.preferOnHost || !backends.onHost) then AskProvider
    else if backends.onHost then AskHost
    else if !leaves then RefuseControlled
    else RefuseNoModel
  }

  /** `ProviderBackend.complete`'s guard. */
  predicate GuardAccepts(context: seq<Item>, history: seq<Turn>, ceiling: Ceiling) {
    && ceiling != NothingLeaves
    && (forall i :: 0 <= i < |context| ==> MayLeave(context[i].mark, ceiling))
    && (forall i :: 0 <= i < |history| && history[i].AgentTurn? ==> MayLeave(history[i].mark, ceiling))
  }

  lemma NameKnown(c: Classification)
    ensures Known(Name(c)) == Some(c)
  {
    assert |Name(Public)| == 6 && |Name(Internal)| == 8 && |Name(Confidential)| == 12 && |Name(Restricted)| == 10;
  }

  lemma KnownName(mark: Text)
    ensures Known(mark).Some? ==> Name(Known(mark).value) == mark
  {}

  lemma {:induction false} ItemLabelsAt(context: seq<Item>)
    ensures |ItemLabels(context)| == |context|
    ensures forall i :: 0 <= i < |context| ==> ItemLabels(context)[i] == context[i].mark
  {
    if context != [] {
      ItemLabelsAt(context[1..]);
    }
  }

  lemma {:induction false} TurnLabelMembers(history: seq<Turn>, mark: Text)
    ensures mark in TurnLabels(history) <==>
            exists i :: 0 <= i < |history| && history[i].AgentTurn? && history[i].mark == mark
  {
    if history != [] {
      TurnLabelMembers(history[1..], mark);
      assert forall i :: 1 <= i < |history| ==> history[i] == history[1..][i - 1];
      if mark in TurnLabels(history[1..]) {
        var i :| 0 <= i < |history| - 1 && history[1..][i].AgentTurn? && history[1..][i].mark == mark;
        assert history[i + 1].AgentTurn? && history[i + 1].mark == mark;
      }
      if exists i :: 1 <= i < |history| && history[i].AgentTurn? && history[i].mark == mark {
        var i :| 1 <= i < |history| && history[i].AgentTurn? && history[i].mark == mark;
        assert history[1..][i - 1].AgentTurn? && history[1..][i - 1].mark == mark;
      }
    }
  }

  ghost predicate AllLeave(labels: seq<Text>, ceiling: Ceiling) {
    forall i :: 0 <= i < |labels| ==> MayLeave(labels[i], ceiling)
  }

  /** Every label may leave exactly when the highest may. */
  lemma {:induction false} HighestDecides(labels: seq<Text>, ceiling: Ceiling)
    requires ceiling != NothingLeaves
    ensures MayLeave(Name(if Highest(labels).Some? then Highest(labels).value else Public), ceiling) <==>
            AllLeave(labels, ceiling)
  {
    HighestIsMaximum(labels);
    var c := if Highest(labels).Some? then Highest(labels).value else Public;
    NameKnown(c);
    hide Highest, Name, Known;
    if labels != [] {
      var i :| 0 <= i < |labels| && Level(labels[i]) == c;
      assert MayLeave(labels[i], ceiling) ==> MayLeave(Name(c), ceiling);
    }
  }

  lemma GuardedLabels(context: seq<Item>, history: seq<Turn>, ceiling: Ceiling)
    requires GuardAccepts(context, history, ceiling)
    ensures AllLeave(RequestLabels(context, history), ceiling)
    ensures forall mark :: mark in RequestLabels(context, history) ==> Released(mark, ceiling)
  {
    forall mark ensures MayLeave(mark, ceiling) <==> Released(mark, ceiling) {
      MayLeaveExactly(mark, ceiling);
    }
    hide MayLeave, Released;
    ItemLabelsAt(context);
    forall mark | mark in TurnLabels(history) ensures MayLeave(mark, ceiling) {
      TurnLabelMembers(history, mark);
    }
  }

  lemma LabelsGuarded(context: seq<Item>, history: seq<Turn>, ceiling: Ceiling)
    requires ceiling != NothingLeaves && AllLeave(RequestLabels(context, history), ceiling)
    ensures GuardAccepts(context, history, ceiling)
  {
    hide MayLeave;
    var items, turns := ItemLabels(context), TurnLabels(history);
    ItemLabelsAt(context);
    forall i | 0 <= i < |context| ensures MayLeave(context[i].mark, ceiling) {
      assert (items + turns)[i] == context[i].mark;
    }
    forall i | 0 <= i < |history| && history[i].AgentTurn? ensures MayLeave(history[i].mark, ceiling) {
      TurnLabelMembers(history, history[i].mark);
      var j :| 0 <= j < |turns| && turns[j] == history[i].mark;
      assert (items + turns)[|items| + j] == history[i].mark;
    }
  }

  /**
   The router's comparison and the guard's are one: at one ceiling the guard accepts a request exactly
   when the router would let its highest classification leave. So a provider is chosen only for what
   the guard accepts, and a turn is refused as controlled exactly when the guard would refuse it and no
   model runs on the host.
   */
  lemma {:induction false} RouterAndGuardAgree(context: seq<Item>, history: seq<Turn>, ceiling: Ceiling, backends: Backends)
    ensures var decision := ChooseBackend(RequestLabels(context, history), ceiling, backends);
            var accepted := GuardAccepts(context, history, ceiling);
            && (decision == AskProvider <==> accepted && backends.provider && (!backends.preferOnHost || !backends.onHost))
            && (decision == RefuseControlled <==> !accepted && !backends.onHost)
            && (decision == RefuseNoModel <==> accepted && !backends.onHost && !backends.provider)
  {
    if ceiling != NothingLeaves {
      HighestDecides(RequestLabels(context, history), ceiling);
      if GuardAccepts(context, history, ceiling) {
        GuardedLabels(context, history, ceiling);
      }
      if AllLeave(RequestLabels(context, history), ceiling) {
        LabelsGuarded(context, history, ceiling);
      }
    }
    hide Highest, RequestLabels, Name, Known;
  }

  // --- Seals ----------------------------------------------------------------------------------

  const NEWLINE: Unit := 0x0a

  const SEAL_FORMAT: Text := Ascii("kf-agent-turn-seal-v1")

  /** What a seal is computed over: the tagged format, the label and the text, in that order. */
  function SealMessage(mark: Text, text: Text): Bytes {
    Encode(SEAL_FORMAT + [NEWLINE] + mark + [NEWLINE] + text)
  }

  datatype Seal = Sealed(message: Bytes) | Junk

  /** An earlier turn as the browser sends it back. */
  datatype Carried =
    | CarriedPerson(text: Text)
    | CarriedAgent(text: Text, mark: Option<Text>, seal: Option<Seal>)

  predicate SealVerifies(turn: Carried) {
    turn.CarriedAgent? && turn.mark.Some? && turn.seal == Some(Sealed(SealMessage(turn.mark.value, turn.text)))
  }

  /** `verifiedClassification` */
  function VerifiedLabel(turn: Carried): Text
    requires turn.CarriedAgent?
  {
    if SealVerifies(turn) then turn.mark.value else Name(Restricted)
  }

  function VerifiedTurn(turn: Carried): Turn {
    match turn
    case CarriedPerson(text) => PersonTurn(text)
    case CarriedAgent(text, _, _) => AgentTurn(text, VerifiedLabel(turn))
  }

  /** `verifiedHistory` */
  function VerifiedHistory(turns: seq<Carried>): (history: seq<Turn>)
    ensures |history| == |turns|
    ensures forall i :: 0 <= i < |turns| ==> history[i] == VerifiedTurn(turns[i])
  {
    seq(|turns|, i requires 0 <= i < |turns| => VerifiedTurn(turns[i]))
  }

  predicate IsAscii(t: Text) {
    forall i :: 0 <= i < |t| ==> t[i] < 0x80
  }

  function AsBytes(t: Text): (bytes: Bytes)
    requires IsAscii(t)
    ensures |bytes| == |t|
    ensures forall i :: 0 <= i < |t| ==> bytes[i] == t[i]
  {
    seq(|t|, i requires 0 <= i < |t| => t[i])
  }

  lemma EncodeAsciiFirst(t: Text)
    requires t != [] && t[0] < 0x80
    ensures Encode(t) == [t[0]] + Encode(t[1..])
  {}

  /** ASCII text is its own encoding, whatever follows it. */
  lemma {:induction false} EncodeAsciiPrefix(prefix: Text, rest: Text)
    requires IsAscii(prefix)
    ensures Encode(prefix + rest) == AsBytes(prefix) + Encode(rest)
  {
    hide Encode;
    if prefix == [] {
      assert prefix + rest == rest;
      assert AsBytes(prefix) + Encode(rest) == Encode(rest);
    } else {
      EncodeAsciiPrefix(prefix[1..], rest);
      assert (prefix + rest)[1..] == prefix[1..] + rest;
      EncodeAsciiFirst(prefix + rest);
      assert AsBytes(prefix) == [prefix[0]] + AsBytes(prefix[1..]);
    }
  }

  lemma SplitAtSeparator(a: Text, x: Text, b: Text, y: Text, separator: Unit)
    requires a + [separator] + x == b + [separator] + y
    requires separator !in a && separator !in b
    ensures a == b && x == y
  {
    var all := a + [separator] + x;
    assert all == a + ([separator] + x) == b + ([separator] + y);
    FirstOfPrefix(a, [separator] + x, separator);
    FirstOfPrefix(b, [separator] + y, separator);
    assert a == all[..|a|] == b;
    assert x == all[|a| + 1..] == y;
  }

  lemma NamePlain(c: Classification)
    ensures IsAscii(Name(c)) && NEWLINE !in Name(c)
  {}

  const SEAL_HEAD: Text := SEAL_FORMAT + [NEWLINE]

  lemma SealHeadPlain()
    ensures IsAscii(SEAL_HEAD)
  {}

  lemma AsBytesConcat(a: Text, b: Text)
    requires IsAscii(a) && IsAscii(b)
    ensures IsAscii(a + b) && AsBytes(a + b) == AsBytes(a) + AsBytes(b)
  {}

  lemma SealBytes(c: Classification, text: Text)
    ensures IsAscii(SEAL_HEAD) && IsAscii(Name(c))
    ensures SealMessage(Name(c), text) == AsBytes(SEAL_HEAD) + (AsBytes(Name(c)) + [NEWLINE] + Encode(text))
  {
    NamePlain(c);
    SealHeadPlain();
    assert SealMessage(Name(c), text) == Encode(SEAL_HEAD + Name(c) + [NEWLINE] + text);
    hide Name, Encode, SEAL_FORMAT, SEAL_HEAD, SealMessage;
    SealLead(SEAL_HEAD, Name(c), text);
  }

  lemma SealLead(head: Text, name: Text, text: Text)
    requires IsAscii(head) && IsAscii(name)
    ensures Encode(head + name + [NEWLINE] + text) == AsBytes(head) + (AsBytes(name) + [NEWLINE] + Encode(text))
  {
    hide Encode;
    AsBytesConcat(head, name);
    AsBytesConcat(head + name, [NEWLINE]);
    assert AsBytes([NEWLINE]) == [NEWLINE];
    hide AsBytes, IsAscii;
    EncodeAsciiPrefix(head + name + [NEWLINE], text);
    var x, y, z := AsBytes(head), AsBytes(name), Encode(text);
    assert x + y + [NEWLINE] + z == x + (y + [NEWLINE] + z);
  }

  /** A seal under a known label pins the label, and the text as it is encoded. */
  lemma {:induction false} SealPins(c: Classification, text: Text, d: Classification, other: Text)
    ensures SealMessage(Name(c), text) == SealMessage(Name(d), other) <==> c == d && Encode(text) == Encode(other)
  {
    SealBytes(c, text);
    SealBytes(d, other);
    NamePlain(c);
    NamePlain(d);
    NameKnown(c);
    NameKnown(d);
    hide Name, Encode, SEAL_FORMAT, SealMessage, Known;
    var head := AsBytes(SEAL_HEAD);
    var p, q := AsBytes(Name(c)) + [NEWLINE] + Encode(text), AsBytes(Name(d)) + [NEWLINE] + Encode(other);
    if SealMessage(Name(c), text) == SealMessage(Name(d), other) {
      assert p == (head + p)[|head|..] == (head + q)[|head|..] == q;
      SplitAtSeparator(AsBytes(Name(c)), Encode(text), AsBytes(Name(d)), Encode(other), NEWLINE);
      assert Name(c) == Name(d);
    }
  }

  /**
   The message does not delimit its text: a seal also verifies when part of the text is presented as
   part of the label. Such a label is unknown, so what carries it never leaves.
   */
  lemma {:induction false} ResplitSealStaysOnHost(c: Classification, x: Text, y: Text, ceiling: Ceiling)
    ensures var resplit := Name(c) + [NEWLINE] + x;
            && SealMessage(resplit, y) == SealMessage(Name(c), x + [NEWLINE] + y)
            && Known(resplit) == None
            && !MayLeave(resplit, ceiling)
  {
    var resplit := Name(c) + [NEWLINE] + x;
    assert SEAL_FORMAT + [NEWLINE] + resplit + [NEWLINE] + y
        == SEAL_FORMAT + [NEWLINE] + Name(c) + [NEWLINE] + (x + [NEWLINE] + y);
    assert resplit[|Name(c)|] == NEWLINE;
    hide SEAL_FORMAT, Encode;
    if Known(resplit).Some? {
      KnownName(resplit);
      NamePlain(Known(resplit).value);
    }
  }

  // --- Conversations --------------------------------------------------------------------------

  /** A record and the label it was served under. */
  datatype Source = Source(record: Text, mark: Text)

  /** An answer the service sealed, with every record it derives from, directly or through earlier answers. */
  datatype Answer = Answer(text: Text, mark: Classification, sources: set<Source>)

  /** What a provider was sent, under the ceiling the guard read, and what it derives from. */
  datatype Sending = Sending(context: seq<Item>, history: seq<Turn>, ceiling: Ceiling, sources: set<Source>)

  datatype State = State(issued: set<Answer>, sent: seq<Sending>)

  const OPENING := State({}, [])

  datatype Reply = Reply(text: Text) | Unavailable | CitesUnknown(text: Text)

  /** One turn: what was read, what the browser carried back, the two readings of the ceiling, the reply. */
  datatype Ask = Ask(
    context: seq<Item>,
    carried: seq<Carried>,
    routerCeiling: Ceiling,
    guardCeiling: Ceiling,
    backends: Backends,
    reply: Reply)

  const MAX_HISTORY_TURNS: nat := 12

  /** `(input.history ?? []).slice(-MAX_HISTORY_TURNS)` */
  function Newest(carried: seq<Carried>): seq<Carried> {
    if |carried| <= MAX_HISTORY_TURNS then carried else carried[|carried| - MAX_HISTORY_TURNS..]
  }

  function MessageOf(a: Answer): Bytes {
    SealMessage(Name(a.mark), a.text)
  }

  /** The browser has only seals it was given, and strings that verify against nothing. */
  ghost predicate Presentable(issued: set<Answer>, turn: Carried) {
    turn.CarriedAgent? && turn.seal.Some? && turn.seal.value.Sealed? ==>
      exists a :: a in issued && MessageOf(a) == turn.seal.value.message
  }

  ghost predicate AllPresentable(issued: set<Answer>, carried: seq<Carried>) {
    forall i :: 0 <= i < |carried| ==> Presentable(issued, carried[i])
  }

  /** The turn is an answer the service gave, under the label it gave it. */
  ghost predicate Given(issued: set<Answer>, turn: Carried) {
    turn.CarriedAgent? && turn.mark.Some? && exists a :: a in issued && MessageOf(a) == SealMessage(turn.mark.value, turn.text)
  }

  /**
   What an agent turn derives from: the sources of the answer it repeats; for one that repeats none
   (edited, relabelled, invented), whatever any answer derived from.
   */
  ghost function TurnSources(issued: set<Answer>, turn: Carried): set<Source> {
    if turn.CarriedPerson? then {}
    else if Given(issued, turn) then
      set a, s | a in issued && MessageOf(a) == SealMessage(turn.mark.value, turn.text) && s in a.sources :: s
    else set a, s | a in issued && s in a.sources :: s
  }

  ghost function Sources(issued: set<Answer>, context: seq<Item>, carried: seq<Carried>): set<Source> {
    (set i | 0 <= i < |context| :: Source(context[i].record, context[i].mark))
    + set i, s | 0 <= i < |carried| && s in TurnSources(issued, carried[i]) :: s
  }

  /** The label of a turn: the highest of what it carries, `public` when it carries nothing. */
  function TurnLabel(context: seq<Item>, history: seq<Turn>): Classification {
    var highest := Highest(RequestLabels(context, history));
    if highest.Some? then highest.value else Public
  }

  /** The text shown and sealed: a reply whose citations are all sources of the turn, or none. */
  function Shown(asked: bool, reply: Reply): Text {
    if asked && reply.Reply? then reply.text else []
  }

  /** `answerTurn`, from its context on. */
  ghost function Answered(s: State, ask: Ask): State {
    var carried := Newest(ask.carried);
    var history := VerifiedHistory(carried);
    var sources := Sources(s.issued, ask.context, carried);
    var decision := ChooseBackend(RequestLabels(ask.context, history), ask.routerCeiling, ask.backends);
    var nothingFound := ask.context == [] && history == [];
    var accepted := GuardAccepts(ask.context, history, ask.guardCeiling);
    var asked := !nothingFound && (decision == AskHost || (decision == AskProvider && accepted));
    State(
      s.issued + {Answer(Shown(asked, ask.reply), TurnLabel(ask.context, history), sources)},
      if asked && decision == AskProvider
      then s.sent + [Sending(ask.context, history, ask.guardCeiling, sources)] else s.sent)
  }

  ghost function Conversation(s: State, asks: seq<Ask>): State
    decreases asks
  {
    if asks == [] then s else Conversation(Answered(s, asks[0]), asks[1..])
  }

  /** At every turn the browser presents only what it may have. */
  ghost predicate Honest(s: State, asks: seq<Ask>)
    decreases asks
  {
    asks != [] ==>
      && AllPresentable(s.issued, asks[0].carried)
      && Honest(Answered(s, asks[0]), asks[1..])
  }

  // --- What an answer's label covers ----------------------------------------------------------

  /** No source of the answer is above its label. */
  ghost predicate Covered(a: Answer) {
    forall s :: s in a.sources ==> Rank(Level(s.mark)) <= Rank(a.mark)
  }

  ghost predicate AllCovered(issued: set<Answer>) {
    forall a :: a in issued ==> Covered(a)
  }

  /** A seal that verifies is of an answer the service gave. */
  lemma VerifiedIsGiven(issued: set<Answer>, turn: Carried)
    requires turn.CarriedAgent? && SealVerifies(turn) && Presentable(issued, turn)
    ensures Given(issued, turn)
  {
    hide SealMessage;
  }

  /** A turn's sources are within the label it is given. */
  lemma TurnCovered(issued: set<Answer>, turn: Carried, s: Source)
    requires AllCovered(issued) && turn.CarriedAgent? && s in TurnSources(issued, turn)
    requires Presentable(issued, turn)
    ensures Rank(Level(s.mark)) <= Rank(Level(VerifiedLabel(turn)))
  {
    NameKnown(Restricted);
    hide SealMessage;
    if SealVerifies(turn) && Known(turn.mark.value).Some? {
      VerifiedIsGiven(issued, turn);
      var a :| a in issued && MessageOf(a) == SealMessage(turn.mark.value, turn.text) && s in a.sources;
      KnownName(turn.mark.value);
      SealPins(a.mark, a.text, Known(turn.mark.value).value, turn.text);
      assert Covered(a);
    }
  }

  lemma LabelOfItem(context: seq<Item>, history: seq<Turn>, i: nat)
    requires i < |context|
    ensures Rank(Level(context[i].mark)) <= Rank(TurnLabel(context, history))
  {
    var labels := RequestLabels(context, history);
    ItemLabelsAt(context);
    HighestIsMaximum(labels);
    assert labels[i] == context[i].mark;
  }

  lemma LabelOfTurn(context: seq<Item>, history: seq<Turn>, i: nat)
    requires i < |history| && history[i].AgentTurn?
    ensures Rank(Level(history[i].mark)) <= Rank(TurnLabel(context, history))
  {
    var labels := RequestLabels(context, history);
    HighestIsMaximum(labels);
    TurnLabelMembers(history, history[i].mark);
    var j :| 0 <= j < |TurnLabels(history)| && TurnLabels(history)[j] == history[i].mark;
    assert labels[|ItemLabels(context)| + j] == history[i].mark;
  }

  lemma AnswerCovered(issued: set<Answer>, context: seq<Item>, carried: seq<Carried>, text: Text)
    requires AllCovered(issued) && AllPresentable(issued, carried)
    ensures Covered(Answer(text, TurnLabel(context, VerifiedHistory(carried)), Sources(issued, context, carried)))
  {
    var history := VerifiedHistory(carried);
    hide TurnLabel, AllCovered, TurnSources, Level, Presentable;
    forall s | s in Sources(issued, context, carried)
      ensures Rank(Level(s.mark)) <= Rank(TurnLabel(context, history))
    {
      if i :| 0 <= i < |context| && s == Source(context[i].record, context[i].mark) {
        LabelOfItem(context, history, i);
      } else {
        var i :| 0 <= i < |carried| && s in TurnSources(issued, carried[i]);
        AgentSource(issued, carried[i], s);
        TurnCovered(issued, carried[i], s);
        LabelOfTurn(context, history, i);
      }
    }
  }

  lemma AgentSource(issued: set<Answer>, turn: Carried, s: Source)
    requires s in TurnSources(issued, turn)
    ensures turn.CarriedAgent?
  {}

  /** Every item and agent turn sent, and every source of them, has a label the ceiling lets out. */
  ghost predicate Within(sending: Sending) {
    && (forall i :: 0 <= i < |sending.context| ==> Released(sending.context[i].mark, sending.ceiling))
    && (forall i :: 0 <= i < |sending.history| && sending.history[i].AgentTurn? ==>
          Released(sending.history[i].mark, sending.ceiling))
    && (forall s :: s in sending.sources ==> Released(s.mark, sending.ceiling))
  }

  lemma AllReleased(context: seq<Item>, history: seq<Turn>, ceiling: Ceiling)
    requires GuardAccepts(context, history, ceiling)
    ensures forall i :: 0 <= i < |context| ==> Released(context[i].mark, ceiling)
    ensures forall i :: 0 <= i < |history| && history[i].AgentTurn? ==> Released(history[i].mark, ceiling)
  {
    forall mark ensures MayLeave(mark, ceiling) <==> Released(mark, ceiling) {
      MayLeaveExactly(mark, ceiling);
    }
    hide MayLeave, Released;
  }

  lemma LowLevelLeaves(mark: Text, other: Text, ceiling: Ceiling)
    requires Rank(Level(mark)) <= Rank(Level(other)) && MayLeave(other, ceiling)
    ensures MayLeave(mark, ceiling)
  {}

  lemma SendingWithin(issued: set<Answer>, context: seq<Item>, carried: seq<Carried>, ceiling: Ceiling)
    requires AllCovered(issued) && AllPresentable(issued, carried)
    requires GuardAccepts(context, VerifiedHistory(carried), ceiling)
    ensures Within(Sending(context, VerifiedHistory(carried), ceiling, Sources(issued, context, carried)))
  {
    var history := VerifiedHistory(carried);
    AllReleased(context, history, ceiling);
    hide MayLeave, Released, AllCovered, TurnSources, Level, Presentable;
    forall s | s in Sources(issued, context, carried) ensures Released(s.mark, ceiling) {
      MayLeaveExactly(s.mark, ceiling);
      if i :| 0 <= i < |context| && s == Source(context[i].record, context[i].mark) {
      } else {
        var i :| 0 <= i < |carried| && s in TurnSources(issued, carried[i]);
        AgentSource(issued, carried[i], s);
        TurnCovered(issued, carried[i], s);
        assert history[i] == AgentTurn(carried[i].text, VerifiedLabel(carried[i]));
        LowLevelLeaves(s.mark, VerifiedLabel(carried[i]), ceiling);
      }
    }
  }

  ghost predicate Sound(s: State) {
    AllCovered(s.issued) && forall i :: 0 <= i < |s.sent| ==> Within(s.sent[i])
  }

  lemma NewestPresentable(issued: set<Answer>, carried: seq<Carried>)
    requires AllPresentable(issued, carried)
    ensures AllPresentable(issued, Newest(carried))
  {
    hide Presentable;
  }

  lemma AnsweredSound(s: State, ask: Ask)
    requires Sound(s) && AllPresentable(s.issued, ask.carried)
    ensures Sound(Answered(s, ask))
  {
    var carried := Newest(ask.carried);
    NewestPresentable(s.issued, ask.carried);
    hide Within, Sources, GuardAccepts, ChooseBackend, VerifiedHistory, Covered, TurnLabel, RequestLabels, AllPresentable,
      Newest, Shown;
    forall asked ensures Covered(Answer(Shown(asked, ask.reply), TurnLabel(ask.context, VerifiedHistory(carried)),
                                        Sources(s.issued, ask.context, carried)))
    {
      AnswerCovered(s.issued, ask.context, carried, Shown(asked, ask.reply));
    }
    if GuardAccepts(ask.context, VerifiedHistory(carried), ask.guardCeiling) {
      SendingWithin(s.issued, ask.context, carried, ask.guardCeiling);
    }
  }

  /**
   Over a whole conversation, whatever the browser edits, drops or relabels: each thing sent to a
   provider carries only items, agent turns and sources, through any chain of earlier answers, that
   may leave under the ceiling the guard read.
   */
  lemma {:induction false} NothingControlledLeaves(asks: seq<Ask>)
    requires Honest(OPENING, asks)
    ensures var sent := Conversation(OPENING, asks).sent; forall i :: 0 <= i < |sent| ==> Within(sent[i])
  {
    assert Sound(OPENING);
    hide Within, Conversation, Honest;
    ConversationSound(OPENING, asks);
  }

  lemma {:induction false} ConversationSound(s: State, asks: seq<Ask>)
    requires Sound(s) && Honest(s, asks)
    ensures Sound(Conversation(s, asks))
    decreases asks
  {
    if asks != [] {
      hide Sound, Answered, AllPresentable;
      AnsweredSound(s, asks[0]);
      ConversationSound(Answered(s, asks[0]), asks[1..]);
    }
  }
}
