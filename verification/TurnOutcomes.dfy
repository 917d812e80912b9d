/**
 What one turn sends, shows and seals (packages/agent/src/turn.ts), in terms of the labels by name and of
 what the browser carried back: no ranks, no router, no guard.
 */
module TurnOutcomes {
  import opened Texts
  import opened Outcomes
  import opened Utf8
  import opened Egress

  // --- The highest label, by name -------------------------------------------------------------

  /** A label is one of the three below `restricted`. */
  predicate NamesAtMost(mark: Text, c: Classification) {
    match c
    case Public => mark == Ascii("public")
    case Internal => mark == Ascii("public") || mark == Ascii("internal")
    case Confidential => mark == Ascii("public") || mark == Ascii("internal") || mark == Ascii("confidential")
    case Restricted => true
  }

  ghost predicate AllAtMost(labels: seq<Text>, c: Classification) {
    forall i :: 0 <= i < |labels| ==> NamesAtMost(labels[i], c)
  }

  lemma RankByName(mark: Text, c: Classification)
    ensures NamesAtMost(mark, c) <==> Rank(Level(mark)) <= Rank(c)
  {
    NameKnown(Public);
    NameKnown(Internal);
    NameKnown(Confidential);
    NameKnown(Restricted);
  }

  /** The highest of some labels is the lowest classification that covers them all. */
  lemma {:induction false} HighestByName(labels: seq<Text>, c: Classification)
    ensures Highest(labels) == None <==> labels == []
    ensures labels != [] ==> (AllAtMost(labels, c) <==> Rank(Highest(labels).value) <= Rank(c))
    ensures Rank(Public) < Rank(Internal) < Rank(Confidential) < Rank(Restricted)
  {
    hide Highest, Level, NamesAtMost;
    HighestIsMaximum(labels);
    forall i | 0 <= i < |labels| ensures NamesAtMost(labels[i], c) <==> Rank(Level(labels[i])) <= Rank(c) {
      RankByName(labels[i], c);
    }
  }

  // --- Seals ----------------------------------------------------------------------------------

  /** What a seal is computed over: the format, the label and the text, each on a line of its own. */
  lemma SealText(mark: Text, text: Text)
    ensures SealMessage(mark, text) == Encode(Ascii("kf-agent-turn-seal-v1\n") + mark + Ascii("\n") + text)
  {
    assert Ascii("kf-agent-turn-seal-v1\n") == SEAL_FORMAT + [NEWLINE];
    assert Ascii("\n") == [NEWLINE];
  }

  /** The seal the browser carried is the one over this label and this text. */
  predicate SealedAs(turn: Carried, mark: Text)
    requires turn.CarriedAgent?
  {
    && turn.mark == Some(mark)
    && turn.seal == Some(Sealed(Encode(Ascii("kf-agent-turn-seal-v1\n") + mark + Ascii("\n") + turn.text)))
  }

  /** An earlier turn as the model is given it: under its own label when sealed so, else `restricted`. */
  predicate GivenAs(turn: Turn, carried: Carried) {
    match carried
    case CarriedPerson(text) => turn == PersonTurn(text)
    case CarriedAgent(text, mark, _) =>
      && turn.AgentTurn? && turn.text == text
      && if mark.Some? && SealedAs(carried, mark.value) then turn.mark == mark.value else turn.mark == Ascii("restricted")
  }

  lemma {:induction false} VerifiedExactly(carried: Carried)
    ensures GivenAs(VerifiedTurn(carried), carried)
  {
    if carried.CarriedAgent? && carried.mark.Some? {
      SealText(carried.mark.value, carried.text);
    }
    hide Encode, Ascii, SealMessage;
  }

  // --- What may leave -------------------------------------------------------------------------

  /** An earlier turn that may leave: the person's own words, or an answer sealed under a label that may. */
  predicate TurnReleased(turn: Carried, ceiling: Ceiling) {
    turn.CarriedPerson? || (turn.mark.Some? && SealedAs(turn, turn.mark.value) && Released(turn.mark.value, ceiling))
  }

  /** The first of the turns the model is given: the newest twelve. */
  function FirstGiven(carried: seq<Carried>): (from: nat)
    ensures from <= |carried|
  {
    if |carried| > 12 then |carried| - 12 else 0
  }

  /** Everything the turn would send may leave. */
  ghost predicate Releasable(ask: Ask, ceiling: Ceiling) {
    && ceiling != NothingLeaves
    && (forall i :: 0 <= i < |ask.context| ==> Released(ask.context[i].mark, ceiling))
    && (forall i :: FirstGiven(ask.carried) <= i < |ask.carried| ==> TurnReleased(ask.carried[i], ceiling))
  }

  lemma {:induction false} TurnReleasedExactly(turn: Carried, ceiling: Ceiling)
    ensures TurnReleased(turn, ceiling) <==>
            (VerifiedTurn(turn).AgentTurn? ==> MayLeave(VerifiedTurn(turn).mark, ceiling))
  {
    VerifiedExactly(turn);
    if VerifiedTurn(turn).AgentTurn? {
      MayLeaveExactly(VerifiedTurn(turn).mark, ceiling);
      RestrictedStays(ceiling);
    }
    hide MayLeave, Released, VerifiedTurn, SealedAs, Ascii;
  }

  lemma RestrictedStays(ceiling: Ceiling)
    ensures !Released(Ascii("restricted"), ceiling)
  {
    assert |Ascii("restricted")| != |Ascii("public")| && |Ascii("restricted")| != |Ascii("internal")|;
  }

  /** The guard accepts exactly a turn all of which may leave. */
  lemma {:induction false} GuardExactly(ask: Ask, ceiling: Ceiling)
    ensures GuardAccepts(ask.context, VerifiedHistory(Newest(ask.carried)), ceiling) <==> Releasable(ask, ceiling)
  {
    var from, newest := FirstGiven(ask.carried), Newest(ask.carried);
    var history := VerifiedHistory(newest);
    assert newest == ask.carried[from..];
    hide MayLeave, Released, TurnReleased, VerifiedTurn, Newest, FirstGiven;
    forall i | 0 <= i < |ask.context|
      ensures MayLeave(ask.context[i].mark, ceiling) <==> Released(ask.context[i].mark, ceiling)
    {
      MayLeaveExactly(ask.context[i].mark, ceiling);
    }
    forall i | from <= i < |ask.carried|
      ensures TurnReleased(ask.carried[i], ceiling) <==>
              (history[i - from].AgentTurn? ==> MayLeave(history[i - from].mark, ceiling))
    {
      assert newest[i - from] == ask.carried[i];
      TurnReleasedExactly(ask.carried[i], ceiling);
    }
    if GuardAccepts(ask.context, history, ceiling) {
      forall i | from <= i < |ask.carried| ensures TurnReleased(ask.carried[i], ceiling) {
        assert history[i - from].AgentTurn? ==> MayLeave(history[i - from].mark, ceiling);
      }
    }
    if Releasable(ask, ceiling) {
      forall i | 0 <= i < |history| && history[i].AgentTurn? ensures MayLeave(history[i].mark, ceiling) {
        assert TurnReleased(ask.carried[i + from], ceiling);
      }
    }
  }

  // --- The turn -------------------------------------------------------------------------------

  predicate SomethingFound(ask: Ask) {
    ask.context != [] || ask.carried != []
  }

  /** The provider is configured, and the deployment does not prefer a model on the host that is running. */
  predicate ProviderFirst(backends: Backends) {
    backends.provider && !(backends.preferOnHost && backends.onHost)
  }

  /** A provider is sent the turn: everything in it may leave under both readings of the ceiling. */
  ghost predicate ToProvider(ask: Ask) {
    && SomethingFound(ask) && ProviderFirst(ask.backends)
    && Releasable(ask, ask.routerCeiling) && Releasable(ask, ask.guardCeiling)
  }

  /** The model on the host is given the turn: it is running, and the turn is not routed to a provider. */
  ghost predicate ToHost(ask: Ask) {
    && SomethingFound(ask) && ask.backends.onHost
    && !(ProviderFirst(ask.backends) && Releasable(ask, ask.routerCeiling))
  }

  /** What is sent is the context as read, and the newest twelve turns, each under the label it may be trusted with. */
  ghost predicate SendsTurn(sending: Sending, ask: Ask) {
    var from := FirstGiven(ask.carried);
    && sending.context == ask.context && sending.ceiling == ask.guardCeiling
    && |sending.history| == |ask.carried| - from
    && forall i :: 0 <= i < |sending.history| ==> GivenAs(sending.history[i], ask.carried[from + i])
  }

  /** The answer derives from everything read, and from all that any answer repeated among the turns given derives from. */
  ghost predicate DerivesFromAll(sources: set<Source>, issued: set<Answer>, ask: Ask) {
    && (forall i :: 0 <= i < |ask.context| ==> Source(ask.context[i].record, ask.context[i].mark) in sources)
    && forall i, a, s ::
         && FirstGiven(ask.carried) <= i < |ask.carried| && a in issued && s in a.sources
         && Repeats(ask.carried[i], a)
         ==> s in sources
  }

  /** The turn carried back is this answer, under its own label. */
  ghost predicate Repeats(turn: Carried, a: Answer) {
    turn.CarriedAgent? && turn.text == a.text && turn.mark == Some(Name(a.mark))
  }

  lemma {:induction false} DecisionExactly(ask: Ask)
    ensures var decision := ChooseBackend(RequestLabels(ask.context, VerifiedHistory(Newest(ask.carried))), ask.routerCeiling, ask.backends);
            && (decision == AskProvider <==> ProviderFirst(ask.backends) && Releasable(ask, ask.routerCeiling))
            && (decision == AskHost <==>
                  ask.backends.onHost && !(ProviderFirst(ask.backends) && Releasable(ask, ask.routerCeiling)))
  {
    var history := VerifiedHistory(Newest(ask.carried));
    RouterAndGuardAgree(ask.context, history, ask.routerCeiling, ask.backends);
    GuardExactly(ask, ask.routerCeiling);
    hide Releasable, GuardAccepts, VerifiedHistory, Newest, RequestLabels, MayLeave, Highest, Name;
  }

  lemma {:induction false} HistoryGiven(ask: Ask)
    ensures var history, from := VerifiedHistory(Newest(ask.carried)), FirstGiven(ask.carried);
            && |history| == |ask.carried| - from
            && forall i :: 0 <= i < |history| ==> GivenAs(history[i], ask.carried[from + i])
  {
    var from, newest := FirstGiven(ask.carried), Newest(ask.carried);
    assert newest == ask.carried[from..];
    var history := VerifiedHistory(newest);
    hide Newest, FirstGiven, VerifiedTurn, GivenAs;
    forall i | 0 <= i < |history| ensures GivenAs(history[i], ask.carried[from + i]) {
      assert newest[i] == ask.carried[from + i];
      VerifiedExactly(newest[i]);
    }
  }

  lemma {:induction false} SourcesComplete(issued: set<Answer>, ask: Ask)
    ensures DerivesFromAll(Sources(issued, ask.context, Newest(ask.carried)), issued, ask)
  {
    var from, newest := FirstGiven(ask.carried), Newest(ask.carried);
    assert newest == ask.carried[from..];
    hide Newest, FirstGiven, SealMessage, Name;
    var sources := Sources(issued, ask.context, newest);
    forall i | 0 <= i < |ask.context| ensures Source(ask.context[i].record, ask.context[i].mark) in sources {
    }
    forall i, a, s | from <= i < |ask.carried| && a in issued && s in a.sources && Repeats(ask.carried[i], a)
      ensures s in sources
    {
      assert newest[i - from] == ask.carried[i];
      assert Given(issued, ask.carried[i]);
      assert s in TurnSources(issued, newest[i - from]);
    }
  }

  /** An earlier turn carries nothing above `c`: an answer not sealed as it is carried counts as `restricted`. */
  predicate TurnAtMost(turn: Carried, c: Classification) {
    turn.CarriedPerson? || c == Restricted
    || (turn.mark.Some? && SealedAs(turn, turn.mark.value) && NamesAtMost(turn.mark.value, c))
  }

  /** Nothing the turn carries is above `c`. */
  ghost predicate AskAtMost(ask: Ask, c: Classification) {
    && (forall i :: 0 <= i < |ask.context| ==> NamesAtMost(ask.context[i].mark, c))
    && (forall i :: FirstGiven(ask.carried) <= i < |ask.carried| ==> TurnAtMost(ask.carried[i], c))
  }

  lemma TurnAtMostExactly(turn: Carried, c: Classification)
    ensures TurnAtMost(turn, c) <==>
            (VerifiedTurn(turn).AgentTurn? ==> NamesAtMost(VerifiedTurn(turn).mark, c))
  {
    VerifiedExactly(turn);
    assert NamesAtMost(Ascii("restricted"), c) <==> c == Restricted by {
      RankByName(Ascii("restricted"), c);
      NameKnown(Restricted);
    }
    hide NamesAtMost, VerifiedTurn, SealedAs, Ascii;
  }

  /** The labels a request is routed by: those of the context, and those of its agent turns. */
  lemma {:induction false} LabelsAtMost(context: seq<Item>, history: seq<Turn>, c: Classification)
    ensures AllAtMost(RequestLabels(context, history), c) <==>
            && (forall i :: 0 <= i < |context| ==> NamesAtMost(context[i].mark, c))
            && (forall i :: 0 <= i < |history| && history[i].AgentTurn? ==> NamesAtMost(history[i].mark, c))
  {
    hide NamesAtMost;
    var items, turns := ItemLabels(context), TurnLabels(history);
    var labels := RequestLabels(context, history);
    ItemLabelsAt(context);
    if AllAtMost(labels, c) {
      forall i | 0 <= i < |context| ensures NamesAtMost(context[i].mark, c) {
        assert labels[i] == context[i].mark;
      }
      forall i | 0 <= i < |history| && history[i].AgentTurn? ensures NamesAtMost(history[i].mark, c) {
        TurnLabelMembers(history, history[i].mark);
        var j :| 0 <= j < |turns| && turns[j] == history[i].mark;
        assert labels[|items| + j] == history[i].mark;
      }
    }
    if (forall i :: 0 <= i < |context| ==> NamesAtMost(context[i].mark, c))
       && (forall i :: 0 <= i < |history| && history[i].AgentTurn? ==> NamesAtMost(history[i].mark, c)) {
      forall i | 0 <= i < |labels| ensures NamesAtMost(labels[i], c) {
        if i >= |items| {
          assert labels[i] == turns[i - |items|];
          TurnLabelMembers(history, labels[i]);
        }
      }
    }
  }

  /** The label a turn is answered under is the lowest classification that covers all it carries. */
  lemma {:induction false} LabelExactly(ask: Ask, c: Classification)
    ensures AskAtMost(ask, c) <==> Rank(TurnLabel(ask.context, VerifiedHistory(Newest(ask.carried)))) <= Rank(c)
  {
    var from, newest := FirstGiven(ask.carried), Newest(ask.carried);
    var history := VerifiedHistory(newest);
    assert newest == ask.carried[from..];
    HighestByName(RequestLabels(ask.context, history), c);
    LabelsAtMost(ask.context, history, c);
    hide NamesAtMost, TurnAtMost, VerifiedTurn, Newest, FirstGiven, RequestLabels, Highest;
    forall i | from <= i < |ask.carried|
      ensures TurnAtMost(ask.carried[i], c) <==> (history[i - from].AgentTurn? ==> NamesAtMost(history[i - from].mark, c))
    {
      assert newest[i - from] == ask.carried[i];
      TurnAtMostExactly(ask.carried[i], c);
    }
    if AllAtMost(RequestLabels(ask.context, history), c) {
      forall i | from <= i < |ask.carried| ensures TurnAtMost(ask.carried[i], c) {
        assert history[i - from].AgentTurn? ==> NamesAtMost(history[i - from].mark, c);
      }
    }
    if AskAtMost(ask, c) {
      forall i | 0 <= i < |history| && history[i].AgentTurn? ensures NamesAtMost(history[i].mark, c) {
        assert TurnAtMost(ask.carried[i + from], c);
      }
    }
  }

  /**
   Whatever the request, a provider is sent the turn exactly when it answers first and everything in the turn
   may leave under both readings of the ceiling; what it is sent is then exactly the turn.
   */
  lemma {:induction false} TurnSendsExactly(s: State, ask: Ask)
    ensures var sent := Answered(s, ask).sent;
            && (!ToProvider(ask) ==> sent == s.sent)
            && (ToProvider(ask) ==>
                  && |sent| == |s.sent| + 1 && sent[..|s.sent|] == s.sent && SendsTurn(sent[|s.sent|], ask))
  {
    var history := VerifiedHistory(Newest(ask.carried));
    GuardExactly(ask, ask.guardCeiling);
    DecisionExactly(ask);
    HistoryGiven(ask);
    assert history == [] <==> ask.carried == [];
    hide Newest, VerifiedHistory, Sources, GuardAccepts, ChooseBackend, RequestLabels, TurnLabel, Releasable, GivenAs, FirstGiven, Shown;
  }

  /** A turn is answered under the lowest classification that covers all it carries, and derives from all of that. */
  ghost predicate IsAnswerTo(a: Answer, issued: set<Answer>, ask: Ask) {
    && a.text == (if (ToProvider(ask) || ToHost(ask)) && ask.reply.Reply? then ask.reply.text else [])
    && (forall c :: AskAtMost(ask, c) <==> Rank(a.mark) <= Rank(c))
    && DerivesFromAll(a.sources, issued, ask)
  }

  /** The text shown is the reply of a model that was given the turn and cited nothing else, or none. */
  lemma ShownExactly(s: State, ask: Ask)
    ensures var text := if (ToProvider(ask) || ToHost(ask)) && ask.reply.Reply? then ask.reply.text else [];
            var carried := Newest(ask.carried);
            Answered(s, ask).issued
            == s.issued + {Answer(text, TurnLabel(ask.context, VerifiedHistory(carried)), Sources(s.issued, ask.context, carried))}
  {
    GuardExactly(ask, ask.guardCeiling);
    DecisionExactly(ask);
    assert VerifiedHistory(Newest(ask.carried)) == [] <==> ask.carried == [];
    hide Newest, VerifiedHistory, Sources, GuardAccepts, ChooseBackend, RequestLabels, TurnLabel, Releasable;
  }

  /** Every turn seals one answer, whatever the request. */
  lemma {:induction false} TurnAnswersExactly(s: State, ask: Ask)
    ensures exists a :: Answered(s, ask).issued == s.issued + {a} && IsAnswerTo(a, s.issued, ask)
  {
    var carried := Newest(ask.carried);
    var history := VerifiedHistory(carried);
    var text := if (ToProvider(ask) || ToHost(ask)) && ask.reply.Reply? then ask.reply.text else [];
    var a := Answer(text, TurnLabel(ask.context, history), Sources(s.issued, ask.context, carried));
    hide Newest, VerifiedHistory, Sources, TurnLabel, Answered, ToProvider, ToHost, DerivesFromAll, AskAtMost, Rank;
    ShownExactly(s, ask);
    SourcesComplete(s.issued, ask);
    forall c ensures AskAtMost(ask, c) <==> Rank(a.mark) <= Rank(c) {
      LabelExactly(ask, c);
    }
    assert IsAnswerTo(a, s.issued, ask);
  }

  /** A conversation is its turns, one after the other. */
  lemma {:induction false} ConversationGrows(s: State, asks: seq<Ask>, ask: Ask)
    ensures Conversation(s, asks + [ask]) == Answered(Conversation(s, asks), ask)
    decreases asks
  {
    hide Answered;
    if asks == [] {
      assert [] + [ask] == [ask] && [ask][1..] == [];
    } else {
      assert (asks + [ask])[1..] == asks[1..] + [ask];
      ConversationGrows(Answered(s, asks[0]), asks[1..], ask);
    }
  }
}
