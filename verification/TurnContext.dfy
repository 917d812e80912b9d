/**
 How a turn gathers its context (`answerTurn`, packages/agent/src/turn.ts): two attempts at most, one
 compilation at most, every record numbered as it is cited and labelled as it was served.
 */
module TurnContext {
  import opened Texts
  import opened Outcomes
  import opened Egress

  /** What reading one reference answered. */
  datatype Read = Served(mark: Option<Text>) | NeedsCompile | Unreadable

  datatype Reference = Reference(record: Text, read: Read)

  /** What retrieving answered. */
  datatype Retrieval = Failed(needsCompile: bool) | Retrieved(references: seq<Reference>)

  /** The label a record is taken to have: the one served, or `restricted`. */
  function ServedLabel(mark: Option<Text>): Text {
    if mark.Some? then mark.value else Name(Restricted)
  }

  /** How many references are read before one says the master record is stale. */
  function Reach(references: seq<Reference>): (k: nat)
    ensures k <= |references|
    ensures forall i :: 0 <= i < k ==> !references[i].read.NeedsCompile?
    ensures k < |references| ==> references[k].read.NeedsCompile?
  {
    if references == [] || references[0].read.NeedsCompile? then 0 else 1 + Reach(references[1..])
  }

  function Items(references: seq<Reference>): seq<Item> {
    if references == [] then []
    else
      var before, last := Items(references[..|references| - 1]), references[|references| - 1];
      if last.read.Served? then before + [Item(|before| + 1, last.record, ServedLabel(last.read.mark))] else before
  }

  function Missed(references: seq<Reference>): nat {
    if references == [] then 0
    else Missed(references[..|references| - 1]) + if references[|references| - 1].read.Unreadable? then 1 else 0
  }

  /** What an attempt gathers: nothing when retrieving failed, else what was read before a reference was stale. */
  predicate Gathers(r: Retrieval, context: seq<Item>, unreadable: nat) {
    match r
    case Failed(_) => context == [] && unreadable == 0
    case Retrieved(references) =>
      var read := references[..Reach(references)];
      context == Items(read) && unreadable == Missed(read)
  }

  /** The attempt found that the master record must be compiled first: retrieving said so, or reading one reference did. */
  predicate Stale(r: Retrieval) {
    match r
    case Failed(needsCompile) => needsCompile
    case Retrieved(references) => exists i :: 0 <= i < |references| && references[i].read.NeedsCompile?
  }

  /** What reading the references comes to. */
  datatype Reading = Reading(context: seq<Item>, unreadable: nat, stale: bool)

  function ReadingOf(references: seq<Reference>): Reading {
    var read := references[..Reach(references)];
    Reading(Items(read), Missed(read), Reach(references) < |references|)
  }

  /** One attempt's reads, until one is stale. */
  method ReadAll(references: seq<Reference>) returns (r: Reading)
    ensures r == ReadingOf(references)
  {
    r := Reading([], 0, false);
    var i := 0;
    assert references[..0] == [];
    while i < |references|
      invariant i <= Reach(references)
      invariant r == Reading(Items(references[..i]), Missed(references[..i]), false)
    {
      assert references[..i + 1][..i] == references[..i];
      match references[i].read {
        case Served(mark) =>
          r := r.(context := r.context + [Item(|r.context| + 1, references[i].record, ServedLabel(mark))]);
        case NeedsCompile =>
          return r.(stale := true);
        case Unreadable =>
          r := r.(unreadable := r.unreadable + 1);
      }
      i := i + 1;
    }
  }

  /**
   The two-attempt loop: the context kept is the second attempt's exactly when the first was stale and
   compiling succeeded, and the master record is compiled exactly when the first was stale.
   */
  method Gather(first: Retrieval, second: Retrieval, compileSucceeds: bool)
    returns (context: seq<Item>, unreadable: nat, compilations: nat)
    ensures Gathers(if Stale(first) && compileSucceeds then second else first, context, unreadable)
    ensures compilations == if Stale(first) then 1 else 0
  {
    context, unreadable, compilations := [], 0, 0;
    var attempt := 0;
    while attempt < 2
      invariant attempt <= 1 && compilations == attempt
      invariant attempt == 1 ==> Stale(first) && compileSucceeds
      decreases 2 - attempt
    {
      var retrieved := if attempt == 0 then first else second;
      var again := false;
      context, unreadable := [], 0;
      match retrieved {
        case Failed(needsCompile) =>
          again := needsCompile;
        case Retrieved(references) =>
          var reading := ReadAll(references);
          context, unreadable, again := reading.context, reading.unreadable, reading.stale;
      }
      if again && compilations == 0 {
        compilations := 1;
        again := compileSucceeds;
      } else {
        again := false;
      }
      if !again {
        break;
      }
      attempt := attempt + 1;
    }
  }

  /** Those of the first `n` references that were served. */
  ghost function ServedBefore(references: seq<Reference>, n: nat): set<nat>
    requires n <= |references|
  {
    set i: nat | i < n && references[i].read.Served?
  }

  ghost function UnreadableAmong(references: seq<Reference>): set<nat> {
    set i: nat | i < |references| && references[i].read.Unreadable?
  }

  lemma {:induction false} ServedSplits(references: seq<Reference>, n: nat)
    requires n < |references|
    ensures |ServedBefore(references, n + 1)| == |ServedBefore(references, n)| + if references[n].read.Served? then 1 else 0
  {
    assert ServedBefore(references, n + 1) == ServedBefore(references, n) + if references[n].read.Served? then {n} else {};
  }

  lemma {:induction false} ServedOfPrefix(references: seq<Reference>, m: nat, n: nat)
    requires n <= m <= |references|
    ensures ServedBefore(references[..m], n) == ServedBefore(references, n)
  {
    assert forall i :: 0 <= i < n ==> references[..m][i] == references[i];
  }

  /**
   Every record served is cited, in the order read, by how many were served before it, under the label it
   was served with, or `restricted` when it came without one; the others are counted or left.
   */
  lemma {:induction false} ItemsExactly(references: seq<Reference>, j: nat)
    requires j < |references|
    ensures |Items(references)| == |ServedBefore(references, |references|)|
    ensures Missed(references) == |UnreadableAmong(references)|
    ensures var reference, k := references[j], |ServedBefore(references, j)|;
            reference.read.Served? ==>
              && k < |Items(references)|
              && Items(references)[k] == Item(k + 1, reference.record,
                   if reference.read.mark.Some? then reference.read.mark.value else Ascii("restricted"))
    decreases |references|
  {
    hide Ascii;
    var n := |references| - 1;
    var init := references[..n];
    ItemsCounted(init);
    ItemsCounted(references);
    ServedSplits(references, n);
    ServedOfPrefix(references, n, n);
    if j < n {
      ItemsExactly(init, j);
      ServedOfPrefix(references, n, j);
      assert init[j] == references[j];
    }
  }

  lemma {:induction false} ItemsCounted(references: seq<Reference>)
    ensures |Items(references)| == |ServedBefore(references, |references|)|
    ensures Missed(references) == |UnreadableAmong(references)|
  {
    if references == [] {
      assert ServedBefore(references, 0) == {} && UnreadableAmong(references) == {};
    } else {
      var n := |references| - 1;
      var init := references[..n];
      ItemsCounted(init);
      ServedSplits(references, n);
      ServedOfPrefix(references, n, n);
      assert forall i :: 0 <= i < n ==> init[i] == references[i];
      assert UnreadableAmong(references) == UnreadableAmong(init) + if references[n].read.Unreadable? then {n} else {};
    }
  }

  /** The record cited as [n] is the nth: numbers are positions, and every label is as served. */
  lemma {:induction false} NumberedInOrder(references: seq<Reference>, i: nat)
    requires i < |Items(references)|
    ensures Items(references)[i].n == i + 1
    ensures exists j ::
              && 0 <= j < |references| && references[j].read.Served?
              && references[j].record == Items(references)[i].record
              && ServedLabel(references[j].read.mark) == Items(references)[i].mark
    decreases |references|
  {
    var init, last := references[..|references| - 1], references[|references| - 1];
    if i < |Items(init)| {
      NumberedInOrder(init, i);
      var j :|
        && 0 <= j < |init| && init[j].read.Served?
        && init[j].record == Items(init)[i].record && ServedLabel(init[j].read.mark) == Items(init)[i].mark;
      assert references[j] == init[j];
    } else {
      assert references[|references| - 1] == last;
    }
  }
}
