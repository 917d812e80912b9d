/**
 The identity of a master-record claim (packages/documents/src/master-record.ts): a digest over the
 sorted lines of its members.
 */
module CorpusDigests {
  import opened Texts
  import opened Hashes
  import opened Utf8

  datatype Member = Member(objectId: Text, objectType: Text, contentDigest: Text, classification: Text)

  datatype MemberState = Included | Withdrawn

  datatype Entry = Entry(member: Member, state: MemberState)

  const FIELD: Unit := 0x1f
  const NEWLINE: Unit := 0x0a

  const INCLUDED_TEXT: Text := [
    'i' as int, 'n' as int, 'c' as int, 'l' as int, 'u' as int, 'd' as int, 'e' as int, 'd' as int]
  const WITHDRAWN_TEXT: Text := [
    'w' as int, 'i' as int, 't' as int, 'h' as int, 'd' as int, 'r' as int, 'a' as int, 'w' as int, 'n' as int]

  function StateText(state: MemberState): Text {
    match state
    case Included => INCLUDED_TEXT
    case Withdrawn => WITHDRAWN_TEXT
  }

  function Fields(e: Entry): (fields: seq<Text>)
    ensures |fields| == 5
  {
    [e.member.objectId, e.member.objectType, e.member.contentDigest, e.member.classification, StateText(e.state)]
  }

  function Line(e: Entry): Text {
    Join(Fields(e), FIELD)
  }

  function Lines(entries: seq<Entry>): (lines: seq<Text>)
    ensures |lines| == |entries|
    ensures forall i :: 0 <= i < |lines| ==> lines[i] == Line(entries[i])
  {
    seq(|entries|, i requires 0 <= i < |entries| => Line(entries[i]))
  }

  function Marked(members: seq<Member>, state: MemberState): (entries: seq<Entry>)
    ensures |entries| == |members|
    ensures forall i :: 0 <= i < |entries| ==> entries[i] == Entry(members[i], state)
  {
    seq(|members|, i requires 0 <= i < |members| => Entry(members[i], state))
  }

  function Entries(included: seq<Member>, withdrawn: seq<Member>): (entries: seq<Entry>) {
    Marked(included, Included) + Marked(withdrawn, Withdrawn)
  }

  /** The text `lineDigest` hashes. */
  function Sheet(entries: seq<Entry>): Text {
    Join(Sort(Lines(entries)), NEWLINE)
  }

  /** `corpusDigest` */
  function CorpusDigest(h: Hash, included: seq<Member>, withdrawn: seq<Member>): Text {
    HexDigest(h, Encode(Sheet(Entries(included, withdrawn))))
  }

  // --- Lines ----------------------------------------------------------------------------------

  /** What the schema guarantees of the fields: ASCII, without the two separators. */
  ghost predicate Plain(t: Text) {
    forall i :: 0 <= i < |t| ==> t[i] < 0x80 && t[i] != FIELD && t[i] != NEWLINE
  }

  ghost predicate PlainMember(m: Member) {
    Plain(m.objectId) && Plain(m.objectType) && Plain(m.contentDigest) && Plain(m.classification)
  }

  ghost predicate PlainEntries(entries: seq<Entry>) {
    forall i :: 0 <= i < |entries| ==> PlainMember(entries[i].member)
  }

  lemma PlainFields(e: Entry)
    requires PlainMember(e.member)
    ensures forall i :: 0 <= i < 5 ==> Plain(Fields(e)[i]) && FIELD !in Fields(e)[i]
  {}

  /** A line determines its member and its state. */
  lemma LineInjective(d: Entry, e: Entry)
    requires PlainMember(d.member) && PlainMember(e.member) && Line(d) == Line(e)
    ensures d == e
  {
    PlainFields(d);
    PlainFields(e);
    JoinInjective(Fields(d), Fields(e), FIELD);
    assert Fields(d)[0] == Fields(e)[0] && Fields(d)[1] == Fields(e)[1] && Fields(d)[2] == Fields(e)[2];
    assert Fields(d)[3] == Fields(e)[3] && Fields(d)[4] == Fields(e)[4];
    assert |INCLUDED_TEXT| != |WITHDRAWN_TEXT|;
  }

  lemma {:induction false} JoinUnits(parts: seq<Text>, separator: Unit)
    requires separator < 0x80
    requires forall i :: 0 <= i < |parts| ==> forall j :: 0 <= j < |parts[i]| ==> parts[i][j] < 0x80 && parts[i][j] != NEWLINE
    ensures forall j :: 0 <= j < |Join(parts, separator)| ==> Join(parts, separator)[j] < 0x80
    ensures separator != NEWLINE ==> NEWLINE !in Join(parts, separator)
  {
    if |parts| > 1 {
      JoinUnits(parts[1..], separator);
    }
  }

  lemma LineShape(e: Entry)
    requires PlainMember(e.member)
    ensures NEWLINE !in Line(e) && Line(e) != []
    ensures forall j :: 0 <= j < |Line(e)| ==> Line(e)[j] < 0x80
  {
    PlainFields(e);
    hide Fields;
    JoinUnits(Fields(e), FIELD);
    assert Fields(e)[1..] != [];
  }

  lemma LinesShape(entries: seq<Entry>)
    requires PlainEntries(entries)
    ensures forall i :: 0 <= i < |entries| ==>
              && NEWLINE !in Lines(entries)[i] && Lines(entries)[i] != []
              && forall j :: 0 <= j < |Lines(entries)[i]| ==> Lines(entries)[i][j] < 0x80
  {
    forall i | 0 <= i < |entries|
      ensures NEWLINE !in Lines(entries)[i] && Lines(entries)[i] != []
      ensures forall j :: 0 <= j < |Lines(entries)[i]| ==> Lines(entries)[i][j] < 0x80
    {
      LineShape(entries[i]);
    }
  }

  // --- Rearranging entries --------------------------------------------------------------------

  lemma LinesConcat(a: seq<Entry>, b: seq<Entry>)
    ensures Lines(a + b) == Lines(a) + Lines(b)
  {
    hide Line;
  }

  /** Where a rearrangement holds an entry, and what is left without it. */
  lemma WithoutOne(a: seq<Entry>, b: seq<Entry>) returns (j: nat)
    requires a != [] && multiset(a) == multiset(b)
    ensures j < |b| && b[j] == a[0]
    ensures multiset(a[1..]) == multiset(b[..j] + b[j + 1..])
    ensures b == b[..j] + [b[j]] + b[j + 1..]
  {
    assert a[0] in multiset(b);
    j :| 0 <= j < |b| && b[j] == a[0];
    var before, after := b[..j], b[j + 1..];
    assert b == before + [b[j]] + after;
    assert multiset(b) == multiset(before) + multiset{b[j]} + multiset(after);
    assert multiset(before + after) == multiset(before) + multiset(after);
    assert a == [a[0]] + a[1..];
    assert multiset(a) == multiset{a[0]} + multiset(a[1..]);
    assert multiset(a[1..]) == multiset(a) - multiset{a[0]};
  }

  /** Rearranged entries give rearranged lines, whatever the fields hold. */
  lemma {:induction false} LinesRearranged(a: seq<Entry>, b: seq<Entry>)
    requires multiset(a) == multiset(b)
    ensures multiset(Lines(a)) == multiset(Lines(b))
    decreases |a|
  {
    hide Lines;
    if a == [] {
      assert |multiset(b)| == 0;
      assert b == [];
    } else {
      var j := WithoutOne(a, b);
      var before, after := b[..j], b[j + 1..];
      LinesRearranged(a[1..], before + after);
      LinesConcat(before, after);
      LinesConcat(before + [b[j]], after);
      LinesConcat(before, [b[j]]);
      LinesConcat([a[0]], a[1..]);
      assert a == [a[0]] + a[1..] && b == before + [b[j]] + after;
    }
  }

  // --- Sheets ---------------------------------------------------------------------------------

  lemma LinesTail(entries: seq<Entry>)
    requires entries != []
    ensures Lines(entries) == [Line(entries[0])] + Lines(entries[1..])
  {
    hide Line;
  }

  lemma PlainTail(entries: seq<Entry>)
    requires entries != [] && PlainEntries(entries)
    ensures PlainMember(entries[0].member) && PlainEntries(entries[1..])
  {
    hide PlainMember;
  }

  lemma EntriesTail(entries: seq<Entry>)
    requires entries != []
    ensures multiset(entries) == multiset{entries[0]} + multiset(entries[1..])
  {
    assert entries == [entries[0]] + entries[1..];
  }

  lemma {:induction false} LineCount(entries: seq<Entry>, e: Entry)
    requires PlainEntries(entries) && PlainMember(e.member)
    ensures multiset(Lines(entries))[Line(e)] == multiset(entries)[e]
  {
    hide *;
    if entries != [] {
      LinesTail(entries);
      PlainTail(entries);
      EntriesTail(entries);
      LineCount(entries[1..], e);
      if Line(entries[0]) == Line(e) {
        LineInjective(entries[0], e);
      }
    }
  }

  /** Two lists of lines are rearrangements exactly when their members and states are. */
  lemma LinesMultiset(a: seq<Entry>, b: seq<Entry>)
    requires PlainEntries(a) && PlainEntries(b)
    ensures multiset(Lines(a)) == multiset(Lines(b)) <==> multiset(a) == multiset(b)
  {
    if multiset(Lines(a)) == multiset(Lines(b)) {
      forall e ensures multiset(a)[e] == multiset(b)[e] {
        if e in a || e in b {
          LineCount(a, e);
          LineCount(b, e);
        } else {
          assert e !in multiset(a) && e !in multiset(b);
        }
      }
    }
    if multiset(a) == multiset(b) {
      LinesRearranged(a, b);
    }
  }

  lemma SortedLines(entries: seq<Entry>)
    requires PlainEntries(entries)
    ensures |Sort(Lines(entries))| == |entries|
    ensures forall i :: 0 <= i < |entries| ==> NEWLINE !in Sort(Lines(entries))[i] && Sort(Lines(entries))[i] != []
    ensures forall i :: 0 <= i < |entries| ==>
              forall j :: 0 <= j < |Sort(Lines(entries))[i]| ==> Sort(Lines(entries))[i][j] < 0x80
  {
    var lines := Lines(entries);
    LinesShape(entries);
    SortMembers(lines);
    forall i | 0 <= i < |entries| ensures exists k :: 0 <= k < |entries| && Sort(lines)[i] == lines[k] {
      assert Sort(lines)[i] in lines;
    }
  }

  lemma JoinEmpty(lines: seq<Text>)
    requires forall i :: 0 <= i < |lines| ==> lines[i] != []
    ensures Join(lines, NEWLINE) == [] <==> lines == []
  {}

  /** A sheet determines the multiset of its entries, and is determined by it. */
  lemma SheetExact(a: seq<Entry>, b: seq<Entry>)
    requires PlainEntries(a) && PlainEntries(b)
    ensures Sheet(a) == Sheet(b) <==> multiset(a) == multiset(b)
  {
    var x, y := Sort(Lines(a)), Sort(Lines(b));
    SortedLines(a);
    SortedLines(b);
    SortCanonical(Lines(a), Lines(b));
    LinesMultiset(a, b);
    hide Sort, Lines, PlainEntries;
    JoinEmpty(x);
    JoinEmpty(y);
    if Sheet(a) == Sheet(b) && x != [] {
      JoinInjective(x, y, NEWLINE);
    }
  }

  lemma SheetScalar(entries: seq<Entry>)
    requires PlainEntries(entries)
    ensures IsScalarText(Sheet(entries))
  {
    SortedLines(entries);
    hide Sort, Lines;
    JoinUnits(Sort(Lines(entries)), NEWLINE);
    ScalarPlain(Sheet(entries));
  }

  // --- Rearranging members --------------------------------------------------------------------

  lemma MarkedTail(members: seq<Member>, state: MemberState)
    requires members != []
    ensures multiset(members) == multiset{members[0]} + multiset(members[1..])
    ensures multiset(Marked(members, state))
         == multiset{Entry(members[0], state)} + multiset(Marked(members[1..], state))
  {
    assert members == [members[0]] + members[1..];
    assert Marked(members, state) == [Entry(members[0], state)] + Marked(members[1..], state);
  }

  lemma {:induction false} MarkedCount(members: seq<Member>, state: MemberState, e: Entry)
    ensures multiset(Marked(members, state))[e] == if e.state == state then multiset(members)[e.member] else 0
  {
    if members != [] {
      MarkedTail(members, state);
      MarkedCount(members[1..], state, e);
    }
  }

  lemma MarkedMultiset(a: seq<Member>, b: seq<Member>, state: MemberState)
    requires multiset(a) == multiset(b)
    ensures multiset(Marked(a, state)) == multiset(Marked(b, state))
  {
    hide Marked;
    forall e ensures multiset(Marked(a, state))[e] == multiset(Marked(b, state))[e] {
      MarkedCount(a, state, e);
      MarkedCount(b, state, e);
    }
  }

  lemma EntriesMultiset(a: seq<Member>, b: seq<Member>, w: seq<Member>)
    requires multiset(a) == multiset(b)
    ensures multiset(Entries(a, w)) == multiset(Entries(b, w))
  {
    MarkedMultiset(a, b, Included);
  }

  lemma EntriesCancel(a: seq<Member>, b: seq<Member>, w: seq<Member>)
    requires multiset(Entries(a, w)) == multiset(Entries(b, w))
    ensures multiset(a) == multiset(b)
  {
    hide Marked;
    var x, y, z := multiset(Marked(a, Included)), multiset(Marked(b, Included)), multiset(Marked(w, Withdrawn));
    assert multiset(Entries(a, w)) == x + z && multiset(Entries(b, w)) == y + z;
    forall m ensures multiset(a)[m] == multiset(b)[m] {
      var e := Entry(m, Included);
      MarkedCount(a, Included, e);
      MarkedCount(b, Included, e);
      assert (x + z)[e] == (y + z)[e];
    }
  }

  /** A member's line: its fields and its state, with the unit separator between them. */
  lemma {:induction false} LineText(e: Entry)
    ensures var m := e.member;
            Line(e) == m.objectId + [0x1f] + (m.objectType + [0x1f] + (m.contentDigest + [0x1f] + (m.classification + [0x1f]
                       + (if e.state == Included then Ascii("included") else Ascii("withdrawn")))))
  {
    var f := Fields(e);
    assert INCLUDED_TEXT == Ascii("included") && WITHDRAWN_TEXT == Ascii("withdrawn");
    assert f[1..][1..] == f[2..] && f[2..][1..] == f[3..] && f[3..][1..] == f[4..] && f[4..] == [f[4]];
    assert Join(f[3..], FIELD) == f[3] + [FIELD] + f[4];
    assert Join(f[2..], FIELD) == f[2] + [FIELD] + Join(f[3..], FIELD);
    assert Join(f[1..], FIELD) == f[1] + [FIELD] + Join(f[2..], FIELD);
  }

  /** What is digested: the lines of all members, in ascending order, with line feeds between them. */
  lemma SheetText(included: seq<Member>, withdrawn: seq<Member>, lines: seq<Text>)
    requires Sorted(lines)
    requires multiset(lines) == multiset(Lines(Marked(included, Included)) + Lines(Marked(withdrawn, Withdrawn)))
    ensures Sheet(Entries(included, withdrawn)) == Join(lines, 0x0a)
  {
    LinesConcat(Marked(included, Included), Marked(withdrawn, Withdrawn));
    SortSorts(Lines(Entries(included, withdrawn)));
    SortedUnique(Sort(Lines(Entries(included, withdrawn))), lines);
  }

  // --- Main results ---------------------------------------------------------------------------

  /** The digest does not depend on the order members are listed in, whatever their fields hold. */
  lemma {:induction false} CorpusDigestOrderFree(h: Hash, a: seq<Member>, b: seq<Member>, w: seq<Member>, x: seq<Member>)
    requires multiset(Entries(a, w)) == multiset(Entries(b, x))
    ensures CorpusDigest(h, a, w) == CorpusDigest(h, b, x)
  {
    LinesRearranged(Entries(a, w), Entries(b, x));
    SortCanonical(Lines(Entries(a, w)), Lines(Entries(b, x)));
  }

  /** Two corpora have one digest exactly when their members and states agree as multisets, or collide. */
  lemma {:induction false} CorpusDigestExact(h: Hash, a: seq<Member>, b: seq<Member>, w: seq<Member>, x: seq<Member>)
    requires PlainEntries(Entries(a, w)) && PlainEntries(Entries(b, x))
    ensures CorpusDigest(h, a, w) == CorpusDigest(h, b, x) <==>
            || multiset(Entries(a, w)) == multiset(Entries(b, x))
            || CollisionAmong(h, {Encode(Sheet(Entries(a, w))), Encode(Sheet(Entries(b, x)))})
  {
    var m, n := Sheet(Entries(a, w)), Sheet(Entries(b, x));
    SheetExact(Entries(a, w), Entries(b, x));
    SheetScalar(Entries(a, w));
    SheetScalar(Entries(b, x));
    HexDigestAgree(h, Encode(m), Encode(n));
    if Encode(m) == Encode(n) {
      EncodeInjective(m, n);
    }
  }
}
