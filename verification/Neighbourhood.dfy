/**
 The bounded walk of the relation graph around one record
 (`enumerateNeighbourhoodGraph`, packages/documents/src/master-record-reading.ts).
 */
module Neighbourhood {

  type Id = nat

  /** A row of `core.relation`; `live`: active and valid now. */
  datatype Relation = Relation(id: Id, source: Id, target: Id, relationType: string, live: bool)

  datatype Edge = Edge(source: Id, target: Id, relationType: string)

  function EdgeOf(r: Relation): Edge {
    Edge(r.source, r.target, r.relationType)
  }

  predicate Touches(r: Relation, nodes: set<Id>) {
    r.source in nodes || r.target in nodes
  }

  /** `id` is the primary key. */
  ghost predicate DistinctIds(relations: seq<Relation>) {
    forall i, j :: 0 <= i < j < |relations| ==> relations[i].id != relations[j].id
  }

  /** The rows of the query for one frontier. */
  function Touching(relations: seq<Relation>, frontier: set<Id>): (rows: seq<Relation>)
    ensures forall r :: r in rows <==> r in relations && r.live && Touches(r, frontier)
  {
    if relations == [] then []
    else
      assert relations == [relations[0]] + relations[1..];
      (if relations[0].live && Touches(relations[0], frontier) then [relations[0]] else [])
      + Touching(relations[1..], frontier)
  }

  // --- Distance -------------------------------------------------------------------------------

  ghost predicate Adjacent(relations: seq<Relation>, a: Id, b: Id) {
    exists r :: r in relations && r.live && ((r.source == a && r.target == b) || (r.source == b && r.target == a))
  }

  /** A walk from `a` to `b` along live relations, in either direction. */
  ghost predicate IsWalk(relations: seq<Relation>, walk: seq<Id>, a: Id, b: Id) {
    && walk != [] && walk[0] == a && walk[|walk| - 1] == b
    && forall i :: 0 <= i < |walk| - 1 ==> Adjacent(relations, walk[i], walk[i + 1])
  }

  /** Reached in at most `hops` hops. */
  ghost predicate Within(relations: seq<Relation>, a: Id, b: Id, hops: nat) {
    exists walk :: IsWalk(relations, walk, a, b) && |walk| <= hops + 1
  }

  function Both(r: Relation): set<Id> {
    {r.source, r.target}
  }

  ghost function Ends(relations: seq<Relation>, nodes: set<Id>): set<Id> {
    set r, x | r in relations && r.live && Touches(r, nodes) && x in Both(r) :: x
  }

  /** The nodes at most `hops` hops from `anchor`, level by level. */
  ghost function Ball(relations: seq<Relation>, anchor: Id, hops: nat): set<Id> {
    if hops == 0 then {anchor}
    else
      var inner := Ball(relations, anchor, hops - 1);
      inner + Ends(relations, inner)
  }

  lemma WalkPrefix(relations: seq<Relation>, walk: seq<Id>, a: Id, b: Id)
    requires IsWalk(relations, walk, a, b) && |walk| > 1
    ensures IsWalk(relations, walk[..|walk| - 1], a, walk[|walk| - 2])
    ensures Adjacent(relations, walk[|walk| - 2], b)
  {
    hide Adjacent;
    assert |walk| - 2 + 1 == |walk| - 1;
    assert Adjacent(relations, walk[|walk| - 2], walk[|walk| - 2 + 1]);
  }

  lemma WalkExtended(relations: seq<Relation>, walk: seq<Id>, a: Id, b: Id, c: Id)
    requires IsWalk(relations, walk, a, b) && Adjacent(relations, b, c)
    ensures IsWalk(relations, walk + [c], a, c)
  {
    hide Adjacent;
  }

  lemma {:induction false} WalkInBall(relations: seq<Relation>, walk: seq<Id>, anchor: Id, x: Id, hops: nat)
    requires IsWalk(relations, walk, anchor, x) && |walk| <= hops + 1
    ensures x in Ball(relations, anchor, hops)
  {
    if hops == 0 {
      assert |walk| == 1;
    } else if |walk| == 1 {
      WalkInBall(relations, walk, anchor, x, hops - 1);
    } else {
      var y := walk[|walk| - 2];
      WalkPrefix(relations, walk, anchor, x);
      WalkInBall(relations, walk[..|walk| - 1], anchor, y, hops - 1);
      hide Ball;
      AdjacentEnds(relations, y, x, Ball(relations, anchor, hops - 1));
    }
  }

  lemma AdjacentEnds(relations: seq<Relation>, y: Id, x: Id, nodes: set<Id>)
    requires Adjacent(relations, y, x) && y in nodes
    ensures x in Ends(relations, nodes)
  {
    var r :| r in relations && r.live && ((r.source == y && r.target == x) || (r.source == x && r.target == y));
    assert Touches(r, nodes) && x in Both(r);
  }

  lemma EndsAdjacent(relations: seq<Relation>, x: Id, nodes: set<Id>) returns (y: Id)
    requires x in Ends(relations, nodes) && x !in nodes
    ensures y in nodes && Adjacent(relations, y, x)
  {
    var r :| r in relations && r.live && Touches(r, nodes) && x in Both(r);
    y := if r.source in nodes then r.source else r.target;
  }

  lemma {:induction false} BallHasWalk(relations: seq<Relation>, anchor: Id, x: Id, hops: nat) returns (walk: seq<Id>)
    requires x in Ball(relations, anchor, hops)
    ensures IsWalk(relations, walk, anchor, x) && |walk| <= hops + 1
    decreases hops
  {
    if hops == 0 {
      walk := [anchor];
    } else if x in Ball(relations, anchor, hops - 1) {
      walk := BallHasWalk(relations, anchor, x, hops - 1);
    } else {
      var y := EndsAdjacent(relations, x, Ball(relations, anchor, hops - 1));
      var before := BallHasWalk(relations, anchor, y, hops - 1);
      WalkExtended(relations, before, anchor, y, x);
      walk := before + [x];
    }
  }

  /** The levels are distances. */
  lemma {:induction false} BallIsDistance(relations: seq<Relation>, anchor: Id, x: Id, hops: nat)
    ensures x in Ball(relations, anchor, hops) <==> Within(relations, anchor, x, hops)
  {
    if x in Ball(relations, anchor, hops) {
      var walk := BallHasWalk(relations, anchor, x, hops);
    }
    if Within(relations, anchor, x, hops) {
      var walk :| IsWalk(relations, walk, anchor, x) && |walk| <= hops + 1;
      WalkInBall(relations, walk, anchor, x, hops);
    }
  }

  // --- Levels ---------------------------------------------------------------------------------

  /** Once a level adds nothing, none after it does. */
  lemma {:induction false} BallSettles(relations: seq<Relation>, anchor: Id, from: nat, to: nat)
    requires from < to && Ball(relations, anchor, from) == Ball(relations, anchor, from + 1)
    ensures Ball(relations, anchor, to) == Ball(relations, anchor, from)
  {
    if from + 1 < to {
      BallSettles(relations, anchor, from, to - 1);
    }
  }

  /** Before level `depth`, the nodes already expanded. */
  ghost function Expanded(relations: seq<Relation>, anchor: Id, depth: nat): set<Id> {
    if depth == 0 then {} else Ball(relations, anchor, depth - 1)
  }

  lemma ExpandedInBall(relations: seq<Relation>, anchor: Id, depth: nat)
    ensures Expanded(relations, anchor, depth) <= Ball(relations, anchor, depth)
    ensures Ends(relations, Expanded(relations, anchor, depth)) <= Ball(relations, anchor, depth)
  {}

  lemma EndsUnion(relations: seq<Relation>, a: set<Id>, b: set<Id>)
    ensures Ends(relations, a + b) == Ends(relations, a) + Ends(relations, b)
  {
    assert forall r :: Touches(r, a + b) <==> Touches(r, a) || Touches(r, b);
  }

  /** Asking for the frontier alone reaches the next level: what was expanded adds nothing. */
  lemma FrontierSuffices(relations: seq<Relation>, anchor: Id, depth: nat, frontier: set<Id>)
    requires Expanded(relations, anchor, depth) + frontier == Ball(relations, anchor, depth)
    ensures Ball(relations, anchor, depth + 1) == Ball(relations, anchor, depth) + Ends(relations, frontier)
  {
    ExpandedInBall(relations, anchor, depth);
    EndsUnion(relations, Expanded(relations, anchor, depth), frontier);
    hide Ends, Expanded;
  }

  ghost predicate NoRepeats(nodes: seq<Id>) {
    forall i, j :: 0 <= i < j < |nodes| ==> nodes[i] != nodes[j]
  }

  ghost function SetOf(nodes: seq<Id>): set<Id> {
    set x | x in nodes
  }

  ghost function EndsOf(rows: seq<Relation>): set<Id> {
    set r, x | r in rows && x in Both(r) :: x
  }

  lemma EndsOfTouching(relations: seq<Relation>, frontier: set<Id>)
    ensures EndsOf(Touching(relations, frontier)) == Ends(relations, frontier)
  {}

  lemma EndsOfNext(rows: seq<Relation>, i: nat)
    requires i < |rows|
    ensures EndsOf(rows[..i + 1]) == EndsOf(rows[..i]) + Both(rows[i])
  {
    assert rows[..i + 1] == rows[..i] + [rows[i]];
  }

  /** What `edges` holds: the live relations that touch `nodes`, each under its id. */
  ghost predicate HoldsExactly(edges: map<Id, Edge>, relations: seq<Relation>, nodes: set<Id>) {
    && (forall r :: r in relations ==> (r.id in edges <==> r.live && Touches(r, nodes)))
    && (forall r :: r in relations && r.id in edges ==> edges[r.id] == EdgeOf(r))
    && (forall id :: id in edges ==> exists r :: r in relations && r.id == id)
  }

  lemma HoldsMore(before: map<Id, Edge>, after: map<Id, Edge>, relations: seq<Relation>, nodes: set<Id>, frontier: set<Id>)
    requires DistinctIds(relations) && HoldsExactly(before, relations, nodes)
    requires Added(before, after, Touching(relations, frontier))
    ensures HoldsExactly(after, relations, nodes + frontier)
  {
    var rows := Touching(relations, frontier);
    forall r | r in relations
      ensures r.id in after <==> r.live && Touches(r, nodes + frontier)
      ensures r.id in after ==> after[r.id] == EdgeOf(r)
    {
      if r in rows {
        assert r.id in after;
      } else if r.id in after && r.id !in before {
        var s :| s in rows && s.id == r.id;
        SameRelation(relations, r, s);
      }
      if r.id in after {
        AddedValue(before, after, relations, rows, r);
      }
    }
    forall id | id in after ensures exists r :: r in relations && r.id == id {
      if id !in before {
        var s :| s in rows && s.id == id;
      }
    }
  }

  /** `after` is `before` with every row set under its id. */
  ghost predicate Added(before: map<Id, Edge>, after: map<Id, Edge>, rows: seq<Relation>) {
    && (forall id :: id in before ==> id in after)
    && (forall r :: r in rows ==> r.id in after)
    && (forall id :: id in after ==> || (id in before && after[id] == before[id])
                                     || (exists r :: r in rows && r.id == id && after[id] == EdgeOf(r)))
  }

  lemma SameRelation(relations: seq<Relation>, r: Relation, s: Relation)
    requires DistinctIds(relations) && r in relations && s in relations && r.id == s.id
    ensures r == s
  {}

  lemma AddedValue(before: map<Id, Edge>, after: map<Id, Edge>, relations: seq<Relation>, rows: seq<Relation>, r: Relation)
    requires DistinctIds(relations) && r in relations && r.id in after
    requires forall s :: s in rows ==> s in relations
    requires r.id in before ==> before[r.id] == EdgeOf(r)
    requires Added(before, after, rows)
    ensures after[r.id] == EdgeOf(r)
  {
    if !(r.id in before && after[r.id] == before[r.id]) {
      var s :| s in rows && s.id == r.id && after[r.id] == EdgeOf(s);
      SameRelation(relations, r, s);
    }
  }

  lemma AddedOne(before: map<Id, Edge>, middle: map<Id, Edge>, rows: seq<Relation>, i: nat)
    requires i < |rows| && Added(before, middle, rows[..i])
    ensures Added(before, middle[rows[i].id := EdgeOf(rows[i])], rows[..i + 1])
  {
    var r, after := rows[i], middle[rows[i].id := EdgeOf(rows[i])];
    assert rows[..i + 1] == rows[..i] + [r];
    assert r in rows[..i + 1];
    forall id | id in after
      ensures || (id in before && after[id] == before[id])
              || (exists s :: s in rows[..i + 1] && s.id == id && after[id] == EdgeOf(s))
    {
      if id != r.id && !(id in before && after[id] == before[id]) {
        var s :| s in rows[..i] && s.id == id && middle[id] == EdgeOf(s);
        assert s in rows[..i + 1];
      }
    }
  }

  // --- The walk -------------------------------------------------------------------------------

  /** One end of a row: noted the first time it is seen. */
  method See(end: Id, seen: set<Id>, next: seq<Id>, ghost inner: set<Id>) returns (seen': set<Id>, next': seq<Id>)
    requires seen == inner + SetOf(next) && inner !! SetOf(next) && NoRepeats(next)
    ensures seen' == seen + {end}
    ensures seen' == inner + SetOf(next') && inner !! SetOf(next') && NoRepeats(next')
  {
    seen', next' := seen, next;
    if end !in seen {
      seen' := seen + {end};
      next' := next + [end];
      assert SetOf(next') == SetOf(next) + {end};
    }
  }

  /** One level: record the rows the frontier touches and collect the nodes not seen before. */
  method Level(relations: seq<Relation>, frontier: seq<Id>, edges: map<Id, Edge>, seen: set<Id>)
    returns (edges': map<Id, Edge>, seen': set<Id>, next: seq<Id>)
    ensures Added(edges, edges', Touching(relations, SetOf(frontier)))
    ensures seen' == seen + Ends(relations, SetOf(frontier))
    ensures seen' == seen + SetOf(next) && seen !! SetOf(next) && NoRepeats(next)
  {
    var rows := Touching(relations, set x | x in frontier);
    edges', seen', next := edges, seen, [];
    assert rows[..0] == [];
    for i := 0 to |rows|
      invariant Added(edges, edges', rows[..i])
      invariant seen' == seen + EndsOf(rows[..i])
      invariant seen' == seen + SetOf(next) && seen !! SetOf(next) && NoRepeats(next)
    {
      AddedOne(edges, edges', rows, i);
      EndsOfNext(rows, i);
      assert Both(rows[i]) == {rows[i].source, rows[i].target};
      hide *;
      edges' := edges'[rows[i].id := EdgeOf(rows[i])];
      seen', next := See(rows[i].source, seen', next, seen);
      seen', next := See(rows[i].target, seen', next, seen);
    }
    assert rows[..|rows|] == rows;
    EndsOfTouching(relations, SetOf(frontier));
  }

  lemma Concatenated(a: seq<Id>, b: seq<Id>)
    requires NoRepeats(a) && NoRepeats(b) && SetOf(a) !! SetOf(b)
    ensures NoRepeats(a + b) && SetOf(a + b) == SetOf(a) + SetOf(b)
  {
    forall i, j | 0 <= i < j < |a + b| ensures (a + b)[i] != (a + b)[j] {
      if i < |a| <= j {
        assert a[i] in SetOf(a) && b[j - |a|] in SetOf(b);
      }
    }
  }

  /** Between two levels: what is seen, what is still to expand, and what the edges cover. */
  ghost predicate AtLevel(relations: seq<Relation>, anchor: Id, depth: nat,
                          edges: map<Id, Edge>, seen: set<Id>, frontier: seq<Id>, expanded: seq<Id>)
  {
    && seen == Ball(relations, anchor, depth)
    && SetOf(expanded) == Expanded(relations, anchor, depth)
    && SetOf(expanded) + SetOf(frontier) == seen && SetOf(expanded) !! SetOf(frontier)
    && NoRepeats(expanded) && NoRepeats(frontier)
    && HoldsExactly(edges, relations, SetOf(expanded))
  }

  lemma FirstLevel(relations: seq<Relation>, anchor: Id)
    ensures AtLevel(relations, anchor, 0, map[], {anchor}, [anchor], [])
  {}

  lemma NextLevel(relations: seq<Relation>, anchor: Id, depth: nat,
                  edges: map<Id, Edge>, seen: set<Id>, frontier: seq<Id>, expanded: seq<Id>,
                  edges': map<Id, Edge>, seen': set<Id>, next: seq<Id>)
    requires DistinctIds(relations)
    requires AtLevel(relations, anchor, depth, edges, seen, frontier, expanded)
    requires Added(edges, edges', Touching(relations, SetOf(frontier)))
    requires seen' == seen + Ends(relations, SetOf(frontier))
    requires seen' == seen + SetOf(next) && seen !! SetOf(next) && NoRepeats(next)
    ensures AtLevel(relations, anchor, depth + 1, edges', seen', next, expanded + frontier)
  {
    hide Touching, HoldsExactly, Added, Ends, DistinctIds, Ball, NoRepeats, SetOf;
    FrontierSuffices(relations, anchor, depth, SetOf(frontier));
    HoldsMore(edges, edges', relations, SetOf(expanded), SetOf(frontier));
    Concatenated(expanded, frontier);
  }

  /** The walk ends at `maxDepth` or when a level added nothing, and then no later one would. */
  lemma LastLevel(relations: seq<Relation>, anchor: Id, depth: nat, maxDepth: nat,
                  edges: map<Id, Edge>, seen: set<Id>, frontier: seq<Id>, expanded: seq<Id>)
    requires AtLevel(relations, anchor, depth, edges, seen, frontier, expanded)
    requires depth == maxDepth || (depth < maxDepth && frontier == [])
    ensures SetOf(expanded) == if maxDepth == 0 then {} else Ball(relations, anchor, maxDepth - 1)
  {
    hide HoldsExactly, NoRepeats, Ends, Ball;
    if depth < maxDepth {
      assert SetOf(frontier) == {};
      if depth == 0 {
        AnchorInBall(relations, anchor);
      } else if depth - 1 < maxDepth - 1 {
        BallSettles(relations, anchor, depth - 1, maxDepth - 1);
      }
    }
  }

  lemma AnchorInBall(relations: seq<Relation>, anchor: Id)
    ensures anchor in Ball(relations, anchor, 0)
  {}

  /**
   `enumerateNeighbourhoodGraph`: exactly the live relations with an end fewer than `maxDepth` hops
   from the anchor, each under its id; every such node is expanded, and none twice.
   */
  method EnumerateNeighbourhoodGraph(relations: seq<Relation>, anchor: Id, maxDepth: int)
    returns (edges: map<Id, Edge>, ghost expanded: seq<Id>)
    requires DistinctIds(relations)
    ensures HoldsExactly(edges, relations, if maxDepth <= 0 then {} else Ball(relations, anchor, maxDepth - 1))
    ensures SetOf(expanded) == if maxDepth <= 0 then {} else Ball(relations, anchor, maxDepth - 1)
    ensures NoRepeats(expanded)
  {
    edges := map[];
    expanded := [];
    var seen := {anchor};
    var frontier := [anchor];
    var depth := 0;
    FirstLevel(relations, anchor);
    hide Touching, HoldsExactly, Added, Ends, DistinctIds, Ball, NoRepeats, SetOf, Expanded;
    while depth < maxDepth && |frontier| > 0
      invariant 0 <= depth && (if maxDepth >= 0 then depth <= maxDepth else depth == 0)
      invariant AtLevel(relations, anchor, depth, edges, seen, frontier, expanded)
      decreases maxDepth - depth
    {
      hide AtLevel;
      var edges', seen', next := Level(relations, frontier, edges, seen);
      NextLevel(relations, anchor, depth, edges, seen, frontier, expanded, edges', seen', next);
      expanded := expanded + frontier;
      edges, seen, frontier := edges', seen', next;
      depth := depth + 1;
    }
    LastLevel(relations, anchor, depth, if maxDepth < 0 then 0 else maxDepth, edges, seen, frontier, expanded);
  }

  /** The graph in terms of walks: a relation is crossed when a walk of fewer than `maxDepth` hops meets it. */
  lemma {:induction false} CrossedByWalks(relations: seq<Relation>, anchor: Id, maxDepth: nat, edges: map<Id, Edge>, r: Relation)
    requires maxDepth > 0 && r in relations
    requires HoldsExactly(edges, relations, Ball(relations, anchor, maxDepth - 1))
    ensures r.id in edges <==>
            r.live && (Within(relations, anchor, r.source, maxDepth - 1) || Within(relations, anchor, r.target, maxDepth - 1))
    ensures r.id in edges ==> edges[r.id] == Edge(r.source, r.target, r.relationType)
  {
    BallIsDistance(relations, anchor, r.source, maxDepth - 1);
    BallIsDistance(relations, anchor, r.target, maxDepth - 1);
  }
}
