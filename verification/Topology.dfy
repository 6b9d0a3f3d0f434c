/** The dependency graph load_json builds and the order it derives from it (sdk/fins/nodelib.hpp:415-444), with the
    graph theory the order is judged by. Edges form a sequence: parallel edges and self-loops count. */
module Topology {
  type Id = string
  type Edge = (Id, Id)

  // ---------- paths and cycles ----------

  ghost predicate IsPath(edges: seq<Edge>, p: seq<Id>) {
    |p| > 0 && forall i :: 0 <= i < |p| - 1 ==> Joined(edges, p, i)
  }

  predicate Joined(edges: seq<Edge>, p: seq<Id>, i: int)
    requires 0 <= i < |p| - 1
  {
    (p[i], p[i + 1]) in edges
  }

  ghost predicate OnCycle(edges: seq<Edge>, v: Id) {
    exists p :: IsPath(edges, p) && |p| > 1 && p[0] == v && p[|p| - 1] == v
  }

  ghost predicate BehindCycle(edges: seq<Edge>, v: Id) {
    exists p :: IsPath(edges, p) && p[|p| - 1] == v && OnCycle(edges, p[0])
  }

  ghost predicate NoDuplicates(s: seq<Id>) {
    forall i, j :: 0 <= i < j < |s| ==> s[i] != s[j]
  }

  /** The endpoints of every edge are nodes. */
  ghost predicate Within(ids: seq<Id>, edges: seq<Edge>) {
    forall e :: e in edges ==> e.0 in ids && e.1 in ids
  }

  // ---------- what the peeling loop leaves ----------

  /** `sorted` was peeled off the graph: sources before targets, and nothing more can be peeled off. */
  ghost predicate Peeled(ids: seq<Id>, edges: seq<Edge>, sorted: seq<Id>) {
    && NoDuplicates(sorted)
    && (forall v :: v in sorted ==> v in ids)
    && (forall k :: 0 <= k < |sorted| ==> SourcesEarlier(edges, sorted, k))
    && (forall v :: v in ids && v !in sorted ==> HasLeftSource(edges, sorted, v))
  }

  ghost predicate SourcesEarlier(edges: seq<Edge>, sorted: seq<Id>, k: int)
    requires 0 <= k < |sorted|
  {
    forall e :: e in edges && e.1 == sorted[k] ==> e.0 in sorted[..k]
  }

  ghost predicate HasLeftSource(edges: seq<Edge>, sorted: seq<Id>, v: Id) {
    exists e :: e in edges && e.1 == v && e.0 !in sorted
  }

  lemma SubPath(edges: seq<Edge>, p: seq<Id>, i: nat, j: nat)
    requires IsPath(edges, p) && i < j <= |p|
    ensures IsPath(edges, p[i..j])
  {
    forall k | 0 <= k < |p[i..j]| - 1 ensures Joined(edges, p[i..j], k) {
      assert Joined(edges, p, i + k);
    }
  }

  /** Walking a path backwards from a peeled node stays among earlier and earlier peeled nodes. */
  lemma {:induction false} PathsComeFromEarlier(ids: seq<Id>, edges: seq<Edge>, sorted: seq<Id>, p: seq<Id>, k: nat)
    returns (j: nat)
    requires Peeled(ids, edges, sorted) && IsPath(edges, p) && k < |sorted| && p[|p| - 1] == sorted[k]
    ensures j < |sorted| && sorted[j] == p[0] && j + |p| - 1 <= k
  {
    if |p| == 1 {
      j := k;
    } else {
      var u := p[|p| - 2];
      assert Joined(edges, p, |p| - 2) && SourcesEarlier(edges, sorted, k);
      var i :| 0 <= i < k && sorted[i] == u;
      SubPath(edges, p, 0, |p| - 1);
      j := PathsComeFromEarlier(ids, edges, sorted, p[0..|p| - 1], i);
    }
  }

  lemma PeeledNotBehindCycle(ids: seq<Id>, edges: seq<Edge>, sorted: seq<Id>, v: Id)
    requires Peeled(ids, edges, sorted) && v in sorted
    ensures !BehindCycle(edges, v)
  {
    if BehindCycle(edges, v) {
      var p :| IsPath(edges, p) && p[|p| - 1] == v && OnCycle(edges, p[0]);
      var k :| 0 <= k < |sorted| && sorted[k] == v;
      var j := PathsComeFromEarlier(ids, edges, sorted, p, k);
      var c :| IsPath(edges, c) && |c| > 1 && c[0] == p[0] && c[|c| - 1] == p[0];
      var i := PathsComeFromEarlier(ids, edges, sorted, c, j);
      assert false;
    }
  }

  /** A left-over node has a walk of any length behind it that stays among left-over nodes. */
  lemma {:induction false} WalkBack(ids: seq<Id>, edges: seq<Edge>, sorted: seq<Id>, v: Id, n: nat) returns (p: seq<Id>)
    requires Peeled(ids, edges, sorted) && Within(ids, edges) && v in ids && v !in sorted
    ensures IsPath(edges, p) && |p| == n + 1 && p[n] == v && forall u :: u in p ==> u in ids && u !in sorted
    decreases n
  {
    if n == 0 {
      p := [v];
    } else {
      assert HasLeftSource(edges, sorted, v);
      var e :| e in edges && e.1 == v && e.0 !in sorted;
      var q := WalkBack(ids, edges, sorted, e.0, n - 1);
      p := q + [v];
      forall i | 0 <= i < |p| - 1 ensures Joined(edges, p, i) {
        if i == n - 1 {
          assert e == (p[i], p[i + 1]);
        } else {
          assert Joined(edges, q, i);
        }
      }
    }
  }

  function Members(s: seq<Id>): set<Id> {
    set v | v in s
  }

  lemma {:induction false} DistinctCount(s: seq<Id>)
    ensures |Members(s)| <= |s|
    ensures NoDuplicates(s) ==> |Members(s)| == |s|
  {
    if s != [] {
      var front, last := s[..|s| - 1], s[|s| - 1];
      DistinctCount(front);
      assert Members(s) == Members(front) + {last};
      if NoDuplicates(s) {
        assert last !in front;
      }
    }
  }

  lemma SubsetCount(a: set<Id>, b: set<Id>)
    requires a <= b
    ensures |a| <= |b|
  {
    assert b == a + (b - a);
  }

  /** A sequence of distinct nodes is no longer than the node list. */
  lemma DistinctFit(ids: seq<Id>, s: seq<Id>)
    requires NoDuplicates(s) && forall v :: v in s ==> v in ids
    ensures |s| <= |ids|
  {
    DistinctCount(s);
    DistinctCount(ids);
    SubsetCount(Members(s), Members(ids));
  }

  lemma LeftOverBehindCycle(ids: seq<Id>, edges: seq<Edge>, sorted: seq<Id>, v: Id)
    requires Peeled(ids, edges, sorted) && Within(ids, edges) && v in ids && v !in sorted
    ensures BehindCycle(edges, v)
  {
    var p := WalkBack(ids, edges, sorted, v, |ids|);
    if NoDuplicates(p) {
      DistinctFit(ids, p);
      assert false;
    }
    var i, j :| 0 <= i < j < |p| && p[i] == p[j];
    SubPath(edges, p, i, j + 1);
    assert OnCycle(edges, p[i]);
    SubPath(edges, p, i, |p|);
    assert p[i..|p|][|p| - i - 1] == v;
  }

  lemma OnCycleIsNode(ids: seq<Id>, edges: seq<Edge>, v: Id)
    requires Within(ids, edges) && OnCycle(edges, v)
    ensures v in ids
  {
    var p :| IsPath(edges, p) && |p| > 1 && p[0] == v && p[|p| - 1] == v;
    assert Joined(edges, p, 0);
  }

  lemma SomeLeftOver(ids: seq<Id>, sorted: seq<Id>) returns (v: Id)
    requires NoDuplicates(ids) && |sorted| < |ids|
    ensures v in ids && v !in sorted
  {
    DistinctCount(sorted);
    DistinctCount(ids);
    if Members(ids) <= Members(sorted) {
      SubsetCount(Members(ids), Members(sorted));
    }
    v :| v in Members(ids) && v !in Members(sorted);
  }

  lemma LeftOverShortens(ids: seq<Id>, sorted: seq<Id>, v: Id)
    requires NoDuplicates(ids) && NoDuplicates(sorted) && (forall u :: u in sorted ==> u in ids)
    requires v in ids && v !in sorted
    ensures |sorted| < |ids|
  {
    DistinctCount(sorted);
    DistinctCount(ids);
    assert Members(sorted) <= Members(ids) - {v};
    SubsetCount(Members(sorted), Members(ids) - {v});
  }

  /** Left over is exactly being reachable from a cycle. */
  lemma LeftOverExact(ids: seq<Id>, edges: seq<Edge>, sorted: seq<Id>, v: Id)
    requires Within(ids, edges) && Peeled(ids, edges, sorted) && v in ids
    ensures v !in sorted <==> BehindCycle(edges, v)
  {
    if v in sorted {
      PeeledNotBehindCycle(ids, edges, sorted, v);
    } else {
      LeftOverBehindCycle(ids, edges, sorted, v);
    }
  }

  /** The cycle warning is exact: nodes are left over if and only if the graph has a cycle. */
  lemma CycleWarningExact(ids: seq<Id>, edges: seq<Edge>, sorted: seq<Id>)
    requires NoDuplicates(ids) && Within(ids, edges) && Peeled(ids, edges, sorted)
    ensures |sorted| < |ids| <==> exists v :: OnCycle(edges, v)
  {
    if |sorted| < |ids| {
      var v := SomeLeftOver(ids, sorted);
      LeftOverBehindCycle(ids, edges, sorted, v);
      var p :| IsPath(edges, p) && p[|p| - 1] == v && OnCycle(edges, p[0]);
    }
    if v :| OnCycle(edges, v) {
      OnCycleIsNode(ids, edges, v);
      assert IsPath(edges, [v]) && BehindCycle(edges, v);
      LeftOverExact(ids, edges, sorted, v);
      LeftOverShortens(ids, sorted, v);
    }
  }

  // ---------- the initialization order ----------

  /** `order` lists every node once, and an edge goes forward unless both its ends lie behind a cycle. */
  ghost predicate InitializationOrder(ids: seq<Id>, edges: seq<Edge>, order: seq<Id>) {
    && NoDuplicates(order)
    && (forall v :: v in order <==> v in ids)
    && (forall e :: e in edges ==>
          EdgeForward(order, e) || (BehindCycle(edges, e.0) && BehindCycle(edges, e.1)))
  }

  ghost predicate EdgeForward(order: seq<Id>, e: Edge) {
    exists i, j :: 0 <= i < j < |order| && order[i] == e.0 && order[j] == e.1
  }

  /** The fallback: the left-over nodes follow in the order they were declared. */
  function LeftOver(ids: seq<Id>, sorted: seq<Id>): (rest: seq<Id>)
    ensures forall v :: v in rest <==> v in ids && v !in sorted
  {
    if ids == [] then []
    else
      var last := ids[|ids| - 1];
      LeftOver(ids[..|ids| - 1], sorted) + if last in sorted then [] else [last]
  }

  lemma {:induction false} LeftOverDistinct(ids: seq<Id>, sorted: seq<Id>)
    requires NoDuplicates(ids)
    ensures NoDuplicates(LeftOver(ids, sorted))
  {
    if ids != [] {
      LeftOverDistinct(ids[..|ids| - 1], sorted);
    }
  }

  lemma EdgeOrdered(ids: seq<Id>, edges: seq<Edge>, sorted: seq<Id>, rest: seq<Id>, e: Edge)
    requires Within(ids, edges) && Peeled(ids, edges, sorted) && e in edges
    requires forall v :: v in rest <==> v in ids && v !in sorted
    ensures EdgeForward(sorted + rest, e) || (e.0 !in sorted && e.1 !in sorted)
  {
    var order := sorted + rest;
    if e.1 in sorted {
      var j :| 0 <= j < |sorted| && sorted[j] == e.1;
      assert SourcesEarlier(edges, sorted, j);
      var i :| 0 <= i < j && sorted[..j][i] == e.0;
      assert order[i] == e.0 && order[j] == e.1;
    } else if e.0 in sorted {
      var i :| 0 <= i < |sorted| && sorted[i] == e.0;
      var j :| 0 <= j < |rest| && rest[j] == e.1;
      assert order[i] == e.0 && order[|sorted| + j] == e.1;
    }
  }

  lemma EdgeOrderedOrBehind(ids: seq<Id>, edges: seq<Edge>, sorted: seq<Id>, rest: seq<Id>, e: Edge)
    requires Within(ids, edges) && Peeled(ids, edges, sorted) && e in edges
    requires forall v :: v in rest <==> v in ids && v !in sorted
    ensures EdgeForward(sorted + rest, e) || (BehindCycle(edges, e.0) && BehindCycle(edges, e.1))
  {
    EdgeOrdered(ids, edges, sorted, rest, e);
    LeftOverExact(ids, edges, sorted, e.0);
    LeftOverExact(ids, edges, sorted, e.1);
  }

  lemma ListsEveryNodeOnce(ids: seq<Id>, sorted: seq<Id>, rest: seq<Id>)
    requires NoDuplicates(sorted) && NoDuplicates(rest) && (forall v :: v in sorted ==> v in ids)
    requires forall v :: v in rest <==> v in ids && v !in sorted
    ensures NoDuplicates(sorted + rest) && forall v :: v in sorted + rest <==> v in ids
  {
    forall i, j | 0 <= i < j < |sorted + rest| ensures (sorted + rest)[i] != (sorted + rest)[j] {
      if i < |sorted| <= j {
        assert rest[j - |sorted|] in rest;
      }
    }
  }

  lemma FallbackGivesInitializationOrder(ids: seq<Id>, edges: seq<Edge>, sorted: seq<Id>)
    requires NoDuplicates(ids) && Within(ids, edges) && Peeled(ids, edges, sorted)
    ensures InitializationOrder(ids, edges, sorted + LeftOver(ids, sorted))
  {
    var rest := LeftOver(ids, sorted);
    LeftOverDistinct(ids, sorted);
    ListsEveryNodeOnce(ids, sorted, rest);
    forall e | e in edges
      ensures EdgeForward(sorted + rest, e) || (BehindCycle(edges, e.0) && BehindCycle(edges, e.1))
    {
      EdgeOrderedOrBehind(ids, edges, sorted, rest, e);
    }
  }

  /** Without a cycle every edge goes forward. */
  lemma AcyclicOrder(ids: seq<Id>, edges: seq<Edge>, order: seq<Id>)
    requires InitializationOrder(ids, edges, order) && !exists v :: OnCycle(edges, v)
    ensures forall e :: e in edges ==> EdgeForward(order, e)
  {
    forall e | e in edges ensures EdgeForward(order, e) {
      assert !BehindCycle(edges, e.0);
    }
  }
}
