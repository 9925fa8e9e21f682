/** `build_subgraph` of app.py: the part of the adjacency within a number of undirected
    edge steps of a focus node, found by breadth-first search. */
module Subgraph {
  import opened AppView
  import opened Seqs
  import opened Dedup

  /** Edge `e` links `u` and `v` in either direction; edges with an empty endpoint link
      nothing. */
  predicate Joins(e: AdjEdge, u: string, v: string) {
    e.source != "" && e.target != "" && ((e.source == u && e.target == v) || (e.source == v && e.target == u))
  }

  /** Some edge links `u` and `v`. */
  predicate Linked(es: seq<AdjEdge>, u: string, v: string) {
    exists k :: 0 <= k < |es| && Joins(es[k], u, v)
  }

  lemma LinkedSnoc(es: seq<AdjEdge>, e: AdjEdge, u: string, v: string)
    ensures Linked(es + [e], u, v) <==> Linked(es, u, v) || Joins(e, u, v)
  {
    if Linked(es + [e], u, v) && !Joins(e, u, v) {
      var k :| 0 <= k < |es| + 1 && Joins((es + [e])[k], u, v);
      assert Joins(es[k], u, v);
    }
    if Linked(es, u, v) {
      var k :| 0 <= k < |es| && Joins(es[k], u, v);
      assert (es + [e])[k] == es[k];
    }
    if Joins(e, u, v) {
      assert (es + [e])[|es|] == e;
    }
  }

  /** `nbrs.get(u, ())`. */
  function Nbrs(nb: map<string, set<string>>, u: string): set<string> {
    if u in nb then nb[u] else {}
  }

  /** One edge recorded in the neighbour map in both directions, if both ends are non-empty. */
  function AddLink(nb: map<string, set<string>>, e: AdjEdge): (r: map<string, set<string>>)
    ensures forall u, v :: v in Nbrs(r, u) <==> v in Nbrs(nb, u) || Joins(e, u, v)
  {
    if e.source != "" && e.target != "" then
      var n1 := nb[e.source := Nbrs(nb, e.source) + {e.target}];
      n1[e.target := Nbrs(n1, e.target) + {e.source}]
    else nb
  }

  /** The neighbour map built from the edges, in order. */
  function NbrsSpec(es: seq<AdjEdge>): map<string, set<string>>
    decreases |es|
  {
    if es == [] then map[] else AddLink(NbrsSpec(es[..|es| - 1]), es[|es| - 1])
  }

  /** The neighbour map relates exactly the vertices some edge links. */
  lemma {:induction false} NbrsLinked(es: seq<AdjEdge>, u: string, v: string)
    ensures v in Nbrs(NbrsSpec(es), u) <==> Linked(es, u, v)
    decreases |es|
  {
    if es != [] {
      var p := es[..|es| - 1];
      NbrsLinked(p, u, v);
      LinkedSnoc(p, es[|es| - 1], u, v);
      assert p + [es[|es| - 1]] == es;
    }
  }

  /** The vertices one step from `s` in the neighbour map. */
  function Expand(nb: map<string, set<string>>, s: set<string>): set<string> {
    set u, v | u in s && u in nb && v in nb[u] :: v
  }

  lemma ExpandFrom(nb: map<string, set<string>>, s: set<string>, v: string)
    requires v in Expand(nb, s)
    ensures exists u :: u in s && v in Nbrs(nb, u)
  {
  }

  /** The vertices within `k` steps of `c`: `{c}` for `k = 0`, each further step adding the
      neighbours of what is already reached, and nothing for negative `k`. */
  function Ball(nb: map<string, set<string>>, c: string, k: int): set<string>
    decreases k
  {
    if k < 0 then {} else if k == 0 then {c} else Ball(nb, c, k - 1) + Expand(nb, Ball(nb, c, k - 1))
  }

  /** A neighbour of a vertex within `k` steps is within `k + 1` steps. */
  lemma BallStep(nb: map<string, set<string>>, c: string, k: int, u: string, v: string)
    requires k >= 0 && u in Ball(nb, c, k) && v in Nbrs(nb, u)
    ensures v in Ball(nb, c, k + 1)
  {
    assert v in Expand(nb, Ball(nb, c, k));
  }

  lemma {:induction false} BallMono(nb: map<string, set<string>>, c: string, j: int, k: int)
    requires j <= k
    ensures Ball(nb, c, j) <= Ball(nb, c, k)
    decreases k - j
  {
    if j < k {
      BallMono(nb, c, j, k - 1);
      if k - 1 < 0 {
        assert Ball(nb, c, j) == {};
      }
    }
  }

  function Max0(h: int): nat { if h < 0 then 0 else h }

  /** The neighbour-map loop of `build_subgraph`: both directions of every edge with two
      non-empty endpoints. */
  method NeighbourMap(es: seq<AdjEdge>) returns (nb: map<string, set<string>>)
    ensures nb == NbrsSpec(es)
  {
    nb := map[];
    var i := 0;
    while i < |es|
      invariant 0 <= i <= |es|
      invariant nb == NbrsSpec(es[..i])
    {
      var e := es[i];
      assert es[..i + 1][..i] == es[..i];
      if e.source != "" && e.target != "" {
        nb := nb[e.source := Nbrs(nb, e.source) + {e.target}];
        nb := nb[e.target := Nbrs(nb, e.target) + {e.source}];
      }
      i := i + 1;
    }
    assert es[..i] == es;
  }

  /** A queue entry: a vertex and its distance from the center. */
  datatype Entry = Entry(v: string, d: int)

  /** The vertices in the queue. */
  function QSet(q: seq<Entry>): set<string>
    decreases |q|
  {
    if q == [] then {} else QSet(q[..|q| - 1]) + {q[|q| - 1].v}
  }

  lemma QSetSnoc(q: seq<Entry>, x: Entry)
    ensures QSet(q + [x]) == QSet(q) + {x.v}
  {
    assert (q + [x])[..|q|] == q;
  }

  lemma {:induction false} QSetMember(q: seq<Entry>, w: string)
    ensures w in QSet(q) <==> exists i :: 0 <= i < |q| && q[i].v == w
    decreases |q|
  {
    if q != [] {
      QSetMember(q[..|q| - 1], w);
      if w in QSet(q[..|q| - 1]) {
        var i :| 0 <= i < |q| - 1 && q[..|q| - 1][i].v == w;
        assert q[i].v == w;
      }
    }
  }

  lemma QSetPop(q: seq<Entry>)
    requires q != []
    ensures QSet(q) == {q[0].v} + QSet(q[1..])
  {
    forall w
      ensures w in QSet(q) <==> w == q[0].v || w in QSet(q[1..])
    {
      QSetMember(q, w);
      QSetMember(q[1..], w);
      if w in QSet(q) && w != q[0].v {
        var i :| 0 <= i < |q| && q[i].v == w;
        assert q[1..][i - 1].v == w;
      }
      if w in QSet(q[1..]) {
        var i :| 0 <= i < |q| - 1 && q[1..][i].v == w;
        assert q[i + 1].v == w;
      }
    }
  }

  /** What the inner loop keeps: the neighbours handled so far are seen; the entries queued
      so far follow `q0`, each a neighbour unseen at the start at distance `d + 1`; the queue's
      vertices grow by exactly the newly seen ones. */
  predicate VisitInv(n: set<string>, d: int, seen0: set<string>, q0: seq<Entry>,
                     rest: set<string>, seen: set<string>, q: seq<Entry>)
  {
    && rest <= n
    && seen == seen0 + (n - rest)
    && |q0| <= |q| && q[..|q0|] == q0
    && (forall i :: |q0| <= i < |q| ==> q[i].d == d + 1 && q[i].v in n && q[i].v !in seen0)
    && QSet(q) == QSet(q0) + (seen - seen0)
    && (seen == seen0 ==> |q| == |q0|)
  }

  lemma VisitStart(n: set<string>, d: int, seen0: set<string>, q0: seq<Entry>)
    ensures VisitInv(n, d, seen0, q0, n, seen0, q0)
  {
  }

  lemma VisitSkip(n: set<string>, d: int, seen0: set<string>, q0: seq<Entry>,
                  rest: set<string>, seen: set<string>, q: seq<Entry>, v: string)
    requires VisitInv(n, d, seen0, q0, rest, seen, q) && v in rest && v in seen
    ensures VisitInv(n, d, seen0, q0, rest - {v}, seen, q)
  {
  }

  lemma VisitAdd(n: set<string>, d: int, seen0: set<string>, q0: seq<Entry>,
                 rest: set<string>, seen: set<string>, q: seq<Entry>, v: string)
    requires VisitInv(n, d, seen0, q0, rest, seen, q) && v in rest && v !in seen
    ensures VisitInv(n, d, seen0, q0, rest - {v}, seen + {v}, q + [Entry(v, d + 1)])
  {
    QSetSnoc(q, Entry(v, d + 1));
    assert (q + [Entry(v, d + 1)])[..|q0|] == q[..|q0|];
  }

  /** The inner loop of the search: every neighbour of `u` not yet seen is marked seen and
      queued at distance `d + 1`, in whatever order the neighbour set yields them. */
  method Visit(nb: map<string, set<string>>, u: string, d: int, seen0: set<string>, q0: seq<Entry>)
    returns (seen: set<string>, q: seq<Entry>)
    ensures VisitInv(Nbrs(nb, u), d, seen0, q0, {}, seen, q)
  {
    var rest := Nbrs(nb, u);
    seen, q := seen0, q0;
    VisitStart(rest, d, seen0, q0);
    while rest != {}
      invariant VisitInv(Nbrs(nb, u), d, seen0, q0, rest, seen, q)
      decreases |rest|
    {
      var v :| v in rest;
      if v !in seen {
        VisitAdd(Nbrs(nb, u), d, seen0, q0, rest, seen, q, v);
        seen := seen + {v};
        q := q + [Entry(v, d + 1)];
      } else {
        VisitSkip(Nbrs(nb, u), d, seen0, q0, rest, seen, q, v);
      }
      rest := rest - {v};
    }
  }

  /** `v` is exactly `d` steps from the center. */
  predicate AtDist(nb: map<string, set<string>>, c: string, v: string, d: int) {
    v in Ball(nb, c, d) && v !in Ball(nb, c, d - 1)
  }

  /** Once every vertex seen within `hops - 1` steps has all its neighbours seen, everything
      within `hops` steps is seen. */
  lemma {:induction false} BallInside(nb: map<string, set<string>>, c: string, hops: int, seen: set<string>, k: int)
    requires c in seen
    requires forall u :: u in seen && u in Ball(nb, c, hops - 1) ==> Nbrs(nb, u) <= seen
    requires k <= Max0(hops)
    ensures Ball(nb, c, k) <= seen
    decreases k
  {
    if k > 0 {
      BallInside(nb, c, hops, seen, k - 1);
      BallMono(nb, c, k - 1, hops - 1);
      forall w | w in Expand(nb, Ball(nb, c, k - 1))
        ensures w in seen
      {
        ExpandFrom(nb, Ball(nb, c, k - 1), w);
      }
    }
  }

  /** Distances along the queue never decrease. */
  predicate Sorted(q: seq<Entry>) {
    forall i, j :: 0 <= i <= j < |q| ==> q[i].d <= q[j].d
  }

  /** Distances along the queue exceed the front's by at most one. */
  predicate Span(q: seq<Entry>) {
    forall i :: 0 <= i < |q| ==> q[i].d <= q[0].d + 1
  }

  /** Every queued vertex carries its exact distance, at most `top`. */
  predicate Exact(nb: map<string, set<string>>, c: string, top: int, q: seq<Entry>) {
    forall i :: 0 <= i < |q| ==> 0 <= q[i].d <= top && AtDist(nb, c, q[i].v, q[i].d)
  }

  /** All vertices as close as the front entry are seen. */
  predicate FrontSeen(nb: map<string, set<string>>, c: string, q: seq<Entry>, seen: set<string>) {
    q != [] ==> Ball(nb, c, q[0].d) <= seen
  }

  /** Every processed vertex closer than `hops` has all its neighbours seen. */
  predicate Expanded(nb: map<string, set<string>>, c: string, hops: int, done: set<string>, seen: set<string>) {
    forall u :: u in done && u in Ball(nb, c, hops - 1) ==> Nbrs(nb, u) <= seen
  }

  /** What the search keeps: the center is seen; the seen vertices are the processed ones
      and the queued ones, all within `max(hops, 0)` steps; the queue is sorted by exact
      distance with a span of at most one; everything as close as the front is seen; and
      processed vertices closer than `hops` have all their neighbours seen. */
  predicate ReachInv(nb: map<string, set<string>>, c: string, hops: int, done: set<string>, seen: set<string>,
                     q: seq<Entry>)
  {
    && c in seen && seen == done + QSet(q)
    && seen <= Ball(nb, c, Max0(hops))
    && Exact(nb, c, Max0(hops), q) && Sorted(q) && Span(q)
    && FrontSeen(nb, c, q, seen)
    && Expanded(nb, c, hops, done, seen)
  }

  lemma ReachStart(nb: map<string, set<string>>, c: string, hops: int)
    ensures ReachInv(nb, c, hops, {}, {c}, [Entry(c, 0)])
  {
    var q := [Entry(c, 0)];
    assert QSet(q) == {c} by { assert q[..0] == []; }
    BallMono(nb, c, 0, Max0(hops));
  }

  /** Dropping the front keeps the queue sorted, spanning at most one, and exact. */
  lemma QueuePop(nb: map<string, set<string>>, c: string, top: int, q: seq<Entry>)
    requires q != [] && Sorted(q) && Span(q) && Exact(nb, c, top, q)
    ensures Sorted(q[1..]) && Span(q[1..]) && Exact(nb, c, top, q[1..])
    ensures q[1..] != [] ==> q[0].d <= q[1].d <= q[0].d + 1
  {
    var r := q[1..];
    forall i | 0 <= i < |r|
      ensures r[i].d <= r[0].d + 1
    {
      assert r[i] == q[i + 1] && r[0] == q[1];
    }
    forall i, j | 0 <= i <= j < |r|
      ensures r[i].d <= r[j].d
    {
      assert r[i] == q[i + 1] && r[j] == q[j + 1];
    }
    forall i | 0 <= i < |r|
      ensures 0 <= r[i].d <= top && AtDist(nb, c, r[i].v, r[i].d)
    {
      assert r[i] == q[i + 1];
    }
  }

  /** Appending entries at distance `d + 1` behind a queue whose distances lie in
      `[d, d + 1]` keeps it sorted and spanning at most one; when they carry their exact
      distance the result is exact. */
  lemma QueueAppend(nb: map<string, set<string>>, c: string, top: int, d: int, q0: seq<Entry>, q1: seq<Entry>)
    requires Sorted(q0) && Exact(nb, c, top, q0)
    requires forall i :: 0 <= i < |q0| ==> d <= q0[i].d <= d + 1
    requires |q0| <= |q1| && q1[..|q0|] == q0
    requires forall i :: |q0| <= i < |q1| ==> q1[i].d == d + 1 && 0 <= d + 1 <= top && AtDist(nb, c, q1[i].v, d + 1)
    ensures Sorted(q1) && Span(q1) && Exact(nb, c, top, q1)
    ensures q1 != [] ==> q1[0].d == d || q1[0].d == d + 1
  {
    forall i | 0 <= i < |q0|
      ensures q1[i] == q0[i]
    {
      assert q1[..|q0|][i] == q1[i];
    }
  }

  /** Popping an entry at distance `hops` or more leaves the front's distance unchanged:
      every queued distance is at most `max(hops, 0)`. */
  lemma SkipFront(nb: map<string, set<string>>, c: string, hops: int, seen: set<string>, q: seq<Entry>)
    requires q != [] && q[0].d >= hops && Sorted(q) && Exact(nb, c, Max0(hops), q)
    requires FrontSeen(nb, c, q, seen)
    ensures FrontSeen(nb, c, q[1..], seen)
  {
    if |q| > 1 {
      assert q[1..][0] == q[1];
      assert q[0].d <= q[1].d <= Max0(hops);
    }
  }

  /** A vertex at distance `hops` or more is not closer than `hops`, so processing it owes
      nothing. */
  lemma SkipExpanded(nb: map<string, set<string>>, c: string, hops: int, done: set<string>,
                     seen: set<string>, e: Entry)
    requires Expanded(nb, c, hops, done, seen) && AtDist(nb, c, e.v, e.d) && e.d >= hops
    ensures Expanded(nb, c, hops, done + {e.v}, seen)
  {
    BallMono(nb, c, hops - 1, e.d - 1);
  }

  /** Popping an entry at distance `hops` or more keeps the invariant. */
  lemma ReachSkip(nb: map<string, set<string>>, c: string, hops: int, done: set<string>, seen: set<string>,
                  q: seq<Entry>)
    requires ReachInv(nb, c, hops, done, seen, q) && q != [] && q[0].d >= hops
    ensures ReachInv(nb, c, hops, done + {q[0].v}, seen, q[1..])
  {
    QSetPop(q);
    QueuePop(nb, c, Max0(hops), q);
    SkipFront(nb, c, hops, seen, q);
    SkipExpanded(nb, c, hops, done, seen, q[0]);
  }

  /** The vertices a visit queues are exactly one step further than the vertex visited. */
  lemma NewEntries(nb: map<string, set<string>>, c: string, hops: int, seen: set<string>, e: Entry)
    requires 0 <= e.d < hops && AtDist(nb, c, e.v, e.d) && Ball(nb, c, e.d) <= seen
    ensures forall v :: v in Nbrs(nb, e.v) && v !in seen ==> AtDist(nb, c, v, e.d + 1) && v in Ball(nb, c, Max0(hops))
  {
    forall v | v in Nbrs(nb, e.v) && v !in seen
      ensures AtDist(nb, c, v, e.d + 1) && v in Ball(nb, c, Max0(hops))
    {
      BallStep(nb, c, e.d, e.v, v);
      BallMono(nb, c, e.d + 1, Max0(hops));
    }
  }

  /** When the front moves on to distance `d + 1`, every vertex within `d + 1` steps is seen:
      it is within `d` steps, or a neighbour of a processed vertex within `d` steps. */
  lemma FrontAdvance(nb: map<string, set<string>>, c: string, hops: int, d: int, done: set<string>,
                     seen: set<string>, q: seq<Entry>)
    requires 0 <= d < hops && Ball(nb, c, d) <= seen && seen == done + QSet(q)
    requires Expanded(nb, c, hops, done, seen)
    requires forall i :: 0 <= i < |q| ==> d + 1 <= q[i].d && AtDist(nb, c, q[i].v, q[i].d)
    ensures Ball(nb, c, d + 1) <= seen
  {
    forall w | w in Ball(nb, c, d + 1)
      ensures w in seen
    {
      if w !in Ball(nb, c, d) {
        ExpandFrom(nb, Ball(nb, c, d), w);
        var u :| u in Ball(nb, c, d) && w in Nbrs(nb, u);
        NeighboursSeen(nb, c, hops, d, done, seen, q, u);
      }
    }
  }

  /** A vertex within `d` steps has been processed, so its neighbours are seen. */
  lemma NeighboursSeen(nb: map<string, set<string>>, c: string, hops: int, d: int, done: set<string>,
                       seen: set<string>, q: seq<Entry>, u: string)
    requires 0 <= d < hops && u in Ball(nb, c, d) && Ball(nb, c, d) <= seen && seen == done + QSet(q)
    requires Expanded(nb, c, hops, done, seen)
    requires forall i :: 0 <= i < |q| ==> d + 1 <= q[i].d && AtDist(nb, c, q[i].v, q[i].d)
    ensures Nbrs(nb, u) <= seen
  {
    NotQueued(nb, c, d, q, u);
    assert u in done;
    BallMono(nb, c, d, hops - 1);
    assert u in Ball(nb, c, hops - 1);
  }

  /** A vertex within `d` steps is not in a queue whose entries are all farther away. */
  lemma NotQueued(nb: map<string, set<string>>, c: string, d: int, q: seq<Entry>, u: string)
    requires forall i :: 0 <= i < |q| ==> d + 1 <= q[i].d && AtDist(nb, c, q[i].v, q[i].d)
    requires u in Ball(nb, c, d)
    ensures u !in QSet(q)
  {
    forall i | 0 <= i < |q|
      ensures q[i].v != u
    {
      BallMono(nb, c, d, q[i].d - 1);
    }
    QSetMember(q, u);
  }

  /** After a visit every processed vertex closer than `hops`, the visited one included, has
      all its neighbours seen. */
  lemma VisitExpanded(nb: map<string, set<string>>, c: string, hops: int, done: set<string>,
                      seen: set<string>, u: string, seen1: set<string>)
    requires Expanded(nb, c, hops, done, seen) && seen1 == seen + Nbrs(nb, u)
    ensures Expanded(nb, c, hops, done + {u}, seen1)
  {
  }

  /** After a visit the front's distance is the visited one's or one more; either way all
      vertices as close as the front are seen. */
  lemma VisitFront(nb: map<string, set<string>>, c: string, hops: int, done: set<string>, e: Entry,
                   seen: set<string>, seen1: set<string>, q1: seq<Entry>)
    requires 0 <= e.d < hops && Ball(nb, c, e.d) <= seen <= seen1
    requires seen1 == done + QSet(q1) && Expanded(nb, c, hops, done, seen1)
    requires Sorted(q1) && Exact(nb, c, Max0(hops), q1)
    requires q1 != [] ==> q1[0].d == e.d || q1[0].d == e.d + 1
    ensures FrontSeen(nb, c, q1, seen1)
  {
    if q1 != [] && q1[0].d == e.d + 1 {
      forall i | 0 <= i < |q1|
        ensures e.d + 1 <= q1[i].d && AtDist(nb, c, q1[i].v, q1[i].d)
      {
        assert q1[0].d <= q1[i].d;
      }
      FrontAdvance(nb, c, hops, e.d, done, seen1, q1);
    }
  }

  /** The queue after a visit: the front popped and the newly seen neighbours appended at one
      step further, still sorted, spanning at most one and exact, with the visited vertex's
      distance or one more at the front. */
  lemma VisitQueue(nb: map<string, set<string>>, c: string, hops: int, seen: set<string>,
                   q: seq<Entry>, seen1: set<string>, q1: seq<Entry>)
    requires q != [] && 0 <= q[0].d < hops && Sorted(q) && Span(q) && Exact(nb, c, Max0(hops), q)
    requires Ball(nb, c, q[0].d) <= seen
    requires VisitInv(Nbrs(nb, q[0].v), q[0].d, seen, q[1..], {}, seen1, q1)
    ensures Sorted(q1) && Span(q1) && Exact(nb, c, Max0(hops), q1)
    ensures q1 != [] ==> q1[0].d == q[0].d || q1[0].d == q[0].d + 1
  {
    var e := q[0];
    QueuePop(nb, c, Max0(hops), q);
    NewEntries(nb, c, hops, seen, e);
    forall i | 0 <= i < |q[1..]|
      ensures e.d <= q[1..][i].d <= e.d + 1
    {
      assert q[1..][i] == q[i + 1];
    }
    QueueAppend(nb, c, Max0(hops), e.d, q[1..], q1);
  }

  /** Popping an entry closer than `hops` and visiting its neighbours keeps the invariant. */
  lemma ReachVisit(nb: map<string, set<string>>, c: string, hops: int, done: set<string>, seen: set<string>,
                   q: seq<Entry>, seen1: set<string>, q1: seq<Entry>)
    requires ReachInv(nb, c, hops, done, seen, q) && q != [] && q[0].d < hops
    requires VisitInv(Nbrs(nb, q[0].v), q[0].d, seen, q[1..], {}, seen1, q1)
    ensures ReachInv(nb, c, hops, done + {q[0].v}, seen1, q1)
  {
    var e := q[0];
    QSetPop(q);
    NewEntries(nb, c, hops, seen, e);
    VisitQueue(nb, c, hops, seen, q, seen1, q1);
    assert seen1 == done + {e.v} + QSet(q1);
    VisitExpanded(nb, c, hops, done, seen, e.v, seen1);
    VisitFront(nb, c, hops, done + {e.v}, e, seen, seen1, q1);
  }

  lemma {:induction false} SubsetCard(a: set<string>, b: set<string>)
    requires a <= b
    ensures |a| <= |b|
    decreases |a|
  {
    if a != {} {
      var x :| x in a;
      SubsetCard(a - {x}, b - {x});
    }
  }

  /** Adding vertices of `b` to `s` leaves fewer of `b` outside. */
  lemma Shrink(b: set<string>, s: set<string>, s1: set<string>)
    requires s <= s1 <= b && s != s1
    ensures |b - s1| < |b - s|
  {
    var w :| w in s1 && w !in s;
    SubsetCard(b - s1, (b - s) - {w});
  }

  /** The breadth-first search of `build_subgraph`: a queue of (vertex, distance) entries,
      expanding only entries closer than `hops`. The vertices it marks seen are exactly those
      within `max(hops, 0)` steps of the center. */
  method Reach(nb: map<string, set<string>>, c: string, hops: int) returns (seen: set<string>)
    ensures seen == Ball(nb, c, Max0(hops))
  {
    ghost var done: set<string> := {};
    seen := {c};
    var q := [Entry(c, 0)];
    ReachStart(nb, c, hops);
    while q != []
      invariant ReachInv(nb, c, hops, done, seen, q)
      decreases |Ball(nb, c, Max0(hops)) - seen|, |q|
    {
      var e := q[0];
      if e.d >= hops {
        ReachSkip(nb, c, hops, done, seen, q);
        q := q[1..];
        done := done + {e.v};
        continue;
      }
      var seen1, q1 := Visit(nb, e.v, e.d, seen, q[1..]);
      ReachVisit(nb, c, hops, done, seen, q, seen1, q1);
      if seen1 != seen {
        Shrink(Ball(nb, c, Max0(hops)), seen, seen1);
      }
      seen, q := seen1, q1;
      done := done + {e.v};
    }
    BallInside(nb, c, hops, seen, Max0(hops));
  }

  /** The ids of a node list. */
  function IdsOf(ns: seq<AdjNode>): set<string> {
    set i | 0 <= i < |ns| :: ns[i].id
  }

  function IdIn(s: set<string>): AdjNode -> bool { (n: AdjNode) => n.id in s }

  function EndsIn(s: set<string>): AdjEdge -> bool { (e: AdjEdge) => e.source in s && e.target in s }

  /** `build_subgraph(adj, center_id, hops)`: with no center the adjacency itself; otherwise the
      nodes within `max(hops, 0)` steps of the center, in input order, and the edges whose two
      endpoints are both among those nodes' ids, in input order. */
  function SubgraphSpec(adj: Adj, center: string, hops: int): Adj {
    if center == [] then adj
    else
      var ns := Filter(adj.nodes, IdIn(Ball(NbrsSpec(adj.edges), center, Max0(hops))));
      Adj(ns, Filter(adj.edges, EndsIn(IdsOf(ns))))
  }

  /** `build_subgraph(adj, center_id, hops)`. */
  method BuildSubgraph(adj: Adj, center: string, hops: int) returns (r: Adj)
    ensures r == SubgraphSpec(adj, center, hops)
  {
    if center == [] {
      return adj;
    }
    var nb := NeighbourMap(adj.edges);
    var seen := Reach(nb, center, hops);
    var subNodes := Filter(adj.nodes, IdIn(seen));
    var seenIds := IdsOf(subNodes);
    r := Adj(subNodes, Filter(adj.edges, EndsIn(seenIds)));
  }

  /** One more step reaches exactly the vertices already reached and those some edge links
      to a reached vertex. */
  lemma BallNext(es: seq<AdjEdge>, c: string, k: int, v: string)
    requires k >= 0
    ensures v in Ball(NbrsSpec(es), c, k + 1)
        <==> v in Ball(NbrsSpec(es), c, k) || exists u :: u in Ball(NbrsSpec(es), c, k) && Linked(es, u, v)
  {
    var nb := NbrsSpec(es);
    if v in Expand(nb, Ball(nb, c, k)) {
      ExpandFrom(nb, Ball(nb, c, k), v);
      var u :| u in Ball(nb, c, k) && v in Nbrs(nb, u);
      NbrsLinked(es, u, v);
    }
    if exists u :: u in Ball(nb, c, k) && Linked(es, u, v) {
      var u :| u in Ball(nb, c, k) && Linked(es, u, v);
      NbrsLinked(es, u, v);
      BallStep(nb, c, k, u, v);
    }
  }

  /** Without a center the adjacency is returned as it is. With one, a node is kept exactly when
      its id is within `max(hops, 0)` steps of the center, and an edge exactly when both its
      endpoints are ids of kept nodes; both lists keep their input order. */
  lemma SubgraphKeeps(adj: Adj, center: string, hops: int)
    ensures center == [] ==> SubgraphSpec(adj, center, hops) == adj
    ensures center != [] ==>
      forall n :: (n in SubgraphSpec(adj, center, hops).nodes
                   <==> n in adj.nodes && n.id in Ball(NbrsSpec(adj.edges), center, Max0(hops)))
    ensures center != [] ==>
      forall e :: (e in SubgraphSpec(adj, center, hops).edges
                   <==> (&& e in adj.edges
                         && e.source in IdsOf(SubgraphSpec(adj, center, hops).nodes)
                         && e.target in IdsOf(SubgraphSpec(adj, center, hops).nodes)))
    ensures IsSubsequence(SubgraphSpec(adj, center, hops).nodes, adj.nodes)
    ensures IsSubsequence(SubgraphSpec(adj, center, hops).edges, adj.edges)
  {
    if center == [] {
      SubsequenceRefl(adj.nodes);
      SubsequenceRefl(adj.edges);
    } else {
      var b := Ball(NbrsSpec(adj.edges), center, Max0(hops));
      var ns := Filter(adj.nodes, IdIn(b));
      forall n
        ensures n in ns <==> n in adj.nodes && n.id in b
      {
        FilterMember(adj.nodes, IdIn(b), n);
      }
      forall e
        ensures e in Filter(adj.edges, EndsIn(IdsOf(ns))) <==> e in adj.edges && e.source in IdsOf(ns) && e.target in IdsOf(ns)
      {
        FilterMember(adj.edges, EndsIn(IdsOf(ns)), e);
      }
      FilterIsSubsequence(adj.nodes, IdIn(b));
      FilterIsSubsequence(adj.edges, EndsIn(IdsOf(ns)));
    }
  }

  /** With `hops` zero or negative only nodes whose id is the center are kept. */
  lemma SubgraphNoHops(adj: Adj, center: string, hops: int, n: AdjNode)
    requires center != [] && hops <= 0
    ensures n in SubgraphSpec(adj, center, hops).nodes <==> n in adj.nodes && n.id == center
  {
    SubgraphKeeps(adj, center, hops);
  }

  /** The default single hop keeps the center and the nodes an edge links to it, in either
      direction. */
  lemma SubgraphOneHop(adj: Adj, center: string, n: AdjNode)
    requires center != []
    ensures n in SubgraphSpec(adj, center, 1).nodes
        <==> n in adj.nodes && (n.id == center || Linked(adj.edges, center, n.id))
  {
    SubgraphKeeps(adj, center, 1);
    BallNext(adj.edges, center, 0, n.id);
  }
}
