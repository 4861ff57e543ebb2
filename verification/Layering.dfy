/** Layering the cluster graph: every node one row below the deepest thing that points
    at it, found by a memoised search with a guard against cycles. */
module Layering {

  type Id = nat

  datatype Edge = Edge(from: Id, to: Id)

  // ------------------------------------------------------------------------ the graph

  /** Who points at a node. */
  function Parents(inc: map<Id, seq<Id>>, id: Id): seq<Id> {
    if id in inc then inc[id] else []
  }

  predicate Known(ids: set<Id>, e: Edge) { e.from in ids && e.to in ids }

  /** The edges turned round; one with an end that is not a node is ignored. */
  function Incoming(ids: set<Id>, edges: seq<Edge>): map<Id, seq<Id>> {
    if edges == [] then map[]
    else
      var inc, e := Incoming(ids, edges[..|edges| - 1]), edges[|edges| - 1];
      if Known(ids, e) then inc[e.to := Parents(inc, e.to) + [e.from]] else inc
  }

  method TurnRound(ids: set<Id>, edges: seq<Edge>) returns (inc: map<Id, seq<Id>>)
    ensures inc == Incoming(ids, edges)
  {
    inc := map[];
    for i := 0 to |edges|
      invariant inc == Incoming(ids, edges[..i])
    {
      assert edges[..i + 1][..i] == edges[..i];
      var e := edges[i];
      if e.from !in ids || e.to !in ids {
        continue;
      }
      inc := inc[e.to := (if e.to in inc then inc[e.to] else []) + [e.from]];
    }
    assert edges[..|edges|] == edges;
  }

  lemma {:induction false} IncomingIsEdges(ids: set<Id>, edges: seq<Edge>, from: Id, to: Id)
    ensures from in Parents(Incoming(ids, edges), to) <==> Edge(from, to) in edges && from in ids && to in ids
  {
    if edges != [] {
      var init, e := edges[..|edges| - 1], edges[|edges| - 1];
      assert edges == init + [e];
      IncomingIsEdges(ids, init, from, to);
    }
  }

  ghost predicate Closed(ids: set<Id>, inc: map<Id, seq<Id>>) {
    forall id, p :: p in Parents(inc, id) ==> p in ids
  }

  lemma IncomingIsClosed(ids: set<Id>, edges: seq<Edge>)
    ensures Closed(ids, Incoming(ids, edges))
  {
    forall id, p | p in Parents(Incoming(ids, edges), id)
      ensures p in ids
    {
      IncomingIsEdges(ids, edges, p, id);
    }
  }

  // ----------------------------------------------------------------------- the search

  function Max(a: nat, b: nat): nat { if a < b then b else a }

  /** The search from one node: what is remembered afterwards, and the node's depth. A
      node met again while it is still being worked out answers 0 and is not
      remembered. */
  function Resolve(ids: set<Id>, inc: map<Id, seq<Id>>, depth: map<Id, nat>, visiting: set<Id>, id: Id): (map<Id, nat>, nat)
    requires Closed(ids, inc) && id in ids
    decreases ids - visiting, 0
  {
    if id in depth then (depth, depth[id])
    else if id in visiting then (depth, 0)
    else
      var r := ResolveEach(ids, inc, depth, visiting + {id}, Parents(inc, id));
      var d := if Parents(inc, id) == [] then 0 else r.1 + 1;
      (r.0[id := d], d)
  }

  /** The search from several nodes in turn, and the deepest of them. */
  function ResolveEach(ids: set<Id>, inc: map<Id, seq<Id>>, depth: map<Id, nat>, visiting: set<Id>, ps: seq<Id>): (map<Id, nat>, nat)
    requires Closed(ids, inc) && forall p :: p in ps ==> p in ids
    decreases ids - visiting, |ps| + 1
  {
    if ps == [] then (depth, 0)
    else
      var r := ResolveEach(ids, inc, depth, visiting, ps[..|ps| - 1]);
      var x := Resolve(ids, inc, r.0, visiting, ps[|ps| - 1]);
      (x.0, Max(r.1, x.1))
  }

  class Search {
    const ids: set<Id>
    const inc: map<Id, seq<Id>>
    var depth: map<Id, nat>
    var visiting: set<Id>

    constructor (ids: set<Id>, inc: map<Id, seq<Id>>)
      ensures this.ids == ids && this.inc == inc && depth == map[] && visiting == {}
    {
      this.ids, this.inc, depth, visiting := ids, inc, map[], {};
    }

    method DepthOf(id: Id) returns (d: nat)
      requires Closed(ids, inc) && id in ids
      modifies this
      ensures (depth, d) == Resolve(ids, inc, old(depth), old(visiting), id)
      ensures visiting == old(visiting)
      decreases ids - visiting
    {
      if id in depth {
        return depth[id];
      }
      if id in visiting {
        return 0;
      }
      visiting := visiting + {id};
      var parents := if id in inc then inc[id] else [];
      var deepest := 0;
      assert parents == Parents(inc, id);
      for i := 0 to |parents|
        invariant visiting == old(visiting) + {id}
        invariant forall p :: p in parents ==> p in ids
        invariant (depth, deepest) == ResolveEach(ids, inc, old(depth), visiting, parents[..i])
      {
        assert parents[..i + 1][..i] == parents[..i];
        var p := DepthOf(parents[i]);
        deepest := Max(deepest, p);
      }
      assert parents[..|parents|] == parents;
      d := if |parents| == 0 then 0 else deepest + 1;
      visiting := visiting - {id};
      depth := depth[id := d];
    }

    method DepthOfAll(nodes: seq<Id>)
      requires Closed(ids, inc) && forall n :: n in nodes ==> n in ids
      modifies this
      ensures depth == ResolveEach(ids, inc, old(depth), old(visiting), nodes).0
      ensures visiting == old(visiting)
    {
      for i := 0 to |nodes|
        invariant visiting == old(visiting)
        invariant depth == ResolveEach(ids, inc, old(depth), old(visiting), nodes[..i]).0
      {
        assert nodes[..i + 1][..i] == nodes[..i];
        var _ := DepthOf(nodes[i]);
      }
      assert nodes[..|nodes|] == nodes;
    }
  }

  // ---------------------------------------------------------------- paths and settledness

  /** A walk along edges, from its first node to its last. */
  predicate Path(inc: map<Id, seq<Id>>, p: seq<Id>) {
    p != [] && forall k :: 0 < k < |p| ==> p[k - 1] in Parents(inc, p[k])
  }

  ghost predicate Acyclic(inc: map<Id, seq<Id>>) {
    forall p :: Path(inc, p) && |p| >= 2 ==> p[0] != p[|p| - 1]
  }

  predicate AllIn(ps: seq<Id>, depth: map<Id, nat>) {
    forall p :: p in ps ==> p in depth
  }

  function Top(depth: map<Id, nat>, ps: seq<Id>): nat
    requires AllIn(ps, depth)
  {
    if ps == [] then 0 else Max(Top(depth, ps[..|ps| - 1]), depth[ps[|ps| - 1]])
  }

  predicate SettledAt(inc: map<Id, seq<Id>>, depth: map<Id, nat>, id: Id)
    requires id in depth
  {
    var ps := Parents(inc, id);
    AllIn(ps, depth) && depth[id] == if ps == [] then 0 else Top(depth, ps) + 1
  }

  /** Every remembered depth is one more than the deepest parent's. */
  predicate Settled(inc: map<Id, seq<Id>>, depth: map<Id, nat>) {
    forall id :: id in depth ==> SettledAt(inc, depth, id)
  }

  predicate Extends(small: map<Id, nat>, large: map<Id, nat>) {
    forall id :: id in small ==> id in large && large[id] == small[id]
  }

  lemma {:induction false} TopStable(small: map<Id, nat>, large: map<Id, nat>, ps: seq<Id>)
    requires Extends(small, large) && AllIn(ps, small)
    ensures AllIn(ps, large) && Top(large, ps) == Top(small, ps)
  {
    if ps != [] {
      TopStable(small, large, ps[..|ps| - 1]);
    }
  }

  lemma {:induction false} TopBounds(depth: map<Id, nat>, ps: seq<Id>, p: Id)
    requires AllIn(ps, depth) && p in ps
    ensures depth[p] <= Top(depth, ps)
  {
    var init, last := ps[..|ps| - 1], ps[|ps| - 1];
    assert ps == init + [last];
    if p != last {
      TopBounds(depth, init, p);
    }
  }

  lemma {:induction false} TopReached(depth: map<Id, nat>, ps: seq<Id>) returns (p: Id)
    requires AllIn(ps, depth) && ps != []
    ensures p in ps && depth[p] == Top(depth, ps)
  {
    var init, last := ps[..|ps| - 1], ps[|ps| - 1];
    p := last;
    if init != [] && Top(depth, init) > depth[last] {
      p := TopReached(depth, init);
      assert p in init;
    }
  }

  lemma SettledGrows(inc: map<Id, seq<Id>>, depth: map<Id, nat>, id: Id, d: nat)
    requires Settled(inc, depth)
    requires AllIn(Parents(inc, id), depth)
    requires d == if Parents(inc, id) == [] then 0 else Top(depth, Parents(inc, id)) + 1
    ensures Settled(inc, depth[id := d]) && Extends(depth, depth[id := d])
  {
    var after := depth[id := d];
    assert id in depth ==> SettledAt(inc, depth, id);
    forall x | x in after
      ensures SettledAt(inc, after, x)
    {
      if x != id {
        assert SettledAt(inc, depth, x);
      }
      TopStable(depth, after, Parents(inc, x));
    }
  }

  lemma PathGrows(inc: map<Id, seq<Id>>, p: Id, path: seq<Id>)
    requires Path(inc, path) && p in Parents(inc, path[0])
    ensures Path(inc, [p] + path)
  {
    var q := [p] + path;
    forall k | 0 < k < |q|
      ensures q[k - 1] in Parents(inc, q[k])
    {
      if k > 1 {
        assert q[k - 1] == path[k - 2] && q[k] == path[k - 1];
      }
    }
  }

  /** Without cycles the guard never fires: what is being visited lies further along
      the walk. */
  lemma NotVisiting(inc: map<Id, seq<Id>>, visiting: set<Id>, id: Id, stack: seq<Id>)
    requires Acyclic(inc) && Path(inc, [id] + stack)
    requires forall v :: v in visiting ==> v in stack
    ensures id !in visiting
  {
    forall k | 0 <= k < |stack|
      ensures stack[k] != id
    {
      var q := ([id] + stack)[..k + 2];
      assert Path(inc, q) && q[0] == id && q[|q| - 1] == stack[k];
    }
  }

  lemma {:induction false} ResolveSettles(ids: set<Id>, inc: map<Id, seq<Id>>, depth: map<Id, nat>, visiting: set<Id>, id: Id, stack: seq<Id>)
    requires Closed(ids, inc) && id in ids && Acyclic(inc) && Settled(inc, depth)
    requires Path(inc, [id] + stack) && forall v :: v in visiting ==> v in stack
    ensures var r := Resolve(ids, inc, depth, visiting, id);
            Settled(inc, r.0) && Extends(depth, r.0) && id in r.0 && r.0[id] == r.1
    decreases ids - visiting, 0
  {
    hide Acyclic, Settled, Path;
    NotVisiting(inc, visiting, id, stack);
    if id !in depth {
      var ps := Parents(inc, id);
      forall p | p in ps
        ensures Path(inc, [p] + ([id] + stack))
      {
        PathGrows(inc, p, [id] + stack);
      }
      ResolveEachSettles(ids, inc, depth, visiting + {id}, ps, [id] + stack);
      var r := ResolveEach(ids, inc, depth, visiting + {id}, ps);
      SettledGrows(inc, r.0, id, if ps == [] then 0 else r.1 + 1);
    }
  }

  lemma {:induction false} ResolveEachSettles(ids: set<Id>, inc: map<Id, seq<Id>>, depth: map<Id, nat>, visiting: set<Id>, ps: seq<Id>, stack: seq<Id>)
    requires Closed(ids, inc) && (forall p :: p in ps ==> p in ids) && Acyclic(inc) && Settled(inc, depth)
    requires (forall p :: p in ps ==> Path(inc, [p] + stack)) && forall v :: v in visiting ==> v in stack
    ensures var r := ResolveEach(ids, inc, depth, visiting, ps);
            Settled(inc, r.0) && Extends(depth, r.0) && AllIn(ps, r.0) && r.1 == Top(r.0, ps)
    decreases ids - visiting, |ps| + 1
  {
    hide Acyclic, Settled, Path;
    if ps != [] {
      var init, last := ps[..|ps| - 1], ps[|ps| - 1];
      assert ps == init + [last];
      ResolveEachSettles(ids, inc, depth, visiting, init, stack);
      var r := ResolveEach(ids, inc, depth, visiting, init);
      ResolveSettles(ids, inc, r.0, visiting, last, stack);
      var x := Resolve(ids, inc, r.0, visiting, last);
      TopStable(r.0, x.0, init);
    }
  }

  // --------------------------------------------------------------- depth is longest path

  lemma ParentIsAbove(inc: map<Id, seq<Id>>, depth: map<Id, nat>, from: Id, to: Id)
    requires Settled(inc, depth) && to in depth && from in Parents(inc, to)
    ensures from in depth && depth[from] < depth[to]
  {
    assert SettledAt(inc, depth, to);
    TopBounds(depth, Parents(inc, to), from);
  }

  lemma {:induction false} NoWalkIsLonger(inc: map<Id, seq<Id>>, depth: map<Id, nat>, p: seq<Id>)
    requires Settled(inc, depth) && Path(inc, p) && p[|p| - 1] in depth
    ensures |p| - 1 <= depth[p[|p| - 1]]
  {
    hide Settled, Parents;
    if |p| > 1 {
      hide Path;
      ParentIsAbove(inc, depth, p[|p| - 2], p[|p| - 1]);
      NoWalkIsLonger(inc, depth, p[..|p| - 1]);
    }
  }

  /** A walk from a node nothing points at. */
  predicate FromSource(inc: map<Id, seq<Id>>, p: seq<Id>, id: Id) {
    Path(inc, p) && Parents(inc, p[0]) == [] && p[|p| - 1] == id
  }

  lemma {:induction false} SomeWalkIsAsLong(inc: map<Id, seq<Id>>, depth: map<Id, nat>, id: Id) returns (p: seq<Id>)
    requires Settled(inc, depth) && id in depth
    ensures FromSource(inc, p, id) && |p| - 1 == depth[id]
    decreases depth[id]
  {
    assert SettledAt(inc, depth, id);
    var ps := Parents(inc, id);
    if ps == [] {
      p := [id];
    } else {
      var q := TopReached(depth, ps);
      var w := SomeWalkIsAsLong(inc, depth, q);
      p := w + [id];
      assert p[|w| - 1] == q;
    }
  }

  ghost predicate LongestFromSource(inc: map<Id, seq<Id>>, id: Id, d: nat) {
    && (forall p :: Path(inc, p) && p[|p| - 1] == id ==> |p| - 1 <= d)
    && exists p :: FromSource(inc, p, id) && |p| - 1 == d
  }

  /** On a graph without cycles, from an empty memory and in whatever order the nodes
      are asked for, every depth is the length of the longest walk from a source. */
  lemma DepthIsLongestWalk(ids: set<Id>, inc: map<Id, seq<Id>>, nodes: seq<Id>, id: Id)
    requires Closed(ids, inc) && Acyclic(inc)
    requires (forall n :: n in nodes ==> n in ids) && id in nodes
    ensures var depth := ResolveEach(ids, inc, map[], {}, nodes).0;
            id in depth && LongestFromSource(inc, id, depth[id])
  {
    hide Acyclic, ResolveEach;
    var depth := ResolveEach(ids, inc, map[], {}, nodes).0;
    AllSettled(ids, inc, nodes);
    forall p | Path(inc, p) && p[|p| - 1] == id
      ensures |p| - 1 <= depth[id]
    {
      NoWalkIsLonger(inc, depth, p);
    }
    var p := SomeWalkIsAsLong(inc, depth, id);
  }

  lemma AllSettled(ids: set<Id>, inc: map<Id, seq<Id>>, nodes: seq<Id>)
    requires Closed(ids, inc) && Acyclic(inc) && forall n :: n in nodes ==> n in ids
    ensures var depth := ResolveEach(ids, inc, map[], {}, nodes).0;
            Settled(inc, depth) && AllIn(nodes, depth)
  {
    hide Acyclic, ResolveEach;
    ResolveEachSettles(ids, inc, map[], {}, nodes, []);
  }

  // -------------------------------------------------------------- down, and contiguous

  function DepthIn(depth: map<Id, nat>, id: Id): nat {
    if id in depth then depth[id] else 0
  }

  predicate EdgeDown(depth: map<Id, nat>, from: Id, to: Id) { DepthIn(depth, from) < DepthIn(depth, to) }

  ghost predicate EdgesGoDown(inc: map<Id, seq<Id>>, depth: map<Id, nat>) {
    forall from, to :: from in Parents(inc, to) ==> EdgeDown(depth, from, to)
  }

  lemma {:induction false} WalksGoDown(inc: map<Id, seq<Id>>, depth: map<Id, nat>, p: seq<Id>)
    requires EdgesGoDown(inc, depth) && Path(inc, p)
    ensures DepthIn(depth, p[0]) + |p| - 1 <= DepthIn(depth, p[|p| - 1])
  {
    hide Parents;
    if |p| > 1 {
      WalksGoDown(inc, depth, p[..|p| - 1]);
      assert EdgeDown(depth, p[|p| - 2], p[|p| - 1]);
    }
  }

  /** Every edge of the drawing goes strictly down exactly when the graph has no cycle. */
  lemma EdgesGoDownIff(ids: set<Id>, inc: map<Id, seq<Id>>, nodes: seq<Id>)
    requires Closed(ids, inc) && (forall id :: id in ids <==> id in nodes) && inc.Keys <= ids
    ensures EdgesGoDown(inc, ResolveEach(ids, inc, map[], {}, nodes).0) <==> Acyclic(inc)
  {
    hide ResolveEach, Settled;
    var depth := ResolveEach(ids, inc, map[], {}, nodes).0;
    if Acyclic(inc) {
      AllSettled(ids, inc, nodes);
      forall from, to | from in Parents(inc, to)
        ensures EdgeDown(depth, from, to)
      {
        ParentIsAbove(inc, depth, from, to);
      }
    }
    if EdgesGoDown(inc, depth) {
      forall p | Path(inc, p) && |p| >= 2
        ensures p[0] != p[|p| - 1]
      {
        WalksGoDown(inc, depth, p);
      }
    }
  }

  ghost predicate Occupied(depth: map<Id, nat>, nodes: seq<Id>, t: nat) {
    exists n :: n in nodes && DepthIn(depth, n) == t
  }

  /** Tiers are contiguous: above an occupied tier every tier is occupied. */
  lemma {:induction false} TiersAreContiguous(inc: map<Id, seq<Id>>, depth: map<Id, nat>, nodes: seq<Id>, id: Id, t: nat)
    requires Settled(inc, depth) && AllIn(nodes, depth) && id in nodes && t <= depth[id]
    requires forall n, p :: n in nodes && p in Parents(inc, n) ==> p in nodes
    ensures Occupied(depth, nodes, t)
    decreases depth[id]
  {
    if t < depth[id] {
      assert SettledAt(inc, depth, id);
      var ps := Parents(inc, id);
      var q := TopReached(depth, ps);
      TiersAreContiguous(inc, depth, nodes, q, t);
    }
  }

  // ------------------------------------------------------------- on any graph whatever

  predicate Grows(small: map<Id, nat>, large: map<Id, nat>) {
    forall id :: id in small ==> id in large
  }

  lemma {:induction false} ResolveRemembers(ids: set<Id>, inc: map<Id, seq<Id>>, depth: map<Id, nat>, visiting: set<Id>, id: Id)
    requires Closed(ids, inc) && id in ids
    ensures var r := Resolve(ids, inc, depth, visiting, id);
            Grows(depth, r.0) && (id in r.0 || id in visiting)
    decreases ids - visiting, 0
  {
    if id !in depth && id !in visiting {
      ResolveEachRemembers(ids, inc, depth, visiting + {id}, Parents(inc, id));
    }
  }

  lemma {:induction false} ResolveEachRemembers(ids: set<Id>, inc: map<Id, seq<Id>>, depth: map<Id, nat>, visiting: set<Id>, ps: seq<Id>)
    requires Closed(ids, inc) && forall p :: p in ps ==> p in ids
    ensures var r := ResolveEach(ids, inc, depth, visiting, ps);
            Grows(depth, r.0) && forall p :: p in ps ==> p in r.0 || p in visiting
    decreases ids - visiting, |ps| + 1
  {
    if ps != [] {
      var init, last := ps[..|ps| - 1], ps[|ps| - 1];
      assert ps == init + [last];
      ResolveEachRemembers(ids, inc, depth, visiting, init);
      ResolveRemembers(ids, inc, ResolveEach(ids, inc, depth, visiting, init).0, visiting, last);
    }
  }

  /** Cycles or not, every node asked for ends with a depth. */
  lemma EveryNodeHasADepth(ids: set<Id>, inc: map<Id, seq<Id>>, nodes: seq<Id>)
    requires Closed(ids, inc) && forall n :: n in nodes ==> n in ids
    ensures AllIn(nodes, ResolveEach(ids, inc, map[], {}, nodes).0)
  {
    hide ResolveEach;
    ResolveEachRemembers(ids, inc, map[], {}, nodes);
  }

  // ------------------------------------------------------------ where a tier can be missing

  ghost predicate Reached(depth: map<Id, nat>, d: nat) {
    exists id :: id in depth && depth[id] == d
  }

  ghost predicate SteppedAt(inc: map<Id, seq<Id>>, depth: map<Id, nat>, id: Id)
    requires id in depth
  {
    && (depth[id] == 0 <==> Parents(inc, id) == [])
    && (depth[id] >= 2 ==> Reached(depth, depth[id] - 1))
  }

  /** Depth 0 is for the sources alone, and a depth of two or more stands on one less. */
  ghost predicate Stepped(inc: map<Id, seq<Id>>, depth: map<Id, nat>) {
    forall id :: id in depth ==> SteppedAt(inc, depth, id)
  }

  lemma SteppedGrows(inc: map<Id, seq<Id>>, depth: map<Id, nat>, id: Id, d: nat)
    requires Stepped(inc, depth) && id !in depth
    requires (d == 0 <==> Parents(inc, id) == []) && (d >= 2 ==> Reached(depth, d - 1))
    ensures Stepped(inc, depth[id := d])
  {
    var after := depth[id := d];
    forall e: nat | Reached(depth, e)
      ensures Reached(after, e)
    {
      var x :| x in depth && depth[x] == e;
      assert after[x] == e;
    }
    forall x | x in after
      ensures SteppedAt(inc, after, x)
    {
      if x != id {
        assert SteppedAt(inc, depth, x);
      }
    }
  }

  /** What a search adds: nothing remembered changes, and nothing being visited is added. */
  ghost predicate Adds(inc: map<Id, seq<Id>>, before: map<Id, nat>, visiting: set<Id>, r: (map<Id, nat>, nat)) {
    && Extends(before, r.0) && Stepped(inc, r.0)
    && (forall v :: v in visiting && v in r.0 ==> v in before)
    && (r.1 >= 1 ==> Reached(r.0, r.1))
  }

  lemma {:induction false} ResolveAdds(ids: set<Id>, inc: map<Id, seq<Id>>, depth: map<Id, nat>, visiting: set<Id>, id: Id)
    requires Closed(ids, inc) && id in ids && Stepped(inc, depth)
    ensures Adds(inc, depth, visiting, Resolve(ids, inc, depth, visiting, id))
    decreases ids - visiting, 0
  {
    hide Stepped, ResolveEach, SteppedAt, Closed;
    if id !in depth && id !in visiting {
      var ps := Parents(inc, id);
      ResolveEachAdds(ids, inc, depth, visiting + {id}, ps) by {
        assert Closed(ids, inc);
        ParentsKnown(ids, inc, id);
      }
      ParentsKnown(ids, inc, id);
      var r := ResolveEach(ids, inc, depth, visiting + {id}, ps);
      assert id in visiting + {id};
      var d := if ps == [] then 0 else r.1 + 1;
      SteppedGrows(inc, r.0, id, d);
      assert r.0[id := d][id] == d;
    }
  }

  lemma ParentsKnown(ids: set<Id>, inc: map<Id, seq<Id>>, id: Id)
    requires Closed(ids, inc)
    ensures forall p :: p in Parents(inc, id) ==> p in ids
  {
  }

  lemma {:induction false} ResolveEachAdds(ids: set<Id>, inc: map<Id, seq<Id>>, depth: map<Id, nat>, visiting: set<Id>, ps: seq<Id>)
    requires Closed(ids, inc) && (forall p :: p in ps ==> p in ids) && Stepped(inc, depth)
    ensures Adds(inc, depth, visiting, ResolveEach(ids, inc, depth, visiting, ps))
    decreases ids - visiting, |ps| + 1
  {
    hide Stepped, Resolve, Closed;
    if ps != [] {
      var init, last := ps[..|ps| - 1], ps[|ps| - 1];
      assert ps == init + [last];
      ResolveEachAdds(ids, inc, depth, visiting, init);
      var r := ResolveEach(ids, inc, depth, visiting, init);
      ResolveAdds(ids, inc, r.0, visiting, last);
      var x := Resolve(ids, inc, r.0, visiting, last);
      if r.1 >= 1 {
        var n :| n in r.0 && r.0[n] == r.1;
        assert x.0[n] == r.1;
      }
    }
  }

  /** On any graph, cycles and all: a node is at depth 0 exactly when nothing points at
      it, and below every depth from 2 up the depth one less is taken. */
  lemma DepthsStep(ids: set<Id>, inc: map<Id, seq<Id>>, nodes: seq<Id>)
    requires Closed(ids, inc) && forall n :: n in nodes ==> n in ids
    ensures Stepped(inc, ResolveEach(ids, inc, map[], {}, nodes).0)
  {
    hide ResolveEach;
    ResolveEachAdds(ids, inc, map[], {}, nodes);
  }

  lemma {:induction false} DepthsRemember(ids: set<Id>, inc: map<Id, seq<Id>>, depth: map<Id, nat>, visiting: set<Id>, ps: seq<Id>)
    requires Closed(ids, inc) && (forall p :: p in ps ==> p in ids) && depth.Keys <= ids
    ensures ResolveEach(ids, inc, depth, visiting, ps).0.Keys <= ids
    decreases ids - visiting, |ps| + 1
  {
    if ps != [] {
      var init, last := ps[..|ps| - 1], ps[|ps| - 1];
      assert ps == init + [last];
      DepthsRemember(ids, inc, depth, visiting, init);
      var r := ResolveEach(ids, inc, depth, visiting, init);
      if last !in r.0 && last !in visiting {
        DepthsRemember(ids, inc, r.0, visiting + {last}, Parents(inc, last));
      }
    }
  }
}
