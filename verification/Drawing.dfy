/** Placing the layered graph: rows of boxes, one row a tier, on a canvas sized to the
    widest and to the number of rows. A position is the centre of its box. */
module Drawing {
  import opened Layering

  const NODE_W: real := 244.0
  const NODE_H: real := 88.0
  const GAP_X: real := 40.0
  const ROW_H: real := 186.0
  const TOP: real := 92.0

  datatype Node = Node(id: Id, name: string)

  datatype Placed = Placed(node: Node, x: real, y: real, tier: nat)

  datatype Drawing = Drawing(placed: seq<Placed>, tiers: seq<nat>, width: real, height: real)

  // ---------------------------------------------------------------------------- tiers

  function Ids(nodes: seq<Node>): seq<Id> {
    if nodes == [] then [] else Ids(nodes[..|nodes| - 1]) + [nodes[|nodes| - 1].id]
  }

  lemma {:induction false} IdsAt(nodes: seq<Node>)
    ensures |Ids(nodes)| == |nodes| && forall i :: 0 <= i < |nodes| ==> Ids(nodes)[i] == nodes[i].id
  {
    if nodes != [] {
      IdsAt(nodes[..|nodes| - 1]);
    }
  }

  function IdSet(nodes: seq<Node>): set<Id> { set id | id in Ids(nodes) }

  function Graph(nodes: seq<Node>, edges: seq<Edge>): map<Id, seq<Id>> { Incoming(IdSet(nodes), edges) }

  function InTier(nodes: seq<Node>, depth: map<Id, nat>, t: nat): seq<Node> {
    if nodes == [] then []
    else
      var init, n := InTier(nodes[..|nodes| - 1], depth, t), nodes[|nodes| - 1];
      if DepthIn(depth, n.id) == t then init + [n] else init
  }

  /** The tiers that hold anything. */
  function TierSet(nodes: seq<Node>, depth: map<Id, nat>): set<nat> {
    if nodes == [] then {} else TierSet(nodes[..|nodes| - 1], depth) + {DepthIn(depth, nodes[|nodes| - 1].id)}
  }

  method ByTier(nodes: seq<Node>, depth: map<Id, nat>) returns (byTier: map<nat, seq<Node>>)
    ensures byTier.Keys == TierSet(nodes, depth)
    ensures forall t :: t in byTier ==> byTier[t] == InTier(nodes, depth, t) && byTier[t] != []
  {
    byTier := map[];
    for i := 0 to |nodes|
      invariant byTier.Keys == TierSet(nodes[..i], depth)
      invariant forall t :: t in byTier ==> byTier[t] == InTier(nodes[..i], depth, t) && byTier[t] != []
      invariant forall t :: t !in byTier ==> InTier(nodes[..i], depth, t) == []
    {
      assert nodes[..i + 1][..i] == nodes[..i];
      var n := nodes[i];
      var d := if n.id in depth then depth[n.id] else 0;
      byTier := byTier[d := (if d in byTier then byTier[d] else []) + [n]];
    }
    assert nodes[..|nodes|] == nodes;
  }

  predicate Ascending(s: seq<nat>) {
    forall i, j :: 0 <= i < j < |s| ==> s[i] < s[j]
  }

  lemma {:induction false} LeastExists(s: set<nat>) returns (m: nat)
    requires s != {}
    ensures m in s && forall k :: k in s ==> m <= k
  {
    m :| m in s;
    if s != {m} {
      var rest := s - {m};
      var r := LeastExists(rest);
      assert forall k :: k in s ==> k == m || k in rest;
      if r < m {
        m := r;
      }
    } else {
      assert forall k :: k in s ==> k == m;
    }
  }

  /** The tiers in numeric order. */
  method SortTiers(s: set<nat>) returns (tiers: seq<nat>)
    ensures Ascending(tiers) && forall t :: t in tiers <==> t in s
  {
    tiers := [];
    var rest := s;
    while rest != {}
      invariant Ascending(tiers) && rest <= s
      invariant forall t :: t in tiers <==> t in s - rest
      invariant forall t, r :: t in tiers && r in rest ==> t < r
      decreases rest
    {
      ghost var least := LeastExists(rest);
      var t :| t in rest && forall k :: k in rest ==> t <= k;
      assert forall i :: 0 <= i < |tiers| ==> tiers[i] in tiers;
      tiers, rest := tiers + [t], rest - {t};
    }
  }

  // ------------------------------------------------------------------------- placement

  function RMax(a: real, b: real): real { if a < b then b else a }

  /** The most nodes any of the tiers holds, and at least one. */
  function Widest(nodes: seq<Node>, depth: map<Id, nat>, tiers: seq<nat>): nat {
    if tiers == [] then 1
    else Max(Widest(nodes, depth, tiers[..|tiers| - 1]), |InTier(nodes, depth, tiers[|tiers| - 1])|)
  }

  function Width(minWidth: real, widest: nat): real {
    RMax(minWidth, widest as real * (NODE_W + GAP_X) + GAP_X)
  }

  function StartX(count: nat, width: real): real {
    (width - (count as real * (NODE_W + GAP_X) - GAP_X)) / 2.0 + NODE_W / 2.0
  }

  function RowY(tier: nat): real { TOP + tier as real * ROW_H }

  /** Where the i-th node of a tier of `count` goes. */
  function At(n: Node, i: nat, count: nat, tier: nat, width: real): Placed {
    Placed(n, StartX(count, width) + i as real * (NODE_W + GAP_X), RowY(tier), tier)
  }

  /** One tier laid out left to right and centred. */
  function Row(ns: seq<Node>, tier: nat, width: real): (row: seq<Placed>)
    ensures |row| == |ns|
    ensures forall i :: 0 <= i < |ns| ==> row[i] == At(ns[i], i, |ns|, tier, width)
  {
    seq(|ns|, i requires 0 <= i < |ns| => At(ns[i], i, |ns|, tier, width))
  }

  /** How a tier is ordered is not part of the model: `arrange` is any reordering. */
  ghost predicate Reorders(arrange: seq<Node> -> seq<Node>) {
    forall ns :: multiset(arrange(ns)) == multiset(ns) && |arrange(ns)| == |ns|
  }

  function Rows(nodes: seq<Node>, depth: map<Id, nat>, tiers: seq<nat>, width: real, arrange: seq<Node> -> seq<Node>): seq<Placed> {
    if tiers == [] then []
    else
      var t := tiers[|tiers| - 1];
      Rows(nodes, depth, tiers[..|tiers| - 1], width, arrange) + Row(arrange(InTier(nodes, depth, t)), t, width)
  }

  function Height(tiers: nat): real { TOP + tiers as real * ROW_H + 40.0 }

  /** What a layout of some nodes at some depths is. */
  ghost predicate IsLayout(d: Drawing, nodes: seq<Node>, depth: map<Id, nat>, minWidth: real, arrange: seq<Node> -> seq<Node>) {
    && Ascending(d.tiers)
    && (forall t :: t in d.tiers <==> t in TierSet(nodes, depth))
    && d.width == Width(minWidth, Widest(nodes, depth, d.tiers))
    && d.placed == Rows(nodes, depth, d.tiers, d.width, arrange)
    && d.height == Height(|d.tiers|)
  }

  method LayRow(ns: seq<Node>, tier: nat, width: real) returns (row: seq<Placed>)
    ensures row == Row(ns, tier, width)
  {
    row := [];
    var span := |ns| as real * (NODE_W + GAP_X) - GAP_X;
    var startX := (width - span) / 2.0 + NODE_W / 2.0;
    var y := TOP + tier as real * ROW_H;
    for i := 0 to |ns|
      invariant |row| == i && forall k :: 0 <= k < i ==> row[k] == At(ns[k], k, |ns|, tier, width)
    {
      row := row + [Placed(ns[i], startX + i as real * (NODE_W + GAP_X), y, tier)];
    }
  }

  method WidestOf(byTier: map<nat, seq<Node>>, tiers: seq<nat>, ghost nodes: seq<Node>, ghost depth: map<Id, nat>) returns (widest: nat)
    requires forall t :: t in tiers ==> t in byTier && byTier[t] == InTier(nodes, depth, t)
    ensures widest == Widest(nodes, depth, tiers)
  {
    widest := 1;
    for i := 0 to |tiers|
      invariant widest == Widest(nodes, depth, tiers[..i])
    {
      assert tiers[..i + 1][..i] == tiers[..i];
      assert tiers[i] in tiers;
      widest := Max(widest, |byTier[tiers[i]]|);
    }
    assert tiers[..|tiers|] == tiers;
  }

  method LayRows(byTier: map<nat, seq<Node>>, tiers: seq<nat>, width: real, arrange: seq<Node> -> seq<Node>,
                 ghost nodes: seq<Node>, ghost depth: map<Id, nat>) returns (placed: seq<Placed>)
    requires forall t :: t in tiers ==> t in byTier && byTier[t] == InTier(nodes, depth, t)
    ensures placed == Rows(nodes, depth, tiers, width, arrange)
  {
    hide Row, InTier;
    placed := [];
    for i := 0 to |tiers|
      invariant placed == Rows(nodes, depth, tiers[..i], width, arrange)
    {
      assert tiers[..i + 1][..i] == tiers[..i];
      assert tiers[i] in tiers;
      var row := LayRow(arrange(byTier[tiers[i]]), tiers[i], width);
      placed := placed + row;
    }
    assert tiers[..|tiers|] == tiers;
  }

  method Place(nodes: seq<Node>, depth: map<Id, nat>, minWidth: real, arrange: seq<Node> -> seq<Node>) returns (d: Drawing)
    ensures IsLayout(d, nodes, depth, minWidth, arrange)
  {
    hide Rows, Widest, InTier, TierSet;
    var byTier := ByTier(nodes, depth);
    var tiers := SortTiers(byTier.Keys);
    var widest := WidestOf(byTier, tiers, nodes, depth);
    var width := RMax(minWidth, widest as real * (NODE_W + GAP_X) + GAP_X);
    var placed := LayRows(byTier, tiers, width, arrange, nodes, depth);
    d := Drawing(placed, tiers, width, TOP + |tiers| as real * ROW_H + 40.0);
  }

  /** The depths a graph's nodes are given. */
  function Depths(nodes: seq<Node>, edges: seq<Edge>): map<Id, nat>
  {
    IncomingIsClosed(IdSet(nodes), edges);
    ResolveEach(IdSet(nodes), Graph(nodes, edges), map[], {}, Ids(nodes)).0
  }

  method Layout(nodes: seq<Node>, edges: seq<Edge>, minWidth: real, arrange: seq<Node> -> seq<Node>) returns (d: Drawing)
    ensures IsLayout(d, nodes, Depths(nodes, edges), minWidth, arrange)
  {
    var known := Ids(nodes);
    var ids := set id | id in known;
    var inc := TurnRound(ids, edges);
    IncomingIsClosed(ids, edges);
    var search := new Search(ids, inc);
    search.DepthOfAll(known);
    d := Place(nodes, search.depth, minWidth, arrange);
  }

  // ------------------------------------------------------------------ nothing overlaps

  function Abs(x: real): real { if x < 0.0 then -x else x }

  predicate Overlap(p: Placed, q: Placed) {
    Abs(p.x - q.x) < NODE_W && Abs(p.y - q.y) < NODE_H
  }

  predicate Apart(placed: seq<Placed>) {
    forall i, j :: 0 <= i < j < |placed| ==> !Overlap(placed[i], placed[j])
  }

  predicate OnTiers(placed: seq<Placed>, lo: nat, hi: nat) {
    forall i :: 0 <= i < |placed| ==> lo <= placed[i].tier < hi && placed[i].y == RowY(placed[i].tier)
  }

  lemma RowIsApart(ns: seq<Node>, tier: nat, width: real)
    ensures Apart(Row(ns, tier, width)) && OnTiers(Row(ns, tier, width), tier, tier + 1)
  {
    var row := Row(ns, tier, width);
    forall i, j | 0 <= i < j < |row|
      ensures !Overlap(row[i], row[j])
    {
      assert row[j].x - row[i].x == (j - i) as real * (NODE_W + GAP_X);
    }
  }

  lemma RowsOfTwoTiers(p: Placed, q: Placed)
    requires p.tier < q.tier && p.y == RowY(p.tier) && q.y == RowY(q.tier)
    ensures !Overlap(p, q)
  {
    assert q.y - p.y == (q.tier - p.tier) as real * ROW_H;
  }

  lemma ApartConcat(x: seq<Placed>, y: seq<Placed>, tier: nat)
    requires Apart(x) && Apart(y) && OnTiers(x, 0, tier) && OnTiers(y, tier, tier + 1)
    ensures Apart(x + y) && OnTiers(x + y, 0, tier + 1)
  {
    hide Overlap, RowY;
    var z := x + y;
    forall i, j | 0 <= i < j < |z|
      ensures !Overlap(z[i], z[j])
    {
      if i < |x| <= j {
        RowsOfTwoTiers(x[i], y[j - |x|]);
      }
    }
  }

  lemma {:induction false} RowsAreApart(nodes: seq<Node>, depth: map<Id, nat>, tiers: seq<nat>, width: real, arrange: seq<Node> -> seq<Node>)
    requires Ascending(tiers)
    ensures var hi := if tiers == [] then 0 else tiers[|tiers| - 1] + 1;
            Apart(Rows(nodes, depth, tiers, width, arrange)) && OnTiers(Rows(nodes, depth, tiers, width, arrange), 0, hi)
  {
    hide Apart, Row, InTier;
    if tiers == [] {
      assert Apart([]) by { RowIsApart([], 0, 0.0); ApartEmpty(); }
    } else {
      var init, t := tiers[..|tiers| - 1], tiers[|tiers| - 1];
      var above := Rows(nodes, depth, init, width, arrange);
      RowsAreApart(nodes, depth, init, width, arrange);
      RowIsApart(arrange(InTier(nodes, depth, t)), t, width);
      assert OnTiers(above, 0, t);
      ApartConcat(above, Row(arrange(InTier(nodes, depth, t)), t, width), t);
    }
  }

  lemma ApartEmpty()
    ensures Apart([])
  {
  }

  /** No two boxes overlap: on any graph, cyclic or not, with nodes listed twice or not. */
  lemma NothingOverlaps(d: Drawing, nodes: seq<Node>, edges: seq<Edge>, minWidth: real, arrange: seq<Node> -> seq<Node>)
    requires IsLayout(d, nodes, Depths(nodes, edges), minWidth, arrange)
    ensures Apart(d.placed)
  {
    hide Rows, Apart;
    RowsAreApart(nodes, Depths(nodes, edges), d.tiers, d.width, arrange);
  }

  // ------------------------------------------------------------ everything is drawn once

  function Nodes(placed: seq<Placed>): seq<Node> {
    seq(|placed|, i requires 0 <= i < |placed| => placed[i].node)
  }

  lemma {:induction false} InTierCount(nodes: seq<Node>, depth: map<Id, nat>, t: nat, n: Node)
    ensures multiset(InTier(nodes, depth, t))[n] == if DepthIn(depth, n.id) == t then multiset(nodes)[n] else 0
  {
    if nodes != [] {
      InTierCount(nodes[..|nodes| - 1], depth, t, n);
      assert nodes == nodes[..|nodes| - 1] + [nodes[|nodes| - 1]];
    }
  }

  lemma {:induction false} RowsCount(nodes: seq<Node>, depth: map<Id, nat>, tiers: seq<nat>, width: real, arrange: seq<Node> -> seq<Node>, n: Node)
    requires Ascending(tiers) && Reorders(arrange)
    ensures multiset(Nodes(Rows(nodes, depth, tiers, width, arrange)))[n] ==
            if DepthIn(depth, n.id) in tiers then multiset(nodes)[n] else 0
  {
    hide InTier, DepthIn;
    if tiers != [] {
      var init, t := tiers[..|tiers| - 1], tiers[|tiers| - 1];
      assert tiers == init + [t];
      RowsCount(nodes, depth, init, width, arrange, n);
      InTierCount(nodes, depth, t, n);
      var ns := arrange(InTier(nodes, depth, t));
      var above := Rows(nodes, depth, init, width, arrange);
      assert Nodes(Row(ns, t, width)) == ns;
      assert Nodes(above + Row(ns, t, width)) == Nodes(above) + ns;
    }
  }

  lemma {:induction false} TierSetHolds(nodes: seq<Node>, depth: map<Id, nat>, t: nat)
    ensures t in TierSet(nodes, depth) <==> exists n :: n in nodes && DepthIn(depth, n.id) == t
  {
    if nodes != [] {
      var init, last := nodes[..|nodes| - 1], nodes[|nodes| - 1];
      assert nodes == init + [last];
      TierSetHolds(init, depth, t);
      assert last in nodes;
    }
  }

  /** Every node is placed, and as often as it is listed. */
  lemma EveryNodeIsPlaced(d: Drawing, nodes: seq<Node>, depth: map<Id, nat>, minWidth: real, arrange: seq<Node> -> seq<Node>)
    requires IsLayout(d, nodes, depth, minWidth, arrange) && Reorders(arrange)
    ensures multiset(Nodes(d.placed)) == multiset(nodes)
  {
    hide Rows, Reorders, TierSet;
    forall n: Node
      ensures multiset(Nodes(d.placed))[n] == multiset(nodes)[n]
    {
      RowsCount(nodes, depth, d.tiers, d.width, arrange, n);
      if n in nodes {
        TierSetHolds(nodes, depth, DepthIn(depth, n.id));
      } else {
        assert n !in multiset(nodes);
      }
    }
  }

  // -------------------------------------------------------------------- on the canvas

  predicate WithinWidth(placed: seq<Placed>, width: real) {
    forall i :: 0 <= i < |placed| ==>
      GAP_X <= placed[i].x - NODE_W / 2.0 && placed[i].x + NODE_W / 2.0 <= width - GAP_X
  }

  /** A row is centred, and its boxes stand a gap apart from left to right. */
  lemma RowIsCentred(ns: seq<Node>, tier: nat, width: real)
    requires ns != []
    ensures var row := Row(ns, tier, width);
            && row[0].x - NODE_W / 2.0 == width - (row[|row| - 1].x + NODE_W / 2.0)
            && forall i :: 0 <= i < |row| - 1 ==> row[i + 1].x - NODE_W / 2.0 == row[i].x + NODE_W / 2.0 + GAP_X
  {
    var row, n := Row(ns, tier, width), |ns|;
    assert n as real == (n - 1) as real + 1.0;
    forall i | 0 <= i < n - 1
      ensures row[i + 1].x - NODE_W / 2.0 == row[i].x + NODE_W / 2.0 + GAP_X
    {
      assert (i + 1) as real == i as real + 1.0;
    }
  }

  lemma {:induction false} WidestIsWidest(nodes: seq<Node>, depth: map<Id, nat>, tiers: seq<nat>)
    ensures forall t :: t in tiers ==> |InTier(nodes, depth, t)| <= Widest(nodes, depth, tiers)
  {
    if tiers != [] {
      var init, t := tiers[..|tiers| - 1], tiers[|tiers| - 1];
      assert tiers == init + [t];
      WidestIsWidest(nodes, depth, init);
    }
  }

  lemma {:induction false} RowsFit(nodes: seq<Node>, depth: map<Id, nat>, tiers: seq<nat>, width: real, arrange: seq<Node> -> seq<Node>)
    requires Reorders(arrange)
    requires forall t :: t in tiers ==> |InTier(nodes, depth, t)| as real * (NODE_W + GAP_X) + GAP_X <= width
    ensures WithinWidth(Rows(nodes, depth, tiers, width, arrange), width)
  {
    hide InTier, Row;
    if tiers != [] {
      var init, t := tiers[..|tiers| - 1], tiers[|tiers| - 1];
      assert tiers == init + [t];
      RowsFit(nodes, depth, init, width, arrange);
    }
  }

  /** Every box is inside the width, with a gap to spare at both sides. */
  lemma EverythingFitsAcross(d: Drawing, nodes: seq<Node>, depth: map<Id, nat>, minWidth: real, arrange: seq<Node> -> seq<Node>)
    requires IsLayout(d, nodes, depth, minWidth, arrange) && Reorders(arrange)
    ensures WithinWidth(d.placed, d.width) && minWidth <= d.width
  {
    hide Rows, Reorders, InTier, TierSet, Widest, WithinWidth;
    WidestIsWidest(nodes, depth, d.tiers);
    forall t | t in d.tiers
      ensures |InTier(nodes, depth, t)| as real * (NODE_W + GAP_X) + GAP_X <= d.width
    {
    }
    RowsFit(nodes, depth, d.tiers, d.width, arrange);
  }

  predicate WithinHeight(placed: seq<Placed>, height: real) {
    forall i :: 0 <= i < |placed| ==> 0.0 <= placed[i].y - NODE_H / 2.0 && placed[i].y + NODE_H / 2.0 <= height
  }

  predicate Contiguous(tiers: seq<nat>) {
    forall i :: 0 <= i < |tiers| ==> tiers[i] == i
  }

  lemma BoxFitsIff(tier: nat, count: nat)
    ensures RowY(tier) + NODE_H / 2.0 <= Height(count) <==> tier < count
    ensures 0.0 <= RowY(tier) - NODE_H / 2.0
  {
    assert Height(count) - RowY(tier) == (count - tier) as real * ROW_H + 40.0;
  }

  lemma {:induction false} AscendingBelow(tiers: seq<nat>)
    requires Ascending(tiers) && forall t :: t in tiers ==> t < |tiers|
    ensures Contiguous(tiers)
  {
    AscendingAtLeast(tiers);
    forall i | 0 <= i < |tiers|
      ensures tiers[i] == i
    {
      AscendingGap(tiers, i, |tiers| - 1);
      assert tiers[|tiers| - 1] in tiers;
    }
  }

  lemma {:induction false} AscendingAtLeast(tiers: seq<nat>)
    requires Ascending(tiers)
    ensures forall i :: 0 <= i < |tiers| ==> i <= tiers[i]
  {
    if tiers != [] {
      AscendingAtLeast(tiers[..|tiers| - 1]);
      assert |tiers| > 1 ==> |tiers| - 2 <= tiers[|tiers| - 2] < tiers[|tiers| - 1];
    }
  }

  lemma {:induction false} AscendingGap(tiers: seq<nat>, i: nat, j: nat)
    requires Ascending(tiers) && i <= j < |tiers|
    ensures tiers[i] + j - i <= tiers[j]
    decreases j
  {
    if i < j {
      AscendingGap(tiers, i, j - 1);
    }
  }

  lemma {:induction false} RowsHold(nodes: seq<Node>, depth: map<Id, nat>, tiers: seq<nat>, width: real, arrange: seq<Node> -> seq<Node>, t: nat)
    requires Reorders(arrange)
    requires forall k :: k in tiers ==> InTier(nodes, depth, k) != []
    ensures t in tiers <==> exists i :: 0 <= i < |Rows(nodes, depth, tiers, width, arrange)| && Rows(nodes, depth, tiers, width, arrange)[i].tier == t
  {
    hide InTier;
    if tiers != [] {
      var init, k := tiers[..|tiers| - 1], tiers[|tiers| - 1];
      assert tiers == init + [k];
      RowsHold(nodes, depth, init, width, arrange, t);
      var above, row := Rows(nodes, depth, init, width, arrange), Row(arrange(InTier(nodes, depth, k)), k, width);
      var all := above + row;
      assert Rows(nodes, depth, tiers, width, arrange) == all;
      assert all[|above|] == row[0] && row[0].tier == k;
      if t in init {
        var i :| 0 <= i < |above| && above[i].tier == t;
        assert all[i].tier == t;
      }
      forall i | 0 <= i < |all| && all[i].tier == t
        ensures t in tiers
      {
        if i < |above| {
          assert above[i].tier == t;
        } else {
          assert all[i] == row[i - |above|];
        }
      }
    }
  }

  lemma {:induction false} TierNotEmpty(nodes: seq<Node>, depth: map<Id, nat>, t: nat)
    requires t in TierSet(nodes, depth)
    ensures InTier(nodes, depth, t) != []
  {
    if DepthIn(depth, nodes[|nodes| - 1].id) != t {
      TierNotEmpty(nodes[..|nodes| - 1], depth, t);
    }
  }

  /** Every box is inside the height exactly when no tier number is skipped. */
  lemma FitsDownIfContiguous(d: Drawing, nodes: seq<Node>, depth: map<Id, nat>, minWidth: real, arrange: seq<Node> -> seq<Node>)
    requires IsLayout(d, nodes, depth, minWidth, arrange) && Reorders(arrange)
    ensures WithinHeight(d.placed, d.height) <==> Contiguous(d.tiers)
  {
    hide Rows, Reorders, InTier, TierSet, Apart;
    forall t | t in d.tiers
      ensures InTier(nodes, depth, t) != []
    {
      TierNotEmpty(nodes, depth, t);
    }
    RowsAreApart(nodes, depth, d.tiers, d.width, arrange);
    forall t: nat
      ensures t in d.tiers <==> exists i :: 0 <= i < |d.placed| && d.placed[i].tier == t
    {
      RowsHold(nodes, depth, d.tiers, d.width, arrange, t);
    }
    HeightByTiers(d);
  }

  lemma HeightByTiers(d: Drawing)
    requires Ascending(d.tiers) && d.height == Height(|d.tiers|)
    requires forall i :: 0 <= i < |d.placed| ==> d.placed[i].y == RowY(d.placed[i].tier)
    requires forall t: nat :: t in d.tiers <==> exists i :: 0 <= i < |d.placed| && d.placed[i].tier == t
    ensures WithinHeight(d.placed, d.height) <==> Contiguous(d.tiers)
  {
    hide RowY, Height;
    var n := |d.tiers|;
    forall t: nat
      ensures RowY(t) + NODE_H / 2.0 <= Height(n) <==> t < n
      ensures 0.0 <= RowY(t) - NODE_H / 2.0
    {
      BoxFitsIff(t, n);
    }
    if WithinHeight(d.placed, d.height) {
      forall t | t in d.tiers
        ensures t < n
      {
        var i :| 0 <= i < |d.placed| && d.placed[i].tier == t;
        assert d.placed[i].y == RowY(t);
      }
      AscendingBelow(d.tiers);
    }
    if Contiguous(d.tiers) {
      forall i | 0 <= i < |d.placed|
        ensures 0.0 <= d.placed[i].y - NODE_H / 2.0 && d.placed[i].y + NODE_H / 2.0 <= d.height
      {
        assert d.placed[i].tier in d.tiers;
      }
    }
  }

  // ---------------------------------------------------- without cycles, and with them

  // If below every number listed every number is listed, none is skipped.
  lemma {:induction false} NoneSkipped(tiers: seq<nat>, i: nat)
    requires Ascending(tiers) && i < |tiers|
    requires forall j, t :: 0 <= j < |tiers| && 0 <= t < tiers[j] ==> t in tiers
    ensures tiers[i] == i
    decreases i
  {
    AscendingAtLeast(tiers);
    assert i < tiers[i] ==> i in tiers;
    forall k | 0 <= k < |tiers|
      ensures tiers[k] == i ==> k == i
    {
      if k < i {
        NoneSkipped(tiers, k);
      }
    }
  }

  lemma SettledIsContiguous(d: Drawing, nodes: seq<Node>, edges: seq<Edge>, minWidth: real, arrange: seq<Node> -> seq<Node>)
    requires Acyclic(Graph(nodes, edges))
    requires IsLayout(d, nodes, Depths(nodes, edges), minWidth, arrange)
    ensures Contiguous(d.tiers)
  {
    hide Acyclic, Rows, ResolveEach, Settled, TierSet, Ids;
    var known := Ids(nodes);
    var ids := IdSet(nodes);
    var inc := Graph(nodes, edges);
    var depth := Depths(nodes, edges);
    IdsAt(nodes);
    IncomingIsClosed(ids, edges);
    AllSettled(ids, inc, known);
    forall n, p | n in known && p in Parents(inc, n)
      ensures p in known
    {
      assert p in ids;
    }
    forall j, t: nat | 0 <= j < |d.tiers| && t < d.tiers[j]
      ensures t in d.tiers
    {
      TierSetHolds(nodes, depth, d.tiers[j]);
      var n :| n in nodes && DepthIn(depth, n.id) == d.tiers[j];
      assert n.id in known;
      TiersAreContiguous(inc, depth, known, n.id, t);
      var id :| id in known && DepthIn(depth, id) == t;
      var k :| 0 <= k < |known| && known[k] == id;
      assert nodes[k] in nodes;
      TierSetHolds(nodes, depth, t);
    }
    forall i | 0 <= i < |d.tiers|
      ensures d.tiers[i] == i
    {
      NoneSkipped(d.tiers, i);
    }
  }

  ghost predicate HasSource(nodes: seq<Node>, edges: seq<Edge>) {
    exists n :: n in nodes && Parents(Graph(nodes, edges), n.id) == []
  }

  lemma NodeIsKnown(nodes: seq<Node>, n: Node)
    requires n in nodes
    ensures n.id in Ids(nodes)
  {
    IdsAt(nodes);
    var k :| 0 <= k < |nodes| && nodes[k] == n;
    assert Ids(nodes)[k] == n.id;
  }

  lemma KnownIsNode(nodes: seq<Node>, id: Id) returns (n: Node)
    requires id in Ids(nodes)
    ensures n in nodes && n.id == id
  {
    IdsAt(nodes);
    var k :| 0 <= k < |nodes| && Ids(nodes)[k] == id;
    n := nodes[k];
  }

  lemma DepthsSay(nodes: seq<Node>, edges: seq<Edge>)
    ensures var depth := Depths(nodes, edges);
            && Stepped(Graph(nodes, edges), depth)
            && (forall id :: id in depth ==> id in Ids(nodes)) && forall id :: id in Ids(nodes) ==> id in depth
  {
    hide ResolveEach, Ids, Stepped, Incoming;
    var known, ids, inc := Ids(nodes), IdSet(nodes), Graph(nodes, edges);
    IncomingIsClosed(ids, edges);
    EveryNodeHasADepth(ids, inc, known);
    DepthsStep(ids, inc, known);
    DepthsRemember(ids, inc, map[], {}, known);
  }

  /** What the depths of any graph say of its tiers: tier 0 is there exactly when some node
      has nothing pointing at it, and no other tier is skipped. */
  lemma TiersStep(nodes: seq<Node>, edges: seq<Edge>)
    ensures var tiers := TierSet(nodes, Depths(nodes, edges));
            (0 in tiers <==> HasSource(nodes, edges)) && forall t :: t in tiers && t >= 2 ==> t - 1 in tiers
  {
    hide Depths, Ids, TierSet, Graph;
    var depth := Depths(nodes, edges);
    DepthsSay(nodes, edges);
    forall n | n in nodes
      ensures n.id in depth && SteppedAt(Graph(nodes, edges), depth, n.id)
    {
      NodeIsKnown(nodes, n);
    }
    TierSetHolds(nodes, depth, 0);
    forall t | t in TierSet(nodes, depth) && t >= 2
      ensures t - 1 in TierSet(nodes, depth)
    {
      TierSetHolds(nodes, depth, t);
      TierSetHolds(nodes, depth, t - 1);
      var n :| n in nodes && DepthIn(depth, n.id) == t;
      var id :| id in depth && depth[id] == t - 1;
      var m := KnownIsNode(nodes, id);
    }
  }

  lemma {:induction false} DownToOne(tiers: set<nat>, t: nat, u: nat)
    requires t in tiers && 1 <= u <= t && forall k :: k in tiers && k >= 2 ==> k - 1 in tiers
    ensures u in tiers
    decreases t
  {
    if u < t {
      DownToOne(tiers, t - 1, u);
    }
  }

  /** On any graph, every box is inside the height exactly when there is nothing to draw
      or some node has nothing pointing at it. */
  lemma FitsDownIff(d: Drawing, nodes: seq<Node>, edges: seq<Edge>, minWidth: real, arrange: seq<Node> -> seq<Node>)
    requires IsLayout(d, nodes, Depths(nodes, edges), minWidth, arrange) && Reorders(arrange)
    ensures WithinHeight(d.placed, d.height) <==>
            nodes == [] || exists n :: n in nodes && Parents(Graph(nodes, edges), n.id) == []
  {
    hide Rows, Reorders, WithinHeight, Depths, Widest, Graph, Ascending;
    var depth := Depths(nodes, edges);
    var tiers := TierSet(nodes, depth);
    FitsDownIfContiguous(d, nodes, depth, minWidth, arrange);
    TiersStep(nodes, edges);
    assert forall i :: 0 <= i < |d.tiers| ==> d.tiers[i] in d.tiers;
    if nodes != [] {
      TierSetHolds(nodes, depth, DepthIn(depth, nodes[0].id));
      if Contiguous(d.tiers) {
        assert d.tiers[0] == 0;
        assert 0 in d.tiers;
      }
      if 0 in tiers {
        forall j, t: nat | 0 <= j < |d.tiers| && t < d.tiers[j]
          ensures t in d.tiers
        {
          if t > 0 {
            DownToOne(tiers, d.tiers[j], t);
          }
        }
        forall i | 0 <= i < |d.tiers|
          ensures d.tiers[i] == i
        {
          NoneSkipped(d.tiers, i);
        }
      }
    }
  }

  // ------------------------------------------------------------- where everything goes

  lemma {:induction false} TierOfRow(nodes: seq<Node>, depth: map<Id, nat>, t: nat)
    ensures forall n :: n in InTier(nodes, depth, t) ==> DepthIn(depth, n.id) == t
  {
    if nodes != [] {
      TierOfRow(nodes[..|nodes| - 1], depth, t);
    }
  }

  predicate ByDepth(p: Placed, depth: map<Id, nat>) {
    p.tier == DepthIn(depth, p.node.id) && p.y == 92.0 + p.tier as real * 186.0
  }

  lemma {:induction false} RowsAreByDepth(nodes: seq<Node>, depth: map<Id, nat>, tiers: seq<nat>, width: real, arrange: seq<Node> -> seq<Node>)
    requires Reorders(arrange)
    ensures forall p :: p in Rows(nodes, depth, tiers, width, arrange) ==> ByDepth(p, depth)
  {
    hide InTier, DepthIn;
    if tiers != [] {
      var t := tiers[|tiers| - 1];
      RowsAreByDepth(nodes, depth, tiers[..|tiers| - 1], width, arrange);
      TierOfRow(nodes, depth, t);
      var ns := arrange(InTier(nodes, depth, t));
      forall i | 0 <= i < |ns| ensures ByDepth(Row(ns, t, width)[i], depth) {
        assert ns[i] in multiset(ns) && multiset(ns) == multiset(InTier(nodes, depth, t));
      }
    }
  }

  predicate IsSlice(all: seq<Placed>, k: nat, row: seq<Placed>) { k + |row| <= |all| && all[k..k + |row|] == row }

  ghost predicate Holds(all: seq<Placed>, row: seq<Placed>) {
    exists k: nat :: IsSlice(all, k, row)
  }

  lemma {:induction false} TierIsARow(nodes: seq<Node>, depth: map<Id, nat>, tiers: seq<nat>, width: real, arrange: seq<Node> -> seq<Node>, t: nat)
    requires t in tiers
    ensures Holds(Rows(nodes, depth, tiers, width, arrange), Row(arrange(InTier(nodes, depth, t)), t, width))
  {
    hide InTier, Row;
    var init, last := tiers[..|tiers| - 1], tiers[|tiers| - 1];
    var above, row := Rows(nodes, depth, init, width, arrange), Row(arrange(InTier(nodes, depth, t)), t, width);
    var under := Row(arrange(InTier(nodes, depth, last)), last, width);
    assert tiers == init + [last] && Rows(nodes, depth, tiers, width, arrange) == above + under;
    if t == last {
      assert IsSlice(above + under, |above|, row);
    } else {
      TierIsARow(nodes, depth, init, width, arrange, t);
      var k: nat :| IsSlice(above, k, row);
      assert IsSlice(above + under, k, row);
    }
  }

  lemma {:induction false} WidestIsSome(nodes: seq<Node>, depth: map<Id, nat>, tiers: seq<nat>)
    ensures Widest(nodes, depth, tiers) == 1 || exists t :: t in tiers && |InTier(nodes, depth, t)| == Widest(nodes, depth, tiers)
  {
    hide InTier;
    if tiers != [] {
      WidestIsSome(nodes, depth, tiers[..|tiers| - 1]);
      assert tiers[|tiers| - 1] in tiers && forall t :: t in tiers[..|tiers| - 1] ==> t in tiers;
    }
  }

  /** Every node is drawn on the row of its depth, rows are 186 apart from 92 down, and each
      tier is one row of them; the canvas ends 40 below the last row it makes room for, and
      is as wide as asked for or as the fullest tier needs, whichever is more. */
  lemma WhereEverythingGoes(d: Drawing, nodes: seq<Node>, depth: map<Id, nat>, minWidth: real, arrange: seq<Node> -> seq<Node>)
    requires IsLayout(d, nodes, depth, minWidth, arrange) && Reorders(arrange)
    ensures forall p :: p in d.placed ==> ByDepth(p, depth)
    ensures forall t :: t in d.tiers ==> Holds(d.placed, Row(arrange(InTier(nodes, depth, t)), t, d.width))
    ensures d.height == 92.0 + |d.tiers| as real * 186.0 + 40.0
    ensures minWidth <= d.width && 324.0 <= d.width
    ensures forall t :: t in d.tiers ==> |InTier(nodes, depth, t)| as real * 284.0 + 40.0 <= d.width
    ensures d.width in {minWidth, 324.0} || exists t :: t in d.tiers && d.width == |InTier(nodes, depth, t)| as real * 284.0 + 40.0
  {
    hide Rows, InTier, TierSet, Widest, Reorders, Row, DepthIn;
    RowsAreByDepth(nodes, depth, d.tiers, d.width, arrange);
    forall t | t in d.tiers
      ensures Holds(d.placed, Row(arrange(InTier(nodes, depth, t)), t, d.width))
    {
      TierIsARow(nodes, depth, d.tiers, d.width, arrange, t);
    }
    WidestIsWidest(nodes, depth, d.tiers);
    WidestIsSome(nodes, depth, d.tiers);
    WidestAtLeastOne(nodes, depth, d.tiers);
  }

  lemma {:induction false} WidestAtLeastOne(nodes: seq<Node>, depth: map<Id, nat>, tiers: seq<nat>)
    ensures Widest(nodes, depth, tiers) >= 1
  {
    if tiers != [] {
      WidestAtLeastOne(nodes, depth, tiers[..|tiers| - 1]);
    }
  }

  predicate DrawnDown(placed: seq<Placed>, e: Edge) {
    forall p, q :: p in placed && q in placed && p.node.id == e.from && q.node.id == e.to ==> p.y < q.y
  }

  lemma LowerIsBelow(p: Placed, q: Placed, depth: map<Id, nat>)
    requires ByDepth(p, depth) && ByDepth(q, depth) && EdgeDown(depth, p.node.id, q.node.id)
    ensures p.y < q.y
  {
    assert q.y - p.y == (q.tier - p.tier) as real * 186.0;
  }

  /** A graph without cycles is drawn with every edge pointing down, no empty row and
      every box on the canvas. */
  lemma AcyclicIsDrawnWell(d: Drawing, nodes: seq<Node>, edges: seq<Edge>, minWidth: real, arrange: seq<Node> -> seq<Node>)
    requires Acyclic(Graph(nodes, edges)) && Reorders(arrange)
    requires IsLayout(d, nodes, Depths(nodes, edges), minWidth, arrange)
    ensures forall e :: e in edges && e.from in Ids(nodes) && e.to in Ids(nodes) ==>
      EdgeDown(Depths(nodes, edges), e.from, e.to) && DrawnDown(d.placed, e)
    ensures Contiguous(d.tiers) && WithinHeight(d.placed, d.height) && WithinWidth(d.placed, d.width)
  {
    hide Acyclic, Rows, ResolveEach, Settled, TierSet, Ids, Incoming, Reorders, WithinHeight, WithinWidth, Contiguous, Widest;
    var known := Ids(nodes);
    var ids := IdSet(nodes);
    IncomingIsClosed(ids, edges);
    AllSettled(ids, Incoming(ids, edges), known);
    forall e | e in edges && e.from in known && e.to in known
      ensures EdgeDown(Depths(nodes, edges), e.from, e.to)
    {
      IncomingIsEdges(ids, edges, e.from, e.to);
      ParentIsAbove(Incoming(ids, edges), Depths(nodes, edges), e.from, e.to);
    }
    WhereEverythingGoes(d, nodes, Depths(nodes, edges), minWidth, arrange);
    forall p, q | p in d.placed && q in d.placed && EdgeDown(Depths(nodes, edges), p.node.id, q.node.id)
      ensures p.y < q.y
    {
      LowerIsBelow(p, q, Depths(nodes, edges));
    }
    SettledIsContiguous(d, nodes, edges, minWidth, arrange);
    FitsDownIfContiguous(d, nodes, Depths(nodes, edges), minWidth, arrange);
    EverythingFitsAcross(d, nodes, Depths(nodes, edges), minWidth, arrange);
  }

  /** With a cycle rows can be skipped and a box fall off the bottom: two nodes that
      point at each other are put on tiers 2 and 1. */
  lemma CycleFallsOff(a: Node, b: Node, d: Drawing, minWidth: real, arrange: seq<Node> -> seq<Node>)
    requires a.id == 0 && b.id == 1 && Reorders(arrange)
    requires var edges := [Edge(0, 1), Edge(1, 0)];
             IsLayout(d, [a, b], Depths([a, b], edges), minWidth, arrange)
    ensures d.tiers == [1, 2] && !WithinHeight(d.placed, d.height)
  {
    hide Rows, Reorders, WithinHeight, ResolveEach, Depths, Widest;
    var depth := Depths([a, b], [Edge(0, 1), Edge(1, 0)]);
    CycleDepths(a, b);
    assert [a, b][..1] == [a];
    assert TierSet([a], depth) == {2};
    assert TierSet([a, b], depth) == {1, 2};
    assert 1 in d.tiers && 2 in d.tiers && forall i :: 0 <= i < |d.tiers| ==> d.tiers[i] in d.tiers;
    OneAndTwo(d.tiers);
    FitsDownIfContiguous(d, [a, b], depth, minWidth, arrange);
  }

  lemma OneAndTwo(s: seq<nat>)
    requires Ascending(s) && forall t :: t in s <==> t in {1, 2}
    ensures s == [1, 2]
  {
    assert forall i :: 0 <= i < |s| ==> s[i] in s;
    assert 1 in s && 2 in s;
    AscendingGap(s, 0, |s| - 1);
    assert s[0] >= 1 && s[|s| - 1] <= 2;
  }

  lemma CycleDepths(a: Node, b: Node)
    requires a.id == 0 && b.id == 1
    ensures Depths([a, b], [Edge(0, 1), Edge(1, 0)]) == map[0 := 2, 1 := 1]
  {
    var edges := [Edge(0, 1), Edge(1, 0)];
    assert [a, b][..1] == [a];
    assert Ids([a]) == [0];
    assert Ids([a, b]) == [0, 1];
    var ids := IdSet([a, b]);
    assert ids == {0, 1};
    assert edges[..1] == [Edge(0, 1)];
    assert Incoming(ids, [Edge(0, 1)]) == map[1 := [0]];
    var inc := Graph([a, b], edges);
    assert inc[0] == [] + [1] == [1];
    assert inc == map[1 := [0], 0 := [1]];
    IncomingIsClosed(ids, edges);
    CycleSearch(ids, inc);
  }

  lemma CycleSearch(ids: set<Id>, inc: map<Id, seq<Id>>)
    requires ids == {0, 1} && inc == map[1 := [0], 0 := [1]] && Closed(ids, inc)
    ensures ResolveEach(ids, inc, map[], {}, [0, 1]).0 == map[0 := 2, 1 := 1]
  {
    var none: map<Id, nat> := map[];
    assert [0, 1][..1] == [0];
    assert ResolveEach(ids, inc, none, {0, 1}, [0]) == (none, 0);
    assert Resolve(ids, inc, none, {0}, 1) == (map[1 := 1], 1);
    assert ResolveEach(ids, inc, none, {0}, [1]) == (map[1 := 1], 1);
    assert Parents(inc, 0) == [1] && {} + {0} == {0};
    assert Resolve(ids, inc, none, {}, 0) == (map[1 := 1, 0 := 2], 2);
    assert ResolveEach(ids, inc, none, {}, [0]) == (map[1 := 1, 0 := 2], 2);
    assert Resolve(ids, inc, map[1 := 1, 0 := 2], {}, 1) == (map[1 := 1, 0 := 2], 1);
  }
}
