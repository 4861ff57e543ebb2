/** Revenue split by method, category or item: the first so many kept, the rest folded
    into one, and each part's share of the whole in basis points. */
module Analytics {
  import opened Common

  datatype Row = Row(key: string, gross: int, orders: int)

  datatype Slice = Slice(key: string, gross: int, orders: int, share: int)

  datatype Breakdown = Breakdown(slices: seq<Slice>, other: Option<Slice>)

  /** Integer division that truncates toward zero, as the source's language has it. */
  function Quot(a: int, b: int): int
    requires b > 0
  {
    if a >= 0 then a / b else -((-a) / b)
  }

  /** A share is nothing when there is no positive whole to have a share of. */
  function Share(gross: int, total: int): int {
    if total > 0 then Quot(gross * 10_000, total) else 0
  }

  function GrossOf(rows: seq<Row>): int {
    if rows == [] then 0 else GrossOf(rows[..|rows| - 1]) + rows[|rows| - 1].gross
  }

  function OrdersOf(rows: seq<Row>): int {
    if rows == [] then 0 else OrdersOf(rows[..|rows| - 1]) + rows[|rows| - 1].orders
  }

  function SliceGross(s: seq<Slice>): int {
    if s == [] then 0 else SliceGross(s[..|s| - 1]) + s[|s| - 1].gross
  }

  function SliceOrders(s: seq<Slice>): int {
    if s == [] then 0 else SliceOrders(s[..|s| - 1]) + s[|s| - 1].orders
  }

  function Shares(s: seq<Slice>): int {
    if s == [] then 0 else Shares(s[..|s| - 1]) + s[|s| - 1].share
  }

  /** Everything a breakdown shows, the remainder last. */
  function Parts(b: Breakdown): seq<Slice> {
    if b.other.Some? then b.slices + [b.other.value] else b.slices
  }

  function Kept(rows: seq<Row>, limit: int): nat {
    if 0 < limit < |rows| then limit else |rows|
  }

  /** What the breakdown of some rows is: the kept rows as they are, the rest as one,
      each with its share of all of them. */
  predicate Breaks(b: Breakdown, rows: seq<Row>, limit: int) {
    var k, total := Kept(rows, limit), GrossOf(rows);
    && |b.slices| == k
    && (forall i :: 0 <= i < k ==>
          b.slices[i] == Slice(rows[i].key, rows[i].gross, rows[i].orders, Share(rows[i].gross, total)))
    && (b.other.Some? <==> k < |rows|)
    && (b.other.Some? ==>
          && b.other.value.gross == GrossOf(rows[k..]) && b.other.value.orders == OrdersOf(rows[k..])
          && b.other.value.share == Share(GrossOf(rows[k..]), total))
  }

  method Fold(rows: seq<Row>) returns (other: Slice)
    ensures other.gross == GrossOf(rows) && other.orders == OrdersOf(rows) && other.share == 0
  {
    other := Slice("", 0, 0, 0);
    var rest := 0;
    for i := 0 to |rows|
      invariant rest == GrossOf(rows[..i]) && other.orders == OrdersOf(rows[..i]) && other.share == 0
    {
      assert rows[..i + 1][..i] == rows[..i];
      rest := rest + rows[i].gross;
      other := other.(orders := other.orders + rows[i].orders);
    }
    assert rows[..|rows|] == rows;
    other := other.(gross := rest);
  }

  method Break(rows: seq<Row>, limit: int) returns (b: Breakdown)
    ensures Breaks(b, rows, limit)
    ensures |b.slices| == if limit <= 0 || |rows| <= limit then |rows| else limit
    ensures b.other.Some? <==> 0 < limit < |rows|
    ensures GrossOf(rows) <= 0 ==> forall i :: 0 <= i < |b.slices| ==> b.slices[i].share == 0
    ensures GrossOf(rows) <= 0 && b.other.Some? ==> b.other.value.share == 0
  {
    var total := 0;
    var slices := [];
    for i := 0 to |rows|
      invariant total == GrossOf(rows[..i]) && |slices| == i
      invariant forall k :: 0 <= k < i ==> slices[k] == Slice(rows[k].key, rows[k].gross, rows[k].orders, 0)
    {
      assert rows[..i + 1][..i] == rows[..i];
      total := total + rows[i].gross;
      slices := slices + [Slice(rows[i].key, rows[i].gross, rows[i].orders, 0)];
    }
    assert rows[..|rows|] == rows;
    var other: Option<Slice> := None;
    if limit > 0 && |slices| > limit {
      var rest := Fold(rows[limit..]);
      slices := slices[..limit];
      other := Some(rest);
    }
    var k := |slices|;
    for i := 0 to k
      invariant |slices| == k == Kept(rows, limit)
      invariant forall j :: 0 <= j < k ==>
        slices[j] == Slice(rows[j].key, rows[j].gross, rows[j].orders, if j < i then Share(rows[j].gross, total) else 0)
    {
      if total > 0 {
        slices := slices[i := slices[i].(share := Quot(slices[i].gross * 10_000, total))];
      }
    }
    if other.Some? && total > 0 {
      other := Some(other.value.(share := Quot(other.value.gross * 10_000, total)));
    }
    b := Breakdown(slices, other);
  }

  // ------------------------------------------------------------------------ conservation

  lemma {:induction false} SplitSums(rows: seq<Row>, k: nat)
    requires k <= |rows|
    ensures GrossOf(rows) == GrossOf(rows[..k]) + GrossOf(rows[k..])
    ensures OrdersOf(rows) == OrdersOf(rows[..k]) + OrdersOf(rows[k..])
  {
    if k == |rows| {
      assert rows[..k] == rows;
    } else {
      var n := |rows| - 1;
      SplitSums(rows[..n], k);
      assert rows[..n][..k] == rows[..k];
      assert rows[k..][..n - k] == rows[..n][k..];
    }
  }

  lemma {:induction false} SlicesAreRows(s: seq<Slice>, rows: seq<Row>)
    requires |s| == |rows| && forall i :: 0 <= i < |s| ==> s[i].gross == rows[i].gross && s[i].orders == rows[i].orders
    ensures SliceGross(s) == GrossOf(rows) && SliceOrders(s) == OrdersOf(rows)
  {
    if s != [] {
      SlicesAreRows(s[..|s| - 1], rows[..|s| - 1]);
    }
  }

  /** Nothing is lost in the folding: the parts together have the gross and the orders of
      all the rows. */
  lemma PartsConserve(b: Breakdown, rows: seq<Row>, limit: int)
    requires Breaks(b, rows, limit)
    ensures SliceGross(Parts(b)) == GrossOf(rows) && SliceOrders(Parts(b)) == OrdersOf(rows)
  {
    hide Share;
    var k := Kept(rows, limit);
    SplitSums(rows, k);
    SlicesAreRows(b.slices, rows[..k]);
    if b.other.Some? {
      assert Parts(b)[..k] == b.slices;
    } else {
      assert rows[..k] == rows;
    }
  }

  // ------------------------------------------------------------------------------ shares

  /** A share is the exact one cut off: less than one basis point away, toward nothing. */
  lemma ShareIsClose(gross: int, total: int)
    requires total > 0
    ensures var s := Share(gross, total);
            && -total < s * total - gross * 10_000 < total
            && (gross >= 0 ==> 0 <= s && s * total <= gross * 10_000)
  {
    ShareLeaves(gross, total);
  }

  /** What is left over when a share is cut off: it has the sign of the amount. */
  function Rest(gross: int, total: int): int
    requires total > 0
  {
    var x := gross * 10_000;
    if x >= 0 then x % total else -((-x) % total)
  }

  lemma ShareLeaves(gross: int, total: int)
    requires total > 0
    ensures Share(gross, total) * total + Rest(gross, total) == gross * 10_000
  {
    var x := gross * 10_000;
    var m := if x >= 0 then x else -x;
    assert m == (m / total) * total + m % total;
    assert (-(m / total)) * total == -((m / total) * total);
  }

  function Rests(s: seq<Slice>, total: int): int
    requires total > 0
  {
    if s == [] then 0 else Rests(s[..|s| - 1], total) + Rest(s[|s| - 1].gross, total)
  }

  /** How far the shares are from the exact ones, in basis points of the total. */
  function Drift(s: seq<Slice>, total: int): int {
    Shares(s) * total - SliceGross(s) * 10_000
  }

  predicate Shared(s: seq<Slice>, total: int) {
    forall i :: 0 <= i < |s| ==> s[i].share == Share(s[i].gross, total)
  }

  lemma DriftOfLast(s: seq<Slice>, total: int)
    requires s != []
    ensures var l := s[|s| - 1];
            Drift(s, total) == Drift(s[..|s| - 1], total) + (l.share * total - l.gross * 10_000)
  {
    var init, l := s[..|s| - 1], s[|s| - 1];
    assert (Shares(init) + l.share) * total == Shares(init) * total + l.share * total;
  }

  lemma {:induction false} DriftIsSmall(s: seq<Slice>, total: int)
    requires total > 0 && Shared(s, total) && s != []
    ensures -|s| * total < Drift(s, total) < |s| * total
    ensures (forall i :: 0 <= i < |s| ==> s[i].gross >= 0) ==> Drift(s, total) <= 0
  {
    hide Drift, Share;
    var init, l := s[..|s| - 1], s[|s| - 1];
    DriftOfLast(s, total);
    ShareIsClose(l.gross, total);
    assert |s| * total == |init| * total + total;
    if init == [] {
      assert Drift([], total) == 0 by { NoDrift(total); }
    } else {
      DriftIsSmall(init, total);
    }
  }

  lemma {:induction false} DriftIsTheRests(s: seq<Slice>, total: int)
    requires total > 0 && Shared(s, total)
    ensures Drift(s, total) == -Rests(s, total)
  {
    hide Drift, Share, Rest;
    if s == [] {
      NoDrift(total);
    } else {
      var init, l := s[..|s| - 1], s[|s| - 1];
      DriftOfLast(s, total);
      ShareLeaves(l.gross, total);
      DriftIsTheRests(init, total);
    }
  }

  lemma NoDrift(total: int)
    ensures Drift([], total) == 0
  {
  }

  lemma PartsAreShared(b: Breakdown, rows: seq<Row>, limit: int)
    requires Breaks(b, rows, limit)
    ensures Shared(Parts(b), GrossOf(rows)) && (rows != [] ==> Parts(b) != [])
  {
    hide Share;
  }

  /** With something positive to share, the shares of k parts come within k basis points
      of the whole; and where no part is negative, never to more than it. */
  lemma SharesAddUp(b: Breakdown, rows: seq<Row>, limit: int)
    requires Breaks(b, rows, limit) && GrossOf(rows) > 0
    ensures var k := |Parts(b)|; 10_000 - k < Shares(Parts(b)) < 10_000 + k
    ensures (forall i :: 0 <= i < |Parts(b)| ==> Parts(b)[i].gross >= 0) ==> Shares(Parts(b)) <= 10_000
  {
    hide Share, Breaks, Shares, SliceGross;
    var s, total := Parts(b), GrossOf(rows);
    PartsAreShared(b, rows, limit);
    PartsConserve(b, rows, limit);
    DriftIsSmall(s, total);
    var over := Shares(s) - 10_000;
    assert over * total == Drift(s, total);
    WithinFactor(over, |s|, total);
  }

  /** What the shares are short of the whole is what the cutting left over, so they come
      to more than it exactly when the negative parts leave more than the others. */
  lemma SharesExactly(b: Breakdown, rows: seq<Row>, limit: int)
    requires Breaks(b, rows, limit) && GrossOf(rows) > 0
    ensures (10_000 - Shares(Parts(b))) * GrossOf(rows) == Rests(Parts(b), GrossOf(rows))
    ensures Shares(Parts(b)) <= 10_000 <==> Rests(Parts(b), GrossOf(rows)) >= 0
  {
    hide Share, Breaks, Shares, SliceGross, Rests;
    var s, total := Parts(b), GrossOf(rows);
    PartsAreShared(b, rows, limit);
    PartsConserve(b, rows, limit);
    DriftIsTheRests(s, total);
    var short := 10_000 - Shares(s);
    assert short * total == -Drift(s, total);
    assert short * total >= 0 <==> short >= 0;
  }

  lemma WithinFactor(a: int, k: int, total: int)
    requires total > 0 && -k * total < a * total < k * total
    ensures -k < a < k
  {
    assert (a + k) * total == a * total + k * total;
    assert (k - a) * total == k * total - a * total;
  }

  /** Where parts are negative, cutting toward nothing can push the shares past the
      whole. */
  lemma NegativePartsOverrun(b: Breakdown)
    requires Breaks(b, [Row("a", 6, 1), Row("b", -1, 0), Row("c", -1, 0), Row("d", -1, 0)], 0)
    ensures Shares(Parts(b)) == 10_001
  {
    var rows := [Row("a", 6, 1), Row("b", -1, 0), Row("c", -1, 0), Row("d", -1, 0)];
    var s := b.slices;
    assert rows[..3][..2][..1] == [rows[0]] && rows[..3][..2] == [rows[0], rows[1]];
    assert GrossOf([rows[0]]) == 6;
    assert GrossOf(rows[..2]) == 5 by { assert rows[..2][..1] == [rows[0]]; }
    assert GrossOf(rows[..3]) == 4 by { assert rows[..3][..2] == rows[..2]; }
    assert GrossOf(rows) == 3;
    assert s[..1][..0] == [] && s[..2][..1] == s[..1] && s[..3][..2] == s[..2];
    assert Shares(s[..1]) == 20_000;
    assert Shares(s[..2]) == 20_000 - 3_333;
    assert Shares(s[..3]) == 20_000 - 6_666;
  }
}
