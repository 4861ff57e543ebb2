/** Listing the catalogue page by page while it is being changed. */
module Catalog {
  // Rows are in order of name and then id, both compared byte by byte. Which items
  // match is fixed for a walk; the items are not.

  import opened Common
  import opened PageToken

  const DEFAULT_PAGE: int := 200
  const MAX_PAGE: int := 500

  const NIL: Uuid := [0, 0, 0, 0, 0, 0, 0, 0, 0, 0, 0, 0, 0, 0, 0, 0]

  /** The key that stands for no cursor at all. */
  const START := Key([], NIL)

  /** What else an item holds does not matter here, only whether it changed. */
  datatype Item = Item(name: Bytes, rest: nat)

  type Db = map<Uuid, Item>

  datatype Row = Row(id: Uuid, item: Item)

  // --------------------------------------------------------------------------- the order

  predicate Less(a: Bytes, b: Bytes) {
    if b == [] then false
    else if a == [] then true
    else if a[0] != b[0] then a[0] < b[0]
    else Less(a[1..], b[1..])
  }

  predicate KeyLess(a: Key, b: Key) {
    Less(a.name, b.name) || (a.name == b.name && Less(a.id, b.id))
  }

  lemma {:induction false} LessIsStrict(a: Bytes)
    ensures !Less(a, a)
  {
    if a != [] {
      LessIsStrict(a[1..]);
    }
  }

  lemma {:induction false} LessIsTransitive(a: Bytes, b: Bytes, c: Bytes)
    requires Less(a, b) && Less(b, c)
    ensures Less(a, c)
  {
    if a != [] && a[0] == b[0] == c[0] {
      LessIsTransitive(a[1..], b[1..], c[1..]);
    }
  }

  lemma {:induction false} LessIsTotal(a: Bytes, b: Bytes)
    ensures Less(a, b) || Less(b, a) || a == b
  {
    if a != [] && b != [] && a[0] == b[0] {
      LessIsTotal(a[1..], b[1..]);
      assert a == [a[0]] + a[1..] && b == [b[0]] + b[1..];
    }
  }

  /** Where the two first differ the one is less, or the one ends there. */
  ghost predicate Precedes(a: Bytes, b: Bytes) {
    exists k: nat :: DifferFrom(a, b, k)
  }

  predicate DifferFrom(a: Bytes, b: Bytes, k: nat) {
    k <= |a| && k < |b| && a[..k] == b[..k] && (k == |a| || a[k] < b[k])
  }

  lemma {:induction false} LessIsPrecedes(a: Bytes, b: Bytes)
    ensures Less(a, b) <==> Precedes(a, b)
  {
    if a != [] && b != [] && a[0] == b[0] {
      LessIsPrecedes(a[1..], b[1..]);
      if k: nat :| DifferFrom(a[1..], b[1..], k) {
        assert a[..k + 1] == [a[0]] + a[1..][..k] && b[..k + 1] == [b[0]] + b[1..][..k];
        assert DifferFrom(a, b, k + 1);
      }
      if k: nat :| DifferFrom(a, b, k) {
        assert k > 0 && a[1..][..k - 1] == a[..k][1..] && b[1..][..k - 1] == b[..k][1..];
        assert DifferFrom(a[1..], b[1..], k - 1);
      }
    } else if b != [] {
      assert a[..0] == b[..0];
      assert Less(a, b) ==> DifferFrom(a, b, 0);
      if k: nat :| DifferFrom(a, b, k) && a != [] && k > 0 {
        HeadsAgree(a, b, k);
      }
    }
  }

  lemma HeadsAgree(a: Bytes, b: Bytes, k: nat)
    requires 0 < k <= |a| && k <= |b| && a[..k] == b[..k]
    ensures a[0] == b[0]
  {
    assert a[..k][0] == b[..k][0];
  }

  /** Rows are in order of name and, of the same name, of id, both byte by byte. */
  lemma KeyOrder(a: Key, b: Key)
    ensures KeyLess(a, b) <==> Precedes(a.name, b.name) || (a.name == b.name && Precedes(a.id, b.id))
  {
    hide Less, Precedes;
    LessIsPrecedes(a.name, b.name);
    LessIsPrecedes(a.id, b.id);
  }

  lemma KeyLessIsStrict(a: Key)
    ensures !KeyLess(a, a)
  {
    hide Less;
    LessIsStrict(a.name);
    LessIsStrict(a.id);
  }

  lemma KeyLessIsTransitive(a: Key, b: Key, c: Key)
    requires KeyLess(a, b) && KeyLess(b, c)
    ensures KeyLess(a, c)
  {
    hide Less;
    if Less(a.name, b.name) && Less(b.name, c.name) {
      LessIsTransitive(a.name, b.name, c.name);
    } else if a.name == b.name && b.name == c.name && Less(a.id, b.id) && Less(b.id, c.id) {
      LessIsTransitive(a.id, b.id, c.id);
    }
  }

  lemma KeyLessIsTotal(a: Key, b: Key)
    ensures KeyLess(a, b) || KeyLess(b, a) || a == b
  {
    hide Less;
    LessIsTotal(a.name, b.name);
    LessIsTotal(a.id, b.id);
  }

  // --------------------------------------------------------------------------- the query

  function KeyOf(r: Row): Key { Key(r.item.name, r.id) }

  /** The cursor clause: left out for a key of nothing at all. */
  predicate Beyond(k: Key, after: Key) {
    after == START || KeyLess(after, k)
  }

  function Selected(db: Db, matches: Item -> bool, after: Key): set<Row> {
    set id | id in db && matches(db[id]) && Beyond(Key(db[id].name, id), after) :: Row(id, db[id])
  }

  predicate InOrder(rows: seq<Row>) {
    forall i, j :: 0 <= i < j < |rows| ==> KeyLess(KeyOf(rows[i]), KeyOf(rows[j]))
  }

  /** Rows are the first `limit` of a set in order: taken from it, in order, with nothing
      left over that comes before any of them, and as many as the limit allows. */
  ghost predicate First(rows: seq<Row>, all: set<Row>, limit: nat) {
    && InOrder(rows)
    && (forall r :: r in rows ==> r in all)
    && (forall r, q :: r in all && r !in rows && q in rows ==> KeyLess(KeyOf(q), KeyOf(r)))
    && |rows| <= limit
    && (|rows| < limit ==> forall r :: r in all ==> r in rows)
  }

  predicate Least(r: Row, rest: set<Row>) {
    r in rest && forall q :: q in rest && q != r ==> KeyLess(KeyOf(r), KeyOf(q))
  }

  lemma {:induction false} LeastExists(rest: set<Row>) returns (r: Row)
    requires rest != {} && forall p, q :: p in rest && q in rest && p != q ==> KeyOf(p) != KeyOf(q)
    ensures Least(r, rest)
    decreases rest
  {
    hide KeyLess, KeyOf;
    r :| r in rest;
    var others := rest - {r};
    assert forall q :: q in rest ==> q == r || q in others;
    if others != {} {
      var s := LeastExists(others);
      KeyLessIsTotal(KeyOf(r), KeyOf(s));
      if KeyLess(KeyOf(s), KeyOf(r)) {
        r := s;
      } else {
        forall q | q in others
          ensures KeyLess(KeyOf(r), KeyOf(q))
        {
          if q != s {
            KeyLessIsTransitive(KeyOf(r), KeyOf(s), KeyOf(q));
          }
        }
      }
    }
  }

  lemma LeastBefore(r: Row, rest: set<Row>, q: Row)
    requires Least(r, rest) && q in rest && q != r
    ensures KeyLess(KeyOf(r), KeyOf(q))
  {
  }

  lemma SelectedKeysDiffer(db: Db, matches: Item -> bool, after: Key)
    ensures forall p, q :: p in Selected(db, matches, after) && q in Selected(db, matches, after) && p != q ==> KeyOf(p) != KeyOf(q)
  {
  }

  /** ORDER BY name, id LIMIT. */
  method Query(db: Db, matches: Item -> bool, after: Key, limit: nat) returns (rows: seq<Row>)
    ensures First(rows, Selected(db, matches, after), limit) && |rows| <= limit
  {
    hide KeyLess, KeyOf;
    var all := Selected(db, matches, after);
    SelectedKeysDiffer(db, matches, after);
    hide Selected;
    var rest := all;
    rows := [];
    while rest != {} && |rows| < limit
      invariant rest <= all && InOrder(rows) && |rows| <= limit
      invariant forall r :: r in all <==> r in rest || r in rows
      invariant forall r, q :: r in rest && q in rows ==> KeyLess(KeyOf(q), KeyOf(r))
      decreases rest
    {
      ghost var least := LeastExists(rest);
      assert Least(least, rest);
      var r :| r in rest && Least(r, rest);
      forall x, q | x in rest - {r} && q in rows + [r]
        ensures KeyLess(KeyOf(q), KeyOf(x))
      {
        if q == r {
          LeastBefore(r, rest, x);
        } else {
          assert q in rows && x in rest;
        }
      }
      rows, rest := rows + [r], rest - {r};
    }
  }

  // ---------------------------------------------------------------------------- a page

  /** Where a token says to go on from; the empty token is the start. */
  function Cursor(token: string): Option<Key> {
    if token == "" then Some(START) else DecodeToken(token)
  }

  /** A page and the token for the next, which is empty on the last page. */
  datatype Page = Page(rows: seq<Row>, next: string)

  /** What a page is: the first rows beyond the cursor, with a next one exactly when they
      are not all there is, which goes on after the last of them. */
  ghost predicate IsPage(p: Page, db: Db, matches: Item -> bool, after: Key, size: nat) {
    var all := Selected(db, matches, after);
    && First(p.rows, all, size)
    && (p.next == "" <==> forall r :: r in all ==> r in p.rows)
    && (p.next != "" ==> |p.rows| == size > 0 && p.next == EncodeToken(KeyOf(p.rows[size - 1])))
  }

  /** One row more than asked for is fetched, to see whether there is another page. */
  method ListItems(db: Db, matches: Item -> bool, asked: int, token: string) returns (r: Option<Page>)
    ensures r.None? <==> token != "" && DecodeToken(token).None?
    ensures r.Some? ==>
      var size := if asked <= 0 then 200 else if asked <= 500 then asked else 500;
      IsPage(r.value, db, matches, if token == "" then Key([], NIL) else DecodeToken(token).value, size)
  {
    hide KeyLess, KeyOf, Selected, EncodeToken, DecodeToken, First, IsPage;
    var limit := asked;
    if limit <= 0 {
      limit := DEFAULT_PAGE;
    }
    if limit > MAX_PAGE {
      limit := MAX_PAGE;
    }
    var after := START;
    if token != "" {
      var k := DecodeToken(token);
      if k.None? {
        return None;
      }
      after := k.value;
    }
    limit := limit + 1;
    var items := Query(db, matches, after, limit);
    var next := "";
    if |items| == limit {
      FullPage(items, db, matches, after, limit - 1);
      var last := items[|items| - 2];
      items := items[..|items| - 1];
      next := EncodeToken(KeyOf(last));
    } else {
      LastPage(items, db, matches, after, limit - 1);
    }
    return Some(Page(items, next));
  }

  lemma FullPage(items: seq<Row>, db: Db, matches: Item -> bool, after: Key, size: nat)
    requires size > 0 && |items| == size + 1 && First(items, Selected(db, matches, after), size + 1)
    ensures IsPage(Page(items[..size], EncodeToken(KeyOf(items[size - 1]))), db, matches, after, size)
  {
    hide KeyLess, KeyOf, Selected, EncodeToken, DecodeToken, First;
    var all := Selected(db, matches, after);
    TokenReadsBack(KeyOf(items[size - 1]));
    FirstButLast(items, all, size + 1);
    LastIsMore(items, all, size + 1);
  }

  lemma LastPage(items: seq<Row>, db: Db, matches: Item -> bool, after: Key, size: nat)
    requires |items| <= size && First(items, Selected(db, matches, after), size + 1)
    ensures IsPage(Page(items, ""), db, matches, after, size)
  {
    hide KeyLess, KeyOf, Selected, EncodeToken;
  }

  lemma LastIsMore(rows: seq<Row>, all: set<Row>, limit: nat)
    requires First(rows, all, limit) && |rows| == limit > 0
    ensures rows[limit - 1] in all && rows[limit - 1] !in rows[..limit - 1]
  {
    hide KeyLess, KeyOf;
    KeyLessIsStrict(KeyOf(rows[limit - 1]));
  }

  lemma FirstButLast(rows: seq<Row>, all: set<Row>, limit: nat)
    requires First(rows, all, limit) && |rows| == limit > 0
    ensures First(rows[..limit - 1], all, limit - 1)
  {
    hide KeyLess, KeyOf;
    var init := rows[..limit - 1];
    assert rows == init + [rows[limit - 1]];
    forall r, q | r in all && r !in init && q in init
      ensures KeyLess(KeyOf(q), KeyOf(r))
    {
      if r in rows {
        assert r == rows[limit - 1];
        var i :| 0 <= i < |init| && init[i] == q;
        assert rows[i] == q;
      }
    }
  }

  // --------------------------------------------------------------------------- the walk

  /** Page after page, each by the token of the one before and each from the items as
      they are by then. */
  ghost predicate Walk(dbs: seq<Db>, pages: seq<Page>, matches: Item -> bool, size: nat) {
    && |dbs| == |pages|
    && forall k :: 0 <= k < |pages| ==> WalkStep(dbs, pages, matches, size, k)
  }

  function TokenInto(pages: seq<Page>, k: nat): string
    requires k <= |pages|
  {
    if k == 0 then "" else pages[k - 1].next
  }

  ghost predicate WalkStep(dbs: seq<Db>, pages: seq<Page>, matches: Item -> bool, size: nat, k: nat)
    requires k < |pages| == |dbs|
  {
    && (k > 0 ==> pages[k - 1].next != "")
    && Cursor(TokenInto(pages, k)).Some?
    && IsPage(pages[k], dbs[k], matches, Cursor(TokenInto(pages, k)).value, size)
  }

  /** No row has the key that stands for no cursor at all. */
  predicate NoneAtStart(dbs: seq<Db>) {
    forall k :: 0 <= k < |dbs| && NIL in dbs[k] ==> dbs[k][NIL].name != []
  }

  function All(pages: seq<Page>): seq<Row> {
    if pages == [] then [] else All(pages[..|pages| - 1]) + pages[|pages| - 1].rows
  }

  predicate AllBeyond(rows: seq<Row>, after: Key) {
    forall i :: 0 <= i < |rows| ==> KeyLess(after, KeyOf(rows[i]))
  }

  predicate AllWithin(rows: seq<Row>, last: Key) {
    forall i :: 0 <= i < |rows| ==> KeyOf(rows[i]) == last || KeyLess(KeyOf(rows[i]), last)
  }

  // The key a walk goes on from after its first k pages.
  lemma CursorAfter(dbs: seq<Db>, pages: seq<Page>, matches: Item -> bool, size: nat, k: nat)
    requires Walk(dbs, pages, matches, size) && NoneAtStart(dbs) && 0 < k <= |pages| && pages[k - 1].next != ""
    ensures |pages[k - 1].rows| == size > 0
    ensures Cursor(TokenInto(pages, k)) == Some(KeyOf(pages[k - 1].rows[size - 1]))
    ensures KeyOf(pages[k - 1].rows[size - 1]) != START
  {
    hide EncodeToken, DecodeToken, KeyLess;
    assert WalkStep(dbs, pages, matches, size, k - 1);
    var last := pages[k - 1].rows[size - 1];
    TokenReadsBack(KeyOf(last));
    assert last in pages[k - 1].rows;
  }

  lemma PageBeyond(p: Page, db: Db, matches: Item -> bool, after: Key, size: nat)
    requires IsPage(p, db, matches, after, size) && after != START
    ensures AllBeyond(p.rows, after)
  {
    hide KeyLess, EncodeToken;
    forall i | 0 <= i < |p.rows|
      ensures KeyLess(after, KeyOf(p.rows[i]))
    {
      assert p.rows[i] in p.rows;
    }
  }

  lemma LastIsGreatest(rows: seq<Row>)
    requires InOrder(rows) && rows != []
    ensures AllWithin(rows, KeyOf(rows[|rows| - 1]))
  {
    hide KeyLess, KeyOf;
  }

  lemma OrderConcat(x: seq<Row>, y: seq<Row>, mid: Key)
    requires InOrder(x) && InOrder(y) && AllWithin(x, mid) && AllBeyond(y, mid)
    ensures InOrder(x + y)
  {
    hide KeyLess, KeyOf;
    forall i, j | 0 <= i < j < |x + y|
      ensures KeyLess(KeyOf((x + y)[i]), KeyOf((x + y)[j]))
    {
      if i < |x| <= j && KeyOf(x[i]) != mid {
        KeyLessIsTransitive(KeyOf(x[i]), mid, KeyOf(y[j - |x|]));
      }
    }
  }

  lemma WithinConcat(x: seq<Row>, y: seq<Row>, mid: Key, last: Key)
    requires AllWithin(x, mid) && AllWithin(y, last) && KeyLess(mid, last)
    ensures AllWithin(x + y, last)
  {
    hide KeyLess, KeyOf;
    forall i | 0 <= i < |x + y|
      ensures KeyOf((x + y)[i]) == last || KeyLess(KeyOf((x + y)[i]), last)
    {
      if i < |x| && KeyOf(x[i]) != mid {
        KeyLessIsTransitive(KeyOf(x[i]), mid, last);
      }
    }
  }

  /** The rows of a walk come in order, so none comes twice, whatever was inserted,
      changed or removed between pages. */
  lemma {:induction false} WalkIsInOrder(dbs: seq<Db>, pages: seq<Page>, matches: Item -> bool, size: nat)
    requires Walk(dbs, pages, matches, size) && NoneAtStart(dbs)
    ensures InOrder(All(pages))
    ensures pages != [] && pages[|pages| - 1].next != "" ==>
              |pages[|pages| - 1].rows| == size > 0 && AllWithin(All(pages), KeyOf(pages[|pages| - 1].rows[size - 1]))
  {
    hide KeyLess, KeyOf, IsPage, Cursor, AllWithin, AllBeyond, InOrder, EncodeToken, DecodeToken;
    if pages == [] {
      assert InOrder([]) by { OneInOrder(); }
    } else {
      var n := |pages| - 1;
      var p := pages[n];
      WalkPrefix(dbs, pages, matches, size);
      WalkIsInOrder(dbs[..n], pages[..n], matches, size);
      PageInOrder(dbs, pages, matches, size, n);
      if n == 0 {
        assert All(pages[..0]) == [] && All(pages) == p.rows;
        if p.next != "" {
          CursorAfter(dbs, pages, matches, size, 1);
          LastIsGreatest(p.rows);
        }
      } else {
        WalkOn(dbs, pages, matches, size, n);
      }
    }
  }

  lemma OneInOrder()
    ensures InOrder([])
  {
  }

  lemma PageInOrder(dbs: seq<Db>, pages: seq<Page>, matches: Item -> bool, size: nat, k: nat)
    requires Walk(dbs, pages, matches, size) && k < |pages|
    ensures InOrder(pages[k].rows)
  {
    hide InOrder, Selected, Cursor, EncodeToken;
    assert WalkStep(dbs, pages, matches, size, k);
  }

  lemma WalkPrefix(dbs: seq<Db>, pages: seq<Page>, matches: Item -> bool, size: nat)
    requires Walk(dbs, pages, matches, size) && pages != [] && NoneAtStart(dbs)
    ensures Walk(dbs[..|pages| - 1], pages[..|pages| - 1], matches, size) && NoneAtStart(dbs[..|pages| - 1])
  {
    hide IsPage, Cursor;
    var n := |pages| - 1;
    forall k | 0 <= k < n
      ensures WalkStep(dbs[..n], pages[..n], matches, size, k)
    {
      assert WalkStep(dbs, pages, matches, size, k);
    }
  }

  lemma WalkOn(dbs: seq<Db>, pages: seq<Page>, matches: Item -> bool, size: nat, n: nat)
    requires Walk(dbs, pages, matches, size) && NoneAtStart(dbs) && n == |pages| - 1 && n > 0
    requires InOrder(All(pages[..n])) && InOrder(pages[n].rows)
    requires pages[n - 1].next != "" ==>
               |pages[n - 1].rows| == size > 0 && AllWithin(All(pages[..n]), KeyOf(pages[n - 1].rows[size - 1]))
    ensures InOrder(All(pages))
    ensures pages[n].next != "" ==> |pages[n].rows| == size > 0 && AllWithin(All(pages), KeyOf(pages[n].rows[size - 1]))
  {
    assert WalkStep(dbs, pages, matches, size, n);
    hide KeyLess, IsPage, Cursor, AllWithin, InOrder, EncodeToken, DecodeToken, Walk, NoneAtStart;
    CursorAfter(dbs, pages, matches, size, n);
    var mid := KeyOf(pages[n - 1].rows[size - 1]);
    PageBeyond(pages[n], dbs[n], matches, mid, size);
    OrderConcat(All(pages[..n]), pages[n].rows, mid);
    if pages[n].next != "" {
      CursorAfter(dbs, pages, matches, size, n + 1);
      var rows := pages[n].rows;
      LastIsGreatest(rows);
      WithinConcat(All(pages[..n]), rows, mid, KeyOf(rows[size - 1]));
    }
  }

  /** An item that is there, matching and the same, whenever a page is read. */
  predicate Stays(dbs: seq<Db>, matches: Item -> bool, r: Row) {
    matches(r.item) && forall k :: 0 <= k < |dbs| ==> r.id in dbs[k] && dbs[k][r.id] == r.item
  }

  lemma {:induction false} SeenOrBeyond(dbs: seq<Db>, pages: seq<Page>, matches: Item -> bool, size: nat, r: Row, k: nat)
    requires Walk(dbs, pages, matches, size) && NoneAtStart(dbs) && Stays(dbs, matches, r)
    requires k <= |pages| && (k > 0 ==> pages[k - 1].next != "")
    ensures Cursor(TokenInto(pages, k)).Some?
    ensures r in All(pages[..k]) || Beyond(KeyOf(r), Cursor(TokenInto(pages, k)).value)
  {
    if k > 0 {
      assert WalkStep(dbs, pages, matches, size, k - 1);
      hide KeyLess, KeyOf, Cursor, EncodeToken, DecodeToken, Walk, NoneAtStart, IsPage;
      SeenOrBeyond(dbs, pages, matches, size, r, k - 1);
      CursorAfter(dbs, pages, matches, size, k);
      assert pages[..k][..k - 1] == pages[..k - 1];
      if r !in All(pages[..k - 1]) {
        SeenOrAfterLast(pages[k - 1], dbs[k - 1], matches, Cursor(TokenInto(pages, k - 1)).value, size, r);
      }
    }
  }

  lemma SeenOrAfterLast(p: Page, db: Db, matches: Item -> bool, after: Key, size: nat, r: Row)
    requires IsPage(p, db, matches, after, size) && p.next != ""
    requires matches(r.item) && r.id in db && db[r.id] == r.item && Beyond(KeyOf(r), after)
    ensures |p.rows| == size > 0 && (r in p.rows || KeyLess(KeyOf(p.rows[size - 1]), KeyOf(r)))
  {
    hide KeyLess, KeyOf, EncodeToken, Selected;
    StaysSelected(db, matches, after, r);
    assert p.rows[size - 1] in p.rows;
  }

  lemma StaysSelected(db: Db, matches: Item -> bool, after: Key, r: Row)
    requires matches(r.item) && r.id in db && db[r.id] == r.item && Beyond(KeyOf(r), after)
    ensures r in Selected(db, matches, after)
  {
  }

  lemma {:induction false} OrderIsOnce(rows: seq<Row>, i: nat, j: nat)
    requires InOrder(rows) && i < |rows| && j < |rows| && rows[i] == rows[j]
    ensures i == j
  {
    KeyLessIsStrict(KeyOf(rows[i]));
    hide KeyLess, KeyOf;
  }

  /** A walk to the end returns every matching item that stayed as it was exactly once,
      whatever else was inserted, changed or removed meanwhile. */
  lemma WalkReturnsExactlyOnce(dbs: seq<Db>, pages: seq<Page>, matches: Item -> bool, size: nat, r: Row)
    requires Walk(dbs, pages, matches, size) && NoneAtStart(dbs) && Stays(dbs, matches, r)
    requires pages != [] && pages[|pages| - 1].next == ""
    ensures r in All(pages)
    ensures forall i, j :: 0 <= i < |All(pages)| && 0 <= j < |All(pages)| && All(pages)[i] == r == All(pages)[j] ==> i == j
  {
    var n := |pages| - 1;
    assert WalkStep(dbs, pages, matches, size, n);
    hide KeyLess, KeyOf, Cursor, EncodeToken, DecodeToken, Walk, NoneAtStart;
    SeenOrBeyond(dbs, pages, matches, size, r, n);
    if r !in All(pages[..n]) {
      StaysSelected(dbs[n], matches, Cursor(TokenInto(pages, n)).value, r);
    }
    WalkIsInOrder(dbs, pages, matches, size);
    forall i, j | 0 <= i < |All(pages)| && 0 <= j < |All(pages)| && All(pages)[i] == r == All(pages)[j]
      ensures i == j
    {
      OrderIsOnce(All(pages), i, j);
    }
  }

  // ---- it ends ----

  lemma {:induction false} OrderedWithin(rows: seq<Row>, keys: set<Key>)
    requires InOrder(rows) && forall i :: 0 <= i < |rows| ==> KeyOf(rows[i]) in keys
    ensures |rows| <= |keys|
  {
    hide KeyLess, KeyOf;
    if rows != [] {
      var n := |rows| - 1;
      var last := KeyOf(rows[n]);
      forall i | 0 <= i < n
        ensures KeyOf(rows[i]) != last
      {
        assert KeyLess(KeyOf(rows[i]), last);
        KeyLessIsStrict(last);
      }
      OrderedWithin(rows[..n], keys - {last});
    }
  }

  lemma {:induction false} FullPages(dbs: seq<Db>, pages: seq<Page>, matches: Item -> bool, size: nat)
    requires Walk(dbs, pages, matches, size) && NoneAtStart(dbs) && pages != [] && pages[|pages| - 1].next != ""
    ensures |All(pages)| == |pages| * size && size > 0
  {
    hide IsPage, Cursor;
    var n := |pages| - 1;
    CursorAfter(dbs, pages, matches, size, n + 1);
    assert (n + 1) * size == n * size + size;
    if n > 0 {
      assert WalkStep(dbs, pages, matches, size, n);
      WalkPrefix(dbs, pages, matches, size);
      FullPages(dbs[..n], pages[..n], matches, size);
    }
  }

  /** A walk that has not ended has returned a full page each time, all different: with
      only so many keys ever returned, there are only so many pages. */
  lemma WalkEnds(dbs: seq<Db>, pages: seq<Page>, matches: Item -> bool, size: nat, keys: set<Key>)
    requires Walk(dbs, pages, matches, size) && NoneAtStart(dbs) && pages != [] && pages[|pages| - 1].next != ""
    requires forall i :: 0 <= i < |All(pages)| ==> KeyOf(All(pages)[i]) in keys
    ensures |pages| * size <= |keys| && size > 0
  {
    hide KeyLess, IsPage, Cursor, Walk, NoneAtStart, InOrder;
    WalkIsInOrder(dbs, pages, matches, size);
    FullPages(dbs, pages, matches, size);
    OrderedWithin(All(pages), keys);
  }

  // ---- without names ----

  /** An item with no name and the zero id would be taken for no cursor at all: the walk
      begins again and never gets past it. */
  lemma NamelessRepeats(db: Db, matches: Item -> bool, other: Uuid)
    requires NIL in db && db[NIL].name == [] && matches(db[NIL])
    requires other in db && other != NIL && db[other].name != [] && matches(db[other])
    requires forall id :: id in db ==> id == NIL || id == other
    ensures var p := Page([Row(NIL, db[NIL])], EncodeToken(START));
            Walk([db, db], [p, p], matches, 1) && !InOrder(All([p, p]))
  {
    var nil := Row(NIL, db[NIL]);
    var p := Page([nil], EncodeToken(START));
    TokenReadsBack(START);
    NamelessPage(db, matches, other);
    KeyLessIsStrict(KeyOf(nil));
    hide EncodeToken, DecodeToken, IsPage, KeyLess, All, InOrder, Walk;
    SamePageTwice(db, p, matches, START);
    TwiceTheSame(p, nil);
  }

  lemma SamePageTwice(db: Db, p: Page, matches: Item -> bool, after: Key)
    requires IsPage(p, db, matches, after, 1) && p.next != "" && Cursor("") == Cursor(p.next) == Some(after)
    ensures Walk([db, db], [p, p], matches, 1)
  {
    hide IsPage, Cursor;
    assert WalkStep([db, db], [p, p], matches, 1, 0);
    assert WalkStep([db, db], [p, p], matches, 1, 1);
  }

  lemma TwiceTheSame(p: Page, r: Row)
    requires p.rows == [r]
    ensures !InOrder(All([p, p]))
  {
    KeyLessIsStrict(KeyOf(r));
    hide KeyLess, KeyOf;
    assert [p, p][..1] == [p] && [p][..0] == [];
    assert All([p]) == [] + [r];
    assert All([p, p]) == [r] + [r];
    assert All([p, p])[0] == All([p, p])[1] == r;
  }

  lemma NamelessPage(db: Db, matches: Item -> bool, other: Uuid)
    requires NIL in db && db[NIL].name == [] && matches(db[NIL])
    requires other in db && other != NIL && db[other].name != [] && matches(db[other])
    requires forall id :: id in db ==> id == NIL || id == other
    ensures IsPage(Page([Row(NIL, db[NIL])], EncodeToken(START)), db, matches, START, 1)
  {
    hide EncodeToken, DecodeToken, KeyLess, Selected, First;
    var nil, second := Row(NIL, db[NIL]), Row(other, db[other]);
    TokenReadsBack(START);
    NamelessIsLeast(nil, second);
    StaysSelected(db, matches, START, nil);
    StaysSelected(db, matches, START, second);
    NothingElse(db, matches, nil, second);
    FirstOfTwo(Selected(db, matches, START), nil, second);
  }

  lemma NamelessIsLeast(a: Row, b: Row)
    requires a.item.name == [] && b.item.name != []
    ensures KeyLess(KeyOf(a), KeyOf(b))
  {
  }

  lemma FirstOfTwo(all: set<Row>, a: Row, b: Row)
    requires a in all && b in all && KeyLess(KeyOf(a), KeyOf(b)) && forall r :: r in all ==> r == a || r == b
    ensures First([a], all, 1)
  {
    hide KeyLess, KeyOf;
  }

  lemma NothingElse(db: Db, matches: Item -> bool, a: Row, b: Row)
    requires forall id :: id in db ==> Row(id, db[id]) == a || Row(id, db[id]) == b
    ensures forall r :: r in Selected(db, matches, START) ==> r == a || r == b
  {
  }
}
