/** What the books say: the trial balance of a period, and one account's ledger with
    its running balance.

    Figures are computed as the queries do, row by row, and then shown to be what the
    journal says: by account and by entry alike, from one period to the next, and the
    ledger of an account against its line in the trial balance. */
module Reports {
  import opened Common
  import opened Posting
  import opened Ledger

  // --------------------------------------------------------------------- the figures

  predicate InPeriod(at: int, from: Option<int>, to: Option<int>) {
    (from.Some? ==> from.value <= at) && (to.Some? ==> at < to.value)
  }

  /** An account's signed debit total over a period. */
  function Figure(journal: seq<Posted>, from: Option<int>, to: Option<int>, a: Account): int {
    if journal == [] then 0
    else
      var e := journal[|journal| - 1];
      Figure(journal[..|journal| - 1], from, to, a) + if InPeriod(e.at, from, to) then Effect(e.lines, a) else 0
  }

  predicate Touches(lines: seq<Line>, a: Account) {
    exists i :: 0 <= i < |lines| && lines[i].account == a
  }

  predicate Moved(journal: seq<Posted>, from: Option<int>, to: Option<int>, a: Account) {
    exists i :: 0 <= i < |journal| && InPeriod(journal[i].at, from, to) && Touches(journal[i].lines, a)
  }

  /** The query's rows: accounts never posted to are kept at nothing, and an account
      with lines but none of them in the period has no row. */
  predicate Listed(journal: seq<Posted>, from: Option<int>, to: Option<int>, a: Account) {
    Moved(journal, from, to, a) || !Moved(journal, None, None, a)
  }

  datatype Balance = Balance(account: Account, debit: int)

  function Rows(journal: seq<Posted>, from: Option<int>, to: Option<int>, accounts: seq<Account>): seq<Balance> {
    if accounts == [] then []
    else
      var init, a := Rows(journal, from, to, accounts[..|accounts| - 1]), accounts[|accounts| - 1];
      if Listed(journal, from, to, a) then init + [Balance(a, Figure(journal, from, to, a))] else init
  }

  // ------------------------------------------------------------------- the two columns

  function Debits(rows: seq<Balance>): int {
    if rows == [] then 0
    else Debits(rows[..|rows| - 1]) + if rows[|rows| - 1].debit > 0 then rows[|rows| - 1].debit else 0
  }

  function Credits(rows: seq<Balance>): int {
    if rows == [] then 0
    else Credits(rows[..|rows| - 1]) + if rows[|rows| - 1].debit > 0 then 0 else -rows[|rows| - 1].debit
  }

  predicate DebitPositive(a: Account) {
    a in {Cash, CardClearing, Bank, Inventory, Receivables, CostOfSales, PaymentFees, StockLosses, OtherExpenses}
  }

  datatype Column = Column(account: Account, natural: int, debit: int, credit: int)

  /** A row and how it is shown: one column holds the figure, the other nothing, and
      the balance is read the way the account grows. `up` says which way that is for
      an account of the tenant's own. */
  predicate Shows(c: Column, b: Balance, up: Account -> bool) {
    && c.account == b.account
    && c.debit - c.credit == b.debit
    && 0 <= c.debit && 0 <= c.credit && (c.debit == 0 || c.credit == 0)
    && c.natural == if Owed(b.account) || (b.account.Own? && !up(b.account)) then -b.debit else b.debit
  }

  /** What grows on the credit side: liabilities, equity and revenue. */
  predicate Owed(a: Account) {
    match a
    case Payables | TaxPayable | DeferredRevenue | GiftLiability => true
    case OwnerEquity | RetainedEarnings => true
    case SalesRevenue | SalesRefunds | DiscountsGiven => true
    case _ => false
  }

  function DebitColumn(columns: seq<Column>): int {
    if columns == [] then 0 else DebitColumn(columns[..|columns| - 1]) + columns[|columns| - 1].debit
  }

  function CreditColumn(columns: seq<Column>): int {
    if columns == [] then 0 else CreditColumn(columns[..|columns| - 1]) + columns[|columns| - 1].credit
  }

  method TrialBalance(rows: seq<Balance>, up: Account -> bool)
    returns (columns: seq<Column>, debits: int, credits: int, balanced: bool)
    ensures |columns| == |rows| && forall i :: 0 <= i < |rows| ==> Shows(columns[i], rows[i], up)
    ensures debits == Debits(rows) == DebitColumn(columns) && credits == Credits(rows) == CreditColumn(columns)
    ensures balanced <==> debits == credits
  {
    columns, debits, credits := [], 0, 0;
    for i := 0 to |rows|
      invariant |columns| == i && forall k :: 0 <= k < i ==> Shows(columns[k], rows[k], up)
      invariant debits == Debits(rows[..i]) == DebitColumn(columns)
      invariant credits == Credits(rows[..i]) == CreditColumn(columns)
    {
      assert rows[..i + 1][..i] == rows[..i];
      ghost var before := columns;
      var b := rows[i];
      var debit, credit := 0, 0;
      if b.debit > 0 {
        debit := b.debit;
      } else {
        credit := -b.debit;
      }
      debits := debits + debit;
      credits := credits + credit;
      var natural := b.debit;
      if !DebitPositive(b.account) && !(b.account.Own? && up(b.account)) {
        natural := -natural;
      }
      columns := columns + [Column(b.account, natural, debit, credit)];
      assert columns[..i] == before;
    }
    assert rows[..|rows|] == rows;
    balanced := debits == credits;
  }

  // ------------------------------------------------- summing by account, and by entry

  function RowSum(rows: seq<Balance>): int {
    if rows == [] then 0 else RowSum(rows[..|rows| - 1]) + rows[|rows| - 1].debit
  }

  function EffectOver(lines: seq<Line>, accounts: seq<Account>): int {
    if accounts == [] then 0
    else EffectOver(lines, accounts[..|accounts| - 1]) + Effect(lines, accounts[|accounts| - 1])
  }

  function FigureOver(journal: seq<Posted>, from: Option<int>, to: Option<int>, accounts: seq<Account>): int {
    if accounts == [] then 0
    else FigureOver(journal, from, to, accounts[..|accounts| - 1]) + Figure(journal, from, to, accounts[|accounts| - 1])
  }

  /** By entry: what the entries of the period sum to. */
  function PeriodSum(journal: seq<Posted>, from: Option<int>, to: Option<int>): int {
    if journal == [] then 0
    else
      var e := journal[|journal| - 1];
      PeriodSum(journal[..|journal| - 1], from, to) + if InPeriod(e.at, from, to) then Sum(e.lines) else 0
  }

  predicate AllIn(lines: seq<Line>, accounts: seq<Account>) {
    forall i :: 0 <= i < |lines| ==> lines[i].account in accounts
  }

  lemma {:induction false} EffectOverEmpty(accounts: seq<Account>)
    ensures EffectOver([], accounts) == 0
  {
    if accounts != [] {
      EffectOverEmpty(accounts[..|accounts| - 1]);
    }
  }

  lemma {:induction false} EffectOverLast(lines: seq<Line>, accounts: seq<Account>)
    requires lines != [] && Distinct(accounts)
    ensures var l := lines[|lines| - 1];
            EffectOver(lines, accounts) ==
            EffectOver(lines[..|lines| - 1], accounts) + if l.account in accounts then l.minor else 0
  {
    if accounts != [] {
      EffectOverLast(lines, accounts[..|accounts| - 1]);
      assert accounts == accounts[..|accounts| - 1] + [accounts[|accounts| - 1]];
    }
  }

  lemma {:induction false} EffectsSumToLines(lines: seq<Line>, accounts: seq<Account>)
    requires Distinct(accounts) && AllIn(lines, accounts)
    ensures EffectOver(lines, accounts) == Sum(lines)
  {
    if lines == [] {
      EffectOverEmpty(accounts);
    } else {
      EffectOverLast(lines, accounts);
      EffectsSumToLines(lines[..|lines| - 1], accounts);
    }
  }

  lemma {:induction false} FigureOverEmpty(from: Option<int>, to: Option<int>, accounts: seq<Account>)
    ensures FigureOver([], from, to, accounts) == 0
  {
    if accounts != [] {
      FigureOverEmpty(from, to, accounts[..|accounts| - 1]);
    }
  }

  lemma {:induction false} FigureOverLast(journal: seq<Posted>, from: Option<int>, to: Option<int>, accounts: seq<Account>)
    requires journal != []
    ensures var e := journal[|journal| - 1];
            FigureOver(journal, from, to, accounts) ==
            FigureOver(journal[..|journal| - 1], from, to, accounts)
            + if InPeriod(e.at, from, to) then EffectOver(e.lines, accounts) else 0
  {
    if accounts != [] {
      FigureOverLast(journal, from, to, accounts[..|accounts| - 1]);
    }
  }

  predicate OnChart(journal: seq<Posted>, accounts: seq<Account>) {
    forall i :: 0 <= i < |journal| ==> AllIn(journal[i].lines, accounts)
  }

  /** Summing account by account is summing entry by entry: a period takes or leaves
      an entry whole. */
  lemma {:induction false} FiguresSumToPeriod(journal: seq<Posted>, from: Option<int>, to: Option<int>, accounts: seq<Account>)
    requires Distinct(accounts) && OnChart(journal, accounts)
    ensures FigureOver(journal, from, to, accounts) == PeriodSum(journal, from, to)
  {
    hide AllIn, Distinct, InPeriod;
    if journal == [] {
      FigureOverEmpty(from, to, accounts);
    } else {
      FigureOverLast(journal, from, to, accounts);
      FiguresSumToPeriod(journal[..|journal| - 1], from, to, accounts);
      EffectsSumToLines(journal[|journal| - 1].lines, accounts);
    }
  }

  lemma {:induction false} UntouchedIsZero(lines: seq<Line>, a: Account)
    requires !Touches(lines, a)
    ensures Effect(lines, a) == 0
  {
    if lines != [] {
      assert forall i :: 0 <= i < |lines| - 1 ==> lines[..|lines| - 1][i] == lines[i];
      UntouchedIsZero(lines[..|lines| - 1], a);
    }
  }

  lemma {:induction false} UnmovedIsZero(journal: seq<Posted>, from: Option<int>, to: Option<int>, a: Account)
    requires !Moved(journal, from, to, a)
    ensures Figure(journal, from, to, a) == 0
  {
    hide Touches, InPeriod, Effect;
    if journal != [] {
      var init, e := journal[..|journal| - 1], journal[|journal| - 1];
      assert !Moved(init, from, to, a) by {
        assert forall i :: 0 <= i < |init| ==> init[i] == journal[i];
      }
      UnmovedIsZero(init, from, to, a);
      if InPeriod(e.at, from, to) {
        UntouchedIsZero(e.lines, a);
      }
    }
  }

  lemma RowSumAppend(rows: seq<Balance>, b: Balance)
    ensures RowSum(rows + [b]) == RowSum(rows) + b.debit
  {
    assert (rows + [b])[..|rows|] == rows;
  }

  lemma UnlistedIsZero(journal: seq<Posted>, from: Option<int>, to: Option<int>, a: Account)
    requires !Listed(journal, from, to, a)
    ensures Figure(journal, from, to, a) == 0
  {
    hide Figure, Moved;
    UnmovedIsZero(journal, from, to, a);
  }

  lemma {:induction false} RowsSum(journal: seq<Posted>, from: Option<int>, to: Option<int>, accounts: seq<Account>)
    ensures RowSum(Rows(journal, from, to, accounts)) == FigureOver(journal, from, to, accounts)
  {
    hide Figure, Listed, RowSum;
    if accounts == [] {
      assert RowSum([]) == 0 by { NoRows(); }
    } else {
      var init, a := accounts[..|accounts| - 1], accounts[|accounts| - 1];
      RowsSum(journal, from, to, init);
      if Listed(journal, from, to, a) {
        RowSumAppend(Rows(journal, from, to, init), Balance(a, Figure(journal, from, to, a)));
      } else {
        UnlistedIsZero(journal, from, to, a);
      }
    }
  }

  lemma NoRows()
    ensures RowSum([]) == 0
  {
  }

  lemma {:induction false} ColumnsDiffer(rows: seq<Balance>)
    ensures Debits(rows) - Credits(rows) == RowSum(rows)
  {
    if rows != [] {
      ColumnsDiffer(rows[..|rows| - 1]);
    }
  }

  /** The trial balance balances exactly when the entries of the period do, whatever
      accounts it drops. */
  lemma ColumnsAgreeIff(journal: seq<Posted>, from: Option<int>, to: Option<int>, accounts: seq<Account>)
    requires Distinct(accounts) && OnChart(journal, accounts)
    ensures Debits(Rows(journal, from, to, accounts)) == Credits(Rows(journal, from, to, accounts)) <==>
              PeriodSum(journal, from, to) == 0
  {
    ColumnsDiffer(Rows(journal, from, to, accounts));
    RowsSum(journal, from, to, accounts);
    FiguresSumToPeriod(journal, from, to, accounts);
  }

  lemma {:induction false} SoundSumsToZero(accounts: seq<Account>, journal: seq<Posted>, from: Option<int>, to: Option<int>)
    requires Sound(accounts, journal)
    ensures PeriodSum(journal, from, to) == 0 && OnChart(journal, accounts)
  {
    if journal != [] {
      var init := journal[..|journal| - 1];
      assert Sound(accounts, init) by {
        assert forall i :: 0 <= i < |init| ==> init[i] == journal[i];
      }
      SoundSumsToZero(accounts, init, from, to);
      assert SoundEntry(accounts, journal[|journal| - 1]);
      assert forall i :: 0 <= i < |init| ==> AllIn(init[i].lines, accounts);
    }
  }

  /** The books balance, for every period, after every run. */
  lemma BooksBalance(b: Books, cs: seq<Command>, z: Books, from: Option<int>, to: Option<int>)
    requires Inv(b) && IsRun(b, cs, z)
    ensures Debits(Rows(z.journal, from, to, z.accounts)) == Credits(Rows(z.journal, from, to, z.accounts))
  {
    hide IsRun, Sound;
    RunKeepsInv(b, cs, z);
    SoundSumsToZero(z.accounts, z.journal, from, to);
    ColumnsAgreeIff(z.journal, from, to, z.accounts);
  }

  /** A line on the account, of an entry from `from` on and before `to`. */
  ghost predicate LineWithin(journal: seq<Posted>, from: Option<int>, to: Option<int>, a: Account) {
    exists k, i :: 0 <= k < |journal| && 0 <= i < |journal[k].lines| && journal[k].lines[i].account == a
                   && (from == None || from.value <= journal[k].at) && (to == None || journal[k].at < to.value)
  }

  lemma LineWithinIsMoved(journal: seq<Posted>, from: Option<int>, to: Option<int>, a: Account)
    ensures LineWithin(journal, from, to, a) <==> Moved(journal, from, to, a)
  {
    if LineWithin(journal, from, to, a) {
      var k, i :| 0 <= k < |journal| && 0 <= i < |journal[k].lines| && journal[k].lines[i].account == a
                  && (from == None || from.value <= journal[k].at) && (to == None || journal[k].at < to.value);
      assert Touches(journal[k].lines, a);
    }
  }

  /** A trial balance has a row for each account of the chart with a line in the period,
      and for each that has never had one; it gives what the account moved. */
  lemma {:induction false} RowsAre(journal: seq<Posted>, from: Option<int>, to: Option<int>, accounts: seq<Account>, b: Balance)
    ensures b in Rows(journal, from, to, accounts) <==>
              && b.account in accounts && b.debit == Figure(journal, from, to, b.account)
              && (LineWithin(journal, from, to, b.account) || !LineWithin(journal, None, None, b.account))
  {
    hide Figure, Moved, LineWithin;
    if accounts != [] {
      var a := accounts[|accounts| - 1];
      RowsAre(journal, from, to, accounts[..|accounts| - 1], b);
      LineWithinIsMoved(journal, from, to, a);
      LineWithinIsMoved(journal, None, None, a);
    }
  }

  // ------------------------------------------------------------------ sale, then void

  lemma {:induction false} FigureAppend(journal: seq<Posted>, e: Posted, from: Option<int>, to: Option<int>, a: Account)
    ensures Figure(journal + [e], from, to, a) ==
            Figure(journal, from, to, a) + if InPeriod(e.at, from, to) then Effect(e.lines, a) else 0
  {
    assert (journal + [e])[..|journal|] == journal;
  }

  /** A sale booked and then voided leaves every account where it was. */
  lemma SaleThenVoid(b: Books, sale: Message, void: Message, currency: string, a: Account)
    requires sale.event.Placed? && void.event == Voided(sale.event.order)
    requires Handle(b, sale, currency).0.journal != b.journal
    requires Handle(Handle(b, sale, currency).0, void, currency).0.journal != Handle(b, sale, currency).0.journal
    ensures Figure(Handle(Handle(b, sale, currency).0, void, currency).0.journal, None, None, a)
         == Figure(b.journal, None, None, a)
  {
    hide Figure, Seeded, Refusal, Sum, Effect, SaleLines, Negated;
    var b1 := Handle(b, sale, currency).0;
    var b2 := Handle(b1, void, currency).0;
    var e1 := EntryOf(sale, EntryFor(sale.event).value, currency);
    var e2 := EntryOf(void, EntryFor(void.event).value, currency);
    assert b1.journal == b.journal + [e1] && b2.journal == b1.journal + [e2];
    FigureAppend(b.journal, e1, None, None, a);
    FigureAppend(b1.journal, e2, None, None, a);
    VoidCancelsSale(sale.event.order, a);
  }

  // ------------------------------------------------------------- one account's ledger

  /** One line of the account: when it happened, where it stands among all the lines
      ever written, and what it moved. */
  datatype Movement = Movement(at: int, serial: nat, minor: int)

  /** The lines of one entry on an account, the entry's first line being number `base`. */
  function EntryMovements(at: int, lines: seq<Line>, base: nat, a: Account): seq<Movement> {
    if lines == [] then []
    else
      var n := |lines| - 1;
      var init := EntryMovements(at, lines[..n], base, a);
      if lines[n].account == a then init + [Movement(at, base + n, lines[n].minor)] else init
  }

  function LineCount(journal: seq<Posted>): nat {
    if journal == [] then 0 else LineCount(journal[..|journal| - 1]) + |journal[|journal| - 1].lines|
  }

  function Movements(journal: seq<Posted>, from: Option<int>, to: Option<int>, a: Account): seq<Movement> {
    if journal == [] then []
    else
      var init, e := journal[..|journal| - 1], journal[|journal| - 1];
      var ms := Movements(init, from, to, a);
      if InPeriod(e.at, from, to) then ms + EntryMovements(e.at, e.lines, LineCount(init), a) else ms
  }

  predicate Before(x: Movement, y: Movement) { x.at < y.at || (x.at == y.at && x.serial < y.serial) }

  predicate InOrder(ms: seq<Movement>) {
    forall i, j :: 0 <= i < j < |ms| ==> Before(ms[i], ms[j])
  }

  predicate SerialsRise(ms: seq<Movement>) {
    forall i, j :: 0 <= i < j < |ms| ==> ms[i].serial < ms[j].serial
  }

  /** Puts a movement in its place among movements in order. */
  function Insert(ms: seq<Movement>, m: Movement): seq<Movement> {
    if ms == [] || Before(ms[|ms| - 1], m) then ms + [m]
    else Insert(ms[..|ms| - 1], m) + [ms[|ms| - 1]]
  }

  /** The query's order: by when it happened, then by line. */
  function Ordered(ms: seq<Movement>): seq<Movement> {
    if ms == [] then [] else Insert(Ordered(ms[..|ms| - 1]), ms[|ms| - 1])
  }

  function MinorSum(ms: seq<Movement>): int {
    if ms == [] then 0 else MinorSum(ms[..|ms| - 1]) + ms[|ms| - 1].minor
  }

  function Opening(journal: seq<Posted>, from: Option<int>, a: Account): int {
    if from.None? then 0 else Figure(journal, None, from, a)
  }

  /** The rows of an account's ledger, at most `limit` of them. */
  function LedgerRows(journal: seq<Posted>, from: Option<int>, to: Option<int>, limit: nat, a: Account): seq<Movement> {
    var ms := Ordered(Movements(journal, from, to, a));
    if limit < |ms| then ms[..limit] else ms
  }

  predicate Untruncated(journal: seq<Posted>, from: Option<int>, to: Option<int>, limit: nat, a: Account) {
    |Movements(journal, from, to, a)| <= limit
  }

  function Closing(journal: seq<Posted>, from: Option<int>, to: Option<int>, limit: nat, a: Account): int {
    Opening(journal, from, a) + MinorSum(LedgerRows(journal, from, to, limit, a))
  }

  /** The rows with the balance after each, and the balance the page closes on. */
  method AccountLedger(b: Books, a: Account, from: Option<int>, to: Option<int>, limit: nat)
    returns (r: Result<(int, seq<int>, int), Error>)
    ensures r.Err? <==> a !in b.accounts
    ensures r.Err? ==> r.error == NotFound
    ensures r.Ok? ==>
              var (opening, running, closing) := r.value;
              var rows := LedgerRows(b.journal, from, to, limit, a);
              && opening == Opening(b.journal, from, a)
              && |running| == |rows|
              && (forall i :: 0 <= i < |rows| ==> running[i] == opening + MinorSum(rows[..i + 1]))
              && closing == Closing(b.journal, from, to, limit, a)
  {
    if a !in b.accounts {
      return Err(NotFound);
    }
    var opening := Opening(b.journal, from, a);
    var rows := LedgerRows(b.journal, from, to, limit, a);
    var total, closing, running := opening, opening, [];
    for i := 0 to |rows|
      invariant total == closing == opening + MinorSum(rows[..i])
      invariant |running| == i
      invariant forall k :: 0 <= k < i ==> running[k] == opening + MinorSum(rows[..k + 1])
    {
      assert rows[..i + 1][..i] == rows[..i];
      total := total + rows[i].minor;
      running := running + [total];
      closing := total;
    }
    assert rows[..|rows|] == rows;
    return Ok((opening, running, closing));
  }

  // ---- the order ----

  lemma {:induction false} InsertAdds(ms: seq<Movement>, m: Movement)
    ensures multiset(Insert(ms, m)) == multiset(ms) + multiset{m}
    ensures |Insert(ms, m)| == |ms| + 1
  {
    hide Before;
    if ms != [] && !Before(ms[|ms| - 1], m) {
      var init, last := ms[..|ms| - 1], ms[|ms| - 1];
      InsertAdds(init, m);
      assert ms == init + [last];
    }
  }

  lemma {:induction false} InsertSum(ms: seq<Movement>, m: Movement)
    ensures MinorSum(Insert(ms, m)) == MinorSum(ms) + m.minor
  {
    hide Before;
    if ms == [] || Before(ms[|ms| - 1], m) {
      assert (ms + [m])[..|ms|] == ms;
    } else {
      var init, last := ms[..|ms| - 1], ms[|ms| - 1];
      InsertSum(init, m);
      assert (Insert(init, m) + [last])[..|Insert(init, m)|] == Insert(init, m);
    }
  }

  lemma {:induction false} InsertKeepsOrder(ms: seq<Movement>, m: Movement)
    requires InOrder(ms) && forall i :: 0 <= i < |ms| ==> ms[i].serial != m.serial
    ensures InOrder(Insert(ms, m))
  {
    if ms != [] && !Before(ms[|ms| - 1], m) {
      var init, last := ms[..|ms| - 1], ms[|ms| - 1];
      InsertKeepsOrder(init, m);
      InsertAdds(init, m);
      InsertedBefore(init, m, last, Insert(init, m));
    }
  }

  lemma InsertedBefore(init: seq<Movement>, m: Movement, last: Movement, r: seq<Movement>)
    requires InOrder(r) && multiset(r) == multiset(init) + multiset{m}
    requires Before(m, last) && forall i :: 0 <= i < |init| ==> Before(init[i], last)
    ensures InOrder(r + [last])
  {
    hide Before;
    forall i | 0 <= i < |r|
      ensures Before(r[i], last)
    {
      assert r[i] in multiset(r);
      assert r[i] in init || r[i] == m;
    }
  }

  lemma {:induction false} OrderedIsAll(ms: seq<Movement>)
    ensures multiset(Ordered(ms)) == multiset(ms) && |Ordered(ms)| == |ms|
    ensures MinorSum(Ordered(ms)) == MinorSum(ms)
  {
    hide Insert;
    if ms != [] {
      var init, m := ms[..|ms| - 1], ms[|ms| - 1];
      OrderedIsAll(init);
      assert ms == init + [m];
      InsertAdds(Ordered(init), m);
      InsertSum(Ordered(init), m);
    }
  }

  lemma SerialApart(ms: seq<Movement>, m: Movement, sorted: seq<Movement>)
    requires SerialsRise(ms + [m]) && multiset(sorted) == multiset(ms)
    ensures forall i :: 0 <= i < |sorted| ==> sorted[i].serial != m.serial
  {
    forall i | 0 <= i < |sorted|
      ensures sorted[i].serial != m.serial
    {
      assert sorted[i] in multiset(ms);
      var k :| 0 <= k < |ms| && ms[k] == sorted[i];
      assert (ms + [m])[k].serial < (ms + [m])[|ms|].serial;
    }
  }

  lemma {:induction false} OrderedIsInOrder(ms: seq<Movement>)
    requires SerialsRise(ms)
    ensures InOrder(Ordered(ms))
  {
    if ms != [] {
      var init, m := ms[..|ms| - 1], ms[|ms| - 1];
      assert ms == init + [m];
      OrderedIsInOrder(init);
      OrderedIsAll(init);
      hide Insert, SerialsRise, InOrder;
      SerialApart(init, m, Ordered(init));
      InsertKeepsOrder(Ordered(init), m);
    }
  }

  lemma {:induction false} EntryMovementsRise(at: int, lines: seq<Line>, base: nat, a: Account)
    ensures SerialsRise(EntryMovements(at, lines, base, a))
    ensures forall m :: m in EntryMovements(at, lines, base, a) ==> base <= m.serial < base + |lines| && m.at == at
    ensures MinorSum(EntryMovements(at, lines, base, a)) == Effect(lines, a)
  {
    if lines != [] {
      var n := |lines| - 1;
      EntryMovementsRise(at, lines[..n], base, a);
      var init := EntryMovements(at, lines[..n], base, a);
      assert (init + [Movement(at, base + n, lines[n].minor)])[..|init|] == init;
    }
  }

  lemma {:induction false} MinorSumConcat(x: seq<Movement>, y: seq<Movement>)
    ensures MinorSum(x + y) == MinorSum(x) + MinorSum(y)
  {
    if y == [] {
      assert x + y == x;
    } else {
      assert (x + y)[..|x + y| - 1] == x + y[..|y| - 1];
      MinorSumConcat(x, y[..|y| - 1]);
    }
  }

  lemma {:induction false} MovementsSum(journal: seq<Posted>, from: Option<int>, to: Option<int>, a: Account)
    ensures MinorSum(Movements(journal, from, to, a)) == Figure(journal, from, to, a)
  {
    hide InPeriod, EntryMovements, Effect, MinorSum, LineCount;
    if journal == [] {
      assert MinorSum([]) == 0 by { NoMovements(); }
    } else {
      var init, e := journal[..|journal| - 1], journal[|journal| - 1];
      MovementsSum(init, from, to, a);
      EntryMovementsRise(e.at, e.lines, LineCount(init), a);
      MinorSumConcat(Movements(init, from, to, a), EntryMovements(e.at, e.lines, LineCount(init), a));
    }
  }

  lemma NoMovements()
    ensures MinorSum([]) == 0 && SerialsRise([])
  {
  }

  predicate SerialsWithin(ms: seq<Movement>, lo: nat, hi: nat) {
    forall i :: 0 <= i < |ms| ==> lo <= ms[i].serial < hi
  }

  lemma RiseConcat(x: seq<Movement>, y: seq<Movement>, lo: nat, mid: nat, hi: nat)
    requires SerialsRise(x) && SerialsRise(y) && SerialsWithin(x, lo, mid) && SerialsWithin(y, mid, hi) && lo <= mid <= hi
    ensures SerialsRise(x + y) && SerialsWithin(x + y, lo, hi)
  {
  }

  lemma {:induction false} MovementsRise(journal: seq<Posted>, from: Option<int>, to: Option<int>, a: Account)
    ensures SerialsRise(Movements(journal, from, to, a))
    ensures SerialsWithin(Movements(journal, from, to, a), 0, LineCount(journal))
  {
    hide InPeriod, EntryMovements, SerialsRise;
    if journal == [] {
      assert SerialsRise([]) by { NoMovements(); }
    } else {
      var init, e := journal[..|journal| - 1], journal[|journal| - 1];
      var own := EntryMovements(e.at, e.lines, LineCount(init), a);
      MovementsRise(init, from, to, a);
      EntryMovementsRise(e.at, e.lines, LineCount(init), a);
      assert SerialsWithin(own, LineCount(init), LineCount(journal));
      RiseConcat(Movements(init, from, to, a), own, 0, LineCount(init), LineCount(journal));
    }
  }

  lemma {:induction false} EntryMovementsHold(at: int, lines: seq<Line>, base: nat, a: Account, m: Movement)
    ensures m in EntryMovements(at, lines, base, a) <==>
              exists i :: 0 <= i < |lines| && lines[i].account == a && m == Movement(at, base + i, lines[i].minor)
  {
    if lines != [] {
      var init := lines[..|lines| - 1];
      EntryMovementsHold(at, init, base, a, m);
      assert forall i :: 0 <= i < |init| ==> init[i] == lines[i];
    }
  }

  /** The movement is the i-th line of the k-th entry. */
  predicate IsLine(journal: seq<Posted>, k: nat, i: nat, a: Account, m: Movement) {
    && k < |journal| && i < |journal[k].lines| && journal[k].lines[i].account == a
    && m == Movement(journal[k].at, LineCount(journal[..k]) + i, journal[k].lines[i].minor)
  }

  ghost predicate Lined(journal: seq<Posted>, a: Account, m: Movement) {
    exists k: nat, i: nat :: IsLine(journal, k, i, a, m)
  }

  lemma EarlierLine(journal: seq<Posted>, k: nat, i: nat, a: Account, m: Movement)
    requires k < |journal| - 1
    ensures IsLine(journal, k, i, a, m) <==> IsLine(journal[..|journal| - 1], k, i, a, m)
  {
    hide LineCount;
    assert journal[..|journal| - 1][..k] == journal[..k];
  }

  /** The i-th of one entry's lines. */
  predicate IsOwnLine(e: Posted, base: nat, i: nat, a: Account, m: Movement) {
    i < |e.lines| && e.lines[i].account == a && m == Movement(e.at, base + i, e.lines[i].minor)
  }

  lemma OwnLines(e: Posted, base: nat, a: Account, m: Movement)
    ensures m in EntryMovements(e.at, e.lines, base, a) <==> exists i: nat :: IsOwnLine(e, base, i, a, m)
  {
    hide EntryMovements;
    EntryMovementsHold(e.at, e.lines, base, a, m);
    if i: nat :| IsOwnLine(e, base, i, a, m) {
      assert e.lines[i].account == a;
    }
    if i :| 0 <= i < |e.lines| && e.lines[i].account == a && m == Movement(e.at, base + i, e.lines[i].minor) {
      assert IsOwnLine(e, base, i, a, m);
    }
  }

  lemma LastLine(journal: seq<Posted>, i: nat, a: Account, m: Movement)
    requires journal != []
    ensures var n := |journal| - 1;
            IsLine(journal, n, i, a, m) <==> IsOwnLine(journal[n], LineCount(journal[..n]), i, a, m)
  {
    hide LineCount;
  }

  lemma LinesGrow(journal: seq<Posted>, a: Account, m: Movement)
    requires journal != []
    ensures var n := |journal| - 1;
            Lined(journal, a, m) <==>
              Lined(journal[..n], a, m) || m in EntryMovements(journal[n].at, journal[n].lines, LineCount(journal[..n]), a)
  {
    hide EntryMovements, LineCount, IsOwnLine;
    var n := |journal| - 1;
    var base := LineCount(journal[..n]);
    OwnLines(journal[n], base, a, m);
    if k: nat, i: nat :| IsLine(journal[..n], k, i, a, m) {
      EarlierLine(journal, k, i, a, m);
    }
    if k: nat, i: nat :| IsLine(journal, k, i, a, m) {
      if k < n {
        EarlierLine(journal, k, i, a, m);
      } else {
        LastLine(journal, i, a, m);
      }
    }
    if i: nat :| IsOwnLine(journal[n], base, i, a, m) {
      LastLine(journal, i, a, m);
    }
  }

  /** The movements of a period are the lines on the account of the entries from `from` on
      and before `to`, all of them. */
  lemma {:induction false} MovementsAreLines(journal: seq<Posted>, from: Option<int>, to: Option<int>, a: Account, m: Movement)
    ensures m in Movements(journal, from, to, a) <==>
              && (from == None || from.value <= m.at) && (to == None || m.at < to.value)
              && Lined(journal, a, m)
  {
    hide EntryMovements, LineCount, Lined;
    if journal == [] {
      assert !Lined([], a, m) by { NoLines(a, m); }
    } else {
      var n := |journal| - 1;
      MovementsAreLines(journal[..n], from, to, a, m);
      EntryMovementsRise(journal[n].at, journal[n].lines, LineCount(journal[..n]), a);
      LinesGrow(journal, a, m);
    }
  }

  lemma NoLines(a: Account, m: Movement)
    ensures !Lined([], a, m)
  {
  }

  /** The rows of an account's ledger are in order of date and then of line, every one a
      line on it in the period, and without a limit they are all of those. */
  lemma LedgerRowsInOrder(journal: seq<Posted>, from: Option<int>, to: Option<int>, limit: nat, a: Account)
    ensures var rows := LedgerRows(journal, from, to, limit, a);
            && (forall i, j :: 0 <= i < j < |rows| ==>
                  rows[i].at < rows[j].at || (rows[i].at == rows[j].at && rows[i].serial < rows[j].serial))
            && (forall m :: m in rows ==>
                  (from == None || from.value <= m.at) && (to == None || m.at < to.value) && Lined(journal, a, m))
            && (Untruncated(journal, from, to, limit, a) ==> multiset(rows) == multiset(Movements(journal, from, to, a)))
  {
    hide Movements, Ordered, Lined;
    var ms := Movements(journal, from, to, a);
    MovementsRise(journal, from, to, a);
    OrderedIsInOrder(ms);
    OrderedIsAll(ms);
    forall m | m in LedgerRows(journal, from, to, limit, a)
      ensures m in ms
    {
      assert m in multiset(Ordered(ms));
    }
    forall m | m in LedgerRows(journal, from, to, limit, a)
      ensures (from == None || from.value <= m.at) && (to == None || m.at < to.value) && Lined(journal, a, m)
    {
      MovementsAreLines(journal, from, to, a, m);
    }
  }

  // ---- the balances ----

  function Later(from: Option<int>, to: Option<int>): Option<int> {
    if from.Some? && to.Some? && to.value < from.value then from else to
  }

  lemma {:induction false} FiguresChain(journal: seq<Posted>, from: Option<int>, to: Option<int>, a: Account)
    ensures Opening(journal, from, a) + Figure(journal, from, to, a) == Figure(journal, None, Later(from, to), a)
  {
    hide Effect;
    if journal != [] {
      FiguresChain(journal[..|journal| - 1], from, to, a);
    }
  }

  /** An untruncated ledger closes on the account's trial balance figure up to the same
      date (or to its own start, when the period runs backwards). */
  lemma ClosingIsTheFigure(journal: seq<Posted>, from: Option<int>, to: Option<int>, limit: nat, a: Account)
    requires Untruncated(journal, from, to, limit, a)
    ensures Closing(journal, from, to, limit, a) == Figure(journal, None, Later(from, to), a)
  {
    hide Movements, Ordered, Figure;
    MovementsSum(journal, from, to, a);
    OrderedIsAll(Movements(journal, from, to, a));
    FiguresChain(journal, from, to, a);
  }

  /** Consecutive periods chain: one closes where the next opens. */
  lemma PeriodsChain(journal: seq<Posted>, from: Option<int>, mid: int, limit: nat, a: Account)
    requires Untruncated(journal, from, Some(mid), limit, a)
    requires from.Some? ==> from.value <= mid
    ensures Closing(journal, from, Some(mid), limit, a) == Opening(journal, Some(mid), a)
  {
    hide Movements, Ordered, Figure;
    ClosingIsTheFigure(journal, from, Some(mid), limit, a);
  }

  /** A truncated page closes short by exactly the rows it left out. */
  lemma TruncatedClosing(journal: seq<Posted>, from: Option<int>, to: Option<int>, limit: nat, a: Account)
    requires !Untruncated(journal, from, to, limit, a)
    ensures |Ordered(Movements(journal, from, to, a))| > limit
    ensures Closing(journal, from, to, limit, a)
         == Figure(journal, None, Later(from, to), a) - MinorSum(Ordered(Movements(journal, from, to, a))[limit..])
  {
    hide Movements, Ordered, Figure, MinorSum;
    var ms := Ordered(Movements(journal, from, to, a));
    MovementsSum(journal, from, to, a);
    OrderedIsAll(Movements(journal, from, to, a));
    FiguresChain(journal, from, to, a);
    assert ms == ms[..limit] + ms[limit..];
    MinorSumConcat(ms[..limit], ms[limit..]);
  }
}
