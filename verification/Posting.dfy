/** The posting rules: what an operational event becomes in the books. */
module Posting {
  // A line is a signed debit: positive is a debit, negative a credit, and an entry
  // balances when its lines sum to zero.

  import opened Common

  /** The chart of accounts: the built-in codes, and whatever a tenant added. */
  datatype Account =
    | Cash | CardClearing | Bank | Inventory | Receivables
    | Payables | TaxPayable | DeferredRevenue | GiftLiability
    | OwnerEquity | RetainedEarnings
    | SalesRevenue | SalesRefunds | DiscountsGiven
    | CostOfSales | PaymentFees | StockLosses | OtherExpenses
    | Own(code: string)

  const BUILTIN: seq<Account> := [
    Cash, CardClearing, Bank, Inventory, Receivables,
    Payables, TaxPayable, DeferredRevenue, GiftLiability,
    OwnerEquity, RetainedEarnings,
    SalesRevenue, SalesRefunds, DiscountsGiven,
    CostOfSales, PaymentFees, StockLosses, OtherExpenses]

  datatype Kind = Sale | Void | Refund | Reversal | Manual

  datatype Method = InCash | ByTransfer | Electronic(name: string)

  datatype Tender = Tender(how: Method, amount: int)

  datatype Order = Order(id: nat, open: bool, gross: int, net: int, tax: int, currency: string, tenders: seq<Tender>)

  datatype Return = Return(payment: nat, amount: int, currency: string, how: Method)

  /** A decoded event, by its topic. */
  datatype Event = Placed(order: Order) | Voided(order: Order) | Refunded(back: Return) | Operational

  datatype Line = Line(account: Account, minor: int)

  datatype Entry = Entry(kind: Kind, reference: nat, currency: string, lines: seq<Line>)

  // ------------------------------------------------------------------------ sums

  function Sum(lines: seq<Line>): int {
    if lines == [] then 0 else Sum(lines[..|lines| - 1]) + lines[|lines| - 1].minor
  }

  /** What an entry does to one account. */
  function Effect(lines: seq<Line>, a: Account): int {
    if lines == [] then 0
    else Effect(lines[..|lines| - 1], a) + if lines[|lines| - 1].account == a then lines[|lines| - 1].minor else 0
  }

  method Balanced(lines: seq<Line>) returns (yes: bool)
    ensures yes == (Sum(lines) == 0)
  {
    var sum := 0;
    for i := 0 to |lines|
      invariant sum == Sum(lines[..i])
    {
      assert lines[..i + 1][..i] == lines[..i];
      sum := sum + lines[i].minor;
    }
    assert lines[..|lines|] == lines;
    yes := sum == 0;
  }

  lemma SumAppend(lines: seq<Line>, l: Line)
    ensures Sum(lines + [l]) == Sum(lines) + l.minor
  {
    assert (lines + [l])[..|lines|] == lines;
  }

  lemma EffectAppend(lines: seq<Line>, l: Line, a: Account)
    ensures Effect(lines + [l], a) == Effect(lines, a) + if l.account == a then l.minor else 0
  {
    assert (lines + [l])[..|lines|] == lines;
  }

  // ----------------------------------------------------------------------- sales

  function Settlement(how: Method): Account {
    match how
    case InCash => Cash
    case ByTransfer => Bank
    case Electronic(_) => CardClearing
  }

  /** What was handed over, however it was paid. */
  function Taken(tenders: seq<Tender>): int {
    if tenders == [] then 0 else Taken(tenders[..|tenders| - 1]) + tenders[|tenders| - 1].amount
  }

  /** What was handed over in cash. */
  function InCashTaken(tenders: seq<Tender>): int {
    if tenders == [] then 0
    else
      var t := tenders[|tenders| - 1];
      InCashTaken(tenders[..|tenders| - 1]) + if t.how == InCash then t.amount else 0
  }

  /** What was transferred. */
  function TransferTaken(tenders: seq<Tender>): int {
    if tenders == [] then 0
    else
      var t := tenders[|tenders| - 1];
      TransferTaken(tenders[..|tenders| - 1]) + if t.how == ByTransfer then t.amount else 0
  }

  /** What was paid electronically, by whatever name. */
  function ElectronicTaken(tenders: seq<Tender>): int {
    if tenders == [] then 0
    else
      var t := tenders[|tenders| - 1];
      ElectronicTaken(tenders[..|tenders| - 1]) + if t.how.Electronic? then t.amount else 0
  }

  /** The net the entry credits to revenue: an order that carries no split is booked whole. */
  function Revenue(o: Order): int { if o.net == 0 && o.tax == 0 then o.gross else o.net }

  predicate Bookable(o: Order) { !o.open && o.gross != 0 }

  function TenderLines(tenders: seq<Tender>): seq<Line> {
    if tenders == [] then []
    else
      var t := tenders[|tenders| - 1];
      var init := TenderLines(tenders[..|tenders| - 1]);
      if t.amount == 0 then init else init + [Line(Settlement(t.how), t.amount)]
  }

  /** What came in: the tenders, and what the customer still owes. */
  function DebitLines(o: Order): seq<Line> {
    var paid := TenderLines(o.tenders);
    if Taken(o.tenders) < o.gross then paid + [Line(Receivables, o.gross - Taken(o.tenders))] else paid
  }

  function SaleLines(o: Order): seq<Line> {
    var earned := DebitLines(o) + [Line(SalesRevenue, -Revenue(o))];
    if o.tax != 0 then earned + [Line(TaxPayable, -o.tax)] else earned
  }

  function SaleEntry(o: Order): Option<Entry> {
    if Bookable(o) then Some(Entry(Sale, o.id, o.currency, SaleLines(o))) else None
  }

  method BookSale(o: Order) returns (e: Option<Entry>)
    ensures e == SaleEntry(o)
    ensures e.Some? <==> !o.open && o.gross != 0
    ensures e.Some? ==> e.value == Entry(Sale, o.id, o.currency, e.value.lines)
    ensures e.Some? ==> forall a :: Effect(e.value.lines, a) == SaleEffect(o, a)
  {
    if o.open || o.gross == 0 {
      return None;
    }
    var lines: seq<Line> := [];
    var taken := 0;
    for i := 0 to |o.tenders|
      invariant taken == Taken(o.tenders[..i])
      invariant lines == TenderLines(o.tenders[..i])
    {
      assert o.tenders[..i + 1][..i] == o.tenders[..i];
      var t := o.tenders[i];
      if t.amount != 0 {
        lines := lines + [Line(Settlement(t.how), t.amount)];
        taken := taken + t.amount;
      }
    }
    assert o.tenders[..|o.tenders|] == o.tenders;
    if taken < o.gross {
      lines := lines + [Line(Receivables, o.gross - taken)];
    }
    var net, tax := o.net, o.tax;
    if net == 0 && tax == 0 {
      net := o.gross;
    }
    lines := lines + [Line(SalesRevenue, -net)];
    if tax != 0 {
      lines := lines + [Line(TaxPayable, -tax)];
    }
    forall a ensures Effect(SaleLines(o), a) == SaleEffect(o, a) {
      SaleByAccount(o, a);
    }
    return Some(Entry(Sale, o.id, o.currency, lines));
  }

  // ----------------------------------------------------------- voids and refunds

  function Negated(lines: seq<Line>): seq<Line> {
    if lines == [] then []
    else
      var l := lines[|lines| - 1];
      Negated(lines[..|lines| - 1]) + [Line(l.account, -l.minor)]
  }

  method Backwards(lines: seq<Line>) returns (out: seq<Line>)
    ensures out == Negated(lines)
  {
    out := [];
    for i := 0 to |lines|
      invariant out == Negated(lines[..i])
    {
      assert lines[..i + 1][..i] == lines[..i];
      out := out + [Line(lines[i].account, -lines[i].minor)];
    }
    assert lines[..|lines|] == lines;
  }

  function RefundLines(r: Return): seq<Line> {
    [Line(SalesRefunds, r.amount), Line(Settlement(r.how), -r.amount)]
  }

  /** The entry an event becomes; None when there is nothing to book. */
  function EntryFor(e: Event): Option<Entry> {
    match e
    case Placed(o) => SaleEntry(o)
    case Voided(o) =>
      if Bookable(o) then Some(Entry(Void, o.id, o.currency, Negated(SaleLines(o)))) else None
    case Refunded(r) =>
      if r.amount == 0 then None else Some(Entry(Refund, r.payment, r.currency, RefundLines(r)))
    case Operational => None
  }

  /** What the entry of an event does to an account: a sale puts cash in the drawer,
      transfers in the bank and everything else with the processor, has the customer owe
      the rest, and credits revenue and tax; a void takes all that back; and a refund comes
      out of where it was paid from, and is counted apart from sales. */
  function EventEffect(e: Event, a: Account): int {
    match e
    case Placed(o) => SaleEffect(o, a)
    case Voided(o) => -SaleEffect(o, a)
    case Refunded(r) =>
      if a == SalesRefunds then r.amount
      else if a == (match r.how case InCash => Cash case ByTransfer => Bank case Electronic(_) => CardClearing) then -r.amount
      else 0
    case Operational => 0
  }

  function SaleEffect(o: Order, a: Account): int {
    var taken := InCashTaken(o.tenders) + TransferTaken(o.tenders) + ElectronicTaken(o.tenders);
    match a
    case Cash => InCashTaken(o.tenders)
    case Bank => TransferTaken(o.tenders)
    case CardClearing => ElectronicTaken(o.tenders)
    case Receivables => if taken < o.gross then o.gross - taken else 0
    case SalesRevenue => if o.net == 0 && o.tax == 0 then -o.gross else -o.net
    case TaxPayable => -o.tax
    case _ => 0
  }

  method Describe(e: Event) returns (entry: Option<Entry>)
    ensures entry == EntryFor(e)
    ensures entry.Some? <==> match e
                             case Placed(o) => !o.open && o.gross != 0
                             case Voided(o) => !o.open && o.gross != 0
                             case Refunded(r) => r.amount != 0
                             case Operational => false
    ensures entry.Some? ==> forall a :: Effect(entry.value.lines, a) == EventEffect(e, a)
    ensures entry.Some? ==> entry.value == match e
                                           case Placed(o) => Entry(Sale, o.id, o.currency, entry.value.lines)
                                           case Voided(o) => Entry(Void, o.id, o.currency, entry.value.lines)
                                           case Refunded(r) => Entry(Refund, r.payment, r.currency, entry.value.lines)
                                           case Operational => entry.value
  {
    forall a | EntryFor(e).Some? ensures Effect(EntryFor(e).value.lines, a) == EventEffect(e, a) {
      DescribedEffect(e, a);
    }
    match e
    case Placed(o) =>
      entry := BookSale(o);
    case Voided(o) =>
      if o.gross == 0 {
        return None;
      }
      var sale := BookSale(o);
      if sale.None? {
        return None;
      }
      var lines := Backwards(sale.value.lines);
      entry := Some(Entry(Void, o.id, sale.value.currency, lines));
    case Refunded(r) =>
      if r.amount == 0 {
        return None;
      }
      entry := Some(Entry(Refund, r.payment, r.currency,
                          [Line(SalesRefunds, r.amount), Line(Settlement(r.how), -r.amount)]));
    case Operational =>
      entry := None;
  }

  // --------------------------------------------------------- what a sale entry is

  lemma {:induction false} TenderLinesSum(tenders: seq<Tender>)
    ensures Sum(TenderLines(tenders)) == Taken(tenders)
  {
    if tenders != [] {
      var init, t := tenders[..|tenders| - 1], tenders[|tenders| - 1];
      TenderLinesSum(init);
      SumAppend(TenderLines(init), Line(Settlement(t.how), t.amount));
    }
  }

  lemma {:induction false} TenderLinesEffect(tenders: seq<Tender>, a: Account)
    ensures Effect(TenderLines(tenders), a) ==
            match a
            case Cash => InCashTaken(tenders)
            case Bank => TransferTaken(tenders)
            case CardClearing => ElectronicTaken(tenders)
            case _ => 0
  {
    if tenders != [] {
      var init, t := tenders[..|tenders| - 1], tenders[|tenders| - 1];
      TenderLinesEffect(init, a);
      EffectAppend(TenderLines(init), Line(Settlement(t.how), t.amount), a);
    }
  }

  function Max(x: int, y: int): int { if x < y then y else x }

  /** How far a sale is from balancing: what was charged or taken, whichever is more,
      against what the order says it was for. */
  lemma SaleSum(o: Order)
    ensures Sum(SaleLines(o)) == Max(o.gross, Taken(o.tenders)) - Revenue(o) - o.tax
  {
    hide Sum;
    TenderLinesSum(o.tenders);
    SumAppend(TenderLines(o.tenders), Line(Receivables, o.gross - Taken(o.tenders)));
    SumAppend(DebitLines(o), Line(SalesRevenue, -Revenue(o)));
    SumAppend(DebitLines(o) + [Line(SalesRevenue, -Revenue(o))], Line(TaxPayable, -o.tax));
  }

  /** A sale balances exactly when no more was taken than charged and the split adds
      up to the charge, or more was taken and the split adds up to that. */
  lemma SaleBalancesIff(o: Order)
    ensures Sum(SaleLines(o)) == 0 <==>
              if o.net == 0 && o.tax == 0 then Taken(o.tenders) <= o.gross
              else o.net + o.tax == Max(o.gross, Taken(o.tenders))
  {
    SaleSum(o);
  }

  /** What a sale does to each account: the drawer, the bank and the processor take
      what was tendered their way, the customer owes the rest, revenue is net of tax
      and the tax is a liability. Nothing else moves. */
  lemma SaleByAccount(o: Order, a: Account)
    ensures Effect(SaleLines(o), a) == SaleEffect(o, a)
  {
    hide Effect, InCashTaken, TransferTaken, ElectronicTaken, Taken, TenderLines;
    TenderLinesEffect(o.tenders, a);
    TakenSplits(o.tenders);
    EffectAppend(TenderLines(o.tenders), Line(Receivables, o.gross - Taken(o.tenders)), a);
    EffectAppend(DebitLines(o), Line(SalesRevenue, -Revenue(o)), a);
    EffectAppend(DebitLines(o) + [Line(SalesRevenue, -Revenue(o))], Line(TaxPayable, -o.tax), a);
  }

  /** The three settlement accounts between them hold everything tendered. */
  lemma {:induction false} TakenSplits(tenders: seq<Tender>)
    ensures InCashTaken(tenders) + TransferTaken(tenders) + ElectronicTaken(tenders) == Taken(tenders)
  {
    if tenders != [] {
      TakenSplits(tenders[..|tenders| - 1]);
    }
  }

  // ------------------------------------------------------------------- negations

  lemma {:induction false} NegatedSum(lines: seq<Line>)
    ensures Sum(Negated(lines)) == -Sum(lines)
    ensures |Negated(lines)| == |lines|
  {
    if lines != [] {
      var init, l := lines[..|lines| - 1], lines[|lines| - 1];
      NegatedSum(init);
      SumAppend(Negated(init), Line(l.account, -l.minor));
    }
  }

  lemma {:induction false} NegatedEffect(lines: seq<Line>, a: Account)
    ensures Effect(Negated(lines), a) == -Effect(lines, a)
  {
    if lines != [] {
      var init, l := lines[..|lines| - 1], lines[|lines| - 1];
      NegatedEffect(init, a);
      EffectAppend(Negated(init), Line(l.account, -l.minor), a);
    }
  }

  lemma {:induction false} NegatedAt(lines: seq<Line>)
    ensures |Negated(lines)| == |lines|
    ensures forall i :: 0 <= i < |lines| ==> Negated(lines)[i] == Line(lines[i].account, -lines[i].minor)
  {
    if lines != [] {
      NegatedAt(lines[..|lines| - 1]);
    }
  }

  /** Voiding undoes the sale account by account, and is booked exactly when it was. */
  lemma VoidCancelsSale(o: Order, a: Account)
    ensures EntryFor(Voided(o)).Some? <==> EntryFor(Placed(o)).Some?
    ensures EntryFor(Placed(o)).Some? ==>
              && Effect(EntryFor(Placed(o)).value.lines, a) + Effect(EntryFor(Voided(o)).value.lines, a) == 0
              && (Sum(EntryFor(Placed(o)).value.lines) == 0 <==> Sum(EntryFor(Voided(o)).value.lines) == 0)
  {
    NegatedSum(SaleLines(o));
    NegatedEffect(SaleLines(o), a);
  }

  /** A refund always balances, and touches the account of its own method and that of
      refunds, and no other. */
  lemma RefundBalances(r: Return, a: Account)
    ensures Sum(RefundLines(r)) == 0
    ensures Effect(RefundLines(r), a) == EventEffect(Refunded(r), a)
  {
    var first := [Line(SalesRefunds, r.amount)];
    SumAppend([], Line(SalesRefunds, r.amount));
    SumAppend(first, Line(Settlement(r.how), -r.amount));
    EffectAppend([], Line(SalesRefunds, r.amount), a);
    EffectAppend(first, Line(Settlement(r.how), -r.amount), a);
    assert [] + [Line(SalesRefunds, r.amount)] == first;
    assert RefundLines(r) == first + [Line(Settlement(r.how), -r.amount)];
  }

  /** Every entry does to every account what its event says. */
  lemma DescribedEffect(e: Event, a: Account)
    requires EntryFor(e).Some?
    ensures Effect(EntryFor(e).value.lines, a) == EventEffect(e, a)
  {
    hide Effect, SaleLines, RefundLines, SaleEffect;
    match e
    case Placed(o) => SaleByAccount(o, a);
    case Voided(o) =>
      SaleByAccount(o, a);
      NegatedEffect(SaleLines(o), a);
    case Refunded(r) => RefundBalances(r, a);
  }

  predicate OnBuiltin(lines: seq<Line>) {
    forall i :: 0 <= i < |lines| ==> lines[i].account in BUILTIN
  }

  predicate NonZero(lines: seq<Line>) {
    forall i :: 0 <= i < |lines| ==> lines[i].minor != 0
  }

  lemma {:induction false} TenderLinesClean(tenders: seq<Tender>)
    ensures NonZero(TenderLines(tenders)) && OnBuiltin(TenderLines(tenders))
  {
    if tenders != [] {
      TenderLinesClean(tenders[..|tenders| - 1]);
      assert Cash == BUILTIN[0] && CardClearing == BUILTIN[1] && Bank == BUILTIN[2];
    }
  }

  /** A sale's lines are all on built-in accounts, and the only one that can be of
      nothing is revenue: a sale that is all tax. */
  lemma SaleLinesClean(o: Order)
    requires Bookable(o)
    ensures OnBuiltin(SaleLines(o)) && SaleLines(o) != []
    ensures NonZero(SaleLines(o)) <==> o.net != 0 || o.tax == 0
  {
    TenderLinesClean(o.tenders);
    assert Receivables == BUILTIN[4] && SalesRevenue == BUILTIN[11] && TaxPayable == BUILTIN[6];
    assert SaleLines(o)[|DebitLines(o)|] == Line(SalesRevenue, -Revenue(o));
  }

  lemma DescribedOnBuiltin(e: Event)
    requires EntryFor(e).Some?
    ensures OnBuiltin(EntryFor(e).value.lines) && EntryFor(e).value.lines != []
  {
    match e
    case Placed(o) =>
      SaleLinesClean(o);
    case Voided(o) =>
      SaleLinesClean(o);
      NegatedAt(SaleLines(o));
    case Refunded(r) =>
      assert Cash == BUILTIN[0] && CardClearing == BUILTIN[1] && Bank == BUILTIN[2] && SalesRefunds == BUILTIN[12];
  }
}
