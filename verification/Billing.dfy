/** The billing cycle: who is due is invoiced under a key made of the renewal date, and
    then moved on to the next one. */
module Billing {
  // A cycle may die anywhere, be run again, and run beside another that read the
  // subscriptions earlier, while merchants issue documents of their own under keys of
  // their own choosing. Issuing is one atomic step here; that a key makes one document,
  // whatever runs beside it, is what the invoicing model shows.

  import opened Common
  import opened Calendar
  import N = Numbering

  type Tenant = nat
  type JobId = nat

  datatype Sub = Sub(annual: bool, amount: int, renews: Date, clock: int, cancelled: bool, cancelsAt: Option<int>)

  /** Who had a document issued: the cycle, for a renewal, or the merchant. */
  datatype Maker = Cycle(renewal: Date) | Merchant

  datatype Document = Document(tenant: Tenant, key: string, made: Maker, amount: int)

  /** What happened to a renewal date: a subscription began at one, or was moved on from
      the one it was read with. */
  datatype Turn = Opened(tenant: Tenant, date: Date) | Passed(tenant: Tenant, sub: Sub)

  datatype Db = Db(subs: map<Tenant, Sub>, documents: seq<Document>, history: seq<Turn>)

  /** A subscription as a cycle read it, on its way through billing. */
  datatype Job = Job(tenant: Tenant, sub: Sub, issued: bool)

  datatype State = State(db: Db, jobs: map<JobId, Job>)

  // ---------------------------------------------------------------------------- the key

  function TwoDigits(n: nat): string
    requires n < 100
  {
    [N.DigitChar(n / 10), N.DigitChar(n % 10)]
  }

  /** A year of at least four digits, with its sign when it has one. */
  function YearText(y: int): string { if y < 0 then "-" + YearDigits(-y) else YearDigits(y) }

  function YearDigits(y: nat): string {
    if y < 10_000 then TwoDigits(y / 100) + TwoDigits(y % 100) else N.Decimal(y)
  }

  const PREFIX := "billing:"

  function RenewalKey(d: Date): string
  {
    if Valid(d) then
      MonthBounds(d.year, d.month);
      PREFIX + YearText(d.year) + "-" + TwoDigits(d.month) + "-" + TwoDigits(d.day)
    else PREFIX
  }

  lemma TwoDigitsRead(n: nat)
    requires n < 100
    ensures N.AllDigits(TwoDigits(n)) && N.Value(TwoDigits(n)) == n
  {
    var s := TwoDigits(n);
    assert s[..1] == [s[0]] && [s[0]][..0] == [];
    assert N.Value([s[0]]) == N.Value([]) * 10 + n / 10;
    assert N.Value(s) == N.Value(s[..1]) * 10 + n % 10;
  }

  lemma FourDigitsRead(a: nat, b: nat)
    requires a < 100 && b < 100
    ensures var s := TwoDigits(a) + TwoDigits(b);
            N.AllDigits(s) && N.Value(s) == a * 100 + b
  {
    var s := TwoDigits(a) + TwoDigits(b);
    TwoDigitsRead(a);
    assert s[..3] == TwoDigits(a) + [s[2]] && s[..3][..2] == TwoDigits(a);
    assert N.Value(s[..3]) == a * 10 + N.DigitValue(s[2]);
  }

  lemma YearReads(y: nat)
    ensures var s := YearDigits(y);
            N.AllDigits(s) && s != [] && s[0] != '-' && N.Value(s) == y
  {
    if y < 10_000 {
      FourDigitsRead(y / 100, y % 100);
    } else {
      N.DecimalReadsBack(y);
    }
  }

  lemma YearsTellApart(x: int, y: int)
    requires YearText(x) == YearText(y)
    ensures x == y
  {
    hide YearDigits, N.Value, N.Decimal;
    var dx, dy := YearDigits(if x < 0 then -x else x), YearDigits(if y < 0 then -y else y);
    YearReads(if x < 0 then -x else x);
    YearReads(if y < 0 then -y else y);
    if x < 0 && y < 0 {
      assert ("-" + dx)[1..] == dx && ("-" + dy)[1..] == dy;
    }
  }

  /** Different renewal dates have different keys. */
  lemma KeysTellDatesApart(a: Date, b: Date)
    requires Valid(a) && Valid(b) && RenewalKey(a) == RenewalKey(b)
    ensures a == b
  {
    hide YearText, N.Value;
    MonthBounds(a.year, a.month);
    MonthBounds(b.year, b.month);
    var k, n := RenewalKey(a), |RenewalKey(a)|;
    var ya, yb := YearText(a.year), YearText(b.year);
    assert |ya| == |yb|;
    assert ya == k[8..n - 6] && yb == k[8..n - 6];
    assert TwoDigits(a.month) == k[n - 5..n - 3] && TwoDigits(b.month) == k[n - 5..n - 3];
    assert TwoDigits(a.day) == k[n - 2..] && TwoDigits(b.day) == k[n - 2..];
    YearsTellApart(a.year, b.year);
    TwoDigitsRead(a.month);
    TwoDigitsRead(b.month);
    TwoDigitsRead(a.day);
    TwoDigitsRead(b.day);
  }

  // ------------------------------------------------------------------------ one renewal

  function NextRenewal(sub: Sub): Date {
    if sub.annual then AddYear(sub.renews) else AddMonth(sub.renews)
  }

  /** A year on is the same day of the same month, but for the 29th of February where the
      next year has none, which is the 1st of March; a month on is the same day of the
      month, and where the month is too short for it, as many days into the one after. */
  lemma NextRenewalIs(sub: Sub)
    requires Valid(sub.renews)
    ensures var Date(y, m, d) := sub.renews;
            NextRenewal(sub) ==
            if sub.annual then
              if m == 2 && d == 29 && MonthLength(y + 1, 2) == 28 then Date(y + 1, 3, 1) else Date(y + 1, m, d)
            else
              var y1, m1 := if m == 12 then y + 1 else y, if m == 12 then 1 else m + 1;
              if d <= MonthLength(y1, m1) then Date(y1, m1, d)
              else Date(if m1 == 12 then y1 + 1 else y1, if m1 == 12 then 1 else m1 + 1, d - MonthLength(y1, m1))
  {
    CarriesOnce(FollowingMonth(sub.renews));
    CarriesOnce(sub.renews.(year := sub.renews.year + 1));
  }

  function Instant(sub: Sub): int { Ordinal(sub.renews) * 86_400 + sub.clock }

  predicate Due(sub: Sub, through: int) { !sub.cancelled && Instant(sub) <= through }

  predicate Keyed(docs: seq<Document>, t: Tenant, key: string) {
    exists i :: 0 <= i < |docs| && docs[i].tenant == t && docs[i].key == key
  }

  /** The one door for every document: under a key of the tenant's that is taken, the
      document that is there stands, whoever had it issued. */
  function IssueUnder(docs: seq<Document>, d: Document): seq<Document> {
    if d.key != "" && Keyed(docs, d.tenant, d.key) then docs else docs + [d]
  }

  function SubscriptionInvoice(t: Tenant, sub: Sub): Document {
    Document(t, RenewalKey(sub.renews), Cycle(sub.renews), sub.amount)
  }

  function IssueFor(db: Db, t: Tenant, sub: Sub): Db {
    db.(documents := IssueUnder(db.documents, SubscriptionInvoice(t, sub)))
  }

  /** Moving on from the renewal that was read, whatever the row says by now. */
  function AdvanceFrom(db: Db, t: Tenant, sub: Sub, now: int): Db {
    if t !in db.subs then db
    else
      var row := db.subs[t];
      var ends := row.cancelsAt.Some? && row.cancelsAt.value <= now;
      Db(db.subs[t := row.(renews := NextRenewal(sub), cancelled := row.cancelled || ends)],
         db.documents, db.history + [Passed(t, sub)])
  }

  // ------------------------------------------------------------------------------- runs

  datatype Step =
    | Subscribe(t: Tenant, sub: Sub)
    | Change(t: Tenant, annual: bool, amount: int, cancel: bool)
    | IssueOther(t: Tenant, key: string, amount: int)
    | Pick(j: JobId, t: Tenant, through: int)
    | Issue(j: JobId)
    | Advance(j: JobId, now: int)
    | Die(j: JobId)

  predicate Enabled(s: State, step: Step) {
    match step
    case Subscribe(t, sub) => t !in s.db.subs && Valid(sub.renews)
    case Change(t, _, _, _) => t in s.db.subs
    case IssueOther(_, _, _) => true
    case Pick(j, t, through) => j !in s.jobs && t in s.db.subs && Due(s.db.subs[t], through)
    case Issue(j) => j in s.jobs && !s.jobs[j].issued && s.jobs[j].sub.amount != 0
    case Advance(j, _) => j in s.jobs && (s.jobs[j].issued || s.jobs[j].sub.amount == 0)
    case Die(_) => true
  }

  function Changed(sub: Sub, annual: bool, amount: int, cancel: bool): Sub {
    Sub(annual, amount, sub.renews, sub.clock, cancel && sub.cancelled, if cancel then Some(Instant(sub)) else None)
  }

  function Exec(s: State, step: Step): State
    requires Enabled(s, step)
  {
    match step
    case Subscribe(t, sub) =>
      s.(db := s.db.(subs := s.db.subs[t := sub], history := s.db.history + [Opened(t, sub.renews)]))
    case Change(t, annual, amount, cancel) =>
      s.(db := s.db.(subs := s.db.subs[t := Changed(s.db.subs[t], annual, amount, cancel)]))
    case IssueOther(t, key, amount) =>
      s.(db := s.db.(documents := IssueUnder(s.db.documents, Document(t, key, Merchant, amount))))
    case Pick(j, t, _) => s.(jobs := s.jobs[j := Job(t, s.db.subs[t], false)])
    case Issue(j) =>
      var job := s.jobs[j];
      State(IssueFor(s.db, job.tenant, job.sub), s.jobs[j := job.(issued := true)])
    case Advance(j, now) =>
      var job := s.jobs[j];
      State(AdvanceFrom(s.db, job.tenant, job.sub, now), s.jobs - {j})
    case Die(j) => s.(jobs := s.jobs - {j})
  }

  predicate IsRun(s: State, steps: seq<Step>, t: State)
    decreases |steps|
  {
    if steps == [] then s == t else Enabled(s, steps[0]) && IsRun(Exec(s, steps[0]), steps[1..], t)
  }

  const START := State(Db(map[], [], []), map[])

  // --------------------------------------------------------------------------- invariant

  predicate KeysOnce(docs: seq<Document>) {
    forall i, j :: 0 <= i < j < |docs| && docs[i].key != "" ==>
      docs[i].tenant != docs[j].tenant || docs[i].key != docs[j].key
  }

  predicate CycleKeys(docs: seq<Document>) {
    forall i :: 0 <= i < |docs| && docs[i].made.Cycle? ==>
      Valid(docs[i].made.renewal) && docs[i].key == RenewalKey(docs[i].made.renewal)
  }

  predicate JobsKeyed(docs: seq<Document>, jobs: map<JobId, Job>) {
    forall j :: j in jobs ==>
      && Valid(jobs[j].sub.renews)
      && (jobs[j].issued ==> Keyed(docs, jobs[j].tenant, RenewalKey(jobs[j].sub.renews)))
  }

  predicate PassedKeyed(docs: seq<Document>, history: seq<Turn>) {
    forall k :: 0 <= k < |history| && history[k].Passed? ==>
      && Valid(history[k].sub.renews)
      && (history[k].sub.amount != 0 ==> Keyed(docs, history[k].tenant, RenewalKey(history[k].sub.renews)))
  }

  predicate SubsValid(subs: map<Tenant, Sub>) {
    forall t :: t in subs ==> Valid(subs[t].renews)
  }

  predicate Inv(s: State) {
    && KeysOnce(s.db.documents) && CycleKeys(s.db.documents)
    && JobsKeyed(s.db.documents, s.jobs)
    && PassedKeyed(s.db.documents, s.db.history)
    && SubsValid(s.db.subs)
  }

  lemma IssueKeeps(docs: seq<Document>, d: Document, t: Tenant, key: string)
    requires Keyed(docs, t, key)
    ensures Keyed(IssueUnder(docs, d), t, key)
  {
    var k :| 0 <= k < |docs| && docs[k].tenant == t && docs[k].key == key;
    assert (docs + [d])[k] == docs[k];
  }

  lemma IssueTakes(docs: seq<Document>, d: Document)
    ensures Keyed(IssueUnder(docs, d), d.tenant, d.key)
    ensures KeysOnce(docs) ==> KeysOnce(IssueUnder(docs, d))
    ensures d.key == "" ==> IssueUnder(docs, d) == docs + [d]
  {
    assert (docs + [d])[|docs|] == d;
  }

  lemma IssueKeepsInv(s: State, d: Document, jobs: map<JobId, Job>)
    requires Inv(s) && (d.made.Cycle? ==> Valid(d.made.renewal) && d.key == RenewalKey(d.made.renewal))
    requires forall j :: j in jobs ==> j in s.jobs && jobs[j].tenant == s.jobs[j].tenant && jobs[j].sub == s.jobs[j].sub
    requires forall j :: j in jobs && jobs[j].issued && !s.jobs[j].issued ==>
               d.tenant == jobs[j].tenant && d.key == RenewalKey(jobs[j].sub.renews)
    ensures Inv(State(s.db.(documents := IssueUnder(s.db.documents, d)), jobs))
  {
    hide Keyed, KeysOnce, Valid, RenewalKey;
    var docs := IssueUnder(s.db.documents, d);
    IssueTakes(s.db.documents, d);
    forall t, key | Keyed(s.db.documents, t, key)
      ensures Keyed(docs, t, key)
    {
      IssueKeeps(s.db.documents, d, t, key);
    }
    IssueKeepsCycleKeys(s.db.documents, d);
  }

  lemma IssueKeepsCycleKeys(docs: seq<Document>, d: Document)
    requires CycleKeys(docs) && (d.made.Cycle? ==> Valid(d.made.renewal) && d.key == RenewalKey(d.made.renewal))
    ensures CycleKeys(IssueUnder(docs, d))
  {
    hide Valid, RenewalKey;
  }

  lemma NextIsLater(sub: Sub)
    requires Valid(sub.renews)
    ensures Valid(NextRenewal(sub)) && Ordinal(sub.renews) + 28 <= Ordinal(NextRenewal(sub))
  {
    hide Ordinal, AddMonth, AddYear, MonthLength;
    AddingMovesOn(sub.renews);
    MonthBounds(sub.renews.year, sub.renews.month);
  }

  lemma AdvanceKeepsInv(s: State, j: JobId, now: int)
    requires Inv(s) && Enabled(s, Advance(j, now))
    ensures Inv(Exec(s, Advance(j, now)))
  {
    hide Keyed, KeysOnce, CycleKeys, Valid, Ordinal, NextRenewal, RenewalKey;
    NextIsLater(s.jobs[j].sub);
  }

  lemma ExecKeepsInv(s: State, step: Step)
    requires Inv(s) && Enabled(s, step)
    ensures Inv(Exec(s, step))
  {
    hide KeysOnce, CycleKeys, PassedKeyed, Ordinal, Valid, Keyed, RenewalKey, IssueUnder;
    match step
    case Subscribe(t, sub) => OpeningKeeps(s.db.documents, s.db.history, t, sub.renews);
    case IssueOther(t, key, amount) => IssueKeepsInv(s, Document(t, key, Merchant, amount), s.jobs);
    case Issue(j) =>
      IssueKeepsInv(s, SubscriptionInvoice(s.jobs[j].tenant, s.jobs[j].sub), s.jobs[j := s.jobs[j].(issued := true)]);
    case Advance(j, now) => AdvanceKeepsInv(s, j, now);
    case _ =>
  }

  lemma OpeningKeeps(docs: seq<Document>, history: seq<Turn>, t: Tenant, date: Date)
    requires PassedKeyed(docs, history)
    ensures PassedKeyed(docs, history + [Opened(t, date)])
  {
    hide Keyed, RenewalKey, Valid;
  }

  lemma {:induction false} RunKeepsInv(s: State, steps: seq<Step>, t: State)
    requires Inv(s) && IsRun(s, steps, t)
    ensures Inv(t)
    decreases |steps|
  {
    hide Inv;
    if steps != [] {
      ExecKeepsInv(s, steps[0]);
      RunKeepsInv(Exec(s, steps[0]), steps[1..], t);
    }
  }

  /** Over any cycles, run again, dying anywhere, side by side, whatever else is issued:
      no tenant has two subscription invoices for one renewal date. */
  lemma OneInvoicePerRenewal(steps: seq<Step>, z: State, i: nat, j: nat)
    requires IsRun(START, steps, z) && i < j < |z.db.documents|
    requires z.db.documents[i].made.Cycle? && z.db.documents[i].made == z.db.documents[j].made
    ensures z.db.documents[i].tenant != z.db.documents[j].tenant
  {
    hide IsRun, Valid;
    RunKeepsInv(START, steps, z);
  }

  /** The tenant has the cycle's own invoice for the renewal. */
  predicate InvoicedByCycle(docs: seq<Document>, t: Tenant, date: Date) {
    exists i :: 0 <= i < |docs| && docs[i].tenant == t && docs[i].made == Cycle(date)
  }

  /** A document the merchant had issued is under the renewal's key. */
  predicate KeyTakenByMerchant(docs: seq<Document>, t: Tenant, date: Date) {
    exists i :: 0 <= i < |docs| && docs[i].tenant == t && docs[i].made.Merchant? && docs[i].key == RenewalKey(date)
  }

  lemma KeyIsNotEmpty(date: Date)
    ensures RenewalKey(date) != "" && PREFIX <= RenewalKey(date)
  {
    hide Valid, YearText;
  }

  lemma WhoseKey(docs: seq<Document>, t: Tenant, date: Date)
    requires KeysOnce(docs) && CycleKeys(docs) && Valid(date) && Keyed(docs, t, RenewalKey(date))
    ensures InvoicedByCycle(docs, t, date) <==> !KeyTakenByMerchant(docs, t, date)
  {
    hide Valid, RenewalKey;
    KeyIsNotEmpty(date);
    var i :| 0 <= i < |docs| && docs[i].tenant == t && docs[i].key == RenewalKey(date);
    if docs[i].made.Cycle? {
      KeysTellDatesApart(docs[i].made.renewal, date);
    }
  }

  /** A renewal that costs something is moved on from only when a document is under its
      key, and that is the cycle's own invoice exactly when no document of the merchant's
      has the key. */
  lemma NothingPassesUnbilledIff(steps: seq<Step>, z: State, k: nat)
    requires IsRun(START, steps, z) && k < |z.db.history| && z.db.history[k].Passed? && z.db.history[k].sub.amount != 0
    ensures var turn := z.db.history[k];
            && Keyed(z.db.documents, turn.tenant, RenewalKey(turn.sub.renews))
            && (InvoicedByCycle(z.db.documents, turn.tenant, turn.sub.renews)
                <==> !KeyTakenByMerchant(z.db.documents, turn.tenant, turn.sub.renews))
  {
    hide IsRun, Valid, Keyed, RenewalKey;
    RunKeepsInv(START, steps, z);
    WhoseKey(z.db.documents, z.db.history[k].tenant, z.db.history[k].sub.renews);
  }

  predicate LeavesPrefix(step: Step) { step.IssueOther? ==> !(PREFIX <= step.key) }

  predicate NoMerchantPrefix(docs: seq<Document>) {
    forall i :: 0 <= i < |docs| && docs[i].made.Merchant? ==> !(PREFIX <= docs[i].key)
  }

  lemma {:induction false} PrefixIsLeft(s: State, steps: seq<Step>, z: State)
    requires IsRun(s, steps, z) && NoMerchantPrefix(s.db.documents)
    requires forall step :: step in steps ==> LeavesPrefix(step)
    ensures NoMerchantPrefix(z.db.documents)
    decreases |steps|
  {
    hide RenewalKey, Keyed, Ordinal, NextRenewal;
    if steps != [] {
      assert LeavesPrefix(steps[0]);
      PrefixIsLeft(Exec(s, steps[0]), steps[1..], z);
    }
  }

  /** So where merchants keep off keys that begin as the cycle's do, nothing passes
      unbilled. */
  lemma NothingPassesUnbilled(steps: seq<Step>, z: State, k: nat)
    requires IsRun(START, steps, z) && k < |z.db.history| && z.db.history[k].Passed? && z.db.history[k].sub.amount != 0
    requires forall step :: step in steps ==> LeavesPrefix(step)
    ensures InvoicedByCycle(z.db.documents, z.db.history[k].tenant, z.db.history[k].sub.renews)
  {
    hide IsRun, RenewalKey, InvoicedByCycle;
    NothingPassesUnbilledIff(steps, z, k);
    PrefixIsLeft(START, steps, z);
    KeyIsNotEmpty(z.db.history[k].sub.renews);
  }

  const MARCH := Sub(false, 8_900, Date(2026, 3, 1), 0, false, None)

  const TAKEN: seq<Step> := [
    Subscribe(1, MARCH), IssueOther(1, "billing:2026-03-01", 500),
    Pick(0, 1, Instant(MARCH)), Issue(0), Advance(0, Instant(MARCH))]

  lemma MarchKey()
    ensures RenewalKey(MARCH.renews) == "billing:2026-03-01"
  {
  }

  function TakenEnd(): State {
    State(Db(map[1 := MARCH.(renews := NextRenewal(MARCH))], [Document(1, "billing:2026-03-01", Merchant, 500)],
             [Opened(1, MARCH.renews), Passed(1, MARCH)]), map[])
  }

  /** And where one does not, a renewal can pass with a receipt for its invoice. */
  lemma TakenKeyPassesUnbilled()
    ensures IsRun(START, TAKEN, TakenEnd())
    ensures TakenEnd().db.history[1] == Passed(1, MARCH)
    ensures !InvoicedByCycle(TakenEnd().db.documents, 1, MARCH.renews)
  {
    hide RenewalKey, Ordinal, AddMonth, AddYear;
    MarchKey();
    var other := Document(1, "billing:2026-03-01", Merchant, 500);
    var s1 := Exec(START, TAKEN[0]);
    var s2 := Exec(s1, TAKEN[1]);
    assert s2.db.documents == [other];
    var s3 := Exec(s2, TAKEN[2]);
    assert s3.jobs == map[0 := Job(1, MARCH, false)];
    assert [other][0].key == RenewalKey(MARCH.renews);
    var s4 := Exec(s3, TAKEN[3]);
    assert s4 == State(s2.db, map[0 := Job(1, MARCH, true)]);
    var s5 := Exec(s4, TAKEN[4]);
    assert s5.jobs == map[] && s5.db.subs == TakenEnd().db.subs;
    assert s5 == TakenEnd();
    assert TAKEN[1..][1..][1..][1..][1..] == [];
    assert IsRun(s5, [], s5);
    assert IsRun(s4, TAKEN[1..][1..][1..][1..], s5);
    assert IsRun(s3, TAKEN[1..][1..][1..], s5);
    assert IsRun(s2, TAKEN[1..][1..], s5);
    assert IsRun(s1, TAKEN[1..], s5);
  }

  // ----------------------------------------------------------- forward, or back

  /** The step moves a subscription on from a renewal read so long ago that the next one
      after it is already behind. */
  predicate Stale(s: State, step: Step, t: Tenant) {
    && step.Advance? && step.j in s.jobs && s.jobs[step.j].tenant == t && t in s.db.subs
    && Ordinal(NextRenewal(s.jobs[step.j].sub)) < Ordinal(s.db.subs[t].renews)
  }

  /** Of all the steps there are, that one alone turns a renewal date back. */
  lemma TurnsBackIff(s: State, step: Step, t: Tenant)
    requires Enabled(s, step) && t in s.db.subs
    ensures t in Exec(s, step).db.subs
    ensures Ordinal(Exec(s, step).db.subs[t].renews) < Ordinal(s.db.subs[t].renews) <==> Stale(s, step, t)
  {
    hide Ordinal, NextRenewal, IssueUnder, Due;
  }

  /** The date a tenant's subscription stands at, going by what has happened. */
  function StandsAt(history: seq<Turn>, t: Tenant): Option<Date> {
    if history == [] then None
    else
      var turn := history[|history| - 1];
      if turn.tenant != t then StandsAt(history[..|history| - 1], t)
      else match turn
        case Opened(_, date) => Some(date)
        case Passed(_, sub) => Some(NextRenewal(sub))
  }

  /** Every renewal passed is the one the subscription stood at. */
  predicate Chained(history: seq<Turn>) {
    forall k :: 0 <= k < |history| ==> Follows(history, k)
  }

  predicate Follows(history: seq<Turn>, k: nat)
    requires k < |history|
  {
    StandsAt(history[..k], history[k].tenant) ==
    match history[k]
    case Opened(_, _) => None
    case Passed(_, sub) => Some(sub.renews)
  }

  /** At most one cycle has a tenant in hand at a time. */
  predicate Solo(s: State, step: Step) {
    step.Pick? ==> forall i :: i in s.jobs ==> s.jobs[i].tenant != step.t
  }

  predicate IsSoloRun(s: State, steps: seq<Step>, t: State)
    decreases |steps|
  {
    if steps == [] then s == t
    else Enabled(s, steps[0]) && Solo(s, steps[0]) && IsSoloRun(Exec(s, steps[0]), steps[1..], t)
  }

  predicate OneJobEach(jobs: map<JobId, Job>) {
    forall i, j :: i in jobs && j in jobs && jobs[i].tenant == jobs[j].tenant ==> i == j
  }

  predicate JobsFresh(subs: map<Tenant, Sub>, jobs: map<JobId, Job>) {
    forall j :: j in jobs ==> jobs[j].tenant in subs && jobs[j].sub.renews == subs[jobs[j].tenant].renews
  }

  ghost predicate SubsStand(subs: map<Tenant, Sub>, history: seq<Turn>) {
    forall t :: StandsAt(history, t) == if t in subs then Some(subs[t].renews) else None
  }

  ghost predicate SoloInv(s: State) {
    OneJobEach(s.jobs) && JobsFresh(s.db.subs, s.jobs) && SubsStand(s.db.subs, s.db.history) && Chained(s.db.history)
  }

  lemma TurnTaken(history: seq<Turn>, turn: Turn, t: Tenant)
    ensures StandsAt(history + [turn], t) ==
            if turn.tenant != t then StandsAt(history, t)
            else match turn case Opened(_, date) => Some(date) case Passed(_, sub) => Some(NextRenewal(sub))
  {
    assert (history + [turn])[..|history|] == history;
  }

  lemma ChainGrows(history: seq<Turn>, turn: Turn)
    requires Chained(history)
    requires StandsAt(history, turn.tenant) == match turn case Opened(_, _) => None case Passed(_, sub) => Some(sub.renews)
    ensures Chained(history + [turn])
  {
    hide StandsAt;
    var after := history + [turn];
    forall k | 0 <= k < |after| ensures Follows(after, k) {
      assert after[..k] == history[..k];
      assert k < |history| ==> Follows(history, k);
      assert history[..|history|] == history;
    }
  }

  lemma SubsStandAfter(subs: map<Tenant, Sub>, history: seq<Turn>, turn: Turn, sub: Sub)
    requires SubsStand(subs, history)
    requires sub.renews == match turn case Opened(_, date) => date case Passed(_, read) => NextRenewal(read)
    ensures SubsStand(subs[turn.tenant := sub], history + [turn])
  {
    hide StandsAt, NextRenewal;
    forall t ensures StandsAt(history + [turn], t) ==
                     if t in subs[turn.tenant := sub] then Some(subs[turn.tenant := sub][t].renews) else None {
      TurnTaken(history, turn, t);
    }
  }

  lemma ExecKeepsSolo(s: State, step: Step)
    requires SoloInv(s) && Enabled(s, step) && Solo(s, step)
    ensures SoloInv(Exec(s, step))
  {
    hide StandsAt, Chained, NextRenewal, IssueUnder, Valid, Due, Instant, SubsStand;
    match step
    case Subscribe(t, sub) =>
      OpenStands(s, t);
      ChainGrows(s.db.history, Opened(t, sub.renews));
      SubsStandAfter(s.db.subs, s.db.history, Opened(t, sub.renews), sub);
    case Change(t, annual, amount, cancel) =>
      ChangeStands(s.db.subs, s.db.history, t, Changed(s.db.subs[t], annual, amount, cancel));
    case Advance(j, now) =>
      var job := s.jobs[j];
      OpenStands(s, job.tenant);
      ChainGrows(s.db.history, Passed(job.tenant, job.sub));
      var after := Exec(s, step).db.subs[job.tenant];
      SubsStandAfter(s.db.subs, s.db.history, Passed(job.tenant, job.sub), after);
    case _ =>
  }

  lemma OpenStands(s: State, t: Tenant)
    requires SubsStand(s.db.subs, s.db.history)
    ensures StandsAt(s.db.history, t) == if t in s.db.subs then Some(s.db.subs[t].renews) else None
  {
    hide StandsAt;
  }

  lemma ChangeStands(subs: map<Tenant, Sub>, history: seq<Turn>, t: Tenant, sub: Sub)
    requires SubsStand(subs, history) && t in subs && sub.renews == subs[t].renews
    ensures SubsStand(subs[t := sub], history)
  {
    hide StandsAt;
  }

  /** While no two cycles have a tenant in hand at once, whatever plans change, are
      cancelled and are taken up again, and however often a cycle dies: every renewal
      moved on from is the very one that came next, so none is skipped and none comes
      twice. */
  lemma {:induction false} SoloRunsChain(s: State, steps: seq<Step>, z: State)
    requires SoloInv(s) && IsSoloRun(s, steps, z)
    ensures SoloInv(z)
    decreases |steps|
  {
    hide SoloInv, Enabled, Exec, Solo;
    if steps != [] {
      ExecKeepsSolo(s, steps[0]);
      SoloRunsChain(Exec(s, steps[0]), steps[1..], z);
    }
  }

  lemma {:induction false} SoloIsRun(s: State, steps: seq<Step>, z: State)
    requires IsSoloRun(s, steps, z)
    ensures IsRun(s, steps, z)
    decreases |steps|
  {
    hide Enabled, Exec, Solo;
    if steps != [] {
      SoloIsRun(Exec(s, steps[0]), steps[1..], z);
    }
  }

  lemma StartIsSolo()
    ensures SoloInv(START) && Inv(START)
  {
  }

  lemma {:induction false} LaterStands(history: seq<Turn>, i: nat, k: nat)
    requires Chained(history) && i < k <= |history| && history[i].Passed?
    requires forall m :: 0 <= m < |history| && history[m].Passed? ==> Valid(history[m].sub.renews)
    ensures var d := StandsAt(history[..k], history[i].tenant);
            d.Some? && Ordinal(history[i].sub.renews) + 28 <= Ordinal(d.value)
    decreases k
  {
    hide Ordinal, NextRenewal, Valid, Chained;
    var turn := history[k - 1];
    TurnTaken(history[..k - 1], turn, history[i].tenant);
    assert history[..k] == history[..k - 1] + [turn];
    if turn.Passed? {
      NextIsLater(turn.sub);
    }
    if i < k - 1 {
      LaterStands(history, i, k - 1);
      ChainedAt(history, k - 1);
    }
  }

  lemma ChainedAt(history: seq<Turn>, k: nat)
    requires Chained(history) && k < |history|
    ensures Follows(history, k)
  {
    hide Follows;
  }

  /** So the renewals a tenant is moved on from come in order, at least 28 days apart. */
  lemma SoloPassesInOrder(steps: seq<Step>, z: State, i: nat, k: nat)
    requires IsSoloRun(START, steps, z) && i < k < |z.db.history|
    requires z.db.history[i].Passed? && z.db.history[k].Passed? && z.db.history[i].tenant == z.db.history[k].tenant
    ensures Ordinal(z.db.history[i].sub.renews) + 28 <= Ordinal(z.db.history[k].sub.renews)
  {
    hide IsSoloRun, IsRun, Ordinal, Valid, StandsAt, Chained, Keyed;
    StartIsSolo();
    SoloRunsChain(START, steps, z);
    SoloIsRun(START, steps, z);
    RunKeepsInv(START, steps, z);
    LaterStands(z.db.history, i, k);
    ChainedAt(z.db.history, k);
  }

  /** And no step of such a run turns a date back. */
  lemma SoloNeverTurnsBack(steps: seq<Step>, s: State, step: Step, t: Tenant)
    requires IsSoloRun(START, steps, s) && Enabled(s, step) && t in s.db.subs
    ensures t in Exec(s, step).db.subs && Ordinal(s.db.subs[t].renews) <= Ordinal(Exec(s, step).db.subs[t].renews)
  {
    hide IsSoloRun, IsRun, Ordinal, Valid, SubsStand, Chained, Keyed, NextRenewal, Exec;
    StartIsSolo();
    SoloRunsChain(START, steps, s);
    SoloIsRun(START, steps, s);
    RunKeepsInv(START, steps, s);
    TurnsBackIff(s, step, t);
    if step.Advance? && s.jobs[step.j].tenant == t {
      NextIsLater(s.jobs[step.j].sub);
    }
  }

  // ------------------------------------------------------------- what an invoice is for

  /** Somewhere in a run a cycle read the tenant's row, and it was not cancelled and its
      renewal had come. */
  predicate WasDue(s: State, steps: seq<Step>, z: State, t: Tenant, sub: Sub)
    requires IsRun(s, steps, z)
    decreases |steps|
  {
    steps != [] &&
    ((steps[0].Pick? && steps[0].t == t && t in s.db.subs && s.db.subs[t] == sub
      && !sub.cancelled && Ordinal(sub.renews) * 86_400 + sub.clock <= steps[0].through)
     || WasDue(Exec(s, steps[0]), steps[1..], z, t, sub))
  }

  predicate InHand(jobs: map<JobId, Job>, t: Tenant, sub: Sub) {
    exists j :: j in jobs && jobs[j].tenant == t && jobs[j].sub == sub
  }

  /** A subscription invoice is of the amount, and for the renewal date, of a row that a
      cycle read when it was due and not cancelled, and of something. */
  lemma {:induction false} InvoicedWasDue(s: State, steps: seq<Step>, z: State, d: Document)
    requires IsRun(s, steps, z) && d in z.db.documents && d.made.Cycle?
    ensures d in s.db.documents ||
            exists sub: Sub :: (InHand(s.jobs, d.tenant, sub) || WasDue(s, steps, z, d.tenant, sub)) &&
              sub.renews == d.made.renewal && sub.amount == d.amount != 0
    decreases |steps|
  {
    hide Ordinal, Valid, NextRenewal, RenewalKey;
    if steps != [] {
      var m := Exec(s, steps[0]);
      InvoicedWasDue(m, steps[1..], z, d);
      if d !in m.db.documents {
        var sub :| (InHand(m.jobs, d.tenant, sub) || WasDue(m, steps[1..], z, d.tenant, sub)) &&
          sub.renews == d.made.renewal && sub.amount == d.amount != 0;
        if InHand(m.jobs, d.tenant, sub) {
          InHandBefore(s, steps[0], d.tenant, sub);
        }
        assert InHand(s.jobs, d.tenant, sub) || WasDue(s, steps, z, d.tenant, sub);
      } else if d !in s.db.documents {
        IssuedFromHand(s, steps[0], d);
      }
    }
  }

  lemma InHandBefore(s: State, step: Step, t: Tenant, sub: Sub)
    requires Enabled(s, step) && InHand(Exec(s, step).jobs, t, sub)
    ensures InHand(s.jobs, t, sub) ||
            (step.Pick? && step.t == t && s.db.subs[t] == sub
             && !sub.cancelled && Ordinal(sub.renews) * 86_400 + sub.clock <= step.through)
  {
    hide Ordinal, Valid, NextRenewal, RenewalKey, AdvanceFrom, IssueFor;
    var j :| j in Exec(s, step).jobs && Exec(s, step).jobs[j].tenant == t && Exec(s, step).jobs[j].sub == sub;
    assert j in s.jobs ==> s.jobs[j].sub == sub || step.Pick?;
  }

  lemma IssuedFromHand(s: State, step: Step, d: Document)
    requires Enabled(s, step) && d in Exec(s, step).db.documents && d !in s.db.documents && d.made.Cycle?
    ensures exists sub: Sub :: InHand(s.jobs, d.tenant, sub) && sub.renews == d.made.renewal && sub.amount == d.amount != 0
  {
    hide Ordinal, Valid, NextRenewal, RenewalKey, Keyed;
    assert step.Issue?;
    var job := s.jobs[step.j];
    assert d == SubscriptionInvoice(job.tenant, job.sub);
    assert InHand(s.jobs, d.tenant, job.sub);
  }

  /** So from the beginning: nobody is invoiced by a cycle but for a renewal that had come,
      of a subscription not cancelled, and for what it then cost. */
  lemma InvoicesAreForWhatWasDue(steps: seq<Step>, z: State, d: Document)
    requires IsRun(START, steps, z) && d in z.db.documents && d.made.Cycle?
    ensures exists sub: Sub :: WasDue(START, steps, z, d.tenant, sub) && sub.renews == d.made.renewal && sub.amount == d.amount != 0
  {
    hide WasDue, IsRun;
    InvoicedWasDue(START, steps, z, d);
  }

  // ------------------------------------------------------------------------ cancelling

  predicate LeavesAlone(steps: seq<Step>, t: Tenant) {
    forall k :: 0 <= k < |steps| && steps[k].Change? ==> steps[k].t != t
  }

  /** Once cancelled, with no cycle that still has it in hand, a subscription stays as it
      is and is not invoiced again until it is changed. */
  lemma {:induction false} CancelledStaysOut(s: State, steps: seq<Step>, z: State, t: Tenant)
    requires IsRun(s, steps, z) && LeavesAlone(steps, t)
    requires t in s.db.subs && s.db.subs[t].cancelled && forall j :: j in s.jobs ==> s.jobs[j].tenant != t
    ensures t in z.db.subs && z.db.subs[t] == s.db.subs[t]
    ensures forall d :: d in z.db.documents && d.tenant == t && d.made.Cycle? ==> d in s.db.documents
    decreases |steps|
  {
    hide Ordinal, Valid, NextRenewal, RenewalKey, Keyed;
    if steps != [] {
      CancelledStaysOut(Exec(s, steps[0]), steps[1..], z, t);
    }
  }

  // ------------------------------------------------------------------ one cycle at a time

  /** How far one tenant's billing gets: not to the invoice, to the invoice and no
      further, or all the way. */
  datatype Fate = FailsBefore | FailsBetween | Completes

  function BillOne(db: Db, t: Tenant, sub: Sub, fate: Fate, now: int): Db {
    if sub.amount == 0 then (if fate.Completes? then AdvanceFrom(db, t, sub, now) else db)
    else match fate
      case FailsBefore => db
      case FailsBetween => IssueFor(db, t, sub)
      case Completes => AdvanceFrom(IssueFor(db, t, sub), t, sub, now)
  }

  /** The renewal dates of a subscription, k renewals on. */
  function Renewal(sub: Sub, k: nat): Date {
    if k == 0 then sub.renews else NextRenewal(sub.(renews := Renewal(sub, k - 1)))
  }

  function Renewed(sub: Sub, k: nat): Sub { sub.(renews := Renewal(sub, k)) }

  lemma {:induction false} RenewalIsValid(sub: Sub, k: nat)
    requires Valid(sub.renews)
    ensures Valid(Renewal(sub, k))
  {
    hide Valid, AddMonth, AddYear;
    if k > 0 {
      RenewalIsValid(sub, k - 1);
      AddingMovesOn(Renewal(sub, k - 1));
    }
  }

  lemma {:induction false} RenewalsMoveOn(sub: Sub, i: nat, j: nat)
    requires Valid(sub.renews) && i < j
    ensures Ordinal(Renewal(sub, i)) + 28 <= Ordinal(Renewal(sub, j))
    decreases j
  {
    hide Ordinal, AddMonth, AddYear, MonthLength, Valid;
    RenewalIsValid(sub, j - 1);
    AddingMovesOn(Renewal(sub, j - 1));
    MonthBounds(Renewal(sub, j - 1).year, Renewal(sub, j - 1).month);
    if i < j - 1 {
      RenewalsMoveOn(sub, i, j - 1);
    }
  }

  function Dates(sub: Sub, t: Tenant, n: nat): seq<Document> {
    if n == 0 then [] else Dates(sub, t, n - 1) + [SubscriptionInvoice(t, Renewed(sub, n - 1))]
  }

  /** Billing one tenant again and again, each cycle reading the row afresh. */
  function Cycles(db: Db, t: Tenant, fates: seq<Fate>, now: int): Db {
    if fates == [] then db
    else
      var before := Cycles(db, t, fates[..|fates| - 1], now);
      if t in before.subs then BillOne(before, t, before.subs[t], fates[|fates| - 1], now) else before
  }

  function Completed(fates: seq<Fate>): nat {
    if fates == [] then 0 else Completed(fates[..|fates| - 1]) + if fates[|fates| - 1].Completes? then 1 else 0
  }

  /** Whether the last invoice made is one whose renewal has not been moved on from. */
  predicate Pending(fates: seq<Fate>) {
    fates != [] && (match fates[|fates| - 1]
                    case Completes => false
                    case FailsBetween => true
                    case FailsBefore => Pending(fates[..|fates| - 1]))
  }

  function Issued(fates: seq<Fate>): nat { Completed(fates) + if Pending(fates) then 1 else 0 }

  lemma {:induction false} DatesHold(sub: Sub, t: Tenant, n: nat, m: nat)
    requires Valid(sub.renews)
    ensures Keyed(Dates(sub, t, n), t, RenewalKey(Renewal(sub, m))) <==> m < n
  {
    hide Ordinal, Valid, AddMonth, AddYear, RenewalKey, Renewal;
    if n > 0 {
      DatesHold(sub, t, n - 1, m);
      var init, last := Dates(sub, t, n - 1), SubscriptionInvoice(t, Renewed(sub, n - 1));
      KeyedConcat(init, [last], t, RenewalKey(Renewal(sub, m)));
      if m == n - 1 {
        assert [last][0] == last;
      } else if m > n - 1 {
        KeysDiffer(sub, n - 1, m);
      }
    }
  }

  lemma KeysDiffer(sub: Sub, i: nat, j: nat)
    requires Valid(sub.renews) && i < j
    ensures RenewalKey(Renewal(sub, i)) != RenewalKey(Renewal(sub, j))
  {
    hide Ordinal, Valid, Renewal, RenewalKey;
    RenewalIsValid(sub, i);
    RenewalIsValid(sub, j);
    RenewalsMoveOn(sub, i, j);
    if RenewalKey(Renewal(sub, i)) == RenewalKey(Renewal(sub, j)) {
      KeysTellDatesApart(Renewal(sub, i), Renewal(sub, j));
    }
  }

  /** Nothing of the tenant's is under the key of this renewal date or any to come. */
  ghost predicate NoneYet(docs: seq<Document>, t: Tenant, sub: Sub) {
    forall k: nat :: !Keyed(docs, t, RenewalKey(Renewal(sub, k)))
  }

  lemma KeyedConcat(x: seq<Document>, y: seq<Document>, t: Tenant, key: string)
    ensures Keyed(x + y, t, key) <==> Keyed(x, t, key) || Keyed(y, t, key)
  {
    if i :| 0 <= i < |x| && x[i].tenant == t && x[i].key == key {
      assert (x + y)[i] == x[i];
    }
    if i :| 0 <= i < |y| && y[i].tenant == t && y[i].key == key {
      assert (x + y)[|x| + i] == y[i];
    }
  }

  /** Whatever the cycles' fates, one at a time: what they add is the documents of the
      renewal dates in order, each once; the subscription stands at the first one not
      completed; and only that one may already have its invoice. */
  lemma {:induction false} CyclesCatchUp(db: Db, t: Tenant, fates: seq<Fate>, now: int)
    requires t in db.subs && Valid(db.subs[t].renews) && NoneYet(db.documents, t, db.subs[t])
    requires db.subs[t].amount != 0 && db.subs[t].cancelsAt.None?
    ensures var sub, z := db.subs[t], Cycles(db, t, fates, now);
            && t in z.subs
            && z.documents == db.documents + Dates(sub, t, Issued(fates))
            && z.subs[t] == sub.(renews := Renewal(sub, Completed(fates)))
  {
    hide Ordinal, Valid, AddMonth, AddYear, Keyed, RenewalKey, BillOne, Completed, Pending, Renewal, NoneYet;
    if fates == [] {
      NothingYet(db.subs[t], t);
    } else {
      var init, fate := fates[..|fates| - 1], fates[|fates| - 1];
      CyclesCatchUp(db, t, init, now);
      assert fates == init + [fate];
      CycleOn(db.documents, db.subs[t], Cycles(db, t, init, now), t, init, fate, now);
    }
  }

  lemma CycleOn(was: seq<Document>, sub: Sub, z: Db, t: Tenant, init: seq<Fate>, fate: Fate, now: int)
    requires Valid(sub.renews) && sub.amount != 0 && sub.cancelsAt.None? && NoneYet(was, t, sub)
    requires t in z.subs && z.subs[t] == sub.(renews := Renewal(sub, Completed(init)))
    requires z.documents == was + Dates(sub, t, Issued(init))
    ensures var fates, after := init + [fate], BillOne(z, t, z.subs[t], fate, now);
            && t in after.subs
            && after.documents == was + Dates(sub, t, Issued(fates))
            && after.subs[t] == sub.(renews := Renewal(sub, Completed(fates)))
  {
    hide Valid, Keyed, RenewalKey, NextRenewal, Completed, Pending, Dates, Renewal;
    var n := Completed(init);
    FatesGrow(init, fate);
    KeyIsNotEmpty(Renewal(sub, n));
    KeyedConcat(was, Dates(sub, t, Issued(init)), t, RenewalKey(Renewal(sub, n)));
    DatesHold(sub, t, Issued(init), n);
    DatesGrow(sub, t, n);
    RenewalStep(sub, n);
  }

  lemma NothingYet(sub: Sub, t: Tenant)
    ensures Dates(sub, t, Issued([])) == [] && Renewal(sub, Completed([])) == sub.renews
  {
  }

  lemma FatesGrow(init: seq<Fate>, fate: Fate)
    ensures Completed(init + [fate]) == Completed(init) + if fate.Completes? then 1 else 0
    ensures Pending(init + [fate]) == (fate.FailsBetween? || (fate.FailsBefore? && Pending(init)))
  {
    assert (init + [fate])[..|init|] == init;
  }

  lemma DatesGrow(sub: Sub, t: Tenant, n: nat)
    ensures Dates(sub, t, n + 1) == Dates(sub, t, n) + [SubscriptionInvoice(t, Renewed(sub, n))]
  {
  }

  lemma RenewalStep(sub: Sub, n: nat)
    ensures Renewal(sub, n + 1) == NextRenewal(sub.(renews := Renewal(sub, n)))
  {
  }

  // -------------------------------------------------------------------------- in place

  /** A cycle over what it read, in the order read. */
  function CycleOver(db: Db, due: seq<(Tenant, Sub)>, fates: seq<Fate>, now: int): Db
    requires |fates| == |due|
  {
    if due == [] then db
    else
      var n := |due| - 1;
      BillOne(CycleOver(db, due[..n], fates[..n], now), due[n].0, due[n].1, fates[n], now)
  }

  function Billed(due: seq<(Tenant, Sub)>, fates: seq<Fate>): nat
    requires |fates| == |due|
  {
    if due == [] then 0
    else
      var n := |due| - 1;
      Billed(due[..n], fates[..n]) + if due[n].1.amount != 0 && fates[n].Completes? then 1 else 0
  }

  lemma {:induction false} BilledCounts(due: seq<(Tenant, Sub)>, fates: seq<Fate>)
    requires |fates| == |due|
    ensures Billed(due, fates) == |set i | 0 <= i < |due| && due[i].1.amount != 0 && fates[i].Completes?|
  {
    if due != [] {
      var n := |due| - 1;
      BilledCounts(due[..n], fates[..n]);
      var before := set i | 0 <= i < n && due[..n][i].1.amount != 0 && fates[..n][i].Completes?;
      var all := set i | 0 <= i < |due| && due[i].1.amount != 0 && fates[i].Completes?;
      if due[n].1.amount != 0 && fates[n].Completes? {
        assert all == before + {n};
      } else {
        assert all == before;
      }
    }
  }

  /** Changing a plan keeps its renewal date. Unless it is cancelled it goes on, and one
      that had ended is taken up again; cancelled, it is to end on that date and until then
      it stays what it was. */
  lemma ChangeSays(s: State, t: Tenant, annual: bool, amount: int, cancel: bool)
    requires t in s.db.subs
    ensures var was, z := s.db.subs[t], Exec(s, Change(t, annual, amount, cancel));
            && z == s.(db := s.db.(subs := s.db.subs[t := z.db.subs[t]]))
            && var now := z.db.subs[t];
            && now.annual == annual && now.amount == amount && now.renews == was.renews && now.clock == was.clock
            && (!cancel ==> !now.cancelled && now.cancelsAt == None)
            && (cancel ==> now.cancelled == was.cancelled && now.cancelsAt == Some(Ordinal(was.renews) * 86_400 + was.clock))
  {
    hide Ordinal;
    assert s.db.subs[t := s.db.subs[t]] == s.db.subs;
  }

  /** The cycle that comes to the day a subscription is to end invoices that renewal, if it
      costs anything, before it ends it. */
  lemma CancelledIsBilledOnceMore(s: State, t: Tenant, annual: bool, amount: int, now: int)
    requires t in s.db.subs && !s.db.subs[t].cancelled
    requires Ordinal(s.db.subs[t].renews) * 86_400 + s.db.subs[t].clock <= now
    ensures var db := Exec(s, Change(t, annual, amount, true)).db;
            var z, key := BillOne(db, t, db.subs[t], Completes, now), RenewalKey(s.db.subs[t].renews);
            && Due(db.subs[t], now)
            && (Keyed(z.documents, t, key) <==> amount != 0 || Keyed(s.db.documents, t, key))
            && t in z.subs && z.subs[t].cancelled && forall through :: !Due(z.subs[t], through)
  {
    hide Ordinal, NextRenewal, RenewalKey, Keyed;
    var db := Exec(s, Change(t, annual, amount, true)).db;
    BillOneSays(db, t, db.subs[t], Completes, now);
  }

  predicate OneEach(due: seq<(Tenant, Sub)>) {
    forall i, j :: 0 <= i < j < |due| ==> due[i].0 != due[j].0
  }

  /** What a cycle leaves of one tenant it read. */
  predicate Billing(was: Db, z: Db, t: Tenant, sub: Sub, fate: Fate) {
    && (t in z.subs <==> t in was.subs)
    && (t in z.subs ==> z.subs[t].renews == if fate.Completes? then NextRenewal(sub) else was.subs[t].renews)
    && (Keyed(z.documents, t, RenewalKey(sub.renews)) <==>
        Keyed(was.documents, t, RenewalKey(sub.renews)) || (sub.amount != 0 && !fate.FailsBefore?))
  }

  predicate Untouched(was: Db, z: Db, t: Tenant) {
    && (t in z.subs <==> t in was.subs) && (t in z.subs ==> z.subs[t] == was.subs[t])
    && forall k :: |was.documents| <= k < |z.documents| ==> z.documents[k].tenant != t
  }

  lemma BillOneSays(db: Db, t: Tenant, sub: Sub, fate: Fate, now: int)
    ensures var z := BillOne(db, t, sub, fate, now);
            && db.documents <= z.documents
            && Billing(db, z, t, sub, fate)
            && forall u :: u != t ==> Untouched(db, z, u)
  {
    hide NextRenewal, RenewalKey, Keyed;
    KeyIsNotEmpty(sub.renews);
    KeyedConcat(db.documents, [SubscriptionInvoice(t, sub)], t, RenewalKey(sub.renews));
    InvoiceIsKeyed(t, sub);
  }

  lemma InvoiceIsKeyed(t: Tenant, sub: Sub)
    ensures Keyed([SubscriptionInvoice(t, sub)], t, RenewalKey(sub.renews))
  {
    assert [SubscriptionInvoice(t, sub)][0].tenant == t;
  }

  lemma OthersKeepKeys(was: Db, z: Db, t: Tenant, key: string)
    requires was.documents <= z.documents && Untouched(was, z, t)
    ensures Keyed(z.documents, t, key) <==> Keyed(was.documents, t, key)
  {
    assert z.documents == was.documents + z.documents[|was.documents|..];
    KeyedConcat(was.documents, z.documents[|was.documents|..], t, key);
  }

  /** One tenant's failure does not stop the rest: whoever was read and got all the way
      is moved on to their next renewal and nobody else is; a renewal that costs something
      has its document unless billing it failed before there was one; one that costs
      nothing gains none; and who was not read is left alone. */
  lemma {:induction false} CycleSays(db: Db, due: seq<(Tenant, Sub)>, fates: seq<Fate>, now: int)
    requires |fates| == |due| && OneEach(due)
    ensures var z := CycleOver(db, due, fates, now);
            && db.documents <= z.documents
            && (forall i :: 0 <= i < |due| ==> Billing(db, z, due[i].0, due[i].1, fates[i]))
            && (forall t :: (forall i :: 0 <= i < |due| ==> due[i].0 != t) ==> Untouched(db, z, t))
  {
    hide BillOne, Billing, Untouched;
    if due == [] {
      NothingTouched(db);
    } else {
      var n := |due| - 1;
      var y, z := CycleOver(db, due[..n], fates[..n], now), CycleOver(db, due, fates, now);
      CycleSays(db, due[..n], fates[..n], now);
      BillOneSays(y, due[n].0, due[n].1, fates[n], now);
      forall i | 0 <= i < |due| ensures Billing(db, z, due[i].0, due[i].1, fates[i]) {
        if i < n {
          assert due[..n][i] == due[i];
          StillBilled(db, y, z, due[i].0, due[i].1, fates[i]);
        } else {
          assert Untouched(db, y, due[n].0);
          ThenBilled(db, y, z, due[n].0, due[n].1, fates[n]);
        }
      }
      forall t | forall i :: 0 <= i < |due| ==> due[i].0 != t ensures Untouched(db, z, t) {
        forall i | 0 <= i < n ensures due[..n][i].0 != t {
          assert due[..n][i] == due[i];
        }
        StillUntouched(db, y, z, t);
      }
    }
  }

  lemma NothingTouched(db: Db)
    ensures forall t :: Untouched(db, db, t)
  {
  }

  lemma StillBilled(db: Db, y: Db, z: Db, t: Tenant, sub: Sub, fate: Fate)
    requires Billing(db, y, t, sub, fate) && y.documents <= z.documents && Untouched(y, z, t)
    ensures Billing(db, z, t, sub, fate)
  {
    hide Keyed, NextRenewal, RenewalKey;
    OthersKeepKeys(y, z, t, RenewalKey(sub.renews));
  }

  lemma ThenBilled(db: Db, y: Db, z: Db, t: Tenant, sub: Sub, fate: Fate)
    requires Untouched(db, y, t) && db.documents <= y.documents && Billing(y, z, t, sub, fate)
    ensures Billing(db, z, t, sub, fate)
  {
    hide Keyed, NextRenewal, RenewalKey;
    OthersKeepKeys(db, y, t, RenewalKey(sub.renews));
  }

  lemma StillUntouched(db: Db, y: Db, z: Db, t: Tenant)
    requires db.documents <= y.documents <= z.documents && Untouched(db, y, t) && Untouched(y, z, t)
    ensures Untouched(db, z, t)
  {
  }

  class Biller {
    var subs: map<Tenant, Sub>
    var documents: seq<Document>
    ghost var history: seq<Turn>

    ghost function Now(): Db
      reads this
    {
      Db(subs, documents, history)
    }

    method AdvancePeriod(t: Tenant, next: Date, now: int, ghost sub: Sub)
      requires next == NextRenewal(sub)
      modifies this
      ensures Now() == AdvanceFrom(old(Now()), t, sub, now)
      ensures t !in old(subs) ==> subs == old(subs)
      ensures t in old(subs) ==>
        var was := old(subs)[t];
        var ended := was.cancelled || (was.cancelsAt.Some? && was.cancelsAt.value <= now);
        subs == old(subs)[t := Sub(was.annual, was.amount, next, was.clock, ended, was.cancelsAt)]
    {
      if t in subs {
        var row := subs[t];
        var status := if row.cancelsAt.Some? && row.cancelsAt.value <= now then true else row.cancelled;
        subs := subs[t := row.(renews := next, cancelled := status)];
        history := history + [Passed(t, sub)];
      }
    }

    method BillTenant(t: Tenant, sub: Sub, fate: Fate, now: int) returns (billed: bool)
      requires sub.amount != 0
      modifies this
      ensures Now() == BillOne(old(Now()), t, sub, fate, now)
      ensures billed <==> fate.Completes?
      ensures !billed ==> subs == old(subs)
      ensures billed && t in subs ==> subs[t].renews == NextRenewal(sub)
      ensures
        var key := RenewalKey(sub.renews);
        documents ==
          if fate.FailsBefore? || exists k :: 0 <= k < |old(documents)| && old(documents)[k].tenant == t && old(documents)[k].key == key
          then old(documents) else old(documents) + [Document(t, key, Cycle(sub.renews), sub.amount)]
    {
      if fate.FailsBefore? {
        return false;
      }
      if !Keyed(documents, t, RenewalKey(sub.renews)) {
        documents := documents + [Document(t, RenewalKey(sub.renews), Cycle(sub.renews), sub.amount)];
      }
      if fate.FailsBetween? {
        return false;
      }
      AdvancePeriod(t, NextRenewal(sub), now, sub);
      return true;
    }

    /** One tenant's failure does not stop the rest. */
    method RunBillingCycle(due: seq<(Tenant, Sub)>, fates: seq<Fate>, now: int) returns (issued: nat, skipped: nat)
      requires |fates| == |due|
      modifies this
      ensures Now() == CycleOver(old(Now()), due, fates, now)
      ensures issued == Billed(due, fates) && skipped == |due| - issued
      ensures issued == |set i | 0 <= i < |due| && due[i].1.amount != 0 && fates[i].Completes?|
    {
      BilledCounts(due, fates);
      issued, skipped := 0, 0;
      for i := 0 to |due|
        invariant issued == Billed(due[..i], fates[..i]) && issued + skipped == i
        invariant Now() == CycleOver(old(Now()), due[..i], fates[..i], now)
      {
        assert due[..i + 1][..i] == due[..i] && fates[..i + 1][..i] == fates[..i];
        var (t, sub) := due[i];
        if sub.amount == 0 {
          skipped := skipped + 1;
          if fates[i].Completes? {
            AdvancePeriod(t, NextRenewal(sub), now, sub);
          }
          continue;
        }
        var billed := BillTenant(t, sub, fates[i], now);
        if billed {
          issued := issued + 1;
        } else {
          skipped := skipped + 1;
        }
      }
      assert due[..|due|] == due && fates[..|fates|] == fates;
    }
  }

  /** Billing one tenant with what was just read is a run of the model. */
  lemma BillOneIsRun(db: Db, t: Tenant, fate: Fate, now: int, through: int) returns (steps: seq<Step>)
    requires t in db.subs && Valid(db.subs[t].renews) && Due(db.subs[t], through)
    ensures IsRun(State(db, map[]), steps, State(BillOne(db, t, db.subs[t], fate, now), map[]))
  {
    hide Ordinal, Valid, AddMonth, AddYear, IssueFor, AdvanceFrom, Due;
    var s, sub := State(db, map[]), db.subs[t];
    var picked := Exec(s, Pick(0, t, through));
    assert picked.jobs == map[0 := Job(t, sub, false)];
    if sub.amount == 0 || fate.FailsBefore? {
      var last := if sub.amount == 0 && fate.Completes? then Advance(0, now) else Die(0);
      TwoSteps(s, Pick(0, t, through), last);
      assert picked.jobs - {0} == map[];
      steps := [Pick(0, t, through), last];
    } else {
      var issued := Exec(picked, Issue(0));
      assert issued.jobs == map[0 := Job(t, sub, true)];
      assert issued.jobs - {0} == map[];
      var last := if fate.Completes? then Advance(0, now) else Die(0);
      TwoSteps(picked, Issue(0), last);
      steps := [Pick(0, t, through)] + [Issue(0), last];
      assert steps[1..] == [Issue(0), last];
    }
  }

  lemma TwoSteps(s: State, a: Step, b: Step)
    requires Enabled(s, a) && Enabled(Exec(s, a), b)
    ensures IsRun(s, [a, b], Exec(Exec(s, a), b))
  {
    hide Enabled, Exec;
    assert [a, b][1..] == [b] && [b][1..] == [];
    assert IsRun(Exec(Exec(s, a), b), [], Exec(Exec(s, a), b));
  }

  lemma {:induction false} RunConcat(s: State, a: seq<Step>, m: State, b: seq<Step>, z: State)
    requires IsRun(s, a, m) && IsRun(m, b, z)
    ensures IsRun(s, a + b, z)
    decreases |a|
  {
    hide Enabled, Exec;
    if a == [] {
      assert a + b == b;
    } else {
      assert (a + b)[1..] == a[1..] + b;
      RunConcat(Exec(s, a[0]), a[1..], m, b, z);
    }
  }

  function Bills(j: JobId, t: Tenant, now: int, through: int): seq<Step> {
    [Pick(j, t, through)] + [Issue(j), Advance(j, now)]
  }

  /** Billing one tenant beside whatever else is under way. */
  lemma BillBeside(s: State, j: JobId, t: Tenant, now: int, through: int)
    requires j !in s.jobs && t in s.db.subs && Valid(s.db.subs[t].renews)
    requires Due(s.db.subs[t], through) && s.db.subs[t].amount != 0
    ensures IsRun(s, Bills(j, t, now, through), State(BillOne(s.db, t, s.db.subs[t], Completes, now), s.jobs))
  {
    hide Ordinal, Valid, AddMonth, AddYear, IssueFor, AdvanceFrom, Due;
    var picked := Exec(s, Pick(j, t, through));
    var issued := Exec(picked, Issue(j));
    TwoSteps(picked, Issue(j), Advance(j, now));
    assert issued.jobs - {j} == s.jobs;
    assert Bills(j, t, now, through)[1..] == [Issue(j), Advance(j, now)];
  }

  /** The books after two cycles have billed a tenant all the way. */
  function BilledTwice(db: Db, t: Tenant, now: int): Db
    requires t in db.subs
  {
    var once := BillOne(db, t, db.subs[t], Completes, now);
    BillOne(once, t, once.subs[t], Completes, now)
  }

  /** A cycle reads the row, two others bill it, and then the first goes on. */
  function StaleSteps(t: Tenant, now: int, through: int): seq<Step> {
    [Pick(0, t, through)] + (Bills(1, t, now, through) + (Bills(1, t, now, through) + [Issue(0), Advance(0, now)]))
  }

  lemma TwoCyclesBill(db: Db, t: Tenant, now: int, through: int)
    requires t in db.subs && Valid(db.subs[t].renews) && db.subs[t].amount != 0 && db.subs[t].cancelsAt.None?
    requires Due(db.subs[t], through) && Due(Renewed(db.subs[t], 1), through)
    ensures var jobs, z := map[0 := Job(t, db.subs[t], false)], BilledTwice(db, t, now);
            && IsRun(State(db, jobs), Bills(1, t, now, through) + Bills(1, t, now, through), State(z, jobs))
            && t in z.subs && z.subs[t] == Renewed(db.subs[t], 2) && Keyed(z.documents, t, RenewalKey(db.subs[t].renews))
  {
    hide Ordinal, AddMonth, AddYear, Due, IsRun, Bills, Valid;
    var sub, jobs := db.subs[t], map[0 := Job(t, db.subs[t], false)];
    var once := BillOne(db, t, sub, Completes, now);
    assert sub == Renewed(sub, 0);
    BillBeside(State(db, jobs), 1, t, now, through);
    BilledOnce(db, t, sub, now, 0);
    RenewalIsValid(sub, 1);
    BillBeside(State(once, jobs), 1, t, now, through);
    BilledOnce(once, t, sub, now, 1);
    RunConcat(State(db, jobs), Bills(1, t, now, through), State(once, jobs), Bills(1, t, now, through),
              State(BilledTwice(db, t, now), jobs));
    var more := BilledTwice(db, t, now).documents;
    assert more == once.documents + more[|once.documents|..];
    KeyedConcat(once.documents, more[|once.documents|..], t, RenewalKey(sub.renews));
  }

  lemma StaleGoesOn(z: Db, t: Tenant, sub: Sub, now: int)
    requires Keyed(z.documents, t, RenewalKey(sub.renews)) && sub.amount != 0
    ensures IsRun(State(z, map[0 := Job(t, sub, false)]), [Issue(0), Advance(0, now)], State(AdvanceFrom(z, t, sub, now), map[]))
  {
    hide AdvanceFrom, Keyed, RenewalKey;
    var s := State(z, map[0 := Job(t, sub, false)]);
    KeyIsNotEmpty(sub.renews);
    assert Exec(s, Issue(0)) == State(z, map[0 := Job(t, sub, true)]);
    assert map[0 := Job(t, sub, true)] - {0} == map[];
    TwoSteps(s, Issue(0), Advance(0, now));
  }

  /** A cycle that read the row before two others billed it puts it back: the renewal
      date goes from the third to the second. What keeps the tenant from paying twice is
      the key alone. */
  lemma StaleCycleTurnsBack(db: Db, t: Tenant, now: int, through: int)
    requires t in db.subs && Valid(db.subs[t].renews) && db.subs[t].amount != 0 && db.subs[t].cancelsAt.None?
    requires Due(db.subs[t], through) && Due(Renewed(db.subs[t], 1), through)
    ensures var sub, z := db.subs[t], BilledTwice(db, t, now);
            var after := AdvanceFrom(z, t, sub, now);
            && IsRun(State(db, map[]), StaleSteps(t, now, through), State(after, map[]))
            && t in z.subs && z.subs[t].renews == Renewal(sub, 2)
            && t in after.subs && after.subs[t].renews == Renewal(sub, 1)
            && after.documents == z.documents
  {
    hide Ordinal, AddMonth, AddYear, Due, IsRun, Bills, Valid, BillOne, BilledTwice, Keyed, RenewalKey;
    var sub, jobs := db.subs[t], map[0 := Job(t, db.subs[t], false)];
    var z := BilledTwice(db, t, now);
    var two, last := Bills(1, t, now, through) + Bills(1, t, now, through), [Issue(0), Advance(0, now)];
    PickFirst(db, t, through);
    TwoCyclesBill(db, t, now, through);
    StaleGoesOn(z, t, sub, now);
    RunConcat(State(db, jobs), two, State(z, jobs), last, State(AdvanceFrom(z, t, sub, now), map[]));
    RunConcat(State(db, map[]), [Pick(0, t, through)], State(db, jobs), two + last, State(AdvanceFrom(z, t, sub, now), map[]));
    assert StaleSteps(t, now, through) == [Pick(0, t, through)] + (two + last);
    RenewalStep(sub, 0);
  }

  lemma PickFirst(db: Db, t: Tenant, through: int)
    requires t in db.subs && Due(db.subs[t], through)
    ensures IsRun(State(db, map[]), [Pick(0, t, through)], State(db, map[0 := Job(t, db.subs[t], false)]))
  {
    hide Due;
    var z := State(db, map[0 := Job(t, db.subs[t], false)]);
    assert Exec(State(db, map[]), Pick(0, t, through)) == z;
    assert [Pick(0, t, through)][1..] == [];
    assert IsRun(z, [], z);
  }

  // Billing the k-th renewal all the way.
  lemma BilledOnce(db: Db, t: Tenant, sub: Sub, now: int, k: nat)
    requires t in db.subs && Valid(sub.renews) && db.subs[t] == Renewed(sub, k) && sub.amount != 0 && sub.cancelsAt.None?
    ensures var z := BillOne(db, t, db.subs[t], Completes, now);
            && t in z.subs && z.subs[t] == Renewed(sub, k + 1)
            && db.documents <= z.documents && Keyed(z.documents, t, RenewalKey(Renewal(sub, k)))
  {
    hide AddMonth, AddYear, Keyed, RenewalKey;
    RenewalStep(sub, k);
    IssueTakes(db.documents, SubscriptionInvoice(t, db.subs[t]));
  }
}
