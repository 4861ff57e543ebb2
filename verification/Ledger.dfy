/** The journal: the only door into the books, the bookkeeper that knocks on it, and
    reversal. Entries are appended and never changed. */
module Ledger {
  // One tenant's books. Books is the value every statement is specified on; class
  // Store is the same in place, with the loops the program has.

  import opened Common
  import opened Posting

  datatype Posted = Posted(
    id: nat,
    kind: Kind,
    reference: nat,
    event: Option<nat>,
    key: string,            // idempotency key; "" is none
    currency: string,
    reverses: Option<nat>,
    at: int,                // when it happened
    lines: seq<Line>)

  datatype Books = Books(accounts: seq<Account>, journal: seq<Posted>)

  datatype Error = Empty | Unbalanced | NotFound | AlreadyReversed | NoSuchAccount | ZeroAmount | Duplicate

  datatype Receipt = Receipt(entry: Posted, repeat: bool)

  // ---------------------------------------------------------------------- lookups

  /** The unique indexes an entry could run into. */
  predicate Collides(p: Posted, e: Posted) {
    || p.id == e.id
    || (e.event.Some? && p.event == e.event)
    || (e.key != "" && p.key == e.key)
    || (e.reverses.Some? && p.reverses == e.reverses)
  }

  predicate Blocked(journal: seq<Posted>, e: Posted) {
    exists i :: 0 <= i < |journal| && Collides(journal[i], e)
  }

  function ById(journal: seq<Posted>, id: nat): Option<Posted> {
    if journal == [] then None
    else if journal[|journal| - 1].id == id then Some(journal[|journal| - 1])
    else ById(journal[..|journal| - 1], id)
  }

  function ByEvent(journal: seq<Posted>, event: nat): Option<Posted> {
    if journal == [] then None
    else if journal[|journal| - 1].event == Some(event) then Some(journal[|journal| - 1])
    else ByEvent(journal[..|journal| - 1], event)
  }

  function ByKey(journal: seq<Posted>, key: string): Option<Posted> {
    if journal == [] then None
    else if journal[|journal| - 1].key == key then Some(journal[|journal| - 1])
    else ByKey(journal[..|journal| - 1], key)
  }

  predicate Reversed(journal: seq<Posted>, id: nat) {
    exists i :: 0 <= i < |journal| && journal[i].reverses == Some(id)
  }

  /** The row a repeated post answers with: found by its event when it has one, else
      by its key. */
  function Existing(journal: seq<Posted>, e: Posted): Option<Posted> {
    if e.event.Some? then ByEvent(journal, e.event.value)
    else if e.key != "" then ByKey(journal, e.key)
    else None
  }

  // ---------------------------------------------------------------------- the chart

  function Seeded(accounts: seq<Account>, chart: seq<Account>): seq<Account> {
    if chart == [] then accounts
    else
      var s, a := Seeded(accounts, chart[..|chart| - 1]), chart[|chart| - 1];
      if a in s then s else s + [a]
  }

  predicate Distinct<T(==)>(s: seq<T>) {
    forall i, j :: 0 <= i < j < |s| ==> s[i] != s[j]
  }

  lemma {:induction false} SeededHoldsBoth(accounts: seq<Account>, chart: seq<Account>)
    ensures forall a :: a in Seeded(accounts, chart) <==> a in accounts || a in chart
    ensures accounts <= Seeded(accounts, chart)
    ensures Distinct(accounts) ==> Distinct(Seeded(accounts, chart))
  {
    if chart != [] {
      var init, a := chart[..|chart| - 1], chart[|chart| - 1];
      assert chart == init + [a];
      SeededHoldsBoth(accounts, init);
    }
  }

  /** Seeding twice adds nothing. */
  lemma {:induction false} SeededIsStable(accounts: seq<Account>, chart: seq<Account>)
    requires forall a :: a in chart ==> a in accounts
    ensures Seeded(accounts, chart) == accounts
  {
    if chart != [] {
      SeededIsStable(accounts, chart[..|chart| - 1]);
    }
  }

  // ------------------------------------------------------------------------ posting

  /** What goes wrong writing the lines, at the first that cannot be written: an
      account that is not in the chart, or a line of nothing. */
  function Refusal(accounts: seq<Account>, lines: seq<Line>): Option<Error> {
    if lines == [] then None
    else
      var r, l := Refusal(accounts, lines[..|lines| - 1]), lines[|lines| - 1];
      if r.Some? then r
      else if l.account !in accounts then Some(NoSuchAccount)
      else if l.minor == 0 then Some(ZeroAmount)
      else None
  }

  function Post(b: Books, e: Posted): (Books, Result<Receipt, Error>) {
    if e.lines == [] then (b, Err(Empty))
    else if Sum(e.lines) != 0 then (b, Err(Unbalanced))
    else if Blocked(b.journal, e) then
      var was := Existing(b.journal, e);
      (b, if was.Some? then Ok(Receipt(was.value, true)) else Err(NotFound))
    else
      var r := Refusal(b.accounts, e.lines);
      if r.Some? then (b, Err(r.value))
      else (b.(journal := b.journal + [e]), Ok(Receipt(e, false)))
  }

  function ReversalOf(o: Posted, id: nat, at: int): Posted {
    Posted(id, Reversal, o.reference, None, "", o.currency, Some(o.id), at, Negated(o.lines))
  }

  /** `seen` is how much of the journal the first read of the transaction saw: a
      reversal that committed while this one waited is not in it, and then only the
      unique index stands in the way. */
  function Reverse(b: Books, id: nat, newId: nat, at: int, seen: nat): (Books, Result<Posted, Error>)
    requires seen <= |b.journal|
  {
    var o := ById(b.journal[..seen], id);
    if o.None? then (b, Err(NotFound))
    else if Reversed(b.journal[..seen], id) then (b, Err(AlreadyReversed))
    else
      var e := ReversalOf(o.value, newId, at);
      if Blocked(b.journal, e) then (b, Err(Duplicate))
      else (b.(journal := b.journal + [e]), Ok(e))
  }

  // --------------------------------------------------------------------- bookkeeping

  /** A message off the bus. `id` is the one the entry will be given. */
  datatype Message = Message(tenanted: bool, event: Event, eventId: nat, id: nat, at: int)

  datatype Verdict = Skipped | Refused(error: Error) | Booked(receipt: Receipt)

  function EntryOf(m: Message, e: Entry, currency: string): Posted {
    Posted(m.id, e.kind, e.reference, Some(m.eventId), "", currency, None, m.at, e.lines)
  }

  function Handle(b: Books, m: Message, currency: string): (Books, Verdict) {
    if !m.tenanted then (b, Skipped)
    else
      var e := EntryFor(m.event);
      if e.None? then (b, Skipped)
      else if Sum(e.value.lines) != 0 then (b, Refused(Unbalanced))
      else if e.value.currency != "" && e.value.currency != currency then (b, Skipped)
      else
        var r := Post(b.(accounts := Seeded(b.accounts, BUILTIN)), EntryOf(m, e.value, currency));
        (r.0, match r.1 case Ok(receipt) => Booked(receipt) case Err(error) => Refused(error))
  }

  // ----------------------------------------------------------------------- invariant

  predicate SoundEntry(accounts: seq<Account>, e: Posted) {
    && e.lines != []
    && Sum(e.lines) == 0
    && NonZero(e.lines)
    && forall i :: 0 <= i < |e.lines| ==> e.lines[i].account in accounts
  }

  predicate Sound(accounts: seq<Account>, journal: seq<Posted>) {
    forall i :: 0 <= i < |journal| ==> SoundEntry(accounts, journal[i])
  }

  predicate Unique(journal: seq<Posted>) {
    forall i, j :: 0 <= i < j < |journal| ==> !Collides(journal[i], journal[j])
  }

  /** A reversal is the mirror of one earlier entry. */
  predicate Mirrors(journal: seq<Posted>, i: nat, j: nat)
    requires i < |journal| && j < |journal|
  {
    journal[j].reverses == Some(journal[i].id) && journal[j].lines == Negated(journal[i].lines)
  }

  predicate ReversalsMirror(journal: seq<Posted>) {
    forall j :: 0 <= j < |journal| && journal[j].reverses.Some? ==> exists i :: 0 <= i < j && Mirrors(journal, i, j)
  }

  predicate Inv(b: Books) {
    && Distinct(b.accounts)
    && Sound(b.accounts, b.journal)
    && Unique(b.journal)
    && ReversalsMirror(b.journal)
  }

  lemma {:induction false} RefusalNone(accounts: seq<Account>, lines: seq<Line>)
    ensures Refusal(accounts, lines).None? <==>
              NonZero(lines) && forall i :: 0 <= i < |lines| ==> lines[i].account in accounts
  {
    if lines != [] {
      var init := lines[..|lines| - 1];
      RefusalNone(accounts, init);
      assert forall i :: 0 <= i < |init| ==> lines[i] == init[i];
    }
  }

  lemma {:induction false} ByIdFinds(journal: seq<Posted>, id: nat)
    ensures ById(journal, id).Some? <==> exists i :: 0 <= i < |journal| && journal[i].id == id
    ensures ById(journal, id).Some? ==>
              exists i :: 0 <= i < |journal| && journal[i] == ById(journal, id).value && journal[i].id == id
  {
    if journal != [] && journal[|journal| - 1].id != id {
      var init := journal[..|journal| - 1];
      ByIdFinds(init, id);
      assert forall i :: 0 <= i < |init| ==> init[i] == journal[i];
    }
  }

  lemma AppendKeepsMirrors(journal: seq<Posted>, e: Posted)
    requires ReversalsMirror(journal)
    requires e.reverses.Some? ==>
               exists i :: 0 <= i < |journal| && journal[i].id == e.reverses.value && e.lines == Negated(journal[i].lines)
    ensures ReversalsMirror(journal + [e])
  {
    var j2 := journal + [e];
    forall j | 0 <= j < |j2| && j2[j].reverses.Some?
      ensures exists i :: 0 <= i < j && Mirrors(j2, i, j)
    {
      if j < |journal| {
        assert journal[j].reverses.Some?;
        var i :| 0 <= i < j && Mirrors(journal, i, j);
        assert Mirrors(j2, i, j);
      } else {
        var i :| 0 <= i < |journal| && journal[i].id == e.reverses.value && e.lines == Negated(journal[i].lines);
        assert Mirrors(j2, i, j);
      }
    }
  }

  lemma SeedKeepsInv(b: Books)
    requires Inv(b)
    ensures Inv(b.(accounts := Seeded(b.accounts, BUILTIN)))
  {
    hide Seeded;
    SeededHoldsBoth(b.accounts, BUILTIN);
  }

  lemma PostKeepsInv(b: Books, e: Posted)
    requires Inv(b) && e.reverses.None?
    ensures Inv(Post(b, e).0) && b.journal <= Post(b, e).0.journal && Post(b, e).0.accounts == b.accounts
  {
    if e.lines != [] && Sum(e.lines) == 0 && !Blocked(b.journal, e) && Refusal(b.accounts, e.lines).None? {
      RefusalNone(b.accounts, e.lines);
      AppendKeepsMirrors(b.journal, e);
      assert SoundEntry(b.accounts, e);
    }
  }

  lemma ReversalIsSound(accounts: seq<Account>, o: Posted, id: nat, at: int)
    requires SoundEntry(accounts, o)
    ensures SoundEntry(accounts, ReversalOf(o, id, at))
  {
    NegatedSum(o.lines);
    NegatedAt(o.lines);
  }

  lemma ReverseKeepsInv(b: Books, id: nat, newId: nat, at: int, seen: nat)
    requires Inv(b) && seen <= |b.journal|
    ensures Inv(Reverse(b, id, newId, at, seen).0)
    ensures b.journal <= Reverse(b, id, newId, at, seen).0.journal
  {
    hide Negated, SoundEntry;
    var early := b.journal[..seen];
    var o := ById(early, id);
    ByIdFinds(early, id);
    if o.Some? {
      var i :| 0 <= i < |early| && early[i] == o.value && early[i].id == id;
      assert b.journal[i] == o.value;
      var e := ReversalOf(o.value, newId, at);
      ReversalIsSound(b.accounts, o.value, newId, at);
      if !Blocked(b.journal, e) {
        AppendKeepsMirrors(b.journal, e);
      }
    }
  }

  // ---------------------------------------------------------------------------- runs

  datatype Command =
    | Seed
    | PostEntry(e: Posted)
    | ReverseEntry(id: nat, newId: nat, at: int, seen: nat)
    | Deliver(m: Message, currency: string)

  /** Entries come in without a pointer to another: only Reverse writes one. */
  predicate Enabled(b: Books, c: Command) {
    match c
    case PostEntry(e) => e.reverses.None?
    case ReverseEntry(_, _, _, seen) => seen <= |b.journal|
    case _ => true
  }

  function Step(b: Books, c: Command): Books
    requires Enabled(b, c)
  {
    match c
    case Seed => b.(accounts := Seeded(b.accounts, BUILTIN))
    case PostEntry(e) => Post(b, e).0
    case ReverseEntry(id, newId, at, seen) => Reverse(b, id, newId, at, seen).0
    case Deliver(m, currency) => Handle(b, m, currency).0
  }

  predicate IsRun(b: Books, cs: seq<Command>, z: Books)
    decreases |cs|
  {
    if cs == [] then b == z
    else Enabled(b, cs[0]) && IsRun(Step(b, cs[0]), cs[1..], z)
  }

  lemma StepKeepsInv(b: Books, c: Command)
    requires Inv(b) && Enabled(b, c)
    ensures Inv(Step(b, c)) && b.journal <= Step(b, c).journal
  {
    hide Inv, Post, Reverse, Seeded;
    match c
    case Seed =>
      SeedKeepsInv(b);
    case PostEntry(e) =>
      PostKeepsInv(b, e);
    case ReverseEntry(id, newId, at, seen) =>
      ReverseKeepsInv(b, id, newId, at, seen);
    case Deliver(m, currency) =>
      SeedKeepsInv(b);
      if EntryFor(m.event).Some? {
        PostKeepsInv(b.(accounts := Seeded(b.accounts, BUILTIN)), EntryOf(m, EntryFor(m.event).value, currency));
      }
  }

  /** Whatever is posted, booked and reversed, in any order and however stale the read
      of a reversal: the journal only grows, every entry in it balances on accounts of
      the chart, no event and no key is in it twice, and no entry is reversed twice. */
  lemma {:induction false} RunKeepsInv(b: Books, cs: seq<Command>, z: Books)
    requires Inv(b) && IsRun(b, cs, z)
    ensures Inv(z) && b.journal <= z.journal
    decreases |cs|
  {
    if cs != [] {
      StepKeepsInv(b, cs[0]);
      RunKeepsInv(Step(b, cs[0]), cs[1..], z);
    }
  }

  /** An entry is reversed at most once, whatever ran at the same time. */
  lemma ReversedAtMostOnce(b: Books, i: nat, j: nat)
    requires Inv(b) && i < |b.journal| && j < |b.journal|
    requires b.journal[i].reverses.Some? && b.journal[i].reverses == b.journal[j].reverses
    ensures i == j
  {
    assert Collides(b.journal[i], b.journal[j]) && Collides(b.journal[j], b.journal[i]);
  }

  // ------------------------------------------------------- what each call comes to

  /** Nothing in the journal has the entry's id, its event, its key or what it reverses. */
  predicate Free(journal: seq<Posted>, e: Posted) {
    forall i :: 0 <= i < |journal| ==>
      && journal[i].id != e.id
      && (e.event == None || journal[i].event != e.event)
      && (e.key == "" || journal[i].key != e.key)
      && (e.reverses == None || journal[i].reverses != e.reverses)
  }

  lemma FreeIsNotBlocked(journal: seq<Posted>, e: Posted)
    ensures Free(journal, e) <==> !Blocked(journal, e)
  {
  }

  predicate Writable(accounts: seq<Account>, l: Line) { l.account in accounts && l.minor != 0 }

  /** The error is of the first line that cannot be written. */
  predicate FirstUnwritable(accounts: seq<Account>, lines: seq<Line>, i: nat, error: Error)
    requires i < |lines|
  {
    && (forall j :: 0 <= j < i ==> Writable(accounts, lines[j]))
    && ((lines[i].account !in accounts && error == NoSuchAccount)
        || (lines[i].account in accounts && lines[i].minor == 0 && error == ZeroAmount))
  }

  lemma {:induction false} RefusalSays(accounts: seq<Account>, lines: seq<Line>)
    ensures Refusal(accounts, lines).None? <==> forall i :: 0 <= i < |lines| ==> Writable(accounts, lines[i])
    ensures Refusal(accounts, lines).Some? ==>
              exists i :: 0 <= i < |lines| && FirstUnwritable(accounts, lines, i, Refusal(accounts, lines).value)
  {
    if lines != [] {
      var init := lines[..|lines| - 1];
      RefusalSays(accounts, init);
      assert lines == init + [lines[|lines| - 1]];
      if Refusal(accounts, init).Some? {
        var i :| 0 <= i < |init| && FirstUnwritable(accounts, init, i, Refusal(accounts, init).value);
        assert FirstUnwritable(accounts, lines, i, Refusal(accounts, init).value);
      } else if Refusal(accounts, lines).Some? {
        assert FirstUnwritable(accounts, lines, |init|, Refusal(accounts, lines).value);
      }
    }
  }

  /** A row with the event of what is posted, when that has one, and otherwise with its
      key. */
  predicate Repeats(p: Posted, e: Posted) {
    if e.event != None then p.event == e.event else e.key != "" && p.key == e.key
  }

  lemma {:induction false} ByEventSays(journal: seq<Posted>, event: nat)
    ensures ByEvent(journal, event).Some? ==> ByEvent(journal, event).value in journal && ByEvent(journal, event).value.event == Some(event)
    ensures ByEvent(journal, event).None? ==> forall p :: p in journal ==> p.event != Some(event)
  {
    if journal != [] {
      ByEventSays(journal[..|journal| - 1], event);
      assert journal == journal[..|journal| - 1] + [journal[|journal| - 1]];
    }
  }

  lemma {:induction false} ByKeySays(journal: seq<Posted>, key: string)
    ensures ByKey(journal, key).Some? ==> ByKey(journal, key).value in journal && ByKey(journal, key).value.key == key
    ensures ByKey(journal, key).None? ==> forall p :: p in journal ==> p.key != key
  {
    if journal != [] {
      ByKeySays(journal[..|journal| - 1], key);
      assert journal == journal[..|journal| - 1] + [journal[|journal| - 1]];
    }
  }

  lemma ExistingSays(journal: seq<Posted>, e: Posted)
    ensures Existing(journal, e).Some? <==> exists p :: p in journal && Repeats(p, e)
    ensures Existing(journal, e).Some? ==> Existing(journal, e).value in journal && Repeats(Existing(journal, e).value, e)
  {
    hide ByEvent, ByKey;
    ByKeySays(journal, e.key);
    if e.event.Some? {
      ByEventSays(journal, e.event.value);
    }
  }

  /** An entry is written exactly when it has lines that balance and can all be written
      and nothing is in its way; then the journal gains it and nothing else. Otherwise the
      books stay as they were: a repeat is answered with the row of the first time, and
      for the rest the error says which check failed first. */
  lemma PostSays(b: Books, e: Posted)
    ensures
      var (z, r) := Post(b, e);
      if e.lines == [] then (z, r) == (b, Err(Empty))
      else if Sum(e.lines) != 0 then (z, r) == (b, Err(Unbalanced))
      else if !Free(b.journal, e) then
        && z == b
        && (r.Ok? <==> exists p :: p in b.journal && Repeats(p, e))
        && (r.Ok? ==> r.value.repeat && r.value.entry in b.journal && Repeats(r.value.entry, e))
        && (r.Err? ==> r.error == NotFound)
      else if forall i :: 0 <= i < |e.lines| ==> Writable(b.accounts, e.lines[i]) then
        z == Books(b.accounts, b.journal + [e]) && r == Ok(Receipt(e, false))
      else
        z == b && r.Err? && exists i :: 0 <= i < |e.lines| && FirstUnwritable(b.accounts, e.lines, i, r.error)
  {
    hide Sum, Existing, Refusal, Blocked, Free;
    FreeIsNotBlocked(b.journal, e);
    ExistingSays(b.journal, e);
    RefusalSays(b.accounts, e.lines);
  }

  predicate Reverses(e: Posted, o: Posted) {
    && e.kind == Reversal && e.reference == o.reference && e.currency == o.currency
    && e.reverses == Some(o.id) && e.event == None && e.key == ""
    && |e.lines| == |o.lines|
    && forall i :: 0 <= i < |o.lines| ==> e.lines[i].account == o.lines[i].account && e.lines[i].minor == -o.lines[i].minor
  }

  /** A reversal is written, under its new id, exactly when the entry was there to be
      read, nothing that was read reverses it, and nothing written meanwhile does either;
      then it is that entry backwards, and otherwise the books stay as they were. */
  lemma ReverseSays(b: Books, id: nat, newId: nat, at: int, seen: nat)
    requires Unique(b.journal) && seen <= |b.journal|
    requires forall i :: 0 <= i < |b.journal| ==> b.journal[i].id != newId
    ensures
      var (z, r) := Reverse(b, id, newId, at, seen);
      if !exists k :: 0 <= k < seen && b.journal[k].id == id then (z, r) == (b, Err(NotFound))
      else if exists i :: 0 <= i < seen && b.journal[i].reverses == Some(id) then (z, r) == (b, Err(AlreadyReversed))
      else if exists i :: seen <= i < |b.journal| && b.journal[i].reverses == Some(id) then (z, r) == (b, Err(Duplicate))
      else
        && r.Ok? && r.value.id == newId && r.value.at == at
        && (forall k :: 0 <= k < seen && b.journal[k].id == id ==> Reverses(r.value, b.journal[k]))
        && z == Books(b.accounts, b.journal + [r.value])
  {
    hide Negated;
    ByIdFinds(b.journal[..seen], id);
    if k :| 0 <= k < seen && b.journal[k].id == id {
      var o := b.journal[k];
      assert b.journal[..seen][k] == o;
      ByIdAt(b.journal[..seen], k);
      NegatedAt(o.lines);
      assert Blocked(b.journal, ReversalOf(o, newId, at)) <==>
             exists i :: 0 <= i < |b.journal| && b.journal[i].reverses == Some(id);
      assert Reversed(b.journal[..seen], id) <==> exists i :: 0 <= i < seen && b.journal[i].reverses == Some(id);
      forall n | 0 <= n < seen && b.journal[n].id == id ensures n == k {
        IdsApart(b.journal, n, k);
      }
    }
  }

  lemma IdsApart(journal: seq<Posted>, i: nat, j: nat)
    requires Unique(journal) && i < |journal| && j < |journal| && journal[i].id == journal[j].id
    ensures i == j
  {
  }

  lemma {:induction false} ByIdAt(journal: seq<Posted>, k: nat)
    requires k < |journal| && forall i, j :: 0 <= i < j < |journal| ==> journal[i].id != journal[j].id
    ensures ById(journal, journal[k].id) == Some(journal[k])
  {
    if k < |journal| - 1 {
      ByIdAt(journal[..|journal| - 1], k);
    }
  }

  /** Over every run, no two entries have an id, an event, a key or what they reverse in
      common. */
  lemma NothingTwice(cs: seq<Command>, z: Books, i: nat, j: nat)
    requires IsRun(Books([], []), cs, z) && i < j < |z.journal|
    ensures var p, q := z.journal[i], z.journal[j];
            && p.id != q.id
            && (p.event == None || p.event != q.event)
            && (p.key == "" || p.key != q.key)
            && (p.reverses == None || p.reverses != q.reverses)
  {
    RunKeepsInv(Books([], []), cs, z);
    assert !Collides(z.journal[i], z.journal[j]);
  }

  /** A message adds to the journal exactly when it is some tenant's, the rules make an
      entry of it, the entry balances, is in the books' currency or none, has no line of
      nothing, and its event and id are new; and then that entry, under its event. */
  lemma MessageIsBookedIff(b: Books, m: Message, currency: string)
    ensures
      var (z, v) := Handle(b, m, currency);
      var e := EntryFor(m.event);
      var booked := z.journal != b.journal;
      && (booked <==>
            && m.tenanted && e.Some? && Sum(e.value.lines) == 0 && NonZero(e.value.lines)
            && (e.value.currency == "" || e.value.currency == currency)
            && forall i :: 0 <= i < |b.journal| ==> b.journal[i].id != m.id && b.journal[i].event != Some(m.eventId))
      && (booked ==>
            && z.journal == b.journal +
                 [Posted(m.id, e.value.kind, e.value.reference, Some(m.eventId), "", currency, None, m.at, e.value.lines)]
            && v.Booked? && !v.receipt.repeat)
      && (v.Skipped? <==>
            || !m.tenanted || e.None?
            || (Sum(e.value.lines) == 0 && e.value.currency !in {"", currency}))
      && (v == Refused(Unbalanced) <==> m.tenanted && e.Some? && Sum(e.value.lines) != 0)
  {
    hide Refusal, Sum, EntryFor, Seeded, Blocked, Existing;
    var e := EntryFor(m.event);
    if m.tenanted && e.Some? {
      var accounts := Seeded(b.accounts, BUILTIN);
      SeededHoldsBoth(b.accounts, BUILTIN);
      DescribedIsKnown(accounts, m.event);
      var posted := EntryOf(m, e.value, currency);
      PostSays(b.(accounts := accounts), posted);
      NonZeroIsWritable(accounts, e.value.lines);
      NewIsFree(b.journal, posted);
    }
  }

  lemma NonZeroIsWritable(accounts: seq<Account>, lines: seq<Line>)
    ensures (forall i :: 0 <= i < |lines| ==> Writable(accounts, lines[i])) <==> Refusal(accounts, lines).None?
  {
    RefusalSays(accounts, lines);
  }

  lemma NewIsFree(journal: seq<Posted>, e: Posted)
    requires e.event.Some? && e.key == "" && e.reverses == None
    ensures Free(journal, e) <==>
            forall i :: 0 <= i < |journal| ==> journal[i].id != e.id && journal[i].event != e.event
  {
  }

  // ------------------------------------------------------------------- the bookkeeper

  lemma DescribedIsKnown(accounts: seq<Account>, e: Event)
    requires EntryFor(e).Some? && forall a :: a in BUILTIN ==> a in accounts
    ensures var lines := EntryFor(e).value.lines;
            lines != [] && (Refusal(accounts, lines).None? <==> NonZero(lines))
  {
    var lines := EntryFor(e).value.lines;
    DescribedOnBuiltin(e);
    RefusalNone(accounts, lines);
  }

  /** Nothing unbalanced reaches the journal, and of what a sale says only three
      things can stop it being booked: the wrong currency, a split that does not add
      up, or a sale that is all tax, whose revenue line would be of nothing. */
  lemma SaleIsBookedIff(b: Books, m: Message, currency: string)
    requires m.tenanted && m.event.Placed? && Bookable(m.event.order)
    requires !Blocked(b.journal, EntryOf(m, SaleEntry(m.event.order).value, currency))
    ensures var o := m.event.order;
            Handle(b, m, currency).0.journal != b.journal <==>
              && (o.currency == "" || o.currency == currency)
              && Max(o.gross, Taken(o.tenders)) == Revenue(o) + o.tax
              && (o.net != 0 || o.tax == 0)
    ensures Handle(b, m, currency).0.journal != b.journal ==>
              Handle(b, m, currency).0.journal == b.journal + [EntryOf(m, SaleEntry(m.event.order).value, currency)]
  {
    hide Refusal, Sum, SaleLines, Seeded, Blocked;
    var o := m.event.order;
    SaleSum(o);
    SaleLinesClean(o);
    SeededHoldsBoth(b.accounts, BUILTIN);
    DescribedIsKnown(Seeded(b.accounts, BUILTIN), m.event);
  }

  lemma {:induction false} RefusedForZero(accounts: seq<Account>, lines: seq<Line>)
    requires forall i :: 0 <= i < |lines| ==> lines[i].account in accounts
    ensures Refusal(accounts, lines) == if NonZero(lines) then None else Some(ZeroAmount)
  {
    if lines != [] {
      var init := lines[..|lines| - 1];
      assert forall i :: 0 <= i < |init| ==> lines[i] == init[i];
      RefusedForZero(accounts, init);
    }
  }

  /** A paid sale that is all tax is refused whatever the books hold, and its message is
      refused again each time it is delivered. */
  lemma AllTaxIsRefused(b: Books, m: Message, again: Message, currency: string)
    requires m.tenanted && m.event.Placed? && Bookable(m.event.order)
    requires var o := m.event.order;
             o.net == 0 && o.tax == o.gross && Taken(o.tenders) <= o.gross && (o.currency == "" || o.currency == currency)
    requires again.tenanted && again.event == m.event
    requires !Blocked(b.journal, EntryOf(m, SaleEntry(m.event.order).value, currency))
    requires !Blocked(b.journal, EntryOf(again, SaleEntry(m.event.order).value, currency))
    ensures var first := Handle(b, m, currency);
            && first == (b.(accounts := Seeded(b.accounts, BUILTIN)), Refused(ZeroAmount))
            && Handle(first.0, again, currency) == first
  {
    hide Refusal, Sum, SaleLines, Seeded, Blocked;
    var o := m.event.order;
    var accounts := Seeded(b.accounts, BUILTIN);
    SaleSum(o);
    SaleLinesClean(o);
    SeededHoldsBoth(b.accounts, BUILTIN);
    SeededIsStable(accounts, BUILTIN);
    DescribedIsKnown(accounts, m.event);
    DescribedOnBuiltin(m.event);
    RefusedForZero(accounts, SaleLines(o));
  }

  /** One such: a hundred in cash for an order that is a hundred of tax. */
  lemma AllTaxSale(again: Message)
    requires again.tenanted && again.event == Placed(Order(1, false, 100, 0, 100, "EUR", [Tender(InCash, 100)]))
    ensures var m := Message(true, again.event, 1, 1, 0);
            && Sum(SaleLines(m.event.order)) == 0
            && Handle(Books([], []), m, "EUR").1 == Refused(ZeroAmount)
            && Handle(Handle(Books([], []), m, "EUR").0, again, "EUR").1 == Refused(ZeroAmount)
  {
    hide Refusal, Sum, SaleLines, Seeded;
    var m := Message(true, again.event, 1, 1, 0);
    assert [Tender(InCash, 100)][..0] == [];
    assert Taken([Tender(InCash, 100)]) == 100;
    SaleSum(m.event.order);
    AllTaxIsRefused(Books([], []), m, again, "EUR");
  }

  lemma BlockedOnceBooked(journal: seq<Posted>, e: Posted, again: Posted)
    requires e.event.Some? && again.event == e.event
    ensures Blocked(journal + [e], again)
  {
    assert Collides((journal + [e])[|journal|], again);
  }

  /** An event that was booked is not booked again, and the repeat is answered with
      the entry of the first time. */
  lemma RedeliveryIsHarmless(b: Books, m: Message, again: Message, currency: string)
    requires Handle(b, m, currency).1.Booked? && !Handle(b, m, currency).1.receipt.repeat
    requires again == m.(id := again.id, at := again.at)
    ensures var first := Handle(b, m, currency);
            Handle(first.0, again, currency) == (first.0, Booked(first.1.receipt.(repeat := true)))
  {
    hide Refusal, Sum, SaleLines, Seeded, Blocked;
    var first := Handle(b, m, currency);
    var e := EntryOf(m, EntryFor(m.event).value, currency);
    SeededHoldsBoth(b.accounts, BUILTIN);
    SeededIsStable(first.0.accounts, BUILTIN);
    BlockedOnceBooked(b.journal, e, EntryOf(again, EntryFor(m.event).value, currency));
  }

  // --------------------------------------------------------------- chains of reversals

  /** Each member of the chain reverses the one before. */
  predicate Chain(journal: seq<Posted>, c: seq<nat>) {
    && (forall k :: 0 <= k < |c| ==> c[k] < |journal|)
    && forall k :: 0 < k < |c| ==> journal[c[k]].reverses == Some(journal[c[k - 1]].id)
  }

  function ChainEffect(journal: seq<Posted>, c: seq<nat>, a: Account): int
    requires Chain(journal, c)
  {
    if c == [] then 0
    else
      var k := |c| - 1;
      ChainEffect(journal, c[..k], a) + Effect(journal[c[k]].lines, a)
  }

  lemma ReversalUndoes(b: Books, i: nat, j: nat, a: Account)
    requires Inv(b) && i < |b.journal| && j < |b.journal|
    requires b.journal[j].reverses == Some(b.journal[i].id)
    ensures Effect(b.journal[j].lines, a) == -Effect(b.journal[i].lines, a)
  {
    var i0 :| 0 <= i0 < j && Mirrors(b.journal, i0, j);
    NegatedEffect(b.journal[i].lines, a);
  }

  /** Reversing an entry, then the reversal, and so on n times over leaves every
      account with the entry's effect when n is even and with none when n is odd: the
      chain counts the entry and its n reversals. */
  lemma {:induction false} ChainParity(b: Books, c: seq<nat>, a: Account)
    requires Inv(b) && Chain(b.journal, c) && c != []
    ensures ChainEffect(b.journal, c, a) == if |c| % 2 == 1 then Effect(b.journal[c[0]].lines, a) else 0
  {
    hide Inv, Effect;
    var n := |c| - 1;
    assert ChainEffect(b.journal, c[..0], a) == 0;
    if n > 0 {
      ChainParity(b, c[..n], a);
      LastOfChain(b, c, a);
    }
  }

  // The last link has the effect of the first, or its opposite.
  lemma {:induction false} LastOfChain(b: Books, c: seq<nat>, a: Account)
    requires Inv(b) && Chain(b.journal, c) && c != []
    ensures var first, last := Effect(b.journal[c[0]].lines, a), Effect(b.journal[c[|c| - 1]].lines, a);
            last == if |c| % 2 == 1 then first else -first
  {
    hide Inv, Effect;
    var n := |c| - 1;
    if n > 0 {
      LastOfChain(b, c[..n], a);
      ReversalUndoes(b, c[n - 1], c[n], a);
    }
  }

  // -------------------------------------------------------------------------- in place

  class Store {
    var accounts: seq<Account>
    var journal: seq<Posted>

    ghost function Now(): Books
      reads this
    {
      Books(accounts, journal)
    }

    method EnsureChart()
      modifies this
      ensures Now() == old(Now()).(accounts := Seeded(old(accounts), BUILTIN))
    {
      for i := 0 to |BUILTIN|
        invariant journal == old(journal)
        invariant accounts == Seeded(old(accounts), BUILTIN[..i])
      {
        assert BUILTIN[..i + 1][..i] == BUILTIN[..i];
        if BUILTIN[i] !in accounts {
          accounts := accounts + [BUILTIN[i]];
        }
      }
      assert BUILTIN[..|BUILTIN|] == BUILTIN;
    }

    /** Writes the lines under an entry row that is already there; a line that cannot
        be written takes the row with it. */
    method WriteLines(lines: seq<Line>) returns (refused: Option<Error>)
      requires journal != [] && journal[|journal| - 1].lines == []
      modifies this
      ensures accounts == old(accounts)
      ensures refused == Refusal(accounts, lines)
      ensures var n := |old(journal)| - 1;
              journal == old(journal)[..n] + if refused.Some? then [] else [old(journal)[n].(lines := lines)]
    {
      var n := |journal| - 1;
      for i := 0 to |lines|
        invariant accounts == old(accounts)
        invariant Refusal(accounts, lines[..i]).None?
        invariant journal == old(journal)[..n] + [old(journal)[n].(lines := lines[..i])]
      {
        var l := lines[i];
        assert lines[..i + 1][..i] == lines[..i];
        if l.account !in accounts || l.minor == 0 {
          RefusedEarly(accounts, lines, i + 1);
          journal := journal[..n];
          return Some(if l.account !in accounts then NoSuchAccount else ZeroAmount);
        }
        assert lines[..i + 1] == lines[..i] + [l];
        journal := journal[n := journal[n].(lines := journal[n].lines + [l])];
      }
      assert lines[..|lines|] == lines;
      return None;
    }

    method PostEntry(e: Posted) returns (r: Result<Receipt, Error>)
      modifies this
      ensures (Now(), r) == Post(old(Now()), e)
    {
      if |e.lines| == 0 {
        return Err(Empty);
      }
      var balanced := Balanced(e.lines);
      if !balanced {
        return Err(Unbalanced);
      }
      if Blocked(journal, e) {
        var was := Existing(journal, e);
        return if was.Some? then Ok(Receipt(was.value, true)) else Err(NotFound);
      }
      journal := journal + [e.(lines := [])];
      var refused := WriteLines(e.lines);
      assert old(journal) + [] == old(journal);
      return if refused.Some? then Err(refused.value) else Ok(Receipt(e, false));
    }

    /** Reverse, when no other reversal commits while it runs. */
    method ReverseEntry(id: nat, newId: nat, at: int) returns (r: Result<Posted, Error>)
      modifies this
      ensures (Now(), r) == Reverse(old(Now()), id, newId, at, |old(journal)|)
    {
      assert journal[..|journal|] == journal;
      var o := ById(journal, id);
      if o.None? {
        return Err(NotFound);
      }
      if Reversed(journal, id) {
        return Err(AlreadyReversed);
      }
      var lines := Backwards(o.value.lines);
      var e := Posted(newId, Reversal, o.value.reference, None, "", o.value.currency, Some(o.value.id), at, lines);
      if Blocked(journal, e) {
        return Err(Duplicate);
      }
      journal := journal + [e];
      return Ok(e);
    }

    method HandleMessage(m: Message, currency: string) returns (v: Verdict)
      modifies this
      ensures (Now(), v) == Handle(old(Now()), m, currency)
    {
      if !m.tenanted {
        return Skipped;
      }
      var e := Describe(m.event);
      if e.None? {
        return Skipped;
      }
      var balanced := Balanced(e.value.lines);
      if !balanced {
        return Refused(Unbalanced);
      }
      if e.value.currency != "" && e.value.currency != currency {
        return Skipped;
      }
      EnsureChart();
      var r := PostEntry(EntryOf(m, e.value, currency));
      return match r case Ok(receipt) => Booked(receipt) case Err(error) => Refused(error);
    }
  }

  // A refusal among the first lines is the refusal of them all.
  lemma {:induction false} RefusedEarly(accounts: seq<Account>, lines: seq<Line>, n: nat)
    requires n <= |lines| && Refusal(accounts, lines[..n]).Some?
    ensures Refusal(accounts, lines) == Refusal(accounts, lines[..n])
  {
    if n < |lines| {
      assert lines[..|lines| - 1][..n] == lines[..n];
      RefusedEarly(accounts, lines[..|lines| - 1], n);
    } else {
      assert lines[..n] == lines;
    }
  }
}
