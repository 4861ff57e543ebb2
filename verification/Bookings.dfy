/** The booking diary: a booking is written under a lock on its resource, and the
    capacity check happens inside that lock. */
module Bookings {
  // The database is its committed rows plus the transactions in flight. A
  // transaction advances one SQL statement at a time, in any order relative to the
  // others; a statement reads committed rows and waits for a lock somebody else
  // holds.

  import opened Common

  type ResourceId = nat
  type BookingId = nat
  type Reference = nat
  type Key = nat
  type Instant = int
  type TxId = nat

  datatype Status = Confirmed | Arrived | Completed | Cancelled | NoShow

  predicate Active(s: Status) { s == Confirmed || s == Arrived }

  /** The status table, written once. */
  function Allowed(s: Status): seq<Status> {
    match s
    case Confirmed => [Arrived, Cancelled, NoShow]
    case Arrived => [Completed, Cancelled]
    case Completed => []
    case Cancelled => []
    case NoShow => []
  }

  datatype Booking = Booking(resource: ResourceId, start: Instant, end: Instant, status: Status,
                             reference: Reference, key: Option<Key>)

  datatype Db = Db(capacity: map<ResourceId, nat>, bookings: map<BookingId, Booking>)

  // -------------------------------------------------------------------- counting

  /** The bookings the capacity check counts: active, on the resource, running
      over the proposed half-open time, other than the one being written. */
  function Overlapping(bs: map<BookingId, Booking>, r: ResourceId, start: Instant, end: Instant, except: BookingId):
      set<BookingId>
  {
    set b | b in bs && bs[b].resource == r && Active(bs[b].status)
            && bs[b].start < end && start < bs[b].end && b != except
  }

  /** The bookings that are using the resource at one instant. */
  function Covering(bs: map<BookingId, Booking>, r: ResourceId, t: Instant): set<BookingId> {
    set b | b in bs && bs[b].resource == r && Active(bs[b].status) && bs[b].start <= t < bs[b].end
  }

  // ---------------------------------------------------------------- transactions

  datatype Op =
    | Create(id: BookingId, resource: ResourceId, start: Instant, end: Instant, key: Option<Key>)
    | Reschedule(id: BookingId, resource: ResourceId, start: Instant, end: Instant)
    | SetStatus(id: BookingId, to: Status)
    | PutResource(resource: ResourceId, capacity: nat)
  {
    predicate Places() { Create? || Reschedule? }
  }

  datatype Phase =
    | Begun
    | KeyIsNew
    | ResourceLocked(capacity: nat)
    | Fits(attempts: nat)
    | BookingLocked
    | Finished

  datatype Locks = Locks(resources: set<ResourceId>, bookings: set<BookingId>,
                         references: set<Reference>, keys: set<Key>)

  datatype Tx = Tx(op: Op, phase: Phase, locks: Locks,
                   bookings: map<BookingId, Booking>, capacity: map<ResourceId, nat>)

  datatype State = State(db: Db, txs: map<TxId, Tx>)

  datatype Outcome = Blocked | RolledBack | Proceed(tx: Tx)

  const FREE := Locks({}, {}, {}, {})

  const MAX_ATTEMPTS := 5

  function Start(op: Op): Tx { Tx(op, Begun, FREE, map[], map[]) }

  ghost predicate KeyUsed(bs: map<BookingId, Booking>, key: Option<Key>) {
    key.Some? && exists b :: b in bs && bs[b].key == key
  }

  ghost predicate ReferenceUsed(bs: map<BookingId, Booking>, reference: Reference) {
    exists b :: b in bs && bs[b].reference == reference
  }

  /** A create first asks whether its idempotency key has been used, and is a
      repeat that writes nothing if so. */
  ghost function CheckKey(db: Db, tx: Tx): Outcome
    requires tx.op.Create?
  {
    Proceed(tx.(phase := if KeyUsed(db.bookings, tx.op.key) then Finished else KeyIsNew))
  }

  /** SELECT capacity ... FOR UPDATE. */
  function LockResource(db: Db, others: Locks, tx: Tx): Outcome
    requires tx.op.Places()
  {
    var r := tx.op.resource;
    if r !in db.capacity then RolledBack
    else if r in others.resources then Blocked
    else Proceed(tx.(phase := ResourceLocked(db.capacity[r]), locks := FREE.(resources := {r})))
  }

  /** The count, refused when it has reached the capacity. */
  function Count(db: Db, tx: Tx): Outcome
    requires tx.op.Places() && tx.phase.ResourceLocked?
  {
    var taken := |Overlapping(db.bookings, tx.op.resource, tx.op.start, tx.op.end, tx.op.id)|;
    if taken >= tx.phase.capacity then RolledBack else Proceed(tx.(phase := Fits(0)))
  }

  /** One attempt to insert under a generated reference. A reference that is taken
      is tried again up to the limit; any other constraint fails the booking. */
  ghost function Insert(db: Db, others: Locks, tx: Tx, reference: Reference): Outcome
    requires tx.op.Create? && tx.phase.Fits?
  {
    var Create(id, r, start, end, key) := tx.op;
    if tx.phase.attempts >= MAX_ATTEMPTS || end <= start || id in db.bookings then RolledBack
    else if id in others.bookings || reference in others.references
            || (key.Some? && key.value in others.keys) then Blocked
    else if ReferenceUsed(db.bookings, reference) then Proceed(tx.(phase := Fits(tx.phase.attempts + 1)))
    else if KeyUsed(db.bookings, key) then RolledBack
    else Proceed(tx.(phase := Finished,
                     locks := Locks({r}, {id}, {reference}, if key.Some? then {key.value} else {}),
                     bookings := map[id := Booking(r, start, end, Confirmed, reference, key)]))
  }

  /** UPDATE ... WHERE status IN ('confirmed','arrived'). */
  function Move(db: Db, others: Locks, tx: Tx): Outcome
    requires tx.op.Reschedule? && tx.phase.Fits?
  {
    var Reschedule(id, r, start, end) := tx.op;
    if id !in db.bookings || !Active(db.bookings[id].status) || end <= start then RolledBack
    else if id in others.bookings then Blocked
    else Proceed(tx.(phase := Finished,
                     locks := Locks({r}, {id}, {}, {}),
                     bookings := map[id := db.bookings[id].(resource := r, start := start, end := end)]))
  }

  function LockBooking(db: Db, others: Locks, tx: Tx): Outcome
    requires tx.op.SetStatus?
  {
    if tx.op.id !in db.bookings then RolledBack
    else if tx.op.id in others.bookings then Blocked
    else Proceed(tx.(phase := BookingLocked, locks := FREE.(bookings := {tx.op.id})))
  }

  function WriteStatus(db: Db, tx: Tx): Outcome
    requires tx.op.SetStatus?
  {
    if tx.op.id !in db.bookings then RolledBack
    else
      var current := db.bookings[tx.op.id];
      if current.status == tx.op.to then Proceed(tx.(phase := Finished))
      else if tx.op.to !in Allowed(current.status) then RolledBack
      else Proceed(tx.(phase := Finished, bookings := map[tx.op.id := current.(status := tx.op.to)]))
  }

  function WriteResource(others: Locks, tx: Tx): Outcome
    requires tx.op.PutResource?
  {
    if tx.op.capacity == 0 then RolledBack
    else if tx.op.resource in others.resources then Blocked
    else Proceed(tx.(phase := Finished, locks := FREE.(resources := {tx.op.resource}),
                     capacity := map[tx.op.resource := tx.op.capacity]))
  }

  ghost function Statement(db: Db, others: Locks, tx: Tx, reference: Reference): Outcome {
    match tx.phase
    case Begun =>
      (match tx.op
       case Create(_, _, _, _, _) => CheckKey(db, tx)
       case Reschedule(_, _, _, _) => LockResource(db, others, tx)
       case SetStatus(_, _) => LockBooking(db, others, tx)
       case PutResource(_, _) => WriteResource(others, tx))
    case KeyIsNew => if tx.op.Places() then LockResource(db, others, tx) else RolledBack
    case ResourceLocked(_) => if tx.op.Places() then Count(db, tx) else RolledBack
    case Fits(_) =>
      if tx.op.Create? then Insert(db, others, tx, reference)
      else if tx.op.Reschedule? then Move(db, others, tx)
      else RolledBack
    case BookingLocked => if tx.op.SetStatus? then WriteStatus(db, tx) else RolledBack
    case Finished => Blocked
  }

  ghost function LocksOfOthers(s: State, x: TxId): Locks {
    Locks(set y, r | y in s.txs && y != x && r in s.txs[y].locks.resources :: r,
          set y, b | y in s.txs && y != x && b in s.txs[y].locks.bookings :: b,
          set y, f | y in s.txs && y != x && f in s.txs[y].locks.references :: f,
          set y, k | y in s.txs && y != x && k in s.txs[y].locks.keys :: k)
  }

  datatype Step =
    | Begin(tx: TxId, op: Op)
    | Advance(tx: TxId, reference: Reference)
    | Commit(tx: TxId)
    | Abort(tx: TxId)

  function CommitDb(db: Db, tx: Tx): Db { Db(db.capacity + tx.capacity, db.bookings + tx.bookings) }

  ghost function Exec(s: State, step: Step): State {
    match step
    case Begin(x, op) => if x in s.txs then s else s.(txs := s.txs[x := Start(op)])
    case Advance(x, reference) =>
      if x !in s.txs then s
      else (match Statement(s.db, LocksOfOthers(s, x), s.txs[x], reference)
            case Blocked => s
            case RolledBack => s.(txs := s.txs - {x})
            case Proceed(tx) => s.(txs := s.txs[x := tx]))
    case Commit(x) =>
      if x !in s.txs || !s.txs[x].phase.Finished? then s
      else State(CommitDb(s.db, s.txs[x]), s.txs - {x})
    case Abort(x) => s.(txs := s.txs - {x})
  }

  /** Others make a transaction wait and do nothing else to it: it is refused, and goes on,
      exactly as it would be alone, where it never waits. */
  lemma OthersOnlyDelay(s: State, x: TxId, reference: Reference)
    requires x in s.txs
    ensures var alone := State(s.db, map[x := s.txs[x]]);
            var next, t := Exec(alone, Advance(x, reference)), Exec(s, Advance(x, reference));
            && (t == s || t == State(s.db, (s.txs - {x}) + next.txs))
            && (next == alone <==> s.txs[x].phase.Finished?)
  {
    hide Overlapping, KeyUsed, ReferenceUsed, Allowed;
    assert LocksOfOthers(State(s.db, map[x := s.txs[x]]), x) == FREE;
  }

  ghost function Run(s: State, steps: seq<Step>): State
    decreases |steps|
  {
    if steps == [] then s else Run(Exec(s, steps[0]), steps[1..])
  }

  /** The step commits a smaller capacity than the resource has. */
  ghost predicate Lowers(s: State, step: Step) {
    && step.Commit? && step.tx in s.txs && s.txs[step.tx].phase.Finished?
    && exists r :: r in s.txs[step.tx].capacity && r in s.db.capacity && s.txs[step.tx].capacity[r] < s.db.capacity[r]
  }

  ghost predicate NeverLowers(s: State, steps: seq<Step>)
    decreases |steps|
  {
    steps == [] || (!Lowers(s, steps[0]) && NeverLowers(Exec(s, steps[0]), steps[1..]))
  }

  const EMPTY := State(Db(map[], map[]), map[])

  // ------------------------------------------------------------------- invariant

  /** The promise: at no instant is a resource used by more than it holds. */
  ghost predicate CapacityOk(db: Db) {
    forall r, t :: r in db.capacity ==> |Covering(db.bookings, r, t)| <= db.capacity[r]
  }

  ghost predicate RowsOk(db: Db) {
    forall b :: b in db.bookings ==> db.bookings[b].resource in db.capacity && db.bookings[b].start < db.bookings[b].end
  }

  ghost predicate ReferencesUnique(bs: map<BookingId, Booking>) {
    forall a, b :: a in bs && b in bs && bs[a].reference == bs[b].reference ==> a == b
  }

  ghost predicate KeysUnique(bs: map<BookingId, Booking>) {
    forall a, b :: a in bs && b in bs && bs[a].key.Some? && bs[a].key == bs[b].key ==> a == b
  }

  ghost predicate TablesOk(db: Db) {
    RowsOk(db) && ReferencesUnique(db.bookings) && KeysUnique(db.bookings)
  }

  ghost predicate DbOk(db: Db) { TablesOk(db) && CapacityOk(db) }

  ghost predicate SamePlace(a: Booking, b: Booking) {
    a.resource == b.resource && a.start == b.start && a.end == b.end
  }

  /** A pending booking puts load on a resource only under that resource's lock,
      or where it already was. */
  ghost predicate NoNewLoad(db: Db, tx: Tx) {
    forall b :: b in tx.bookings && Active(tx.bookings[b].status) ==>
      || tx.bookings[b].resource in tx.locks.resources
      || (b in db.bookings && Active(db.bookings[b].status) && SamePlace(db.bookings[b], tx.bookings[b]))
  }

  /** Pending rows are locked, well formed, keep what identifies a booking, and
      never make an inactive booking active. */
  ghost predicate PendingOk(db: Db, tx: Tx) {
    && tx.bookings.Keys <= tx.locks.bookings
    && tx.capacity.Keys <= tx.locks.resources
    && (forall a, b :: a in tx.bookings && b in tx.bookings ==> a == b)
    && (forall b :: b in tx.bookings ==> tx.bookings[b].start < tx.bookings[b].end
                                         && tx.bookings[b].resource in db.capacity)
    && (forall b :: b in tx.bookings && b in db.bookings ==>
          && tx.bookings[b].reference == db.bookings[b].reference
          && tx.bookings[b].key == db.bookings[b].key
          && Active(db.bookings[b].status)
          && (tx.bookings[b].status == db.bookings[b].status || tx.bookings[b].status in Allowed(db.bookings[b].status)))
    && (forall b :: b in tx.bookings && b !in db.bookings ==>
          && tx.bookings[b].status == Confirmed
          && tx.bookings[b].reference in tx.locks.references
          && !ReferenceUsed(db.bookings, tx.bookings[b].reference)
          && (tx.bookings[b].key.Some? ==> tx.bookings[b].key.value in tx.locks.keys)
          && !KeyUsed(db.bookings, tx.bookings[b].key))
  }

  /** The check has been passed and, the resource being locked, still holds. */
  ghost predicate Room(db: Db, op: Op)
    requires op.Places()
  {
    && op.resource in db.capacity
    && |Overlapping(db.bookings, op.resource, op.start, op.end, op.id)| < db.capacity[op.resource]
  }

  ghost predicate PhaseOk(db: Db, tx: Tx) {
    match tx.phase
    case Begun => tx == Start(tx.op)
    case KeyIsNew => tx == Start(tx.op).(phase := KeyIsNew) && tx.op.Create?
    case ResourceLocked(capacity) =>
      && tx.op.Places() && tx.bookings == map[] && tx.capacity == map[]
      && tx.locks == FREE.(resources := {tx.op.resource})
      && tx.op.resource in db.capacity && capacity == db.capacity[tx.op.resource]
    case Fits(attempts) =>
      && tx.op.Places() && tx.bookings == map[] && tx.capacity == map[] && attempts <= 5
      && tx.locks == FREE.(resources := {tx.op.resource})
      && Room(db, tx.op)
    case BookingLocked =>
      && tx.op.SetStatus? && tx.bookings == map[] && tx.capacity == map[]
      && tx.locks == FREE.(bookings := {tx.op.id})
    case Finished =>
      && (tx.op.Places() && tx.bookings != map[] ==>
            && tx.bookings.Keys == {tx.op.id} && tx.locks.resources == {tx.op.resource} && tx.capacity == map[]
            && tx.bookings[tx.op.id].resource == tx.op.resource
            && tx.bookings[tx.op.id].start == tx.op.start && tx.bookings[tx.op.id].end == tx.op.end
            && Room(db, tx.op))
      && (tx.op.PutResource? ==> tx.bookings == map[] && forall r :: r in tx.capacity ==> tx.capacity[r] > 0)
      && (tx.op.SetStatus? ==> tx.capacity == map[] && tx.locks.resources == {})
      && (tx.op.Places() && tx.bookings == map[] ==> tx.capacity == map[])
  }

  ghost predicate TxOk(db: Db, tx: Tx) { PendingOk(db, tx) && NoNewLoad(db, tx) && PhaseOk(db, tx) }

  ghost predicate Disjoint(a: Locks, b: Locks) {
    a.resources !! b.resources && a.bookings !! b.bookings && a.references !! b.references && a.keys !! b.keys
  }

  ghost predicate Inv(s: State) {
    && TablesOk(s.db)
    && (forall x :: x in s.txs ==> TxOk(s.db, s.txs[x]))
    && (forall x, y :: x in s.txs && y in s.txs && x != y ==> Disjoint(s.txs[x].locks, s.txs[y].locks))
  }

  // ---------------------------------------------------- every statement keeps it

  lemma InsertOk(db: Db, others: Locks, tx: Tx, reference: Reference)
    requires TablesOk(db) && TxOk(db, tx) && tx.op.Create? && tx.phase.Fits?
    requires Insert(db, others, tx, reference).Proceed?
    ensures TxOk(db, Insert(db, others, tx, reference).tx)
  {
    hide Overlapping, ReferencesUnique, KeysUnique;
  }

  lemma StatementOk(db: Db, others: Locks, tx: Tx, reference: Reference)
    requires TablesOk(db) && TxOk(db, tx)
    requires Statement(db, others, tx, reference).Proceed?
    ensures TxOk(db, Statement(db, others, tx, reference).tx)
  {
    hide Overlapping, ReferencesUnique, KeysUnique;
    if tx.op.Create? && tx.phase.Fits? {
      InsertOk(db, others, tx, reference);
    } else {
      hide Insert, ReferenceUsed;
    }
  }

  lemma StatementLocksFree(db: Db, others: Locks, tx: Tx, reference: Reference)
    requires PhaseOk(db, tx) && Disjoint(tx.locks, others)
    requires Statement(db, others, tx, reference).Proceed?
    ensures Disjoint(Statement(db, others, tx, reference).tx.locks, others)
  {
    hide Room, ReferenceUsed, KeyUsed;
  }

  // ------------------------------------------------------- every commit keeps it

  /** Counting overlaps bounds what is in use at any instant the booking covers:
      whatever else covers that instant overlaps the booking. */
  lemma OverlapBoundsDepth(bs: map<BookingId, Booking>, id: BookingId, b: Booking, t: Instant)
    requires b.start <= t < b.end
    ensures |Covering(bs[id := b], b.resource, t)| <= |Overlapping(bs, b.resource, b.start, b.end, id)| + 1
  {
    var covering := Covering(bs[id := b], b.resource, t);
    SubsetCard(covering - {id}, Overlapping(bs, b.resource, b.start, b.end, id));
    SubsetCard(covering, (covering - {id}) + {id});
  }

  /** What a resource holds; nothing before there is such a resource. */
  function CapacityOf(db: Db, r: ResourceId): nat { if r in db.capacity then db.capacity[r] else 0 }

  lemma UnknownHoldsNothing(db: Db, r: ResourceId, t: Instant)
    requires RowsOk(db) && r !in db.capacity
    ensures Covering(db.bookings, r, t) == {}
  {
  }

  lemma CommitWithin(db: Db, tx: Tx, r: ResourceId, t: Instant, most: nat)
    requires RowsOk(db) && TxOk(db, tx) && tx.phase.Finished?
    requires CapacityOf(db, r) <= most && |Covering(db.bookings, r, t)| <= most
    ensures |Covering(CommitDb(db, tx).bookings, r, t)| <= most
  {
    var after := CommitDb(db, tx);
    if r !in tx.locks.resources {
      SubsetCard(Covering(after.bookings, r, t), Covering(db.bookings, r, t));
    } else if tx.bookings == map[] {
      assert after.bookings == db.bookings;
    } else {
      var id := tx.op.id;
      var b := tx.bookings[id];
      assert after.bookings == db.bookings[id := b];
      if b.start <= t < b.end {
        OverlapBoundsDepth(db.bookings, id, b, t);
      } else {
        SubsetCard(Covering(after.bookings, r, t), Covering(db.bookings, r, t));
      }
    }
  }

  lemma CommitTablesOk(db: Db, tx: Tx)
    requires TablesOk(db) && PendingOk(db, tx)
    ensures TablesOk(CommitDb(db, tx))
  {
  }

  lemma CommitKeepsRoom(db: Db, x: Tx, op: Op)
    requires NoNewLoad(db, x) && x.capacity.Keys <= x.locks.resources
    requires op.Places() && Room(db, op) && op.resource !in x.locks.resources
    ensures Room(CommitDb(db, x), op)
  {
    SubsetCard(Overlapping(CommitDb(db, x).bookings, op.resource, op.start, op.end, op.id),
               Overlapping(db.bookings, op.resource, op.start, op.end, op.id));
  }

  lemma CommitKeepsPending(db: Db, x: Tx, y: Tx)
    requires PendingOk(db, x) && PendingOk(db, y) && x.phase.Finished? && Disjoint(x.locks, y.locks)
    ensures PendingOk(CommitDb(db, x), y)
  {
  }

  lemma CommitKeepsLoad(db: Db, x: Tx, y: Tx)
    requires PendingOk(db, x) && PendingOk(db, y) && NoNewLoad(db, y) && Disjoint(x.locks, y.locks)
    ensures NoNewLoad(CommitDb(db, x), y)
  {
  }

  lemma CommitKeepsPhase(db: Db, x: Tx, y: Tx)
    requires PendingOk(db, x) && NoNewLoad(db, x) && PhaseOk(db, y) && Disjoint(x.locks, y.locks)
    ensures PhaseOk(CommitDb(db, x), y)
  {
    if y.op.Places() && Room(db, y.op) && y.op.resource !in x.locks.resources {
      CommitKeepsRoom(db, x, y.op);
    }
    hide Overlapping, Room;
  }

  lemma CommitKeepsTx(db: Db, x: Tx, y: Tx)
    requires TxOk(db, x) && TxOk(db, y) && x.phase.Finished? && Disjoint(x.locks, y.locks)
    ensures TxOk(CommitDb(db, x), y)
  {
    hide PendingOk, NoNewLoad, PhaseOk, Disjoint, CommitDb;
    CommitKeepsPending(db, x, y);
    CommitKeepsLoad(db, x, y);
    CommitKeepsPhase(db, x, y);
  }

  lemma AdvanceKeepsInv(s: State, x: TxId, reference: Reference)
    requires Inv(s) && x in s.txs
    ensures Inv(Exec(s, Advance(x, reference)))
  {
    hide TablesOk, TxOk, Statement;
    var others := LocksOfOthers(s, x);
    assert Disjoint(s.txs[x].locks, others);
    if Statement(s.db, others, s.txs[x], reference).Proceed? {
      StatementOk(s.db, others, s.txs[x], reference);
      TxOkPhase(s.db, s.txs[x]);
      StatementLocksFree(s.db, others, s.txs[x], reference);
    }
  }

  lemma TxOkPhase(db: Db, tx: Tx)
    requires TxOk(db, tx)
    ensures PhaseOk(db, tx)
  {
  }

  lemma CommitKeepsInv(s: State, x: TxId)
    requires Inv(s) && x in s.txs && s.txs[x].phase.Finished?
    ensures Inv(Exec(s, Commit(x)))
  {
    assert TxOk(s.db, s.txs[x]);
    CommitTablesOk(s.db, s.txs[x]);
    hide TablesOk, TxOk;
    forall y | y in s.txs && y != x ensures TxOk(CommitDb(s.db, s.txs[x]), s.txs[y]) {
      CommitKeepsTx(s.db, s.txs[x], s.txs[y]);
    }
  }

  lemma InvStep(s: State, step: Step)
    requires Inv(s)
    ensures Inv(Exec(s, step))
  {
    hide TablesOk, Statement, LocksOfOthers, PendingOk, NoNewLoad;
    match step
    case Begin(x, op) => StartOk(s.db, op);
    case Advance(x, reference) =>
      if x in s.txs { AdvanceKeepsInv(s, x, reference); }
    case Commit(x) =>
      if x in s.txs && s.txs[x].phase.Finished? { CommitKeepsInv(s, x); }
    case Abort(x) =>
  }

  lemma StartOk(db: Db, op: Op)
    ensures TxOk(db, Start(op))
  {
  }

  // ------------------------------------------------------------------- theorems

  /** Every run, a lowered capacity or not, keeps what a booking under way relies on:
      the room it counted while it holds the resource. */
  lemma {:induction false} RunKeepsInv(s: State, steps: seq<Step>)
    requires Inv(s)
    ensures Inv(Run(s, steps))
    decreases |steps|
  {
    hide Inv, Exec;
    if steps != [] {
      InvStep(s, steps[0]);
      RunKeepsInv(Exec(s, steps[0]), steps[1..]);
    }
  }

  /** Over every run a booking under way is tried under no more than five references. */
  lemma FiveReferences(steps: seq<Step>, x: TxId)
    requires x in Run(EMPTY, steps).txs && Run(EMPTY, steps).txs[x].phase.Fits?
    ensures Run(EMPTY, steps).txs[x].phase.attempts <= 5
  {
    hide Run;
    assert Inv(EMPTY);
    RunKeepsInv(EMPTY, steps);
    assert TxOk(Run(EMPTY, steps).db, Run(EMPTY, steps).txs[x]);
  }

  lemma StepWithin(s: State, step: Step, r: ResourceId, t: Instant, most: nat)
    requires Inv(s) && CapacityOf(s.db, r) <= most && |Covering(s.db.bookings, r, t)| <= most
    ensures |Covering(Exec(s, step).db.bookings, r, t)| <= most
  {
    hide Covering, Statement, LocksOfOthers;
    if step.Commit? && step.tx in s.txs && s.txs[step.tx].phase.Finished? {
      CommitWithin(s.db, s.txs[step.tx], r, t, most);
    }
  }

  lemma {:induction false} WithinAnEarlierCapacity(s: State, steps: seq<Step>, r: ResourceId, t: Instant, was: nat)
    requires Inv(s) && |Covering(s.db.bookings, r, t)| <= was
    ensures |Covering(Run(s, steps).db.bookings, r, t)| <= was
            || exists k :: 0 <= k <= |steps| && |Covering(Run(s, steps).db.bookings, r, t)| <= CapacityOf(Run(s, steps[..k]).db, r)
    decreases |steps|
  {
    if steps != [] {
      hide Inv, Exec, Covering;
      var next, now := Exec(s, steps[0]), CapacityOf(s.db, r);
      var most := if was < now then now else was;
      InvStep(s, steps[0]);
      StepWithin(s, steps[0], r, t, most);
      WithinAnEarlierCapacity(next, steps[1..], r, t, most);
      assert Run(s, steps[..0]) == s;
      if k :| 0 <= k <= |steps| - 1 && |Covering(Run(next, steps[1..]).db.bookings, r, t)| <= CapacityOf(Run(next, steps[1..][..k]).db, r) {
        assert steps[..k + 1][1..] == steps[1..][..k];
        assert Run(s, steps[..k + 1]) == Run(next, steps[1..][..k]);
      }
    }
  }

  /** Whatever creates, moves, status changes and changes of capacity interleave, a
      resource never holds more bookings at an instant than it has had room for at some
      time of the run: lowering a capacity turns nobody out, and lets nobody in. */
  lemma NeverOverWhatItHeld(steps: seq<Step>, r: ResourceId, t: Instant)
    ensures exists k :: 0 <= k <= |steps| &&
              |Covering(Run(EMPTY, steps).db.bookings, r, t)| <= CapacityOf(Run(EMPTY, steps[..k]).db, r)
  {
    hide Run;
    assert Inv(EMPTY);
    WithinAnEarlierCapacity(EMPTY, steps, r, t, 0);
    assert |Covering(Run(EMPTY, steps).db.bookings, r, t)| <= 0 ==>
        |Covering(Run(EMPTY, steps).db.bookings, r, t)| <= CapacityOf(Run(EMPTY, steps[..0]).db, r);
  }

  /** The step gives the resource less room than bookings use at the instant. */
  ghost predicate PutsBelow(s: State, step: Step, r: ResourceId, t: Instant) {
    && step.Commit? && step.tx in s.txs && s.txs[step.tx].phase.Finished?
    && r in s.txs[step.tx].capacity && s.txs[step.tx].capacity[r] < |Covering(s.db.bookings, r, t)|
  }

  lemma CapacityIsPut(db: Db, tx: Tx)
    requires TxOk(db, tx) && tx.phase.Finished? && tx.capacity != map[]
    ensures CommitDb(db, tx).bookings == db.bookings
  {
    hide PendingOk, NoNewLoad, Room;
    assert tx.bookings == map[];
  }

  /** Of all the steps there are, the one that breaks the promise is the commit of a
      capacity that some instant is already fuller than. */
  lemma LoweringBreaksExactlyWhenFuller(s: State, step: Step)
    requires Inv(s) && CapacityOk(s.db)
    ensures CapacityOk(Exec(s, step).db) <==> forall r, t :: !PutsBelow(s, step, r, t)
  {
    hide Covering, Statement, LocksOfOthers, PhaseOk, PendingOk, NoNewLoad, TablesOk;
    var after := Exec(s, step).db;
    if CapacityOk(after) {
      forall r, t ensures !PutsBelow(s, step, r, t) {
        if step.Commit? && step.tx in s.txs && r in s.txs[step.tx].capacity && s.txs[step.tx].phase.Finished? {
          CapacityIsPut(s.db, s.txs[step.tx]);
          assert |Covering(after.bookings, r, t)| <= after.capacity[r];
        }
      }
    }
    if forall r, t :: !PutsBelow(s, step, r, t) {
      forall r, t | r in after.capacity ensures |Covering(after.bookings, r, t)| <= after.capacity[r] {
        StepPromises(s, step, r, t);
      }
    }
  }

  lemma StepPromises(s: State, step: Step, r: ResourceId, t: Instant)
    requires Inv(s) && CapacityOk(s.db) && !PutsBelow(s, step, r, t) && r in Exec(s, step).db.capacity
    ensures |Covering(Exec(s, step).db.bookings, r, t)| <= Exec(s, step).db.capacity[r]
  {
    hide Covering, Statement, LocksOfOthers, PhaseOk, PendingOk, NoNewLoad;
    if step.Commit? && step.tx in s.txs && s.txs[step.tx].phase.Finished? && r in s.txs[step.tx].capacity {
      CapacityIsPut(s.db, s.txs[step.tx]);
    } else {
      assert r in s.db.capacity && Exec(s, step).db.capacity[r] == s.db.capacity[r];
      assert |Covering(s.db.bookings, r, t)| <= s.db.capacity[r];
      StepWithin(s, step, r, t, s.db.capacity[r]);
    }
  }

  lemma KeepsUnlessLowered(s: State, step: Step)
    requires Inv(s) && CapacityOk(s.db) && !Lowers(s, step)
    ensures CapacityOk(Exec(s, step).db)
  {
    hide Exec, Covering;
    LoweringBreaksExactlyWhenFuller(s, step);
    forall r, t ensures !PutsBelow(s, step, r, t) {
      if r !in s.db.capacity {
        UnknownHoldsNothing(s.db, r, t);
      }
    }
  }

  lemma {:induction false} RunKeepsCapacity(s: State, steps: seq<Step>)
    requires Inv(s) && CapacityOk(s.db) && NeverLowers(s, steps)
    ensures Inv(Run(s, steps)) && CapacityOk(Run(s, steps).db)
    decreases |steps|
  {
    hide Inv, Exec, Lowers, CapacityOk;
    if steps != [] {
      InvStep(s, steps[0]);
      KeepsUnlessLowered(s, steps[0]);
      RunKeepsCapacity(Exec(s, steps[0]), steps[1..]);
    }
  }

  /** No double booking: whatever creates, moves and status changes interleave,
      a resource never holds more bookings at an instant than its capacity, each
      reference names one booking, and each idempotency key made one. */
  lemma NoOverbooking(steps: seq<Step>, r: ResourceId, t: Instant)
    requires NeverLowers(EMPTY, steps)
    ensures var db := Run(EMPTY, steps).db;
            && (r in db.capacity ==> |Covering(db.bookings, r, t)| <= db.capacity[r])
            && ReferencesUnique(db.bookings) && KeysUnique(db.bookings)
  {
    assert Inv(EMPTY);
    RunKeepsCapacity(EMPTY, steps);
  }

  /** On a resource that holds one, the active bookings are pairwise disjoint. */
  lemma OneAtATime(db: Db, r: ResourceId, a: BookingId, b: BookingId)
    requires DbOk(db) && r in db.capacity && db.capacity[r] == 1
    requires a in db.bookings && b in db.bookings && a != b
    requires db.bookings[a].resource == r && Active(db.bookings[a].status)
    requires db.bookings[b].resource == r && Active(db.bookings[b].status)
    ensures db.bookings[a].end <= db.bookings[b].start || db.bookings[b].end <= db.bookings[a].start
  {
    var x, y := db.bookings[a], db.bookings[b];
    if x.start < y.end && y.start < x.end {
      var t := if x.start < y.start then y.start else x.start;
      SubsetCard({a, b}, Covering(db.bookings, r, t));
    }
  }

  lemma {:induction false} RunOn(s: State, first: seq<Step>, next: seq<Step>)
    ensures Run(s, first + next) == Run(Run(s, first), next)
    decreases |first|
  {
    hide Exec;
    if first == [] {
      assert first + next == next;
    } else {
      assert (first + next)[1..] == first[1..] + next;
      RunOn(Exec(s, first[0]), first[1..], next);
    }
  }

  lemma RunThree(s: State, a: Step, b: Step, c: Step)
    ensures Run(s, [a, b, c]) == Exec(Exec(Exec(s, a), b), c)
  {
    hide Exec;
    assert [a, b, c][1..] == [b, c] && [b, c][1..] == [c] && [c][1..] == [];
    var t := Exec(Exec(s, a), b);
    assert Run(t, [c]) == Exec(t, c);
    assert Run(Exec(s, a), [b, c]) == Exec(t, c);
  }

  /** The resource written by a transaction on its own. */
  function Put(x: TxId, r: ResourceId, capacity: nat): seq<Step> {
    [Begin(x, PutResource(r, capacity)), Advance(x, 0), Commit(x)]
  }

  /** The booking made by a transaction on its own. */
  function Book(x: TxId, op: Op): seq<Step> {
    [Begin(x, op), Advance(x, 0), Advance(x, 0)] + [Advance(x, 0), Advance(x, x), Commit(x)]
  }

  lemma AloneIsFree(db: Db, x: TxId, tx: Tx)
    ensures LocksOfOthers(State(db, map[x := tx]), x) == FREE
  {
  }

  lemma PutAlone(db: Db, x: TxId, r: ResourceId, capacity: nat)
    requires capacity > 0
    ensures Run(State(db, map[]), Put(x, r, capacity)) == State(db.(capacity := db.capacity[r := capacity]), map[])
  {
    hide LocksOfOthers, Run;
    var op := PutResource(r, capacity);
    RunThree(State(db, map[]), Begin(x, op), Advance(x, 0), Commit(x));
    AloneIsFree(db, x, Start(op));
    var done := WriteResource(FREE, Start(op)).tx;
    assert Exec(State(db, map[x := Start(op)]), Advance(x, 0)) == State(db, map[x := done]);
    assert CommitDb(db, done) == db.(capacity := db.capacity[r := capacity]);
  }

  function Locking(db: Db, op: Op): Tx
    requires op.Create?
  {
    Start(op).(phase := ResourceLocked(CapacityOf(db, op.resource)), locks := FREE.(resources := {op.resource}))
  }

  function Inserted(x: TxId, op: Op): Tx
    requires op.Create?
  {
    Tx(op, Finished, Locks({op.resource}, {op.id}, {x}, {}),
       map[op.id := Booking(op.resource, op.start, op.end, Confirmed, x, None)], map[])
  }

  lemma LockAlone(db: Db, x: TxId, op: Op)
    requires op.Create? && op.key == None && op.resource in db.capacity
    ensures Run(State(db, map[]), [Begin(x, op), Advance(x, 0), Advance(x, 0)]) == State(db, map[x := Locking(db, op)])
  {
    hide LocksOfOthers, Run;
    var keyed := Start(op).(phase := KeyIsNew);
    RunThree(State(db, map[]), Begin(x, op), Advance(x, 0), Advance(x, 0));
    Advances(db, x, 0, Start(op), keyed);
    Advances(db, x, 0, keyed, Locking(db, op));
  }

  lemma InsertAlone(db: Db, x: TxId, op: Op)
    requires op.Create? && op.key == None && op.start < op.end && op.id !in db.bookings
    requires Room(db, op) && !ReferenceUsed(db.bookings, x)
    ensures Run(State(db, map[x := Locking(db, op)]), [Advance(x, 0), Advance(x, x), Commit(x)]) ==
            State(CommitDb(db, Inserted(x, op)), map[])
  {
    hide LocksOfOthers, Run, CommitDb;
    var fits := Locking(db, op).(phase := Fits(0));
    RunThree(State(db, map[x := Locking(db, op)]), Advance(x, 0), Advance(x, x), Commit(x));
    assert Count(db, Locking(db, op)) == Proceed(fits);
    hide Room, ReferenceUsed;
    Advances(db, x, 0, Locking(db, op), fits);
    Advances(db, x, x, fits, Inserted(x, op));
  }

  lemma BookAlone(db: Db, x: TxId, op: Op)
    requires op.Create? && op.key == None && op.start < op.end && op.id !in db.bookings
    requires Room(db, op) && !ReferenceUsed(db.bookings, x)
    ensures Run(State(db, map[]), Book(x, op)) ==
            State(db.(bookings := db.bookings[op.id := Booking(op.resource, op.start, op.end, Confirmed, x, None)]), map[])
  {
    hide Run, Exec;
    RunOn(State(db, map[]), [Begin(x, op), Advance(x, 0), Advance(x, 0)], [Advance(x, 0), Advance(x, x), Commit(x)]);
    LockAlone(db, x, op);
    InsertAlone(db, x, op);
    assert CommitDb(db, Inserted(x, op)).bookings == db.bookings[op.id := Inserted(x, op).bookings[op.id]];
  }

  lemma Advances(db: Db, x: TxId, reference: Reference, tx: Tx, next: Tx)
    requires Statement(db, FREE, tx, reference) == Proceed(next)
    ensures Exec(State(db, map[x := tx]), Advance(x, reference)) == State(db, map[x := next])
  {
    hide LocksOfOthers, Statement;
    AloneIsFree(db, x, tx);
  }

  /** Room for two, both taken, and then room for one. */
  const LOWERED: seq<Step> :=
    Put(0, 1, 2) + Book(1, Create(1, 1, 0, 10, None)) + Book(2, Create(2, 1, 0, 10, None)) + Put(3, 1, 1)

  /** So a run that lowers a capacity can leave a resource with more than it holds. */
  lemma LoweringCanBreakIt()
    ensures var db := Run(EMPTY, LOWERED).db;
            db.capacity == map[1 := 1] && |Covering(db.bookings, 1, 0)| == 2 && !CapacityOk(db)
  {
    hide Run, Put, Book;
    var op1, op2 := Create(1, 1, 0, 10, None), Create(2, 1, 0, 10, None);
    var b1, b2 := Booking(1, 0, 10, Confirmed, 1, None), Booking(1, 0, 10, Confirmed, 2, None);
    RunOn(EMPTY, Put(0, 1, 2) + Book(1, op1) + Book(2, op2), Put(3, 1, 1));
    RunOn(EMPTY, Put(0, 1, 2) + Book(1, op1), Book(2, op2));
    RunOn(EMPTY, Put(0, 1, 2), Book(1, op1));
    PutAlone(Db(map[], map[]), 0, 1, 2);
    var db0 := Db(map[1 := 2], map[]);
    assert Overlapping(db0.bookings, 1, 0, 10, 1) == {};
    BookAlone(db0, 1, op1);
    var db1 := Db(map[1 := 2], map[1 := b1]);
    assert Overlapping(db1.bookings, 1, 0, 10, 2) == {1};
    BookAlone(db1, 2, op2);
    var db2 := Db(map[1 := 2], map[1 := b1, 2 := b2]);
    PutAlone(db2, 3, 1, 1);
    assert db2.capacity[1 := 1] == map[1 := 1];
    assert Covering(db2.bookings, 1, 0) == {1, 2};
  }

  /** No instant sees more than n active bookings on the resource. */
  ghost predicate HoldsAtMost(bs: map<BookingId, Booking>, r: ResourceId, n: nat) {
    forall t :: |Covering(bs, r, t)| <= n
  }

  /** An active booking to be written, new or in place of what it was, on a resource for c. */
  ghost predicate Asks(db: Db, id: BookingId, b: Booking, c: nat) {
    && DbOk(db) && b.resource in db.capacity && db.capacity[b.resource] == c
    && b.start < b.end && Active(b.status)
  }

  /** The check admits the booking exactly when no instant then sees more than c. */
  ghost predicate Exact(db: Db, id: BookingId, b: Booking, c: nat) {
    |Overlapping(db.bookings, b.resource, b.start, b.end, id)| < c <==> HoldsAtMost(db.bookings[id := b], b.resource, c)
  }

  /** For a resource that holds one, the check is exact: it refuses a booking if
      and only if some instant would be double booked. */
  lemma CheckExactForOne(db: Db, id: BookingId, b: Booking)
    requires Asks(db, id, b, 1)
    ensures Exact(db, id, b, 1)
  {
    var after := db.bookings[id := b];
    var taken := Overlapping(db.bookings, b.resource, b.start, b.end, id);
    if taken == {} {
      forall t ensures |Covering(after, b.resource, t)| <= 1 {
        if b.start <= t < b.end {
          OverlapBoundsDepth(db.bookings, id, b, t);
        } else {
          SubsetCard(Covering(after, b.resource, t), Covering(db.bookings, b.resource, t));
        }
      }
    } else {
      var other :| other in taken;
      var o := db.bookings[other];
      var t := if o.start < b.start then b.start else o.start;
      SubsetCard({id, other}, Covering(after, b.resource, t));
      assert |Covering(after, b.resource, t)| >= 2;
    }
  }

  /** The first n numbers. */
  function Upto(n: nat): (s: set<nat>)
    ensures |s| == n && forall k: nat :: k in s <==> k < n
  {
    if n == 0 then {} else Upto(n - 1) + {n - 1}
  }

  /** Numbers 0 and 1 follow each other; any other is over the time of both. */
  function Nth(k: nat): Booking {
    Booking(0, if k == 1 then 1 else 0, if k == 0 then 1 else 2, Confirmed, k, None)
  }

  /** The first c of them. */
  function Spread(c: nat): map<BookingId, Booking> { map k | k in Upto(c) :: Nth(k) }

  const SPANNING := Booking(0, 0, 2, Confirmed, 0, None)

  lemma SpreadHolds(c: nat, t: Instant)
    requires c >= 2
    ensures |Covering(Spread(c)[c := SPANNING], 0, t)| <= c && |Covering(Spread(c), 0, t)| <= c
  {
    var most := Upto(c + 1) - {if t < 1 then 1 else 0};
    SubsetCard(Covering(Spread(c)[c := SPANNING], 0, t), most);
    SubsetCard(Covering(Spread(c), 0, t), most);
  }

  /** For any more it is conservative: in such a diary a booking over the time of both
      overlaps as many as the resource holds, though with it no instant holds more. */
  lemma CheckIsConservative(c: nat)
    requires c >= 2
    ensures var db := Db(map[0 := c], Spread(c));
            && Asks(db, c, SPANNING, c)
            && |Overlapping(db.bookings, 0, SPANNING.start, SPANNING.end, c)| == c
            && HoldsAtMost(db.bookings[c := SPANNING], 0, c)
  {
    hide Covering, Upto;
    assert Overlapping(Spread(c), 0, 0, 2, c) == Upto(c);
    forall t ensures |Covering(Spread(c), 0, t)| <= c {
      SpreadHolds(c, t);
    }
    var after := Spread(c)[c := SPANNING];
    forall t ensures |Covering(after, 0, t)| <= c {
      SpreadHolds(c, t);
    }
  }

  lemma CheckExactForNone(db: Db, id: BookingId, b: Booking)
    requires Asks(db, id, b, 0)
    ensures Exact(db, id, b, 0)
  {
    assert id in Covering(db.bookings[id := b], b.resource, b.start);
    assert |Covering(db.bookings[id := b], b.resource, b.start)| > 0;
  }

  /** So the check admits exactly what keeps the promise, in every diary and for every
      booking, on the resources that hold at most one, and on no others. */
  lemma CheckIsExactIff(c: nat)
    ensures (forall db, id, b :: Asks(db, id, b, c) ==> Exact(db, id, b, c)) <==> c <= 1
  {
    hide Asks, Exact;
    if c <= 1 {
      forall db, id, b | Asks(db, id, b, c) ensures Exact(db, id, b, c) {
        if c == 1 {
          CheckExactForOne(db, id, b);
        } else {
          CheckExactForNone(db, id, b);
        }
      }
    } else {
      NotExact(c);
    }
  }

  lemma NotExact(c: nat)
    requires c >= 2
    ensures var db := Db(map[0 := c], Spread(c)); Asks(db, c, SPANNING, c) && !Exact(db, c, SPANNING, c)
  {
    CheckIsConservative(c);
    hide HoldsAtMost, Overlapping, Spread, DbOk;
  }

  // ---------------------------------------------------------------------- waiting

  ghost predicate Waits(s: State, x: TxId, others: Locks)
    requires x in s.txs
  {
    !s.txs[x].phase.Finished? && exists reference :: Statement(s.db, others, s.txs[x], reference) == Blocked
  }

  ghost predicate CanMove(s: State, x: TxId) { x in s.txs && !Waits(s, x, LocksOfOthers(s, x)) }

  /** The next statement of x needs a lock that y holds. */
  ghost predicate WaitsFor(s: State, x: TxId, y: TxId) {
    x in s.txs && y in s.txs && x != y && Waits(s, x, s.txs[y].locks)
  }

  /** How far along a transaction is, by the locks it may hold. */
  function Rank(p: Phase): nat {
    match p
    case Begun | KeyIsNew => 0
    case ResourceLocked(_) => 1
    case Fits(_) => 2
    case BookingLocked => 3
    case Finished => 4
  }

  lemma WaitsUpward(s: State, x: TxId, y: TxId)
    requires Inv(s) && WaitsFor(s, x, y)
    ensures Rank(s.txs[x].phase) < Rank(s.txs[y].phase)
  {
    hide TablesOk, PendingOk, NoNewLoad, Room, Disjoint, ReferenceUsed, KeyUsed;
    assert PhaseOk(s.db, s.txs[x]) && PhaseOk(s.db, s.txs[y]);
  }

  lemma SomebodyHolds(s: State, x: TxId)
    requires x in s.txs && Waits(s, x, LocksOfOthers(s, x))
    ensures exists y :: WaitsFor(s, x, y)
  {
    hide ReferenceUsed, KeyUsed, Overlapping;
    var others, tx := LocksOfOthers(s, x), s.txs[x];
    var reference :| Statement(s.db, others, tx, reference) == Blocked;
    var y :| && y in s.txs && y != x
             && ((tx.op.Places() && tx.op.resource in s.txs[y].locks.resources)
                 || (tx.op.PutResource? && tx.op.resource in s.txs[y].locks.resources)
                 || (!tx.op.PutResource? && tx.op.id in s.txs[y].locks.bookings)
                 || reference in s.txs[y].locks.references
                 || (tx.op.Create? && tx.op.key.Some? && tx.op.key.value in s.txs[y].locks.keys))
             && Statement(s.db, s.txs[y].locks, tx, reference) == Blocked;
    assert WaitsFor(s, x, y);
  }

  /** Each of them waits for the next. */
  ghost predicate Queue(s: State, c: seq<TxId>) {
    c != [] && (forall k :: 0 <= k < |c| ==> c[k] in s.txs) && forall k :: 0 < k < |c| ==> WaitsFor(s, c[k - 1], c[k])
  }

  lemma {:induction false} RanksRise(s: State, c: seq<TxId>)
    requires Inv(s) && Queue(s, c)
    ensures Rank(s.txs[c[0]].phase) + |c| <= Rank(s.txs[c[|c| - 1]].phase) + 1
    decreases |c|
  {
    hide Inv, WaitsFor, Rank;
    if |c| > 1 {
      RanksRise(s, c[..|c| - 1]);
      WaitsUpward(s, c[|c| - 2], c[|c| - 1]);
    }
  }

  /** Locks are taken in an order: waiting never closes a circle. */
  lemma NoCircle(s: State, c: seq<TxId>)
    requires Inv(s) && Queue(s, c)
    ensures !WaitsFor(s, c[|c| - 1], c[0])
  {
    hide Inv, WaitsFor, Rank;
    RanksRise(s, c);
    if WaitsFor(s, c[|c| - 1], c[0]) {
      WaitsUpward(s, c[|c| - 1], c[0]);
    }
  }

  /** So whoever is waiting, the one at the head of the queue can move. */
  lemma {:induction false} HeadCanMove(s: State, c: seq<TxId>)
    requires Inv(s) && Queue(s, c)
    ensures exists more: seq<TxId> :: Queue(s, c + more) && CanMove(s, (c + more)[|c + more| - 1])
    decreases 5 - |c|
  {
    hide Inv, WaitsFor, Waits, LocksOfOthers;
    RanksRise(s, c);
    var last := c[|c| - 1];
    if CanMove(s, last) {
      assert c + [] == c;
    } else {
      SomebodyHolds(s, last);
      var y :| WaitsFor(s, last, y);
      WaitsFlight(s, last, y);
      HeadCanMove(s, c + [y]);
      var more: seq<TxId> :| Queue(s, c + [y] + more) && CanMove(s, (c + [y] + more)[|c + [y] + more| - 1]);
      assert c + [y] + more == c + ([y] + more);
    }
  }

  lemma WaitsFlight(s: State, x: TxId, y: TxId)
    requires WaitsFor(s, x, y)
    ensures y in s.txs
  {
  }

  /** How far along its life a status is. */
  function Stage(s: Status): nat {
    match s case Confirmed => 0 case Arrived => 1 case _ => 2
  }

  /** What a run may do to a booking: it keeps its reference and key, its status
      only moves along the table, and once it is no longer active it is frozen. */
  ghost predicate Evolves(a: Db, b: Db) {
    forall k :: k in a.bookings ==>
      && k in b.bookings
      && b.bookings[k].reference == a.bookings[k].reference && b.bookings[k].key == a.bookings[k].key
      && Stage(a.bookings[k].status) <= Stage(b.bookings[k].status)
      && (!Active(a.bookings[k].status) ==> b.bookings[k] == a.bookings[k])
  }

  lemma CommitEvolves(db: Db, tx: Tx)
    requires PendingOk(db, tx)
    ensures Evolves(db, CommitDb(db, tx))
  {
  }

  lemma StepEvolves(s: State, step: Step)
    requires Inv(s)
    ensures Evolves(s.db, Exec(s, step).db)
  {
    hide Evolves, Statement, LocksOfOthers, PendingOk, NoNewLoad, PhaseOk;
    NothingEvolves(s.db);
    if step.Commit? && step.tx in s.txs {
      CommitEvolves(s.db, s.txs[step.tx]);
    }
  }

  lemma NothingEvolves(db: Db)
    ensures Evolves(db, db)
  {
  }

  /** No transition re-enters an active status, in any interleaving. */
  lemma {:induction false} RunEvolves(s: State, steps: seq<Step>)
    requires Inv(s)
    ensures Evolves(s.db, Run(s, steps).db)
    decreases |steps|
  {
    if steps != [] {
      hide Inv, Exec;
      InvStep(s, steps[0]);
      StepEvolves(s, steps[0]);
      RunEvolves(Exec(s, steps[0]), steps[1..]);
    }
  }

  /** What may become of a status: one that is expected may come, cancel or not come; one
      who has come may be served or leave; and nothing follows any of those. */
  predicate Follows(was: Status, now: Status) {
    || was == now
    || (was == Confirmed && (now == Arrived || now == Cancelled || now == NoShow))
    || (was == Arrived && (now == Completed || now == Cancelled))
  }

  lemma TableFollows(was: Status, now: Status)
    ensures Follows(was, now) <==> was == now || now in Allowed(was)
  {
  }

  ghost predicate StatusesFollow(a: Db, b: Db) {
    && (forall k :: k in a.bookings ==> k in b.bookings && Follows(a.bookings[k].status, b.bookings[k].status))
    && (forall k :: k in b.bookings && k !in a.bookings ==> b.bookings[k].status == Confirmed)
  }

  lemma CommitFollows(db: Db, tx: Tx)
    requires PendingOk(db, tx)
    ensures StatusesFollow(db, CommitDb(db, tx))
  {
  }

  lemma StepFollows(s: State, step: Step)
    requires Inv(s)
    ensures StatusesFollow(s.db, Exec(s, step).db)
  {
    hide Statement, LocksOfOthers, PendingOk, NoNewLoad, PhaseOk;
    if step.Commit? && step.tx in s.txs {
      CommitFollows(s.db, s.txs[step.tx]);
    }
  }

  ghost predicate IsAt(steps: seq<Step>, k: nat, b: BookingId, status: Status)
    requires k <= |steps|
  {
    b in Run(EMPTY, steps[..k]).db.bookings && Run(EMPTY, steps[..k]).db.bookings[b].status == status
  }

  lemma AfterLast(steps: seq<Step>)
    requires steps != []
    ensures var init := steps[..|steps| - 1];
            && Inv(Run(EMPTY, init)) && Run(EMPTY, steps) == Exec(Run(EMPTY, init), steps[|steps| - 1])
            && StatusesFollow(Run(EMPTY, init).db, Run(EMPTY, steps).db)
  {
    hide Exec;
    var init, last := steps[..|steps| - 1], steps[|steps| - 1];
    assert Inv(EMPTY);
    RunKeepsInv(EMPTY, init);
    assert init + [last] == steps;
    RunOn(EMPTY, init, [last]);
    assert [last][1..] == [];
    assert Run(Exec(Run(EMPTY, init), last), []) == Exec(Run(EMPTY, init), last);
    StepFollows(Run(EMPTY, init), last);
  }

  /** Over every run: nobody is served who had not come, and whoever has come never becomes
      one who did not. */
  lemma {:induction false} ServedHadCome(steps: seq<Step>, b: BookingId)
    requires b in Run(EMPTY, steps).db.bookings && Run(EMPTY, steps).db.bookings[b].status == Completed
    ensures exists k :: 0 <= k <= |steps| && IsAt(steps, k, b, Arrived)
  {
    hide Run, Inv;
    if steps == [] {
      RunNothing();
    } else {
      var init := steps[..|steps| - 1];
      AfterLast(steps);
      var was := Run(EMPTY, init).db.bookings[b].status;
      assert init[..|init|] == init;
      if was == Arrived {
        assert steps[..|init|] == init;
        assert IsAt(steps, |init|, b, Arrived);
      } else {
        ServedHadCome(init, b);
        var k :| 0 <= k <= |init| && IsAt(init, k, b, Arrived);
        assert steps[..k] == init[..k];
        assert IsAt(steps, k, b, Arrived);
      }
    }
  }

  lemma RunNothing()
    ensures Run(EMPTY, []) == EMPTY
  {
  }

  lemma {:induction false} WhoCameStaysOrLeaves(steps: seq<Step>, k: nat, b: BookingId)
    requires k <= |steps| && IsAt(steps, k, b, Arrived)
    ensures b in Run(EMPTY, steps).db.bookings && Run(EMPTY, steps).db.bookings[b].status in {Arrived, Completed, Cancelled}
    decreases |steps|
  {
    hide Run, Inv;
    if k == |steps| {
      assert steps[..k] == steps;
    } else {
      var init := steps[..|steps| - 1];
      assert init[..k] == steps[..k];
      WhoCameStaysOrLeaves(init, k, b);
      AfterLast(steps);
    }
  }
}
