/** The diary's calls as they are written, one statement after another, on rows
    updated in place.

    Each states its whole effect and is one of the runs of the interleaved model. The
    lemmas before the class follow a call that runs alone, statement by statement: the
    key looked up, the resource locked, the bookings in the way counted, and the insert
    tried under one reference after another; or the booking locked and its status
    written. What the model guarantees about every run therefore holds of these calls. */
module Diary {
  import opened Common
  import opened Bookings

  datatype Failure = NotFound | Taken | BadTransition | NoReference | Refused

  // -------------------------------------------------- calls as runs of the model

  ghost predicate Reaches(s: State, t: State) {
    exists steps :: Run(s, steps) == t && NeverLowers(s, steps)
  }

  lemma {:induction false} RunSnoc(s: State, steps: seq<Step>, last: Step)
    requires NeverLowers(s, steps) && !Lowers(Run(s, steps), last)
    ensures Run(s, steps + [last]) == Exec(Run(s, steps), last) && NeverLowers(s, steps + [last])
    decreases |steps|
  {
    hide Exec, Lowers;
    if steps == [] {
      assert [last][1..] == [];
      assert Run(Exec(s, last), []) == Exec(s, last) && NeverLowers(Exec(s, last), []);
    } else {
      assert (steps + [last])[1..] == steps[1..] + [last];
      RunSnoc(Exec(s, steps[0]), steps[1..], last);
    }
  }

  lemma ReachesStep(s: State, t: State, step: Step)
    requires Reaches(s, t) && !Lowers(t, step)
    ensures Reaches(s, Exec(t, step))
  {
    hide Exec, Lowers;
    var steps :| Run(s, steps) == t && NeverLowers(s, steps);
    RunSnoc(s, steps, step);
  }

  /** The only transaction in flight. */
  ghost function Alone(db: Db, tx: Tx): State { State(db, map[0 := tx]) }

  lemma AloneStart(db: Db, op: Op)
    ensures Reaches(State(db, map[]), Alone(db, Start(op)))
  {
    var s := State(db, map[]);
    assert Run(s, []) == s && NeverLowers(s, []);
    ReachesStep(s, s, Begin(0, op));
    assert Exec(s, Begin(0, op)) == Alone(db, Start(op));
  }

  lemma AloneAdvance(db: Db, tx: Tx, reference: Reference)
    requires Reaches(State(db, map[]), Alone(db, tx)) && Statement(db, FREE, tx, reference).Proceed?
    ensures Reaches(State(db, map[]), Alone(db, Statement(db, FREE, tx, reference).tx))
  {
    hide Run, NeverLowers, Statement;
    ReachesStep(State(db, map[]), Alone(db, tx), Advance(0, reference));
    assert LocksOfOthers(Alone(db, tx), 0) == FREE;
  }

  lemma AloneCommit(db: Db, tx: Tx)
    requires Reaches(State(db, map[]), Alone(db, tx)) && tx.phase.Finished? && tx.capacity == map[]
    ensures Reaches(State(db, map[]), State(CommitDb(db, tx), map[]))
  {
    hide Run, NeverLowers;
    ReachesStep(State(db, map[]), Alone(db, tx), Commit(0));
  }

  lemma NothingIsRun(db: Db)
    ensures Reaches(State(db, map[]), State(db, map[]))
  {
    assert Run(State(db, map[]), []) == State(db, map[]) && NeverLowers(State(db, map[]), []);
  }

  lemma ReachedIsOk(db: Db, after: Db)
    requires DbOk(db) && Reaches(State(db, map[]), State(after, map[]))
    ensures DbOk(after)
  {
    var steps :| Run(State(db, map[]), steps) == State(after, map[]) && NeverLowers(State(db, map[]), steps);
    RunKeepsCapacity(State(db, map[]), steps);
  }

  /** A placing transaction that has passed the count. */
  ghost function PlacingTx(op: Op, attempts: nat): Tx
    requires op.Places()
  {
    Tx(op, Fits(attempts), FREE.(resources := {op.resource}), map[], map[])
  }

  lemma PlacingIsRun(db: Db, op: Op)
    requires op.Places() && Room(db, op) && (op.Create? ==> !KeyUsed(db.bookings, op.key))
    ensures Reaches(State(db, map[]), Alone(db, PlacingTx(op, 0)))
  {
    hide Run, NeverLowers, Reaches;
    AloneStart(db, op);
    if op.Create? {
      AloneAdvance(db, Start(op), 0);
      assert Statement(db, FREE, Start(op), 0).tx == Start(op).(phase := KeyIsNew);
    }
    var ready := if op.Create? then Start(op).(phase := KeyIsNew) else Start(op);
    AloneAdvance(db, ready, 0);
    var locked := LockResource(db, FREE, ready).tx;
    AloneAdvance(db, locked, 0);
    assert Count(db, locked).tx == PlacingTx(op, 0);
  }

  /** One attempt at the insert: it goes in under a reference nobody has, and is tried
      again under the next when somebody has this one. */
  lemma InsertIsRun(db: Db, op: Op, attempt: nat, reference: Reference)
    requires op.Create? && op.start < op.end && op.id !in db.bookings && !KeyUsed(db.bookings, op.key)
    requires attempt < MAX_ATTEMPTS
    requires Reaches(State(db, map[]), Alone(db, PlacingTx(op, attempt)))
    ensures ReferenceUsed(db.bookings, reference) && attempt + 1 < MAX_ATTEMPTS ==>
              Reaches(State(db, map[]), Alone(db, PlacingTx(op, attempt + 1)))
    ensures !ReferenceUsed(db.bookings, reference) ==>
              Reaches(State(db, map[]),
                      State(db.(bookings := db.bookings[op.id := Booking(op.resource, op.start, op.end, Confirmed, reference, op.key)]),
                            map[]))
  {
    hide Run, NeverLowers, Reaches, Room;
    var tx := PlacingTx(op, attempt);
    if Statement(db, FREE, tx, reference).Proceed? {
      AloneAdvance(db, tx, reference);
      if !ReferenceUsed(db.bookings, reference) {
        var inserted := Insert(db, FREE, tx, reference).tx;
        AloneCommit(db, inserted);
        var b := Booking(op.resource, op.start, op.end, Confirmed, reference, op.key);
        assert CommitDb(db, inserted) == db.(bookings := db.bookings[op.id := b]);
      }
    }
  }

  /** A repeated create finds the booking its key made, finishes at once and leaves the
      rows as they are. */
  lemma RepeatIsRun(db: Db, op: Op)
    requires op.Create? && op.key.Some? && exists b :: b in db.bookings && db.bookings[b].key == op.key
    ensures Run(State(db, map[]), [Begin(0, op), Advance(0, 0), Commit(0)]) == State(db, map[])
  {
    var steps := [Begin(0, op), Advance(0, 0), Commit(0)];
    var s1, s2 := Alone(db, Start(op)), Alone(db, Start(op).(phase := Finished));
    hide Statement;
    assert Exec(State(db, map[]), steps[0]) == s1;
    RepeatAdvances(db, op);
    assert LocksOfOthers(s1, 0) == FREE;
    assert Exec(s1, steps[1]) == s2;
    assert CommitDb(db, s2.txs[0]) == db && s2.txs - {0} == map[];
    assert Exec(s2, steps[2]) == State(db, map[]);
    hide Exec;
    assert steps[1..] == [steps[1], steps[2]] && steps[1..][1..] == [steps[2]] && [steps[2]][1..] == [];
    assert Run(s2, [steps[2]]) == Run(State(db, map[]), []);
    assert Run(s1, [steps[1], steps[2]]) == Run(s2, [steps[2]]);
  }

  lemma RepeatAdvances(db: Db, op: Op)
    requires op.Create? && KeyUsed(db.bookings, op.key)
    ensures Statement(db, FREE, Start(op), 0) == Proceed(Start(op).(phase := Finished))
  {
  }

  lemma StatusIsRun(db: Db, id: BookingId, to: Status)
    requires id in db.bookings && to in Allowed(db.bookings[id].status) && db.bookings[id].status != to
    ensures Reaches(State(db, map[]),
                    State(db.(bookings := db.bookings[id := db.bookings[id].(status := to)]), map[]))
  {
    hide Run, NeverLowers, Reaches;
    var started := Start(SetStatus(id, to));
    AloneStart(db, SetStatus(id, to));
    AloneAdvance(db, started, 0);
    var locked := LockBooking(db, FREE, started).tx;
    AloneAdvance(db, locked, 0);
    var written := WriteStatus(db, locked).tx;
    AloneCommit(db, written);
    assert CommitDb(db, written) == db.(bookings := db.bookings[id := db.bookings[id].(status := to)]);
  }

  lemma {:induction false} RunsOn(s: State, first: seq<Step>, next: seq<Step>)
    requires NeverLowers(s, first) && NeverLowers(Run(s, first), next)
    ensures Run(s, first + next) == Run(Run(s, first), next) && NeverLowers(s, first + next)
    decreases |first|
  {
    hide Exec, Lowers;
    if first == [] {
      assert first + next == next;
    } else {
      assert (first + next)[1..] == first[1..] + next;
      RunsOn(Exec(s, first[0]), first[1..], next);
    }
  }

  lemma ReachesOn(s: State, b: Db, c: Db)
    requires Reaches(s, State(b, map[])) && Reaches(State(b, map[]), State(c, map[]))
    ensures Reaches(s, State(c, map[]))
  {
    var first :| Run(s, first) == State(b, map[]) && NeverLowers(s, first);
    var next :| Run(State(b, map[]), next) == State(c, map[]) && NeverLowers(State(b, map[]), next);
    RunsOn(s, first, next);
  }

  function WithStatus(db: Db, id: BookingId, status: Status): Db
    requires id in db.bookings
  {
    db.(bookings := db.bookings[id := db.bookings[id].(status := status)])
  }

  /** Everybody at work may stop. */
  lemma {:induction false} EverybodyStops(s: State)
    ensures Reaches(s, State(s.db, map[]))
    decreases |s.txs|
  {
    hide Statement;
    if x :| x in s.txs {
      var t := s.(txs := s.txs - {x});
      assert Exec(s, Abort(x)) == t && !Lowers(s, Abort(x));
      EverybodyStops(t);
      var steps :| Run(t, steps) == State(s.db, map[]) && NeverLowers(t, steps);
      var all := [Abort(x)] + steps;
      assert all[0] == Abort(x) && all[1..] == steps;
      assert Run(s, all) == State(s.db, map[]) && NeverLowers(s, all);
    } else {
      assert s == State(s.db, map[]);
      assert Run(s, []) == s && NeverLowers(s, []);
    }
  }

  /** From every state there is, with whatever is under way, whoever is expected or has
      come can still cancel or leave, and can still be served. */
  lemma ActiveCanEnd(steps: seq<Step>, id: BookingId)
    requires var db := Run(EMPTY, steps).db; id in db.bookings && db.bookings[id].status in {Confirmed, Arrived}
    ensures var s := Run(EMPTY, steps);
            && Reaches(s, State(WithStatus(s.db, id, Cancelled), map[]))
            && Reaches(s, State(WithStatus(s.db, id, Completed), map[]))
  {
    hide Reaches, Run;
    var s, db := Run(EMPTY, steps), Run(EMPTY, steps).db;
    EverybodyStops(s);
    StatusIsRun(db, id, Cancelled);
    ReachesOn(s, db, WithStatus(db, id, Cancelled));
    if db.bookings[id].status == Confirmed {
      var here := WithStatus(db, id, Arrived);
      StatusIsRun(db, id, Arrived);
      StatusIsRun(here, id, Completed);
      assert WithStatus(here, id, Completed) == WithStatus(db, id, Completed);
      ReachesOn(s, db, here);
      ReachesOn(s, here, WithStatus(db, id, Completed));
    } else {
      StatusIsRun(db, id, Completed);
      ReachesOn(s, db, WithStatus(db, id, Completed));
    }
  }

  // ------------------------------------------------------------------- the diary

  /** Some booking was made under the key. Without a key there is nothing to repeat. */
  ghost predicate Made(bs: map<BookingId, Booking>, key: Option<Key>) {
    match key
    case None => false
    case Some(k) => exists b :: b in bs && bs[b].key == Some(k)
  }

  function References(bs: map<BookingId, Booking>): set<Reference> { set b | b in bs :: bs[b].reference }

  predicate AllTaken(bs: map<BookingId, Booking>, references: seq<Reference>) {
    forall i :: 0 <= i < |references| ==> references[i] in References(bs)
  }

  lemma EachUsed(bs: map<BookingId, Booking>, references: seq<Reference>)
    ensures forall i :: 0 <= i < |references| ==> (references[i] in References(bs) <==> ReferenceUsed(bs, references[i]))
  {
  }

  class Diary {
    var capacity: map<ResourceId, nat>
    var bookings: map<BookingId, Booking>

    ghost function Committed(): Db reads this { Db(capacity, bookings) }

    ghost predicate Valid() reads this { DbOk(Committed()) }

    constructor ()
      ensures Valid() && Committed() == EMPTY.db
    {
      capacity, bookings := map[], map[];
    }

    /** The double-booking check both writers make. */
    method HasRoom(op: Op) returns (r: Result<(), Failure>)
      requires op.Places()
      ensures r == if op.resource !in capacity then Err(NotFound)
                   else if Room(Committed(), op) then Ok(())
                   else Err(Taken)
    {
      if op.resource !in capacity {
        return Err(NotFound);
      }
      var taken := |Overlapping(bookings, op.resource, op.start, op.end, op.id)|;
      r := if taken >= capacity[op.resource] then Err(Taken) else Ok(());
    }

    /** The booking an idempotency key already made. */
    method MadeUnder(key: Option<Key>) returns (b: Option<BookingId>)
      ensures b.None? ==> !Made(bookings, key) && !KeyUsed(bookings, key)
      ensures b.Some? ==> Made(bookings, key) && b.value in bookings && bookings[b.value].key == key
    {
      if key.None? {
        return None;
      }
      var made := set b | b in bookings && bookings[b].key == key;
      if made == {} {
        assert forall b :: b in bookings && bookings[b].key == key ==> b in made;
        return None;
      }
      var found :| found in made;
      b := Some(found);
    }

    /** Make a booking under the first unused of the generated references. A
        repeat of an idempotency key answers with the booking it already made. */
    method CreateBooking(id: BookingId, resource: ResourceId, start: Instant, end: Instant, key: Option<Key>,
                         references: seq<Reference>)
      returns (r: Result<BookingId, Failure>)
      requires Valid() && |references| == 5
      modifies this
      ensures Valid() && Reaches(State(old(Committed()), map[]), State(Committed(), map[]))
      ensures capacity == old(capacity)
      ensures Made(old(bookings), key) ==> r.Ok? && r.value in bookings && bookings[r.value].key == key
      ensures Made(old(bookings), key) || r.Err? ==> bookings == old(bookings)
      ensures r.Ok? && !Made(old(bookings), key) ==>
                && r.value == id && id !in old(bookings)
                && Room(old(Committed()), Create(id, resource, start, end, key))
                && exists i :: 0 <= i < |references|
                     && references[i] !in References(old(bookings))
                     && AllTaken(old(bookings), references[..i])
                     && bookings == old(bookings)[id := Booking(resource, start, end, Confirmed, references[i], key)]
      ensures r == Err(NotFound) <==> !Made(old(bookings), key) && resource !in capacity
      ensures r == Err(Taken) <==> !Made(old(bookings), key) && resource in capacity
                                   && !Room(old(Committed()), Create(id, resource, start, end, key))
      ensures r == Err(Refused) <==> !Made(old(bookings), key) && Room(old(Committed()), Create(id, resource, start, end, key))
                                     && (end <= start || id in old(bookings))
      ensures r == Err(NoReference) <==> !Made(old(bookings), key) && Room(old(Committed()), Create(id, resource, start, end, key))
                                         && start < end && id !in old(bookings) && AllTaken(old(bookings), references)
      ensures r.Err? ==> r.error != BadTransition
    {
      ghost var db := Committed();
      var op := Create(id, resource, start, end, key);
      NothingIsRun(db);
      assert Room(db, op) ==> resource in capacity;
      hide Reaches, DbOk, Room, Alone, PlacingTx;
      var repeat := MadeUnder(key);
      if repeat.Some? {
        return Ok(repeat.value);
      }
      EachUsed(bookings, references);
      hide Made, KeyUsed, References, ReferenceUsed;
      var room := HasRoom(op);
      if room.Err? {
        return Err(room.error);
      }
      if end <= start || id in bookings {
        return Err(Refused);
      }
      PlacingIsRun(db, op);
      var attempt := 0;
      while attempt < MAX_ATTEMPTS
        invariant attempt <= MAX_ATTEMPTS
        invariant Committed() == db
        invariant attempt < MAX_ATTEMPTS ==> Reaches(State(db, map[]), Alone(db, PlacingTx(op, attempt)))
        invariant AllTaken(bookings, references[..attempt])
      {
        var reference := references[attempt];
        InsertIsRun(db, op, attempt, reference);
        if reference !in References(bookings) {
          bookings := bookings[id := Booking(resource, start, end, Confirmed, reference, key)];
          ReachedIsOk(db, Committed());
          return Ok(id);
        }
        attempt := attempt + 1;
      }
      assert references[..attempt] == references;
      r := Err(NoReference);
    }

    /** Move a booking, under the same lock and the same check. */
    method Move(id: BookingId, resource: ResourceId, start: Instant, end: Instant)
      returns (r: Result<Booking, Failure>)
      requires Valid()
      modifies this
      ensures Valid() && Reaches(State(old(Committed()), map[]), State(Committed(), map[]))
      ensures capacity == old(capacity)
      ensures r.Ok? <==> && Room(old(Committed()), Reschedule(id, resource, start, end))
                         && id in old(bookings) && old(bookings)[id].status in {Confirmed, Arrived} && start < end
      ensures r.Ok? ==> && r.value == old(bookings)[id].(resource := resource, start := start, end := end)
                        && bookings == old(bookings)[id := r.value]
      ensures r.Err? ==> bookings == old(bookings)
      ensures r == Err(Taken) <==> resource in capacity && !Room(old(Committed()), Reschedule(id, resource, start, end))
      ensures r == Err(NotFound) <==> resource !in capacity
                                      || (Room(old(Committed()), Reschedule(id, resource, start, end)) && id !in old(bookings))
      ensures r == Err(BadTransition) <==> Room(old(Committed()), Reschedule(id, resource, start, end))
                                           && id in old(bookings) && old(bookings)[id].status in {Completed, Cancelled, NoShow}
      ensures r.Err? ==> r.error in {Taken, NotFound, BadTransition, Refused}
    {
      ghost var db := Committed();
      var op := Reschedule(id, resource, start, end);
      NothingIsRun(db);
      var room := HasRoom(op);
      if room.Err? {
        return Err(room.error);
      }
      if id !in bookings {
        return Err(NotFound);
      }
      if !Active(bookings[id].status) {
        return Err(BadTransition);
      }
      if end <= start {
        return Err(Refused);
      }
      PlacingIsRun(db, op);
      AloneAdvance(db, PlacingTx(op, 0), 0);
      var tx := Bookings.Move(db, FREE, PlacingTx(op, 0)).tx;
      AloneCommit(db, tx);
      var moved := bookings[id].(resource := resource, start := start, end := end);
      bookings := bookings[id := moved];
      assert Committed() == CommitDb(db, tx);
      ReachedIsOk(db, Committed());
      r := Ok(moved);
    }

    /** Change a status along the table; saying again what is already so is not an
        error and changes nothing. */
    method ChangeStatus(id: BookingId, to: Status) returns (r: Result<Booking, Failure>)
      requires Valid()
      modifies this
      ensures Valid() && Reaches(State(old(Committed()), map[]), State(Committed(), map[]))
      ensures capacity == old(capacity)
      ensures r.Ok? <==> id in old(bookings) && Follows(old(bookings)[id].status, to)
      ensures r.Ok? ==> r.value == old(bookings)[id].(status := to) && bookings == old(bookings)[id := r.value]
      ensures r.Err? ==> bookings == old(bookings)
                         && r.error == if id in bookings then BadTransition else NotFound
    {
      ghost var db := Committed();
      NothingIsRun(db);
      if id !in bookings {
        return Err(NotFound);
      }
      var current := bookings[id];
      if current.status == to {
        assert bookings == bookings[id := current];
        return Ok(current);
      }
      var next := Allowed(current.status);
      var ok := false;
      for i := 0 to |next|
        invariant ok <==> to in next[..i]
      {
        if next[i] == to {
          ok := true;
          break;
        }
      }
      TableFollows(current.status, to);
      if !ok {
        assert next[..|next|] == next;
        return Err(BadTransition);
      }
      StatusIsRun(db, id, to);
      bookings := bookings[id := current.(status := to)];
      ReachedIsOk(db, Committed());
      r := Ok(current.(status := to));
    }
  }
}
