/** The kitchen store's calls as they are written, one statement after another,
    on rows updated in place.

    Each call states its whole effect and is shown to be one of the runs of the
    interleaved model, so what that model guarantees about every run holds of these
    calls too. The lemmas in between follow a call that runs alone, statement by
    statement: the line changed, the ticket locked and its lines loaded, the state
    written; or every line of a ticket voided one after another and then the ticket;
    or a ticket and its lines inserted. */
module KitchenStore {
  import opened Common
  import opened Kitchen

  datatype Failure = NotFound | AlreadyClaimed | NotReady | KeyTaken

  // -------------------------------------------------- calls as runs of the model

  /** Some run of the model leads from one committed state to the other. */
  ghost predicate Reaches(s: State, t: State) {
    exists steps :: Run(s, steps) == t
  }

  lemma ReachesStep(s: State, t: State, step: Step)
    requires Reaches(s, t)
    ensures Reaches(s, Exec(t, step))
  {
    var steps :| Run(s, steps) == t;
    var more := steps + [step];
    assert more[..|steps|] == steps && more[..|steps| + 1] == more;
    RunOneMore(s, more, |steps|);
  }

  /** A call that runs alone: no other transaction is in flight. */
  ghost function Alone(db: Db, tx: Tx): State { State(db, map[0 := tx]) }

  lemma AloneStart(db: Db, op: Op)
    requires Sendable(op)
    ensures Reaches(State(db, map[]), Alone(db, Start(op)))
  {
    var s := State(db, map[]);
    assert Run(s, []) == s;
    ReachesStep(s, s, Begin(0, op));
    assert Exec(s, Begin(0, op)) == Alone(db, Start(op));
  }

  lemma AloneAdvance(db: Db, tx: Tx, pick: LineId)
    requires Reaches(State(db, map[]), Alone(db, tx))
    ensures var o := Statement(db, Locks({}, {}, {}), tx, pick);
            Reaches(State(db, map[]),
                    match o case Blocked => Alone(db, tx) case RolledBack => State(db, map[]) case Proceed(t) => Alone(db, t))
  {
    ReachesStep(State(db, map[]), Alone(db, tx), Advance(0, pick));
    assert LocksOfOthers(Alone(db, tx), 0) == Locks({}, {}, {});
  }

  lemma AloneCommit(db: Db, tx: Tx)
    requires Reaches(State(db, map[]), Alone(db, tx)) && tx.phase.Finished?
    ensures Reaches(State(db, map[]), State(CommitDb(db, tx), map[]))
  {
    ReachesStep(State(db, map[]), Alone(db, tx), Commit(0));
  }

  /** The committed state after a line operation that succeeds. */
  ghost function AfterMutate(db: Db, op: Op, line: Line): Db
    requires op.OnLine() && line.ticket in db.tickets
  {
    var t := line.ticket;
    var lines := db.lines[op.line := line];
    var state := if db.tickets[t].state == Passed then Passed else Derived(lines, t);
    Db(db.tickets[t := db.tickets[t].(state := state)], lines, db.passed,
       db.claims + if op.Claim? then multiset{(op.line, op.staff)} else multiset{})
  }

  /** The transaction once its line is changed. */
  ghost function ChangedTx(op: Op, line: Line): Tx
    requires op.OnLine()
  {
    Tx(op, LineChanged(line.ticket), Locks({op.line}, {}, {}), map[op.line := line], map[], multiset{},
       if op.Claim? then multiset{(op.line, op.staff)} else multiset{})
  }

  lemma ChangeIsRun(db: Db, op: Op)
    requires op.OnLine() && op.line in db.lines && ChangeOf(op, db.lines[op.line]).Some?
    ensures Reaches(State(db, map[]), Alone(db, ChangedTx(op, ChangeOf(op, db.lines[op.line]).value)))
  {
    AloneStart(db, op);
    AloneAdvance(db, Start(op), 0);
    var locked := LockLine(db, Locks({}, {}, {}), Start(op)).tx;
    AloneAdvance(db, locked, 0);
    assert ChangeLine(db, locked).tx == ChangedTx(op, ChangeOf(op, db.lines[op.line]).value);
  }

  /** The transaction once the ticket is locked and its lines are read. */
  ghost function LoadedTx(db: Db, op: Op, line: Line): Tx
    requires op.OnLine() && line.ticket in db.tickets
  {
    ChangedTx(op, line).(
      phase := LinesLoaded(line.ticket, db.tickets[line.ticket].state, LinesOf(db.lines[op.line := line], line.ticket)),
      locks := Locks({op.line}, {line.ticket}, {}))
  }

  lemma LoadIsRun(db: Db, op: Op, line: Line)
    requires op.OnLine() && line.ticket in db.tickets
    requires Reaches(State(db, map[]), Alone(db, ChangedTx(op, line)))
    ensures Reaches(State(db, map[]), Alone(db, LoadedTx(db, op, line)))
  {
    hide Run, Reaches, LinesOf;
    AloneAdvance(db, ChangedTx(op, line), 0);
    var locked := LockTicket(db, Locks({}, {}, {}), ChangedTx(op, line), line.ticket).tx;
    AloneAdvance(db, locked, 0);
    assert ViewLines(db, locked) == db.lines[op.line := line];
    assert LoadLines(db, locked).tx == LoadedTx(db, op, line);
  }

  lemma MapPlusOne<K, V>(m: map<K, V>, k: K, v: V)
    ensures m + map[k := v] == m[k := v]
  {
  }

  lemma MapPlusNone<K, V>(m: map<K, V>)
    ensures m + map[] == m
  {
  }

  lemma WrittenIsAfter(db: Db, op: Op, line: Line)
    requires op.OnLine() && line.ticket in db.tickets
    ensures var o := WriteDerived(db, LoadedTx(db, op, line));
            o.Proceed? && o.tx.phase.Finished? && CommitDb(db, o.tx) == AfterMutate(db, op, line)
  {
    var t, lines := line.ticket, db.lines[op.line := line];
    DerivedOfLoaded(lines, t);
    MapPlusOne(db.lines, op.line, line);
    var state := if db.tickets[t].state == Passed then Passed else Derived(lines, t);
    MapPlusOne(db.tickets, t, db.tickets[t].(state := state));
    MapPlusNone(db.tickets);
    hide Derived, LinesOf;
    var tx := WriteDerived(db, LoadedTx(db, op, line)).tx;
    assert tx.lines == map[op.line := line] && tx.passed == multiset{};
    if db.tickets[t].state == Passed {
      assert tx.tickets == map[] && db.tickets[t := db.tickets[t].(state := Passed)] == db.tickets;
    } else {
      assert tx.tickets == map[t := db.tickets[t].(state := state)];
    }
    assert db.passed + multiset{} == db.passed;
  }

  lemma WriteIsRun(db: Db, op: Op, line: Line)
    requires op.OnLine() && line.ticket in db.tickets
    requires Reaches(State(db, map[]), Alone(db, LoadedTx(db, op, line)))
    ensures Reaches(State(db, map[]), State(AfterMutate(db, op, line), map[]))
  {
    hide Run, Reaches, Derived, LinesOf, AfterMutate, CommitDb, WriteDerived;
    AloneAdvance(db, LoadedTx(db, op, line), 0);
    WrittenIsAfter(db, op, line);
    AloneCommit(db, WriteDerived(db, LoadedTx(db, op, line)).tx);
  }

  lemma MutateIsRun(db: Db, op: Op)
    requires DbOk(db) && op.OnLine() && op.line in db.lines && ChangeOf(op, db.lines[op.line]).Some?
    ensures db.lines[op.line].ticket in db.tickets
    ensures Reaches(State(db, map[]), State(AfterMutate(db, op, ChangeOf(op, db.lines[op.line]).value), map[]))
  {
    var line := ChangeOf(op, db.lines[op.line]).value;
    TicketOfLine(db, op.line);
    hide Run, Reaches, DbOk;
    ChangeIsRun(db, op);
    LoadIsRun(db, op, line);
    WriteIsRun(db, op, line);
  }

  lemma TicketOfLine(db: Db, l: LineId)
    requires DbOk(db) && l in db.lines
    ensures db.lines[l].ticket in db.tickets
  {
  }

  ghost function AfterPass(db: Db, t: TicketId): Db
    requires t in db.tickets
  {
    Db(db.tickets[t := db.tickets[t].(state := Passed)], db.lines, db.passed + multiset{t}, db.claims)
  }

  lemma PassIsRun(db: Db, t: TicketId)
    requires t in db.tickets && db.tickets[t].state != Passed && Derived(db.lines, t) == Ready
    ensures Reaches(State(db, map[]), State(AfterPass(db, t), map[]))
  {
    hide Run, Derived;
    var free := Locks({}, {}, {});
    var tx0 := Start(Pass(t));
    AloneStart(db, Pass(t));
    var tx1 := LockTicket(db, free, tx0, t).tx;
    AloneAdvance(db, tx0, 0);
    var tx2 := LoadLines(db, tx1).tx;
    AloneAdvance(db, tx1, 0);
    assert ViewLines(db, tx1) == db.lines;
    DerivedOfLoaded(db.lines, t);
    var tx3 := WritePassed(db, tx2).tx;
    AloneAdvance(db, tx2, 0);
    AloneCommit(db, tx3);
    assert CommitDb(db, tx3) == AfterPass(db, t);
  }

  lemma NothingIsRun(db: Db)
    ensures Reaches(State(db, map[]), State(db, map[]))
  {
    assert Run(State(db, map[]), []) == State(db, map[]);
  }

  /** The transaction that has voided every line of t but todo. */
  ghost function VoidingTx(db: Db, order: OrderId, t: TicketId, todo: set<LineId>): Tx {
    var gone := set l | l in db.lines && db.lines[l].ticket == t && db.lines[l].state != Voided && l !in todo;
    Tx(VoidTicket(order), VoidingLines(t, todo), Locks(gone, {}, {}),
       map l | l in gone :: db.lines[l].(state := Voided), map[], multiset{}, multiset{})
  }

  ghost function StillOn(db: Db, t: TicketId): set<LineId> {
    set l | l in db.lines && db.lines[l].ticket == t && db.lines[l].state != Voided
  }

  lemma FoundIsRun(db: Db, t: TicketId)
    requires OrdersUnique(db.tickets) && t in db.tickets
    ensures var order := db.tickets[t].order;
            Reaches(State(db, map[]), Alone(db, VoidingTx(db, order, t, StillOn(db, t))))
  {
    var order := db.tickets[t].order;
    AloneStart(db, VoidTicket(order));
    AloneAdvance(db, Start(VoidTicket(order)), 0);
    assert FindTicket(db, Start(VoidTicket(order))).tx == VoidingTx(db, order, t, StillOn(db, t));
  }

  lemma VoidOneIsRun(db: Db, order: OrderId, t: TicketId, todo: set<LineId>, l: LineId)
    requires l in todo && todo <= StillOn(db, t)
    requires Reaches(State(db, map[]), Alone(db, VoidingTx(db, order, t, todo)))
    ensures Reaches(State(db, map[]), Alone(db, VoidingTx(db, order, t, todo - {l})))
  {
    hide Run, Reaches;
    var tx := VoidingTx(db, order, t, todo);
    AloneAdvance(db, tx, l);
    assert VoidOne(db, Locks({}, {}, {}), tx, l).tx == VoidingTx(db, order, t, todo - {l});
  }

  lemma {:induction false} VoidingIsRun(db: Db, order: OrderId, t: TicketId, todo: set<LineId>)
    requires todo <= StillOn(db, t)
    requires Reaches(State(db, map[]), Alone(db, VoidingTx(db, order, t, todo)))
    ensures Reaches(State(db, map[]), Alone(db, VoidingTx(db, order, t, {})))
    decreases todo
  {
    hide Run, Reaches, VoidingTx, StillOn;
    if todo != {} {
      var l :| l in todo;
      VoidOneIsRun(db, order, t, todo, l);
      VoidingIsRun(db, order, t, todo - {l});
    }
  }

  ghost function AfterVoid(db: Db, t: TicketId): Db
    requires t in db.tickets
  {
    db.(lines := map l | l in db.lines ::
          if db.lines[l].ticket == t then db.lines[l].(state := Voided) else db.lines[l],
        tickets := db.tickets[t := db.tickets[t].(state :=
          if db.tickets[t].state == Passed then Passed else TicketVoided)])
  }

  lemma VoidIsRun(db: Db, t: TicketId)
    requires OrdersUnique(db.tickets) && t in db.tickets
    ensures Reaches(State(db, map[]), State(AfterVoid(db, t), map[]))
  {
    hide Run, Reaches, VoidingTx, StillOn, VoidWhole, CommitDb, AfterVoid;
    var tx := VoidingTx(db, db.tickets[t].order, t, {});
    FoundIsRun(db, t);
    VoidingIsRun(db, db.tickets[t].order, t, StillOn(db, t));
    AloneAdvance(db, tx, 0);
    LastOfVoid(db, t);
    AloneCommit(db, VoidWhole(db, Locks({}, {}, {}), tx).tx);
  }

  lemma LastOfVoid(db: Db, t: TicketId)
    requires t in db.tickets
    ensures var tx := VoidingTx(db, db.tickets[t].order, t, {});
            && tx.phase.VoidingLines?
            && var o := VoidWhole(db, Locks({}, {}, {}), tx);
            && Statement(db, Locks({}, {}, {}), tx, 0) == o && o.Proceed? && o.tx.phase.Finished?
            && CommitDb(db, o.tx) == AfterVoid(db, t)
  {
    var tx := VoidingTx(db, db.tickets[t].order, t, {});
    assert CommitDb(db, VoidWhole(db, Locks({}, {}, {}), tx).tx) == AfterVoid(db, t);
  }

  lemma AloneKeepsValid(db: Db, after: Db)
    requires DbOk(db) && Reaches(State(db, map[]), State(after, map[]))
    ensures DbOk(after)
  {
    var steps :| Run(State(db, map[]), steps) == State(after, map[]);
    assert Inv(State(db, map[]));
    EveryRunKeepsTicketsDerived(State(db, map[]), steps);
  }

  ghost function AfterCreate(db: Db, t: TicketId, order: OrderId, ids: set<LineId>): Db {
    db.(tickets := db.tickets[t := Ticket(order, TicketWaiting)],
        lines := db.lines + map l | l in ids :: Line(t, Waiting, None))
  }

  lemma CreateIsRun(db: Db, t: TicketId, order: OrderId, ids: set<LineId>)
    requires ids != {} && ids !! db.lines.Keys && t !in db.tickets
    requires forall u :: u in db.tickets ==> db.tickets[u].order != order
    ensures Reaches(State(db, map[]), State(AfterCreate(db, t, order, ids), map[]))
  {
    hide Run, Reaches;
    var op := Create(t, order, ids);
    AloneStart(db, op);
    AloneAdvance(db, Start(op), 0);
    var tx := InsertTicket(db, Locks({}, {}, {}), Start(op)).tx;
    AloneCommit(db, tx);
    assert CommitDb(db, tx) == AfterCreate(db, t, order, ids);
  }

  // -------------------------------------------------------- getting a ticket out

  /** Lines of the ticket a cook has yet to finish. */
  ghost function ToDo(lines: map<LineId, Line>, t: TicketId): set<LineId> {
    set l | l in lines && lines[l].ticket == t && lines[l].state in {Waiting, Claimed}
  }

  ghost function Finished(lines: map<LineId, Line>, todo: set<LineId>): map<LineId, Line> {
    map l | l in lines :: if l in todo then Line(lines[l].ticket, Done, lines[l].claimedBy) else lines[l]
  }

  lemma ReachesOn(s: State, b: Db, c: Db)
    requires Reaches(s, State(b, map[])) && Reaches(State(b, map[]), State(c, map[]))
    ensures Reaches(s, State(c, map[]))
  {
    var first :| Run(s, first) == State(b, map[]);
    var next :| Run(State(b, map[]), next) == State(c, map[]);
    RunOn(s, first, next);
  }

  /** Everybody at work may stop. */
  lemma {:induction false} EverybodyStops(s: State)
    ensures Reaches(s, State(s.db, map[]))
    decreases |s.txs|
  {
    hide Statement;
    if x :| x in s.txs {
      var t := s.(txs := s.txs - {x});
      assert Exec(s, Abort(x)) == t;
      EverybodyStops(t);
      var steps :| Run(t, steps) == State(s.db, map[]);
      var all := [Abort(x)] + steps;
      assert all[0] == Abort(x) && all[1..] == steps;
      assert Run(s, all) == State(s.db, map[]);
    } else {
      assert s == State(s.db, map[]);
      assert Run(s, []) == s;
    }
  }

  lemma {:induction false} RunOn(s: State, first: seq<Step>, next: seq<Step>)
    ensures Run(s, first + next) == Run(Run(s, first), next)
    decreases |first|
  {
    hide Exec;
    if first == [] {
      assert first + next == next;
    } else {
      assert (first + next)[1..] == first[1..] + next;
      RunOn(Exec(s, first[0]), first[1..], next);
    }
  }

  /** One line completed: done, by the cook it had. */
  lemma CompleteOne(db: Db, l: LineId) returns (z: Db)
    requires DbOk(db) && l in db.lines && db.lines[l].state in {Waiting, Claimed}
    requires db.lines[l].ticket in db.tickets && db.tickets[db.lines[l].ticket].state != Passed
    ensures Reaches(State(db, map[]), State(z, map[])) && DbOk(z)
    ensures z.lines == db.lines[l := Line(db.lines[l].ticket, Done, db.lines[l].claimedBy)]
    ensures z.tickets.Keys == db.tickets.Keys && z.passed == db.passed
    ensures forall t :: t in db.tickets ==>
              z.tickets[t].order == db.tickets[t].order && (db.tickets[t].state != Passed ==> z.tickets[t].state != Passed)
  {
    z := AfterMutate(db, Complete(l), ChangeOf(Complete(l), db.lines[l]).value);
    MutateIsRun(db, Complete(l));
    AloneKeepsValid(db, z);
    hide Reaches, DbOk;
  }

  lemma {:induction false} CompleteAll(db: Db, t: TicketId, todo: set<LineId>) returns (z: Db)
    requires DbOk(db) && t in db.tickets && db.tickets[t].state != Passed && todo == ToDo(db.lines, t)
    ensures Reaches(State(db, map[]), State(z, map[])) && DbOk(z)
    ensures z.lines == Finished(db.lines, todo) && z.passed == db.passed
    ensures t in z.tickets && z.tickets[t].state != Passed && z.tickets[t].order == db.tickets[t].order
    decreases todo
  {
    hide Reaches, DbOk;
    if todo == {} {
      z := db;
      NothingIsRun(db);
    } else {
      var l :| l in todo;
      var mid := CompleteOne(db, l);
      assert ToDo(mid.lines, t) == todo - {l};
      z := CompleteAll(mid, t, todo - {l});
      ReachesOn(State(db, map[]), mid, z);
    }
  }

  /** From every state there is, with whatever is under way, a ticket that is not out yet
      and has a line still on can be got out: every line waiting or claimed done by the
      cook it has, no other line changed, the ticket passed and announced. */
  lemma TicketCanBePassed(steps: seq<Step>, t: TicketId, l: LineId)
    requires var db := Run(EMPTY, steps).db;
             && t in db.tickets && db.tickets[t].state != Passed
             && l in db.lines && db.lines[l].ticket == t && db.lines[l].state != Voided
    ensures var s := Run(EMPTY, steps);
            exists z: Db ::
              && Reaches(s, State(z, map[]))
              && z.lines == Finished(s.db.lines, ToDo(s.db.lines, t)) && z.passed == s.db.passed + multiset{t}
              && t in z.tickets && z.tickets[t] == Ticket(s.db.tickets[t].order, Passed)
  {
    hide Run, Reaches, Derived, Says;
    EmptyOk();
    EveryRunKeepsTicketsDerived(EMPTY, steps);
    var s, db := Run(EMPTY, steps), Run(EMPTY, steps).db;
    EverybodyStops(s);
    var mid := CompleteAll(db, t, ToDo(db.lines, t));
    FinishedIsReady(db.lines, t, l);
    DerivedSays(mid.lines, t, Ready);
    PassIsRun(mid, t);
    ReachesOn(s, db, mid);
    ReachesOn(s, mid, AfterPass(mid, t));
  }

  lemma FinishedIsReady(lines: map<LineId, Line>, t: TicketId, l: LineId)
    requires l in lines && lines[l].ticket == t && lines[l].state != Voided
    ensures Says(Finished(lines, ToDo(lines, t)), t, Ready)
  {
    var z := Finished(lines, ToDo(lines, t));
    assert z[l].state == Done && z[l].ticket == t;
  }

  // ------------------------------------------------------------------- the store

  /** The rows a query returns for ticket t. */
  ghost predicate Lists(loaded: seq<Line>, lines: map<LineId, Line>, t: TicketId) {
    forall line :: line in loaded <==> line in LinesOf(lines, t).Values
  }

  lemma ListedDerived(loaded: seq<Line>, lines: map<LineId, Line>, t: TicketId)
    requires Lists(loaded, lines, t)
    ensures forall s :: (exists i :: 0 <= i < |loaded| && loaded[i].state == s) <==> Has(lines, t, s)
  {
    forall s ensures (exists i :: 0 <= i < |loaded| && loaded[i].state == s) <==> Has(lines, t, s) {
      if i :| 0 <= i < |loaded| && loaded[i].state == s {
        assert loaded[i] in LinesOf(lines, t).Values;
      }
      if Has(lines, t, s) {
        var l :| l in lines && lines[l].ticket == t && lines[l].state == s;
        assert l in LinesOf(lines, t) && LinesOf(lines, t)[l] in loaded;
      }
    }
  }

  class Store {
    var tickets: map<TicketId, Ticket>
    var lines: map<LineId, Line>
    var passed: multiset<TicketId>
    var claims: multiset<(LineId, StaffId)>

    ghost function Committed(): Db reads this { Db(tickets, lines, passed, claims) }

    ghost predicate Valid() reads this { DbOk(Committed()) }

    constructor ()
      ensures Valid() && Committed() == EMPTY.db
    {
      tickets, lines, passed, claims := map[], map[], multiset{}, multiset{};
      new;
      EmptyOk();
    }

    /** One INSERT per line, stopped by a primary key that is taken. */
    static method InsertLines(lines: map<LineId, Line>, t: TicketId, ids: set<LineId>)
      returns (r: Result<map<LineId, Line>, Failure>)
      ensures r == if ids !! lines.Keys then Ok(lines + map l | l in ids :: Line(t, Waiting, None)) else Err(KeyTaken)
    {
      var written := lines;
      var todo := ids;
      while todo != {}
        invariant todo <= ids && (ids - todo) !! lines.Keys
        invariant written == lines + map l | l in ids - todo :: Line(t, Waiting, None)
        decreases todo
      {
        var id :| id in todo;
        if id in written {
          return Err(KeyTaken);
        }
        todo := todo - {id};
        written := written[id := Line(t, Waiting, None)];
      }
      assert ids - todo == ids;
      r := Ok(written);
    }

    /** Write a ticket and its lines, once per order: a redelivered order finds
        the ticket it already has and changes nothing. The identifiers are the
        ones generated for the call. */
    method CreateTicket(t: TicketId, order: OrderId, ids: set<LineId>) returns (r: Result<bool, Failure>)
      requires Valid() && ids != {}
      modifies this
      ensures Valid() && Reaches(State(old(Committed()), map[]), State(Committed(), map[]))
      ensures r == Ok(true) <==> exists u :: u in old(tickets) && old(tickets)[u].order == order
      ensures r != Ok(false) ==> Committed() == old(Committed())
      ensures r.Err? <==> && (forall u :: u in old(tickets) ==> old(tickets)[u].order != order)
                          && (t in old(tickets) || exists l :: l in ids && l in old(lines))
      ensures r == Ok(false) ==>
                && tickets == old(tickets)[t := Ticket(order, TicketWaiting)]
                && lines == old(lines) + (map l | l in ids :: Line(t, Waiting, None))
                && passed == old(passed) && claims == old(claims)
    {
      ghost var db := Committed();
      NothingIsRun(db);
      if exists u :: u in tickets && tickets[u].order == order {
        return Ok(true);
      }
      if t in tickets {
        return Err(KeyTaken);
      }
      var written := InsertLines(lines, t, ids);
      if written.Err? {
        return Err(KeyTaken);
      }
      CreateIsRun(db, t, order, ids);
      tickets := tickets[t := Ticket(order, TicketWaiting)];
      lines := written.value;
      r := Ok(false);
      AloneKeepsValid(db, Committed());
    }

    static method LoadLinesOf(lines: map<LineId, Line>, t: TicketId) returns (loaded: seq<Line>)
      ensures Lists(loaded, lines, t)
    {
      loaded := [];
      var todo := lines.Keys;
      while todo != {}
        invariant todo <= lines.Keys
        invariant forall line :: line in loaded ==> line in LinesOf(lines, t).Values
        invariant forall l :: l in lines && lines[l].ticket == t && l !in todo ==> lines[l] in loaded
        decreases todo
      {
        var l :| l in todo;
        if lines[l].ticket == t {
          assert l in LinesOf(lines, t);
          loaded := loaded + [lines[l]];
        }
        todo := todo - {l};
      }
    }

    static method StateOf(lines: map<LineId, Line>, t: TicketId) returns (state: TicketState)
      ensures state == Derived(lines, t)
    {
      var loaded := LoadLinesOf(lines, t);
      ListedDerived(loaded, lines, t);
      state := StateFromLines(loaded);
    }

    /** Claim, Complete and VoidLine: change the line, then re-derive the ticket
        unless it has passed. */
    method MutateLine(op: Op) returns (r: Result<TicketState, Failure>)
      requires Valid() && op.OnLine()
      modifies this
      ensures Valid() && Reaches(State(old(Committed()), map[]), State(Committed(), map[]))
      ensures op.Claim? ==> (r.Ok? <==> op.line in old(lines) && old(lines)[op.line].state == Waiting)
      ensures op.Complete? ==> (r.Ok? <==> op.line in old(lines) && old(lines)[op.line].state in {Waiting, Claimed})
      ensures op.VoidLine? ==> (r.Ok? <==> op.line in old(lines) && old(lines)[op.line].state != Voided)
      ensures r.Err? ==> Committed() == old(Committed()) && r.error in {NotFound, AlreadyClaimed}
      ensures r == Err(AlreadyClaimed) <==> op.Claim? && op.line in old(lines) && old(lines)[op.line].state != Waiting
      ensures r.Ok? ==> op.line in old(lines) && old(lines)[op.line].ticket in old(tickets)
      ensures r.Ok? ==>
                var Line(t, _, cook) := old(lines)[op.line];
                && lines == old(lines)[op.line :=
                     if op.Claim? then Line(t, Claimed, Some(op.staff))
                     else Line(t, if op.Complete? then Done else Voided, cook)]
                && tickets == old(tickets)[t := Ticket(old(tickets)[t].order, r.value)]
                && (if old(tickets)[t].state == Passed then r.value == Passed else Says(lines, t, r.value))
      ensures r.Ok? ==>
                && passed == old(passed)
                && claims == old(claims) + if op.Claim? then multiset{(op.line, op.staff)} else multiset{}
    {
      ghost var db := Committed();
      NothingIsRun(db);
      if op.line !in lines {
        return Err(NotFound);
      }
      var changed := ChangeOf(op, lines[op.line]);
      if changed == None {
        return Err(if op.Claim? then AlreadyClaimed else NotFound);
      }
      MutateIsRun(db, op);
      var written := lines[op.line := changed.value];
      var id := changed.value.ticket;
      var t := tickets[id];
      if t.state != Passed {
        var state := StateOf(written, id);
        DerivedSays(written, id, state);
        t := t.(state := state);
      }
      lines, tickets := written, tickets[id := t];
      if op.Claim? {
        claims := claims + multiset{(op.line, op.staff)};
      }
      assert claims == old(claims) + if op.Claim? then multiset{(op.line, op.staff)} else multiset{};
      r := Ok(t.state);
      assert Committed() == AfterMutate(db, op, changed.value);
      AloneKeepsValid(db, Committed());
    }

    /** Hand the ticket over: at most once, and only when nothing is cooking. */
    method PassTicket(ticket: TicketId) returns (r: Result<TicketState, Failure>)
      requires Valid()
      modifies this
      ensures Valid() && Reaches(State(old(Committed()), map[]), State(Committed(), map[]))
      ensures lines == old(lines) && claims == old(claims)
      ensures r.Ok? <==> ticket in old(tickets)
                         && (old(tickets)[ticket].state == Passed || Says(old(lines), ticket, Ready))
      ensures r.Err? ==> Committed() == old(Committed())
                         && r.error == if ticket in old(tickets) then NotReady else NotFound
      ensures r.Ok? ==>
                && r.value == Passed
                && tickets == old(tickets)[ticket := old(tickets)[ticket].(state := Passed)]
                && passed == old(passed) + if old(tickets)[ticket].state == Passed then multiset{} else multiset{ticket}
    {
      ghost var db := Committed();
      NothingIsRun(db);
      if ticket !in tickets {
        return Err(NotFound);
      }
      var t := tickets[ticket];
      if t.state == Passed {
        assert tickets == tickets[ticket := t];
        return Ok(Passed);
      }
      var state := StateOf(lines, ticket);
      DerivedSays(lines, ticket, Ready);
      if state != Ready {
        return Err(NotReady);
      }
      PassIsRun(db, ticket);
      tickets := tickets[ticket := t.(state := Passed)];
      passed := passed + multiset{ticket};
      r := Ok(Passed);
      assert Committed() == AfterPass(db, ticket);
      AloneKeepsValid(db, Committed());
    }

    /** The UPDATE over every line of a ticket. */
    static method VoidLinesOf(lines: map<LineId, Line>, t: TicketId) returns (out: map<LineId, Line>)
      ensures out == map l | l in lines ::
                       if lines[l].ticket == t then lines[l].(state := Voided) else lines[l]
    {
      out := lines;
      var todo := set l | l in lines && lines[l].ticket == t && lines[l].state != Voided;
      while todo != {}
        invariant out.Keys == lines.Keys && todo <= lines.Keys
        invariant forall l :: l in lines ==>
                    out[l] == if lines[l].ticket == t && l !in todo then lines[l].(state := Voided) else lines[l]
        decreases todo
      {
        var l :| l in todo;
        out := out[l := out[l].(state := Voided)];
        todo := todo - {l};
      }
    }

    /** Take a whole ticket off the screen: every line voided, and the ticket with
        them unless the food has already gone out. */
    method VoidWholeTicket(order: OrderId) returns (r: Result<TicketId, Failure>)
      requires Valid()
      modifies this
      ensures Valid() && Reaches(State(old(Committed()), map[]), State(Committed(), map[]))
      ensures r.Ok? <==> exists t :: t in old(tickets) && old(tickets)[t].order == order
      ensures r.Err? ==> r.error == NotFound && Committed() == old(Committed())
      ensures r.Ok? ==> r.value in old(tickets) && old(tickets)[r.value].order == order
      ensures r.Ok? ==> passed == old(passed) && claims == old(claims) && lines.Keys == old(lines).Keys
      ensures r.Ok? ==> forall l :: l in lines ==>
                lines[l] == if old(lines)[l].ticket == r.value then old(lines)[l].(state := Voided) else old(lines)[l]
      ensures r.Ok? ==>
                tickets == old(tickets)[r.value := old(tickets)[r.value].(state :=
                  if old(tickets)[r.value].state == Passed then Passed else TicketVoided)]
    {
      ghost var db := Committed();
      NothingIsRun(db);
      var ids := set t | t in tickets && tickets[t].order == order;
      if ids == {} {
        assert forall t :: t in tickets && tickets[t].order == order ==> t in ids;
        return Err(NotFound);
      }
      var t :| t in ids;
      assert OrdersUnique(tickets);
      hide Reaches, DbOk;
      VoidIsRun(db, t);
      lines := VoidLinesOf(lines, t);
      if tickets[t].state != Passed {
        tickets := tickets[t := tickets[t].(state := TicketVoided)];
      }
      r := Ok(t);
      assert lines == AfterVoid(db, t).lines;
      assert Committed() == AfterVoid(db, t);
      AloneKeepsValid(db, Committed());
    }
  }
}
