/** The kitchen's tickets, kept derived from their lines. */
module Kitchen {
  // Transactions lock lines first and the ticket second.
  //
  // The database is modelled as its committed rows plus the transactions in
  // flight. A transaction advances one SQL statement at a time, in any order
  // relative to the others. A statement reads what is committed plus its own
  // writes, and one that needs a row lock somebody else holds waits.

  import opened Common

  type TicketId = nat
  type LineId = nat
  type OrderId = nat
  type StaffId = nat
  type TxId = nat

  datatype LineState = Waiting | Claimed | Done | Voided

  datatype Line = Line(ticket: TicketId, state: LineState, claimedBy: Option<StaffId>)

  datatype TicketState = TicketWaiting | Cooking | Ready | Passed | TicketVoided

  datatype Ticket = Ticket(order: OrderId, state: TicketState)

  // ---------------------------------------------------------------- derivation

  /** Some line of ticket t is in state s. */
  ghost predicate Has(lines: map<LineId, Line>, t: TicketId, s: LineState) {
    exists l :: l in lines && lines[l].ticket == t && lines[l].state == s
  }

  /** What a ticket is doing, read off what its lines are doing: gone when every
      line is voided, ready when every line still on is done, cooking when
      anything is claimed or done, waiting otherwise. */
  function Derive(waiting: bool, claimed: bool, done: bool): TicketState {
    if !waiting && !claimed && !done then TicketVoided
    else if !waiting && !claimed then Ready
    else if claimed || done then Cooking
    else TicketWaiting
  }

  ghost function Derived(lines: map<LineId, Line>, t: TicketId): TicketState {
    Derive(Has(lines, t, Waiting), Has(lines, t, Claimed), Has(lines, t, Done))
  }

  /** What a state says of the ticket's lines, apart from passed: that none is still on;
      that all still on are done; that some are still to do and some begun or done; that
      all still on are to do. */
  ghost predicate Says(lines: map<LineId, Line>, t: TicketId, state: TicketState) {
    match state
    case TicketVoided => forall l :: l in lines && lines[l].ticket == t ==> lines[l].state == Voided
    case Ready => Has(lines, t, Done) && forall l :: l in lines && lines[l].ticket == t ==> lines[l].state in {Done, Voided}
    case Cooking => (Has(lines, t, Waiting) || Has(lines, t, Claimed)) && (Has(lines, t, Claimed) || Has(lines, t, Done))
    case TicketWaiting =>
      Has(lines, t, Waiting) && forall l :: l in lines && lines[l].ticket == t ==> lines[l].state in {Waiting, Voided}
    case Passed => false
  }

  lemma HasIs(lines: map<LineId, Line>, t: TicketId, l: LineId)
    requires l in lines && lines[l].ticket == t
    ensures Has(lines, t, lines[l].state)
  {
  }

  /** The derived state says what the lines are, and no other state does. */
  lemma DerivedSays(lines: map<LineId, Line>, t: TicketId, state: TicketState)
    ensures Says(lines, t, state) <==> state == Derived(lines, t)
  {
    forall l | l in lines && lines[l].ticket == t
      ensures Has(lines, t, lines[l].state)
    {
      HasIs(lines, t, l);
    }
    SomeLine(lines, t, Waiting);
    SomeLine(lines, t, Claimed);
    SomeLine(lines, t, Done);
    hide Has;
  }

  lemma SomeLine(lines: map<LineId, Line>, t: TicketId, state: LineState)
    ensures Has(lines, t, state) ==> exists l :: l in lines && lines[l].ticket == t && lines[l].state == state
  {
  }

  /** Nothing of the ticket is still to be cooked. */
  ghost predicate Served(lines: map<LineId, Line>, t: TicketId) {
    !Has(lines, t, Waiting) && !Has(lines, t, Claimed)
  }

  /** The counting loop behind the derivation. */
  method StateFromLines(lines: seq<Line>) returns (state: TicketState)
    ensures state == Derive(exists i | 0 <= i < |lines| :: lines[i].state == Waiting,
                            exists i | 0 <= i < |lines| :: lines[i].state == Claimed,
                            exists i | 0 <= i < |lines| :: lines[i].state == Done)
    ensures state == TicketVoided <==> forall i :: 0 <= i < |lines| ==> lines[i].state == Voided
    ensures state == Ready <==> (exists i | 0 <= i < |lines| :: lines[i].state == Done)
                                && forall i :: 0 <= i < |lines| ==> lines[i].state in {Done, Voided}
    ensures state == TicketWaiting <==> (exists i | 0 <= i < |lines| :: lines[i].state == Waiting)
                                        && forall i :: 0 <= i < |lines| ==> lines[i].state in {Waiting, Voided}
    ensures state != Passed
  {
    var live, done, claimed := 0, 0, 0;
    for i := 0 to |lines|
      invariant 0 <= done + claimed <= live <= i && 0 <= done && 0 <= claimed
      invariant done > 0 <==> exists j | 0 <= j < i :: lines[j].state == Done
      invariant claimed > 0 <==> exists j | 0 <= j < i :: lines[j].state == Claimed
      invariant done + claimed < live <==> exists j | 0 <= j < i :: lines[j].state == Waiting
    {
      match lines[i].state {
        case Voided => continue;
        case Done => done := done + 1;
        case Claimed => claimed := claimed + 1;
        case Waiting =>
      }
      live := live + 1;
    }
    if live == 0 {
      state := TicketVoided;
    } else if done == live {
      state := Ready;
    } else if claimed > 0 || done > 0 {
      state := Cooking;
    } else {
      state := TicketWaiting;
    }
  }

  // --------------------------------------------------------------- transactions

  datatype Op =
    | Claim(line: LineId, staff: StaffId)
    | Complete(line: LineId)
    | VoidLine(line: LineId)
    | Pass(ticket: TicketId)
    | VoidTicket(order: OrderId)
    | Create(ticket: TicketId, order: OrderId, lines: set<LineId>)
  {
    predicate OnLine() { Claim? || Complete? || VoidLine? }
  }

  /** How far a transaction has got; every constructor is the state after one
      statement. */
  datatype Phase =
    | Begun
    | LineLocked(ticket: TicketId)
    | LineChanged(ticket: TicketId)
    | TicketLocked(ticket: TicketId, seen: TicketState)
    | LinesLoaded(ticket: TicketId, seen: TicketState, loaded: map<LineId, Line>)
    | VoidingLines(ticket: TicketId, todo: set<LineId>)
    | Finished

  datatype Locks = Locks(lines: set<LineId>, tickets: set<TicketId>, orders: set<OrderId>)

  datatype Tx = Tx(op: Op, phase: Phase, locks: Locks,
                   lines: map<LineId, Line>, tickets: map<TicketId, Ticket>,
                   passed: multiset<TicketId>, claims: multiset<(LineId, StaffId)>)

  /** Committed rows; passed and claims are the whole history of kitchen.passed
      events and of claims that committed. */
  datatype Db = Db(tickets: map<TicketId, Ticket>, lines: map<LineId, Line>,
                   passed: multiset<TicketId>, claims: multiset<(LineId, StaffId)>)

  datatype State = State(db: Db, txs: map<TxId, Tx>)

  datatype Outcome = Blocked | RolledBack | Proceed(tx: Tx)

  function Start(op: Op): Tx {
    Tx(op, Begun, Locks({}, {}, {}), map[], map[], multiset{}, multiset{})
  }

  function ViewLines(db: Db, tx: Tx): map<LineId, Line> { db.lines + tx.lines }

  function LinesOf(lines: map<LineId, Line>, t: TicketId): map<LineId, Line> {
    map l | l in lines && lines[l].ticket == t :: lines[l]
  }

  /** The change a line operation makes, or None where its WHERE clause matches
      no row: a claim takes a waiting line only, completing takes a waiting or a
      claimed one, voiding takes anything not voided yet. */
  function ChangeOf(op: Op, line: Line): Option<Line>
    requires op.OnLine()
  {
    match op
    case Claim(_, staff) =>
      if line.state == Waiting then Some(line.(state := Claimed, claimedBy := Some(staff))) else None
    case Complete(_) =>
      if line.state == Waiting || line.state == Claimed then Some(line.(state := Done)) else None
    case VoidLine(_) =>
      if line.state != Voided then Some(line.(state := Voided)) else None
  }

  /** SELECT ... FOR UPDATE on the line. */
  function LockLine(db: Db, others: Locks, tx: Tx): Outcome
    requires tx.op.OnLine()
  {
    if tx.op.line !in db.lines then RolledBack
    else if tx.op.line in others.lines then Blocked
    else Proceed(tx.(phase := LineLocked(db.lines[tx.op.line].ticket),
                     locks := tx.locks.(lines := tx.locks.lines + {tx.op.line})))
  }

  function ChangeLine(db: Db, tx: Tx): Outcome
    requires tx.op.OnLine() && tx.phase.LineLocked?
  {
    if tx.op.line !in db.lines then RolledBack
    else match ChangeOf(tx.op, db.lines[tx.op.line])
      case None => RolledBack
      case Some(line) =>
        Proceed(tx.(phase := LineChanged(tx.phase.ticket),
                    lines := map[tx.op.line := line],
                    claims := if tx.op.Claim? then multiset{(tx.op.line, tx.op.staff)} else multiset{}))
  }

  /** SELECT ... FOR UPDATE on the ticket. */
  function LockTicket(db: Db, others: Locks, tx: Tx, t: TicketId): Outcome {
    if t !in db.tickets then RolledBack
    else if t in others.tickets then Blocked
    else Proceed(tx.(phase := TicketLocked(t, db.tickets[t].state),
                     locks := tx.locks.(tickets := tx.locks.tickets + {t})))
  }

  function LoadLines(db: Db, tx: Tx): Outcome
    requires tx.phase.TicketLocked?
  {
    var t := tx.phase.ticket;
    Proceed(tx.(phase := LinesLoaded(t, tx.phase.seen, LinesOf(ViewLines(db, tx), t))))
  }

  /** The last statement of mutateLine: re-derive unless the ticket has passed. */
  ghost function WriteDerived(db: Db, tx: Tx): Outcome
    requires tx.phase.LinesLoaded?
  {
    var t := tx.phase.ticket;
    if tx.phase.seen == Passed || t !in db.tickets then Proceed(tx.(phase := Finished))
    else Proceed(tx.(phase := Finished,
                     tickets := map[t := db.tickets[t].(state := Derived(tx.phase.loaded, t))]))
  }

  /** The last statements of Pass: nothing if passed already, refused unless
      ready, otherwise the state and the event together. */
  ghost function WritePassed(db: Db, tx: Tx): Outcome
    requires tx.phase.LinesLoaded?
  {
    var t := tx.phase.ticket;
    if tx.phase.seen == Passed || t !in db.tickets then Proceed(tx.(phase := Finished))
    else if Derived(tx.phase.loaded, t) != Ready then RolledBack
    else Proceed(tx.(phase := Finished,
                     tickets := map[t := db.tickets[t].(state := Passed)],
                     passed := multiset{t}))
  }

  /** VoidTicket's first two statements: find the ticket, fix the lines to void. */
  ghost function FindTicket(db: Db, tx: Tx): Outcome
    requires tx.op.VoidTicket?
  {
    if t :| t in db.tickets && db.tickets[t].order == tx.op.order then
      Proceed(tx.(phase := VoidingLines(t,
        set l | l in db.lines && db.lines[l].ticket == t && db.lines[l].state != Voided)))
    else RolledBack
  }

  /** One row of the UPDATE that voids every line. A row that was voided while
      this statement waited for it no longer matches. */
  function VoidOne(db: Db, others: Locks, tx: Tx, l: LineId): Outcome
    requires tx.phase.VoidingLines?
  {
    var rest := tx.(phase := tx.phase.(todo := tx.phase.todo - {l}));
    if l !in tx.phase.todo then Blocked
    else if l !in db.lines || db.lines[l].state == Voided then Proceed(rest)
    else if l in others.lines then Blocked
    else Proceed(rest.(locks := tx.locks.(lines := tx.locks.lines + {l}),
                       lines := tx.lines[l := db.lines[l].(state := Voided)]))
  }

  /** VoidTicket's last statement, whose WHERE clause leaves a passed ticket
      alone and so does not lock it either. */
  function VoidWhole(db: Db, others: Locks, tx: Tx): Outcome
    requires tx.phase.VoidingLines?
  {
    var t := tx.phase.ticket;
    if t !in db.tickets || db.tickets[t].state == Passed then Proceed(tx.(phase := Finished))
    else if t in others.tickets then Blocked
    else Proceed(tx.(phase := Finished,
                     locks := tx.locks.(tickets := tx.locks.tickets + {t}),
                     tickets := map[t := db.tickets[t].(state := TicketVoided)]))
  }

  /** INSERT ... ON CONFLICT (order) DO NOTHING, then the lines. A conflict with
      a committed ticket is a repeat and writes nothing; one with an uncommitted
      ticket waits to see whether it commits. A primary key collision is an
      error. */
  ghost function InsertTicket(db: Db, others: Locks, tx: Tx): Outcome
    requires tx.op.Create?
  {
    var Create(t, order, lines) := tx.op;
    if exists u :: u in db.tickets && db.tickets[u].order == order then Proceed(tx.(phase := Finished))
    else if order in others.orders || t in others.tickets || lines * others.lines != {} then Blocked
    else if t in db.tickets || lines * db.lines.Keys != {} then RolledBack
    else Proceed(tx.(phase := Finished,
                     locks := Locks(lines, {t}, {order}),
                     tickets := map[t := Ticket(order, TicketWaiting)],
                     lines := map l | l in lines :: Line(t, Waiting, None)))
  }

  /** The next statement of a transaction. */
  ghost function Statement(db: Db, others: Locks, tx: Tx, pick: LineId): Outcome {
    match tx.phase
    case Begun =>
      if tx.op.OnLine() then LockLine(db, others, tx)
      else if tx.op.Pass? then LockTicket(db, others, tx, tx.op.ticket)
      else if tx.op.VoidTicket? then FindTicket(db, tx)
      else InsertTicket(db, others, tx)
    case LineLocked(_) => if tx.op.OnLine() then ChangeLine(db, tx) else RolledBack
    case LineChanged(t) => LockTicket(db, others, tx, t)
    case TicketLocked(_, _) => LoadLines(db, tx)
    case LinesLoaded(_, _, _) => if tx.op.Pass? then WritePassed(db, tx) else WriteDerived(db, tx)
    case VoidingLines(_, todo) =>
      if todo == {} then VoidWhole(db, others, tx) else VoidOne(db, others, tx, pick)
    case Finished => Blocked
  }

  ghost function LocksOfOthers(s: State, x: TxId): Locks {
    Locks(set y, l | y in s.txs && y != x && l in s.txs[y].locks.lines :: l,
          set y, t | y in s.txs && y != x && t in s.txs[y].locks.tickets :: t,
          set y, o | y in s.txs && y != x && o in s.txs[y].locks.orders :: o)
  }

  datatype Step =
    | Begin(tx: TxId, op: Op)
    | Advance(tx: TxId, pick: LineId)
    | Commit(tx: TxId)
    | Abort(tx: TxId)

  function CommitDb(db: Db, tx: Tx): Db {
    Db(db.tickets + tx.tickets, db.lines + tx.lines, db.passed + tx.passed, db.claims + tx.claims)
  }

  /** The only caller that creates tickets never sends an empty one. */
  predicate Sendable(op: Op) { op.Create? ==> op.lines != {} }

  /** One step of the system. A step that is not possible, or has to wait,
      changes nothing. */
  ghost function Exec(s: State, step: Step): State {
    match step
    case Begin(x, op) =>
      if x in s.txs || !Sendable(op) then s else s.(txs := s.txs[x := Start(op)])
    case Advance(x, pick) =>
      if x !in s.txs then s
      else (match Statement(s.db, LocksOfOthers(s, x), s.txs[x], pick)
            case Blocked => s
            case RolledBack => s.(txs := s.txs - {x})
            case Proceed(tx) => s.(txs := s.txs[x := tx]))
    case Commit(x) =>
      if x !in s.txs || !s.txs[x].phase.Finished? then s
      else State(CommitDb(s.db, s.txs[x]), s.txs - {x})
    case Abort(x) => s.(txs := s.txs - {x})
  }

  /** Others make a transaction wait and do nothing else to it: it is refused, and goes on,
      exactly as it would be alone, where it never waits. */
  lemma OthersOnlyDelay(s: State, x: TxId, pick: LineId)
    requires x in s.txs
    ensures var alone := State(s.db, map[x := s.txs[x]]);
            var next, t := Exec(alone, Advance(x, pick)), Exec(s, Advance(x, pick));
            && (t == s || t == State(s.db, (s.txs - {x}) + next.txs))
            && (next == alone <==>
                  s.txs[x].phase.Finished? || (s.txs[x].phase.VoidingLines? && s.txs[x].phase.todo != {} && pick !in s.txs[x].phase.todo))
  {
    hide ChangeOf, LinesOf, Derived;
    assert LocksOfOthers(State(s.db, map[x := s.txs[x]]), x) == Locks({}, {}, {});
  }

  ghost function Run(s: State, steps: seq<Step>): State
    decreases |steps|
  {
    if steps == [] then s else Run(Exec(s, steps[0]), steps[1..])
  }

  const EMPTY := State(Db(map[], map[], multiset{}, multiset{}), map[])

  // ------------------------------------------------------------------ invariant

  /** A ticket's stored state is either passed, with nothing left to cook, or
      exactly what its lines say. */
  ghost predicate TicketOk(state: TicketState, lines: map<LineId, Line>, t: TicketId) {
    if state == Passed then Served(lines, t) else state == Derived(lines, t)
  }

  ghost predicate TicketsOk(tickets: map<TicketId, Ticket>, lines: map<LineId, Line>) {
    forall t :: t in tickets ==> TicketOk(tickets[t].state, lines, t)
  }

  /** Every line is on a ticket that exists, and a line nobody has started has
      no cook. */
  ghost predicate LinesOk(lines: map<LineId, Line>, tickets: map<TicketId, Ticket>) {
    forall l :: l in lines ==>
      lines[l].ticket in tickets && (lines[l].state == Waiting ==> lines[l].claimedBy == None)
  }

  ghost predicate OrdersUnique(tickets: map<TicketId, Ticket>) {
    forall t, u :: t in tickets && u in tickets && tickets[t].order == tickets[u].order ==> t == u
  }

  /** One kitchen.passed event for each ticket that is passed, none for another. */
  ghost predicate PassedOk(tickets: map<TicketId, Ticket>, passed: multiset<TicketId>) {
    forall t :: passed[t] == if t in tickets && tickets[t].state == Passed then 1 else 0
  }

  /** One committed claim for each line that has a cook, by that cook. */
  ghost predicate ClaimsOk(lines: map<LineId, Line>, claims: multiset<(LineId, StaffId)>) {
    forall l, c :: claims[(l, c)] == if l in lines && lines[l].claimedBy == Some(c) then 1 else 0
  }

  ghost predicate DbOk(db: Db) {
    && TicketsOk(db.tickets, db.lines)
    && LinesOk(db.lines, db.tickets)
    && OrdersUnique(db.tickets)
    && PassedOk(db.tickets, db.passed)
    && ClaimsOk(db.lines, db.claims)
  }

  function Rank(s: LineState): nat {
    match s case Waiting => 0 case Claimed => 1 case Done => 2 case Voided => 3
  }

  /** A line only moves forward, stays on its ticket, and keeps its cook. */
  ghost predicate Forward(before: Line, after: Line) {
    && Rank(before.state) <= Rank(after.state)
    && before.ticket == after.ticket
    && (before.claimedBy.Some? ==> after.claimedBy == before.claimedBy)
    && (after.state == Waiting ==> after.claimedBy == None)
  }

  /** Pending lines are locked and move committed lines forward. */
  ghost predicate LineWritesOk(committed: map<LineId, Line>, pending: map<LineId, Line>, locked: set<LineId>) {
    && pending.Keys <= locked
    && (forall l :: l in pending && l in committed ==> Forward(committed[l], pending[l]))
    && (forall l :: l in pending && pending[l].state == Waiting ==> pending[l].claimedBy == None)
  }

  /** At most one ticket is pending. It is locked; it keeps its order and does
      not overwrite a passed one, or it is new and its order is new. */
  ghost predicate TicketWritesOk(committed: map<TicketId, Ticket>, pending: map<TicketId, Ticket>, locks: Locks) {
    && pending.Keys <= locks.tickets
    && (forall t, u :: t in pending && u in pending ==> t == u)
    && (forall t :: t in pending && t in committed ==>
          committed[t].state != Passed && pending[t].order == committed[t].order)
    && (forall t, u :: t in pending && t !in committed && u in committed ==> committed[u].order != pending[t].order)
    && (forall t :: t in pending && t !in committed ==> pending[t].order in locks.orders)
  }

  /** A pending claim is one the commit will make. */
  ghost predicate PendingClaimsOk(committed: map<LineId, Line>, pending: map<LineId, Line>,
                                  claims: multiset<(LineId, StaffId)>) {
    forall l, c :: claims[(l, c)] ==
      if l in pending && pending[l].claimedBy == Some(c) && !(l in committed && committed[l].claimedBy == Some(c))
      then 1 else 0
  }

  ghost predicate WritesOk(db: Db, tx: Tx) {
    && LineWritesOk(db.lines, tx.lines, tx.locks.lines)
    && TicketWritesOk(db.tickets, tx.tickets, tx.locks)
    && PassedOk(tx.tickets, tx.passed)
    && PendingClaimsOk(db.lines, tx.lines, tx.claims)
  }

  /** Everything the transaction has written so far is lines of ticket t. */
  ghost predicate OnlyLinesOf(db: Db, pending: map<LineId, Line>, t: TicketId) {
    && t in db.tickets
    && (forall l :: l in pending ==> l in db.lines && pending[l].ticket == t)
  }

  ghost predicate VoidedBut(lines: map<LineId, Line>, t: TicketId, todo: set<LineId>) {
    forall l :: l in lines && lines[l].ticket == t && l !in todo ==> lines[l].state == Voided
  }

  /** A pending line whose ticket is not written with it is on a passed ticket,
      and a new line is on a new ticket. */
  ghost predicate LinesHomed(db: Db, lines: map<LineId, Line>, tickets: map<TicketId, Ticket>) {
    && (forall l :: l in lines && lines[l].ticket !in tickets ==>
          l in db.lines && lines[l].ticket in db.tickets && db.tickets[lines[l].ticket].state == Passed)
    && (forall l :: l in lines && l !in db.lines ==> lines[l].ticket !in db.tickets)
  }

  ghost predicate PhaseOk(db: Db, tx: Tx) {
    match tx.phase
    case Begun => Sendable(tx.op) && tx.lines == map[] && tx.tickets == map[] && tx.locks == Locks({}, {}, {})
    case LineLocked(t) =>
      && tx.op.OnLine() && tx.lines == map[] && tx.tickets == map[]
      && tx.locks.tickets == {} && tx.locks.orders == {}
      && tx.op.line in tx.locks.lines && tx.op.line in db.lines && db.lines[tx.op.line].ticket == t
    case LineChanged(t) =>
      && tx.op.OnLine() && tx.tickets == map[] && OnlyLinesOf(db, tx.lines, t)
      && tx.locks.tickets == {} && tx.locks.orders == {}
    case TicketLocked(t, seen) =>
      && tx.tickets == map[] && OnlyLinesOf(db, tx.lines, t)
      && t in tx.locks.tickets && tx.locks.orders == {} && seen == db.tickets[t].state
      && (tx.op.Pass? ==> tx.lines == map[])
    case LinesLoaded(t, seen, loaded) =>
      && tx.tickets == map[] && OnlyLinesOf(db, tx.lines, t)
      && t in tx.locks.tickets && tx.locks.orders == {} && seen == db.tickets[t].state
      && (tx.op.Pass? ==> tx.lines == map[])
      && (seen != Passed ==> loaded == LinesOf(ViewLines(db, tx), t))
    case VoidingLines(t, todo) =>
      && tx.tickets == map[] && OnlyLinesOf(db, tx.lines, t)
      && tx.locks == Locks(tx.lines.Keys, {}, {})
      && VoidedBut(ViewLines(db, tx), t, todo)
      && (forall l :: l in todo ==> l in db.lines && db.lines[l].ticket == t && l !in tx.lines)
    case Finished =>
      && TicketsOk(tx.tickets, ViewLines(db, tx))
      && LinesHomed(db, tx.lines, tx.tickets)
  }

  ghost predicate TxOk(db: Db, tx: Tx) { WritesOk(db, tx) && PhaseOk(db, tx) }

  ghost predicate Disjoint(a: Locks, b: Locks) {
    a.lines !! b.lines && a.tickets !! b.tickets && a.orders !! b.orders
  }

  ghost predicate Inv(s: State) {
    && DbOk(s.db)
    && (forall x :: x in s.txs ==> TxOk(s.db, s.txs[x]))
    && (forall x, y :: x in s.txs && y in s.txs && x != y ==> Disjoint(s.txs[x].locks, s.txs[y].locks))
  }

  // --------------------------------------------------- every statement keeps it

  lemma SameLinesSameDerived(a: map<LineId, Line>, b: map<LineId, Line>, t: TicketId)
    requires LinesOf(a, t) == LinesOf(b, t)
    ensures forall s :: Has(a, t, s) == Has(b, t, s)
    ensures Derived(a, t) == Derived(b, t)
  {
    forall s ensures Has(a, t, s) == Has(b, t, s) {
      if Has(a, t, s) {
        var l :| l in a && a[l].ticket == t && a[l].state == s;
        assert l in LinesOf(a, t) && l in LinesOf(b, t) && LinesOf(b, t)[l] == a[l];
      }
      if Has(b, t, s) {
        var l :| l in b && b[l].ticket == t && b[l].state == s;
        assert l in LinesOf(b, t) && l in LinesOf(a, t) && LinesOf(a, t)[l] == b[l];
      }
    }
  }

  lemma DerivedOfLoaded(lines: map<LineId, Line>, t: TicketId)
    ensures Derived(LinesOf(lines, t), t) == Derived(lines, t)
    ensures forall s :: Has(LinesOf(lines, t), t, s) == Has(lines, t, s)
  {
    SameLinesSameDerived(LinesOf(lines, t), lines, t);
  }

  lemma ChangeLineOk(db: Db, tx: Tx)
    requires DbOk(db) && TxOk(db, tx) && tx.phase.LineLocked? && tx.op.OnLine()
    requires ChangeLine(db, tx).Proceed?
    ensures TxOk(db, ChangeLine(db, tx).tx)
  {
    hide TicketsOk, OrdersUnique, LinesOf, ViewLines, Sendable;
  }

  lemma UpdateOk(db: Db, tx: Tx, t: TicketId, state: TicketState)
    requires TicketWritesOk(db.tickets, tx.tickets, tx.locks) && OnlyLinesOf(db, tx.lines, t)
    requires t in tx.locks.tickets && db.tickets[t].state != Passed
    requires TicketOk(state, ViewLines(db, tx), t)
    ensures var pending := map[t := db.tickets[t].(state := state)];
            && TicketWritesOk(db.tickets, pending, tx.locks)
            && TicketsOk(pending, ViewLines(db, tx))
            && LinesHomed(db, tx.lines, pending)
            && PassedOk(pending, if state == Passed then multiset{t} else multiset{})
  {
    hide TicketOk;
  }

  lemma WriteDerivedOk(db: Db, tx: Tx)
    requires DbOk(db) && TxOk(db, tx) && tx.phase.LinesLoaded?
    requires WriteDerived(db, tx).Proceed?
    ensures TxOk(db, WriteDerived(db, tx).tx)
  {
    hide Has, LinesOf, DbOk;
    var t := tx.phase.ticket;
    if tx.phase.seen != Passed {
      DerivedOfLoaded(ViewLines(db, tx), t);
      UpdateOk(db, tx, t, Derived(tx.phase.loaded, t));
    }
  }

  lemma WritePassedOk(db: Db, tx: Tx)
    requires DbOk(db) && TxOk(db, tx) && tx.phase.LinesLoaded? && tx.op.Pass?
    requires WritePassed(db, tx).Proceed?
    ensures TxOk(db, WritePassed(db, tx).tx)
  {
    hide Has, LinesOf, DbOk;
    var t := tx.phase.ticket;
    if tx.phase.seen != Passed {
      DerivedOfLoaded(ViewLines(db, tx), t);
      UpdateOk(db, tx, t, Passed);
    }
  }

  lemma FindTicketOk(db: Db, tx: Tx)
    requires DbOk(db) && TxOk(db, tx) && tx.phase.Begun? && tx.op.VoidTicket?
    requires FindTicket(db, tx).Proceed?
    ensures TxOk(db, FindTicket(db, tx).tx)
  {
  }

  lemma VoidOneWrites(db: Db, others: Locks, tx: Tx, l: LineId)
    requires TxOk(db, tx) && tx.phase.VoidingLines? && VoidOne(db, others, tx, l).Proceed?
    ensures WritesOk(db, VoidOne(db, others, tx, l).tx)
  {
    hide PassedOk;
  }

  lemma VoidOneOk(db: Db, others: Locks, tx: Tx, l: LineId)
    requires TxOk(db, tx) && tx.phase.VoidingLines?
    requires VoidOne(db, others, tx, l).Proceed?
    ensures TxOk(db, VoidOne(db, others, tx, l).tx)
  {
    hide WritesOk, PhaseOk, VoidOne;
    VoidOneWrites(db, others, tx, l);
    VoidOnePhase(db, others, tx, l);
  }

  lemma VoidOnePhase(db: Db, others: Locks, tx: Tx, l: LineId)
    requires PhaseOk(db, tx) && tx.phase.VoidingLines?
    requires VoidOne(db, others, tx, l).Proceed?
    ensures PhaseOk(db, VoidOne(db, others, tx, l).tx)
  {
    hide VoidedBut, ViewLines, Sendable, LinesHomed, TicketsOk, LinesOf;
    VoidOneLeaves(db, others, tx, l);
    if db.lines[l].state != Voided {
      assert tx.lines[l := db.lines[l].(state := Voided)].Keys == tx.lines.Keys + {l};
    }
  }

  lemma VoidOneLeaves(db: Db, others: Locks, tx: Tx, l: LineId)
    requires tx.phase.VoidingLines? && VoidOne(db, others, tx, l).Proceed?
    requires VoidedBut(ViewLines(db, tx), tx.phase.ticket, tx.phase.todo) && l !in tx.lines
    ensures VoidedBut(ViewLines(db, VoidOne(db, others, tx, l).tx), tx.phase.ticket, tx.phase.todo - {l})
  {
  }

  lemma VoidWholeOk(db: Db, others: Locks, tx: Tx)
    requires TxOk(db, tx) && tx.phase.VoidingLines? && tx.phase.todo == {}
    requires VoidWhole(db, others, tx).Proceed?
    ensures TxOk(db, VoidWhole(db, others, tx).tx)
  {
    hide LineWritesOk, PendingClaimsOk;
    var t := tx.phase.ticket;
    if db.tickets[t].state != Passed {
      assert Derived(ViewLines(db, tx), t) == TicketVoided;
      UpdateOk(db, tx.(locks := tx.locks.(tickets := tx.locks.tickets + {t})), t, TicketVoided);
    }
  }

  lemma InsertOk(db: Db, others: Locks, tx: Tx)
    requires LinesOk(db.lines, db.tickets) && TxOk(db, tx) && tx.phase.Begun? && tx.op.Create?
    requires InsertTicket(db, others, tx).Proceed?
    ensures TxOk(db, InsertTicket(db, others, tx).tx)
  {
    var Create(t, order, lines) := tx.op;
    var after := InsertTicket(db, others, tx).tx;
    if after.tickets != map[] {
      var l :| l in lines;
      var view := ViewLines(db, after);
      assert Has(view, t, Waiting) by { assert l in view; }
      assert Derived(view, t) == TicketWaiting;
      assert TicketWritesOk(db.tickets, after.tickets, after.locks);
      forall k | k in lines ensures k !in db.lines {
        assert k !in lines * db.lines.Keys;
      }
    }
  }

  lemma BegunOk(db: Db, others: Locks, tx: Tx)
    requires DbOk(db) && TxOk(db, tx) && tx.phase.Begun?
    requires Statement(db, others, tx, 0).Proceed?
    ensures TxOk(db, Statement(db, others, tx, 0).tx)
  {
    if tx.op.VoidTicket? {
      FindTicketOk(db, tx);
    } else if tx.op.Create? {
      InsertOk(db, others, tx);
    }
  }

  lemma StatementOk(db: Db, others: Locks, tx: Tx, pick: LineId)
    requires DbOk(db) && TxOk(db, tx)
    requires Statement(db, others, tx, pick).Proceed?
    ensures TxOk(db, Statement(db, others, tx, pick).tx)
  {
    hide DbOk, LineWritesOk, PassedOk, PendingClaimsOk;
    match tx.phase
    case Begun =>
      BegunOk(db, others, tx);
      assert Statement(db, others, tx, 0) == Statement(db, others, tx, pick);
    case LineLocked(_) => ChangeLineOk(db, tx);
    case LineChanged(t) =>
    case TicketLocked(_, _) =>
    case LinesLoaded(_, _, _) =>
      if tx.op.Pass? { WritePassedOk(db, tx); } else { WriteDerivedOk(db, tx); }
    case VoidingLines(_, todo) =>
      if todo == {} { VoidWholeOk(db, others, tx); } else { VoidOneOk(db, others, tx, pick); }
    case Finished =>
  }

  /** A statement takes no lock that another transaction holds. */
  lemma StatementLocksFree(db: Db, others: Locks, tx: Tx, pick: LineId)
    requires TxOk(db, tx) && Disjoint(tx.locks, others)
    requires Statement(db, others, tx, pick).Proceed?
    ensures Disjoint(Statement(db, others, tx, pick).tx.locks, others)
  {
    hide WritesOk;
  }

  // ------------------------------------------------------ every commit keeps it

  /** Once nothing of a ticket is left to cook, lines moving forward keep it so. */
  lemma ServedStays(db: Db, tx: Tx, t: TicketId)
    requires LineWritesOk(db.lines, tx.lines, tx.locks.lines) && Served(db.lines, t)
    requires forall l :: l in tx.lines && tx.lines[l].ticket == t ==> l in db.lines
    ensures Served(ViewLines(db, tx), t)
  {
    forall l | l in ViewLines(db, tx) && ViewLines(db, tx)[l].ticket == t
      ensures ViewLines(db, tx)[l].state != Waiting && ViewLines(db, tx)[l].state != Claimed
    {
      if l in db.lines {
        assert db.lines[l].ticket == t;
        assert Has(db.lines, t, db.lines[l].state);
      }
    }
  }

  lemma CommitTicketOk(db: Db, tx: Tx, t: TicketId)
    requires TicketsOk(db.tickets, db.lines) && TicketsOk(tx.tickets, ViewLines(db, tx))
    requires LineWritesOk(db.lines, tx.lines, tx.locks.lines) && LinesHomed(db, tx.lines, tx.tickets)
    requires t in db.tickets && t !in tx.tickets
    ensures TicketOk(db.tickets[t].state, ViewLines(db, tx), t)
  {
    if db.tickets[t].state == Passed {
      ServedStays(db, tx, t);
    } else {
      hide Has;
      assert LinesOf(ViewLines(db, tx), t) == LinesOf(db.lines, t);
      SameLinesSameDerived(ViewLines(db, tx), db.lines, t);
    }
  }

  lemma CommitLinesOk(db: Db, tx: Tx)
    requires LinesOk(db.lines, db.tickets) && LineWritesOk(db.lines, tx.lines, tx.locks.lines)
    requires LinesHomed(db, tx.lines, tx.tickets)
    ensures LinesOk(ViewLines(db, tx), db.tickets + tx.tickets)
  {
  }

  lemma CommitHistoryOk(db: Db, tx: Tx)
    requires PassedOk(db.tickets, db.passed) && PassedOk(tx.tickets, tx.passed)
    requires TicketWritesOk(db.tickets, tx.tickets, tx.locks)
    requires ClaimsOk(db.lines, db.claims) && PendingClaimsOk(db.lines, tx.lines, tx.claims)
    requires LineWritesOk(db.lines, tx.lines, tx.locks.lines)
    ensures PassedOk(db.tickets + tx.tickets, db.passed + tx.passed)
    ensures ClaimsOk(ViewLines(db, tx), db.claims + tx.claims)
  {
  }

  lemma CommitOk(db: Db, tx: Tx)
    requires DbOk(db) && TxOk(db, tx) && tx.phase.Finished?
    ensures DbOk(CommitDb(db, tx))
  {
    hide TicketOk, Served, Forward;
    CommitLinesOk(db, tx);
    CommitHistoryOk(db, tx);
    hide LinesOk, PassedOk, ClaimsOk, PendingClaimsOk, LineWritesOk;
    forall t | t in db.tickets && t !in tx.tickets
      ensures TicketOk(db.tickets[t].state, ViewLines(db, tx), t)
    {
      CommitTicketOk(db, tx, t);
    }
  }

  lemma CommitKeepsWrites(db: Db, x: Tx, y: Tx)
    requires WritesOk(db, x) && WritesOk(db, y) && Disjoint(x.locks, y.locks)
    ensures WritesOk(CommitDb(db, x), y)
  {
  }

  /** A commit changes no line of a ticket that is somebody else's to write. */
  lemma CommitKeepsLines(db: Db, x: Tx, y: Tx, t: TicketId)
    requires LineWritesOk(db.lines, x.lines, x.locks.lines) && LinesHomed(db, x.lines, x.tickets)
    requires t !in x.tickets && !(t in db.tickets && db.tickets[t].state == Passed)
    ensures LinesOf(ViewLines(CommitDb(db, x), y), t) == LinesOf(ViewLines(db, y), t)
  {
  }

  lemma CommitKeepsVoiding(db: Db, x: Tx, y: Tx)
    requires LineWritesOk(db.lines, x.lines, x.locks.lines) && LinesHomed(db, x.lines, x.tickets)
    requires PhaseOk(db, y) && y.phase.VoidingLines?
    ensures PhaseOk(CommitDb(db, x), y)
  {
    CommitKeepsVoidedBut(db, x, y, y.phase.ticket, y.phase.todo);
    hide VoidedBut, ViewLines, LinesHomed;
  }

  lemma CommitKeepsVoidedBut(db: Db, x: Tx, y: Tx, t: TicketId, todo: set<LineId>)
    requires LineWritesOk(db.lines, x.lines, x.locks.lines) && LinesHomed(db, x.lines, x.tickets)
    requires OnlyLinesOf(db, y.lines, t) && VoidedBut(ViewLines(db, y), t, todo)
    ensures VoidedBut(ViewLines(CommitDb(db, x), y), t, todo)
  {
    var before, after := ViewLines(db, y), ViewLines(CommitDb(db, x), y);
    forall l | l in after && after[l].ticket == t && l !in todo
      ensures after[l].state == Voided
    {
      assert l in db.lines;
      assert l in before && before[l].ticket == t;
    }
  }

  lemma CommitKeepsEarly(db: Db, x: Tx, y: Tx)
    requires LineWritesOk(db.lines, x.lines, x.locks.lines) && x.tickets.Keys <= x.locks.tickets
    requires PhaseOk(db, y) && Disjoint(x.locks, y.locks)
    requires y.phase.Begun? || y.phase.LineLocked? || y.phase.LineChanged? || y.phase.TicketLocked?
    ensures PhaseOk(CommitDb(db, x), y)
  {
    hide VoidedBut, LinesHomed, TicketsOk, LinesOf;
  }

  lemma CommitKeepsLoaded(db: Db, x: Tx, y: Tx)
    requires WritesOk(db, x) && PhaseOk(db, y) && x.phase.Finished? && PhaseOk(db, x)
    requires y.phase.LinesLoaded? && Disjoint(x.locks, y.locks)
    ensures PhaseOk(CommitDb(db, x), y)
  {
    hide PassedOk, PendingClaimsOk, TicketsOk, LinesOf;
    if y.phase.seen != Passed {
      CommitKeepsLines(db, x, y, y.phase.ticket);
    }
  }

  lemma CommitKeepsPending(db: Db, x: Tx, y: Tx, t: TicketId)
    requires TxOk(db, x) && TxOk(db, y) && x.phase.Finished? && y.phase.Finished?
    requires Disjoint(x.locks, y.locks) && t in y.tickets
    ensures TicketOk(y.tickets[t].state, ViewLines(CommitDb(db, x), y), t)
  {
    hide PassedOk, PendingClaimsOk, LinesOf, Has, ViewLines;
    assert TicketOk(y.tickets[t].state, ViewLines(db, y), t);
    CommitKeepsLines(db, x, y, t);
    SameLinesSameDerived(ViewLines(CommitDb(db, x), y), ViewLines(db, y), t);
  }

  lemma CommitKeepsHomed(db: Db, x: Tx, y: Tx)
    requires TxOk(db, x) && TxOk(db, y) && x.phase.Finished? && y.phase.Finished?
    requires Disjoint(x.locks, y.locks)
    ensures LinesHomed(CommitDb(db, x), y.lines, y.tickets)
  {
    hide PassedOk, PendingClaimsOk, LinesOf, Has, ViewLines, TicketsOk;
  }

  lemma CommitKeepsFinished(db: Db, x: Tx, y: Tx)
    requires TxOk(db, x) && TxOk(db, y) && x.phase.Finished? && y.phase.Finished?
    requires Disjoint(x.locks, y.locks)
    ensures PhaseOk(CommitDb(db, x), y)
  {
    hide WritesOk, Disjoint, TicketOk, ViewLines, LinesHomed, CommitDb;
    CommitKeepsHomed(db, x, y);
    forall t | t in y.tickets
      ensures TicketOk(y.tickets[t].state, ViewLines(CommitDb(db, x), y), t)
    {
      CommitKeepsPending(db, x, y, t);
    }
  }

  lemma CommitKeepsPhase(db: Db, x: Tx, y: Tx)
    requires TxOk(db, x) && TxOk(db, y) && x.phase.Finished? && Disjoint(x.locks, y.locks)
    ensures PhaseOk(CommitDb(db, x), y)
  {
    assert LinesHomed(db, x.lines, x.tickets);
    assert x.tickets.Keys <= x.locks.tickets;
    hide TicketsOk, LinesHomed, LineWritesOk, TicketWritesOk;
    match y.phase
    case LinesLoaded(_, _, _) => CommitKeepsLoaded(db, x, y);
    case Finished => CommitKeepsFinished(db, x, y);
    case VoidingLines(t, todo) => CommitKeepsVoiding(db, x, y);
    case _ => CommitKeepsEarly(db, x, y);
  }

  lemma StartOk(db: Db, op: Op)
    requires Sendable(op)
    ensures TxOk(db, Start(op))
  {
  }

  lemma AdvanceKeepsInv(s: State, x: TxId, pick: LineId)
    requires Inv(s) && x in s.txs
    ensures Inv(Exec(s, Advance(x, pick)))
  {
    hide DbOk, TxOk, Statement;
    var others := LocksOfOthers(s, x);
    assert Disjoint(s.txs[x].locks, others);
    if Statement(s.db, others, s.txs[x], pick).Proceed? {
      StatementOk(s.db, others, s.txs[x], pick);
      StatementLocksFree(s.db, others, s.txs[x], pick);
    }
  }

  lemma CommitKeepsInv(s: State, x: TxId)
    requires Inv(s) && x in s.txs && s.txs[x].phase.Finished?
    ensures Inv(Exec(s, Commit(x)))
  {
    CommitOk(s.db, s.txs[x]);
    forall y | y in s.txs && y != x ensures TxOk(CommitDb(s.db, s.txs[x]), s.txs[y]) {
      CommitKeepsWrites(s.db, s.txs[x], s.txs[y]);
      CommitKeepsPhase(s.db, s.txs[x], s.txs[y]);
    }
    hide DbOk, TxOk;
  }

  lemma InvStep(s: State, step: Step)
    requires Inv(s)
    ensures Inv(Exec(s, step))
  {
    hide DbOk, TxOk, Statement, LocksOfOthers;
    match step
    case Begin(x, op) =>
      if Sendable(op) { StartOk(s.db, op); }
    case Advance(x, pick) =>
      if x in s.txs { AdvanceKeepsInv(s, x, pick); }
    case Commit(x) =>
      if x in s.txs && s.txs[x].phase.Finished? { CommitKeepsInv(s, x); }
    case Abort(x) =>
  }

  // ------------------------------------------------------------------- theorems

  /** What an outsider can rely on after any interleaving of any transactions:
      each ticket is passed with nothing left to cook or says exactly what its
      lines say; each passed ticket was announced once and no other ticket was;
      each line was claimed at most once, by the cook it shows. */
  lemma {:induction false} EveryRunKeepsTicketsDerived(s: State, steps: seq<Step>)
    requires Inv(s)
    ensures Inv(Run(s, steps))
    decreases |steps|
  {
    if steps != [] {
      InvStep(s, steps[0]);
      EveryRunKeepsTicketsDerived(Exec(s, steps[0]), steps[1..]);
    }
  }

  lemma EmptyOk()
    ensures Inv(EMPTY)
  {
  }

  /** The same, said without the machinery: from an empty database, whatever the
      steps, a committed ticket's state is right, its announcements are right and
      a line has had no cook but the one it shows. */
  lemma CommittedStateIsDerived(steps: seq<Step>, t: TicketId, l: LineId, c: StaffId)
    ensures var db := Run(EMPTY, steps).db;
            && (t in db.tickets ==>
                  if db.tickets[t].state == Passed then Served(db.lines, t)
                  else db.tickets[t].state == Derived(db.lines, t))
            && db.passed[t] == (if t in db.tickets && db.tickets[t].state == Passed then 1 else 0)
            && db.claims[(l, c)] == (if l in db.lines && db.lines[l].claimedBy == Some(c) then 1 else 0)
  {
    EmptyOk();
    EveryRunKeepsTicketsDerived(EMPTY, steps);
  }

  /** So after any interleaving a committed ticket that is not passed is gone exactly when
      no line is still on, ready exactly when all that are still on are done, cooking
      exactly when some are to do and some begun or done, and otherwise waiting. */
  lemma CommittedStateSays(steps: seq<Step>, t: TicketId, state: TicketState)
    requires t in Run(EMPTY, steps).db.tickets && Run(EMPTY, steps).db.tickets[t].state != Passed
    ensures Says(Run(EMPTY, steps).db.lines, t, state) <==> Run(EMPTY, steps).db.tickets[t].state == state
  {
    hide Run, Says, Derived;
    CommittedStateIsDerived(steps, t, 0, 0);
    DerivedSays(Run(EMPTY, steps).db.lines, t, state);
  }

  ghost predicate DbForward(a: Db, b: Db) {
    && (forall t :: t in a.tickets ==> t in b.tickets && a.tickets[t].order == b.tickets[t].order)
    && (forall t :: t in a.tickets && a.tickets[t].state == Passed ==> b.tickets[t].state == Passed)
    && (forall l :: l in a.lines ==> l in b.lines && Forward(a.lines[l], b.lines[l]))
  }

  /** Nothing a run commits is ever taken back: a passed ticket stays passed, a
      line never moves backwards, leaves its ticket or changes cook. */
  lemma {:induction false} RunOnlyMovesForward(s: State, steps: seq<Step>)
    requires Inv(s)
    ensures DbForward(s.db, Run(s, steps).db)
    decreases |steps|
  {
    if steps == [] {
      ForwardReflexive(s.db);
    } else {
      var next := Exec(s, steps[0]);
      InvStep(s, steps[0]);
      StepOnlyMovesForward(s, steps[0]);
      RunOnlyMovesForward(next, steps[1..]);
      ForwardTransitive(s.db, next.db, Run(next, steps[1..]).db);
    }
  }

  lemma ForwardReflexive(db: Db)
    requires LinesOk(db.lines, db.tickets)
    ensures DbForward(db, db)
  {
  }

  lemma ForwardTransitive(a: Db, b: Db, c: Db)
    requires DbForward(a, b) && DbForward(b, c)
    ensures DbForward(a, c)
  {
  }

  lemma CommitOnlyMovesForward(db: Db, tx: Tx)
    requires LinesOk(db.lines, db.tickets) && LineWritesOk(db.lines, tx.lines, tx.locks.lines)
    requires TicketWritesOk(db.tickets, tx.tickets, tx.locks)
    ensures DbForward(db, CommitDb(db, tx))
  {
  }

  lemma StepOnlyMovesForward(s: State, step: Step)
    requires Inv(s)
    ensures DbForward(s.db, Exec(s, step).db)
  {
    ForwardReflexive(s.db);
    if step.Commit? && step.tx in s.txs {
      hide DbForward, PhaseOk;
      CommitOnlyMovesForward(s.db, s.txs[step.tx]);
    }
    hide DbForward, Statement, LocksOfOthers, Inv;
  }

  ghost predicate CanMove(s: State, x: TxId, pick: LineId) {
    && x in s.txs
    && (s.txs[x].phase.Finished? || Statement(s.db, LocksOfOthers(s, x), s.txs[x], pick) != Blocked)
  }

  ghost predicate HeldByVoider(s: State, x: TxId, l: LineId) {
    exists y :: y in s.txs && y != x && s.txs[y].phase.VoidingLines? && l in s.txs[y].locks.lines
  }

  /** Voiding a ticket, with lines left to void, and every one of them held by another
      that is voiding the same ticket. */
  ghost predicate StuckVoider(s: State, x: TxId)
    requires x in s.txs
  {
    var p := s.txs[x].phase;
    && p.VoidingLines? && p.todo != {}
    && forall l :: l in p.todo ==>
         && l in s.db.lines && s.db.lines[l].state != Voided
         && exists y :: VoidsSame(s, x, y) && l in s.txs[y].locks.lines
  }

  ghost predicate VoidsSame(s: State, x: TxId, y: TxId) {
    && x in s.txs && y in s.txs && y != x
    && s.txs[x].phase.VoidingLines? && s.txs[y].phase.VoidingLines?
    && s.txs[y].phase.ticket == s.txs[x].phase.ticket
  }

  /** Not yet under way, and waiting for a line a voiding transaction holds. */
  ghost predicate Bystander(s: State, x: TxId)
    requires x in s.txs
  {
    var op := s.txs[x].op;
    && s.txs[x].phase.Begun?
    && ((op.OnLine() && op.line in s.db.lines && HeldByVoider(s, x, op.line))
        || (op.Create? && !OrderKnown(s.db, op.order) && exists l :: l in op.lines && HeldByVoider(s, x, l)))
  }

  ghost predicate OrderKnown(db: Db, order: OrderId) {
    exists t :: t in db.tickets && db.tickets[t].order == order
  }

  /** Deadlock: voiders of the same ticket hold each other's lines, and whatever else is
      in flight waits for one of them. */
  ghost predicate Stuck(s: State) {
    forall x :: x in s.txs ==> StuckVoider(s, x) || Bystander(s, x)
  }

  ghost predicate HoldsTicket(p: Phase) { p.TicketLocked? || p.LinesLoaded? || p.Finished? }

  lemma NoTicketLocks(s: State, x: TxId)
    requires Inv(s) && forall y :: y in s.txs ==> !HoldsTicket(s.txs[y].phase)
    ensures LocksOfOthers(s, x).tickets == {} && LocksOfOthers(s, x).orders == {}
  {
    forall y | y in s.txs ensures s.txs[y].locks.tickets == {} && s.txs[y].locks.orders == {} {
      assert PhaseOk(s.db, s.txs[y]);
    }
  }

  lemma HolderMoves(s: State, x: TxId)
    requires Inv(s) && x in s.txs && (HoldsTicket(s.txs[x].phase) || s.txs[x].phase.LineLocked?)
    ensures CanMove(s, x, 0)
  {
    assert PhaseOk(s.db, s.txs[x]);
    hide Inv, LocksOfOthers;
  }

  ghost predicate NoneUnderWay(s: State) {
    forall y :: y in s.txs ==> s.txs[y].phase.Begun? || s.txs[y].phase.VoidingLines?
  }

  // What a transaction that has no ticket lock yet and is not on one line may hold.
  lemma VoiderHolds(db: Db, tx: Tx, l: LineId)
    requires TxOk(db, tx) && (tx.phase.Begun? || tx.phase.VoidingLines?) && l in tx.locks.lines
    ensures tx.phase.VoidingLines? && l in db.lines && l in tx.lines && tx.lines[l].ticket == tx.phase.ticket
    ensures db.lines[l].ticket == tx.phase.ticket
  {
    hide VoidedBut, TicketWritesOk, PassedOk, PendingClaimsOk;
  }

  lemma VoiderWaitsFor(db: Db, tx: Tx, l: LineId)
    requires PhaseOk(db, tx) && tx.phase.VoidingLines? && l in tx.phase.todo
    ensures l in db.lines && db.lines[l].ticket == tx.phase.ticket
  {
    hide VoidedBut;
  }

  lemma VoiderProceeds(s: State, x: TxId, pick: LineId)
    requires x in s.txs && s.txs[x].phase.VoidingLines? && LocksOfOthers(s, x).tickets == {}
    requires s.txs[x].phase.todo != {} ==>
               && pick in s.txs[x].phase.todo
               && (pick in s.db.lines && s.db.lines[pick].state != Voided ==> pick !in LocksOfOthers(s, x).lines)
    ensures CanMove(s, x, pick)
  {
    hide LocksOfOthers;
  }

  // Who holds a line when nobody is past its line locks.
  lemma HolderVoids(s: State, x: TxId, l: LineId) returns (y: TxId)
    requires Inv(s) && NoneUnderWay(s) && l in LocksOfOthers(s, x).lines
    ensures y in s.txs && y != x && l in s.txs[y].locks.lines && s.txs[y].phase.VoidingLines?
    ensures l in s.db.lines && s.db.lines[l].ticket == s.txs[y].phase.ticket
    ensures HeldByVoider(s, x, l)
  {
    y :| y in s.txs && y != x && l in s.txs[y].locks.lines;
    assert TxOk(s.db, s.txs[y]);
    hide TxOk, DbOk, Disjoint;
    VoiderHolds(s.db, s.txs[y], l);
  }

  lemma HolderVoidsSame(s: State, x: TxId, l: LineId)
    requires Inv(s) && NoneUnderWay(s) && l in LocksOfOthers(s, x).lines
    requires x in s.txs && s.txs[x].phase.VoidingLines?
    requires l in s.db.lines && s.db.lines[l].ticket == s.txs[x].phase.ticket
    ensures exists y :: VoidsSame(s, x, y) && l in s.txs[y].locks.lines
  {
    hide Inv, LocksOfOthers, NoneUnderWay;
    var y := HolderVoids(s, x, l);
    assert VoidsSame(s, x, y);
  }

  lemma VoidingMoves(s: State, x: TxId) returns (pick: LineId)
    requires Inv(s) && x in s.txs && s.txs[x].phase.VoidingLines? && NoneUnderWay(s)
    requires LocksOfOthers(s, x).tickets == {} && !StuckVoider(s, x)
    ensures CanMove(s, x, pick)
  {
    hide Statement, TxOk, DbOk, Disjoint, CanMove, NoneUnderWay, LocksOfOthers;
    pick := 0;
    if s.txs[x].phase.todo == {} {
      VoiderProceeds(s, x, pick);
    } else {
      pick :| && pick in s.txs[x].phase.todo
              && !(pick in s.db.lines && s.db.lines[pick].state != Voided
                   && exists y :: VoidsSame(s, x, y) && pick in s.txs[y].locks.lines);
      VoiderPhase(s.db, s.txs[x]);
      VoiderWaitsFor(s.db, s.txs[x], pick);
      if pick in LocksOfOthers(s, x).lines {
        HolderVoidsSame(s, x, pick);
      }
      VoiderProceeds(s, x, pick);
    }
  }

  lemma BegunMoves(s: State, x: TxId)
    requires Inv(s) && x in s.txs && s.txs[x].phase.Begun? && NoneUnderWay(s)
    requires LocksOfOthers(s, x).tickets == {} && LocksOfOthers(s, x).orders == {} && !Bystander(s, x)
    ensures CanMove(s, x, 0)
  {
    hide Inv, LocksOfOthers, NoneUnderWay, HeldByVoider;
    var op, others := s.txs[x].op, LocksOfOthers(s, x);
    if op.OnLine() && op.line in others.lines {
      var y := HolderVoids(s, x, op.line);
    }
    if op.Create? && op.lines * others.lines != {} {
      var l :| l in op.lines * others.lines;
      var y := HolderVoids(s, x, l);
      assert OrderKnown(s.db, op.order);
    }
  }

  lemma VoiderPhase(db: Db, tx: Tx)
    requires TxOk(db, tx)
    ensures PhaseOk(db, tx)
  {
    hide WritesOk, PhaseOk;
  }

  lemma StuckHeld(s: State, x: TxId, l: LineId)
    requires x in s.txs && StuckVoider(s, x)
    ensures l in s.txs[x].phase.todo ==> HeldByVoider(s, x, l)
  {
  }

  lemma VoiderOrBystanderWaits(s: State, x: TxId, pick: LineId)
    requires x in s.txs && (StuckVoider(s, x) || Bystander(s, x))
    ensures !CanMove(s, x, pick)
  {
    var others := LocksOfOthers(s, x);
    forall l | HeldByVoider(s, x, l)
      ensures l in others.lines
    {
    }
    hide LocksOfOthers, HeldByVoider;
    if StuckVoider(s, x) {
      StuckHeld(s, x, pick);
    } else if s.txs[x].op.Create? {
      var l :| l in s.txs[x].op.lines && HeldByVoider(s, x, l);
      assert l in s.txs[x].op.lines * others.lines;
      assert !OrderKnown(s.db, s.txs[x].op.order);
    }
  }

  lemma SomebodyMoves(s: State) returns (x: TxId, pick: LineId)
    requires Inv(s) && s.txs != map[] && !Stuck(s)
    ensures CanMove(s, x, pick)
  {
    pick := 0;
    hide Inv, LocksOfOthers, StuckVoider, Bystander, CanMove;
    if z :| z in s.txs && (HoldsTicket(s.txs[z].phase) || s.txs[z].phase.LineLocked?) {
      x := z;
      HolderMoves(s, x);
    } else if z :| z in s.txs && s.txs[z].phase.LineChanged? {
      x := z;
      NoTicketLocks(s, x);
      ChangedMoves(s, x);
    } else {
      x :| x in s.txs && !StuckVoider(s, x) && !Bystander(s, x);
      NoTicketLocks(s, x);
      if s.txs[x].phase.Begun? {
        BegunMoves(s, x);
      } else {
        pick := VoidingMoves(s, x);
      }
    }
  }

  lemma ChangedMoves(s: State, x: TxId)
    requires x in s.txs && s.txs[x].phase.LineChanged? && LocksOfOthers(s, x).tickets == {}
    ensures CanMove(s, x, 0)
  {
    hide LocksOfOthers;
  }

  /** Taking line locks before the ticket lock leaves one way to deadlock, and no other:
      while anything is in flight nobody can move exactly when voiders of the same ticket
      hold all of each other's remaining lines, and the rest wait for them. */
  lemma SomebodyCanMove(s: State)
    requires Inv(s) && s.txs != map[]
    ensures (exists x, pick :: CanMove(s, x, pick)) <==> !Stuck(s)
    ensures Stuck(s) ==> exists x, y :: VoidsSame(s, x, y)
  {
    hide Inv, StuckVoider, Bystander, CanMove;
    if Stuck(s) {
      forall x, pick ensures !CanMove(s, x, pick) {
        if x in s.txs {
          VoiderOrBystanderWaits(s, x, pick);
        } else {
          MoverIsInFlight(s, x, pick);
        }
      }
      var x :| x in s.txs;
      StuckHasTwo(s, x);
    } else {
      var x, pick := SomebodyMoves(s);
    }
  }

  lemma MoverIsInFlight(s: State, x: TxId, pick: LineId)
    requires x !in s.txs
    ensures !CanMove(s, x, pick)
  {
  }

  lemma HeldBySomebody(s: State, x: TxId, l: LineId) returns (v: TxId)
    requires HeldByVoider(s, x, l)
    ensures v in s.txs && s.txs[v].phase.VoidingLines?
  {
    v :| v in s.txs && v != x && s.txs[v].phase.VoidingLines? && l in s.txs[v].locks.lines;
  }

  lemma WaitsForVoider(s: State, x: TxId) returns (v: TxId)
    requires x in s.txs && Bystander(s, x)
    ensures v in s.txs && s.txs[v].phase.VoidingLines?
  {
    hide HeldByVoider;
    var l :| HeldByVoider(s, x, l);
    v := HeldBySomebody(s, x, l);
  }

  lemma StuckHasTwo(s: State, x: TxId)
    requires Stuck(s) && x in s.txs
    ensures exists z, y :: VoidsSame(s, z, y)
  {
    if StuckVoider(s, x) {
      var l :| l in s.txs[x].phase.todo;
      var y :| VoidsSame(s, x, y) && l in s.txs[y].locks.lines;
    } else {
      assert Bystander(s, x);
      var v := WaitsForVoider(s, x);
      assert StuckVoider(s, v);
      var k :| k in s.txs[v].phase.todo;
      var y :| VoidsSame(s, v, y) && k in s.txs[y].locks.lines;
    }
  }

  /** The next statement of x, a row it has yet to void where it is voiding, needs a lock
      that y holds. */
  ghost predicate WaitsFor(s: State, x: TxId, y: TxId) {
    && x in s.txs && y in s.txs && x != y && !s.txs[x].phase.Finished?
    && exists pick :: Next(s.txs[x], pick) && Statement(s.db, s.txs[y].locks, s.txs[x], pick) == Blocked
  }

  predicate Next(tx: Tx, pick: LineId) {
    tx.phase.VoidingLines? && tx.phase.todo != {} ==> pick in tx.phase.todo
  }

  /** How far along a transaction is, by the locks it may hold. */
  function Progress(p: Phase): nat {
    match p
    case Begun => 0
    case VoidingLines(_, _) => 1
    case LineLocked(_) | LineChanged(_) => 2
    case TicketLocked(_, _) | LinesLoaded(_, _, _) => 3
    case Finished => 4
  }

  lemma WaiterIsBehind(db: Db, x: Tx, y: Tx, pick: LineId)
    requires PhaseOk(db, x) && PhaseOk(db, y) && !x.phase.Finished? && !(x.phase.VoidingLines? && y.phase.VoidingLines?)
    requires Next(x, pick) && Statement(db, y.locks, x, pick) == Blocked
    ensures Progress(x.phase) < Progress(y.phase)
  {
    hide VoidedBut, OnlyLinesOf, TicketsOk, LinesHomed, LinesOf, ViewLines;
  }

  /** Whoever waits, waits for one further along, but for two that void the same ticket. */
  lemma WaitsUpward(s: State, x: TxId, y: TxId)
    requires Inv(s) && WaitsFor(s, x, y)
    ensures Progress(s.txs[x].phase) < Progress(s.txs[y].phase) || VoidsSame(s, x, y)
  {
    hide DbOk, TxOk, Disjoint, Statement, PhaseOk, Next;
    var pick :| Next(s.txs[x], pick) && Statement(s.db, s.txs[y].locks, s.txs[x], pick) == Blocked;
    VoiderPhase(s.db, s.txs[x]);
    VoiderPhase(s.db, s.txs[y]);
    if s.txs[x].phase.VoidingLines? && s.txs[y].phase.VoidingLines? {
      VoidersShare(s.db, s.txs[x], s.txs[y], pick);
    } else {
      WaiterIsBehind(s.db, s.txs[x], s.txs[y], pick);
    }
  }

  lemma VoidersShare(db: Db, x: Tx, y: Tx, pick: LineId)
    requires TxOk(db, x) && TxOk(db, y) && x.phase.VoidingLines? && y.phase.VoidingLines?
    requires Next(x, pick) && Statement(db, y.locks, x, pick) == Blocked
    ensures x.phase.ticket == y.phase.ticket
  {
    VoiderPhase(db, x);
    VoiderPhase(db, y);
    if x.phase.todo != {} {
      VoiderWaitsFor(db, x, pick);
      VoiderHolds(db, y, pick);
    }
  }

  /** Each of them waits for the next. */
  ghost predicate Queue(s: State, c: seq<TxId>) {
    c != [] && (forall k :: 0 <= k < |c| ==> c[k] in s.txs) && forall k :: 0 < k < |c| ==> WaitsFor(s, c[k - 1], c[k])
  }

  ghost predicate VoidTogether(s: State, c: seq<TxId>) {
    exists t :: AllVoid(s, c, t)
  }

  ghost predicate AllVoid(s: State, c: seq<TxId>, t: TicketId) {
    forall k :: 0 <= k < |c| ==> Voids(s, c[k], t)
  }

  ghost predicate Voids(s: State, x: TxId, t: TicketId) {
    x in s.txs && s.txs[x].phase.VoidingLines? && s.txs[x].phase.ticket == t
  }

  lemma {:induction false} QueueRises(s: State, c: seq<TxId>)
    requires Inv(s) && Queue(s, c)
    ensures Progress(s.txs[c[0]].phase) < Progress(s.txs[c[|c| - 1]].phase) || VoidTogether(s, c) || |c| == 1
    decreases |c|
  {
    hide Inv, WaitsFor;
    if |c| > 1 {
      var init, x, y := c[..|c| - 1], c[|c| - 2], c[|c| - 1];
      QueueRises(s, init);
      WaitsUpward(s, x, y);
      if VoidsSame(s, x, y) && |init| > 1 && VoidTogether(s, init) {
        var t :| AllVoid(s, init, t);
        assert Voids(s, init[|init| - 1], t) && init[|init| - 1] == x;
        assert AllVoid(s, c, t);
      } else if VoidsSame(s, x, y) && |init| == 1 {
        assert AllVoid(s, c, s.txs[x].phase.ticket);
      } else if |init| > 1 && VoidTogether(s, init) {
        var t :| AllVoid(s, init, t);
        assert Voids(s, init[0], t) && Voids(s, init[|init| - 1], t);
      }
    }
  }

  /** However many others are at work, a circle of waiting is all of transactions that void
      one ticket. */
  lemma CircleVoidsTogether(s: State, c: seq<TxId>)
    requires Inv(s) && Queue(s, c) && WaitsFor(s, c[|c| - 1], c[0])
    ensures VoidTogether(s, c)
  {
    hide Inv;
    QueueRises(s, c);
    WaitsUpward(s, c[|c| - 1], c[0]);
  }

  /** A ticket of two lines is sent, then voided twice at the same time, and the two take
      the lines in opposite orders. */
  const DEADLOCK: seq<Step> := [
    Begin(0, Create(1, 7, {1, 2})), Advance(0, 0), Commit(0),
    Begin(1, VoidTicket(7)), Advance(1, 0), Begin(2, VoidTicket(7)), Advance(2, 0),
    Advance(1, 1), Advance(2, 2)]

  lemma {:induction false} RunOneMore(s: State, steps: seq<Step>, k: nat)
    requires k < |steps|
    ensures Run(s, steps[..k + 1]) == Exec(Run(s, steps[..k]), steps[k])
    decreases |steps|
  {
    hide Exec;
    if k == 0 {
      assert steps[..1][1..] == [] && steps[..0] == [];
      assert Run(Exec(s, steps[0]), []) == Exec(s, steps[0]);
    } else {
      RunOneMore(Exec(s, steps[0]), steps[1..], k - 1);
      assert steps[..k + 1][1..] == steps[1..][..k] && steps[..k][1..] == steps[1..][..k - 1];
    }
  }

  const SENT := Db(map[1 := Ticket(7, TicketWaiting)],
                   map[1 := Line(1, Waiting, None), 2 := Line(1, Waiting, None)], multiset{}, multiset{})

  lemma TicketIsSent()
    ensures Run(EMPTY, DEADLOCK[..3]) == State(SENT, map[])
  {
    hide Exec;
    RunOneMore(EMPTY, DEADLOCK, 0);
    RunOneMore(EMPTY, DEADLOCK, 1);
    RunOneMore(EMPTY, DEADLOCK, 2);
    assert DEADLOCK[..0] == [] && Run(EMPTY, []) == EMPTY;
    SendingIt();
  }

  lemma SendingIt()
    ensures Exec(Exec(Exec(EMPTY, Begin(0, Create(1, 7, {1, 2}))), Advance(0, 0)), Commit(0)) == State(SENT, map[])
  {
    var op := Create(1, 7, {1, 2});
    var s1 := State(EMPTY.db, map[0 := Start(op)]);
    assert Exec(EMPTY, Begin(0, op)) == s1;
    assert LocksOfOthers(s1, 0) == Locks({}, {}, {});
    var tx := Start(op).(phase := Finished, locks := Locks({1, 2}, {1}, {7}), tickets := SENT.tickets, lines := SENT.lines);
    assert Statement(s1.db, Locks({}, {}, {}), Start(op), 0) == Proceed(tx);
    assert Exec(s1, Advance(0, 0)) == State(EMPTY.db, map[0 := tx]);
  }

  function Voider(locked: set<LineId>, todo: set<LineId>): Tx {
    Tx(VoidTicket(7), VoidingLines(1, todo), Locks(locked, {}, {}),
       map l | l in locked :: Line(1, Voided, None), map[], multiset{}, multiset{})
  }

  lemma VoidersSet(s: State, txs: map<TxId, Tx>, x: TxId)
    requires s == State(SENT, txs) && x !in txs
    ensures Exec(Exec(s, Begin(x, VoidTicket(7))), Advance(x, 0)) == State(SENT, txs[x := Voider({}, {1, 2})])
  {
    hide LocksOfOthers;
    var b := Exec(s, Begin(x, VoidTicket(7)));
    assert b == State(SENT, txs[x := Start(VoidTicket(7))]);
    assert 1 in SENT.tickets && SENT.tickets.Keys == {1};
    assert Voider({}, {1, 2}).lines == map[];
    var found := FindTicket(SENT, b.txs[x]);
    assert found.Proceed? && found.tx.phase.VoidingLines? && found.tx.phase.ticket == 1;
    assert found.tx.phase.todo == {1, 2};
    assert FindTicket(SENT, b.txs[x]) == Proceed(Voider({}, {1, 2}));
    assert b.txs[x := Voider({}, {1, 2})] == txs[x := Voider({}, {1, 2})];
  }

  lemma VoiderTakes(s: State, x: TxId, l: LineId, other: LineId)
    requires s.db == SENT && x in s.txs && s.txs[x] == Voider({}, {1, 2}) && {l, other} == {1, 2} && l != other
    requires l !in LocksOfOthers(s, x).lines
    ensures Exec(s, Advance(x, l)) == s.(txs := s.txs[x := Voider({l}, {other})])
  {
    hide LocksOfOthers;
    assert {1, 2} - {l} == {other};
    assert VoidOne(SENT, LocksOfOthers(s, x), s.txs[x], l) == Proceed(Voider({l}, {other}));
  }

  /** So the deadlock is there to be run into, from an empty database. */
  lemma DeadlockIsReached()
    ensures var s := Run(EMPTY, DEADLOCK);
            s.txs.Keys == {1, 2} && Stuck(s) && forall x, pick :: !CanMove(s, x, pick)
  {
    hide Exec, Statement, Stuck, CanMove, Inv;
    TicketIsSent();
    var s0 := State(SENT, map[]);
    var s1 := State(SENT, map[1 := Voider({}, {1, 2})]);
    var s2 := State(SENT, map[1 := Voider({}, {1, 2}), 2 := Voider({}, {1, 2})]);
    var s3 := State(SENT, map[1 := Voider({1}, {2}), 2 := Voider({}, {1, 2})]);
    var s4 := State(SENT, map[1 := Voider({1}, {2}), 2 := Voider({2}, {1})]);
    RunOneMore(EMPTY, DEADLOCK, 3);
    RunOneMore(EMPTY, DEADLOCK, 4);
    VoidersSet(s0, map[], 1);
    assert Run(EMPTY, DEADLOCK[..5]) == s1;
    RunOneMore(EMPTY, DEADLOCK, 5);
    RunOneMore(EMPTY, DEADLOCK, 6);
    VoidersSet(s1, s1.txs, 2);
    assert s1.txs[2 := Voider({}, {1, 2})] == s2.txs;
    assert Run(EMPTY, DEADLOCK[..7]) == s2;
    RunOneMore(EMPTY, DEADLOCK, 7);
    VoiderTakes(s2, 1, 1, 2);
    assert s2.txs[1 := Voider({1}, {2})] == s3.txs;
    RunOneMore(EMPTY, DEADLOCK, 8);
    VoiderTakes(s3, 2, 2, 1);
    assert s3.txs[2 := Voider({2}, {1})] == s4.txs;
    assert DEADLOCK[..9] == DEADLOCK;
    EmptyOk();
    EveryRunKeepsTicketsDerived(EMPTY, DEADLOCK);
    CrosswiseIsStuck(s4);
    SomebodyCanMove(s4);
  }

  lemma CrosswiseIsStuck(s: State)
    requires s == State(SENT, map[1 := Voider({1}, {2}), 2 := Voider({2}, {1})])
    ensures Stuck(s)
  {
    assert VoidsSame(s, 1, 2) && VoidsSame(s, 2, 1);
  }

  /** Why the printer must not send an empty ticket: the row would say waiting
      and, having no line left on, it would derive to gone. */
  lemma EmptyTicketDisagrees(lines: map<LineId, Line>, t: TicketId)
    requires LinesOf(lines, t) == map[]
    ensures !TicketOk(TicketWaiting, lines, t) && Derived(lines, t) == TicketVoided
  {
    SameLinesSameDerived(lines, map[], t);
  }
}
