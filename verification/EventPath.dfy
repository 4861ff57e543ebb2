/** The event path: from a service's transaction to its consumers. */
module EventPath {
  // A service commits an event in its own transaction, relays move it to the bus at
  // least once, and each consumer group applies it at most once.
  //
  // The system is a set of independent actors: services that commit, relays that
  // drain the outbox and may crash at any point, and the members of consumer
  // groups, which poll, handle and commit offsets and may crash too. Any actor may
  // take its next step at any moment.

  import opened Common

  type EventId = nat
  type Partition = nat
  type Group = nat
  type RelayId = nat
  type MemberId = nat
  type Time = int

  /** A row of the outbox. */
  datatype Row = Row(partition: Partition, availableAt: Time, publishedAt: Option<Time>, attempts: nat)

  /** A relay inside Drain: the rows it has locked, and those the bus has
      acknowledged so far. */
  datatype Relay = Relay(claimed: set<EventId>, acknowledged: set<EventId>)

  /** What one consumer group has committed: the offset it would resume from in
      each partition, the claims in handled_events, and how often each event took
      effect. starts is history: where in a partition it began, when it had no offset
      there to resume from. */
  datatype GroupState = GroupState(offsets: map<Partition, nat>, starts: map<Partition, nat>,
                                   handled: set<EventId>, effects: multiset<EventId>)

  /** How far a batch reaches in each partition, and where it begins in those the group
      has committed no offset for. */
  datatype Span = Span(first: map<Partition, nat>, upto: map<Partition, nat>)

  /** A member working through a polled batch: its span, the records not handed over
      yet, and the event whose transaction is open, if any. */
  datatype Member = Member(group: Group, span: Span, todo: seq<(Partition, nat)>, claiming: Option<EventId>)

  /** How the groups are set up: which events a group's handler refuses as not its
      business, which partitions it subscribes to, and whether it reads what it has no
      offset for from the beginning (the one that matches topics by pattern) or from
      the end (every one that names its topics). */
  datatype Setup = Setup(skips: set<(Group, EventId)>, subscribed: set<(Group, Partition)>, fromStart: set<Group>)

  /** enqueued is the history of committed events with the partition their topic
      and key send them to. */
  datatype State = State(
    enqueued: map<EventId, Partition>,
    rows: map<EventId, Row>,
    logs: map<Partition, seq<EventId>>,
    relays: map<RelayId, Relay>,
    groups: map<Group, GroupState>,
    members: map<MemberId, Member>,
    setup: Setup)

  const MAX_BACKOFF := 300

  function Log(s: State, p: Partition): seq<EventId> { if p in s.logs then s.logs[p] else [] }

  function GroupOf(s: State, g: Group): GroupState {
    if g in s.groups then s.groups[g] else GroupState(map[], map[], {}, multiset{})
  }

  function Offset(s: State, g: Group, p: Partition): nat {
    if p in GroupOf(s, g).offsets then GroupOf(s, g).offsets[p] else 0
  }

  /** From where on the group answers for the records of a partition. */
  function Begins(s: State, g: Group, p: Partition): nat {
    if p in GroupOf(s, g).starts then GroupOf(s, g).starts[p] else 0
  }

  function Pow2(n: nat): nat { if n == 0 then 1 else 2 * Pow2(n - 1) }

  /** How long a row that could not be published waits: doubling, and capped. */
  function Backoff(attempts: nat): nat {
    if Pow2(attempts + 1) < MAX_BACKOFF then Pow2(attempts + 1) else MAX_BACKOFF
  }

  datatype Step =
    | Enqueue(events: map<EventId, Partition>, now: Time)
    | Claim(relay: RelayId, ids: set<EventId>, now: Time)
    | Acknowledge(relay: RelayId, id: EventId)
    | MarkPublished(relay: RelayId, now: Time)
    | BackOff(relay: RelayId, now: Time)
    | RelayCrash(relay: RelayId)
    | Purge(before: Time)
    | Poll(member: MemberId, group: Group, span: Span, todo: seq<(Partition, nat)>)
    | Deliver(member: MemberId)
    | Apply(member: MemberId)
    | Fail(member: MemberId)
    | CommitOffsets(member: MemberId)

  // ---------------------------------------------------------------- the producer

  /** A service transaction commits with its events; one that rolls back is no
      step at all. */
  function ExecEnqueue(s: State, events: map<EventId, Partition>, now: Time): State {
    if !(events.Keys !! s.enqueued.Keys) then s
    else s.(enqueued := s.enqueued + events,
            rows := s.rows + map e | e in events :: Row(events[e], now, None, 0))
  }

  // ------------------------------------------------------------------- the relay

  predicate Claimable(s: State, ids: set<EventId>, now: Time) {
    && (forall e :: e in ids ==> e in s.rows && s.rows[e].publishedAt.None? && s.rows[e].availableAt <= now)
    && (forall r :: r in s.relays ==> s.relays[r].claimed !! ids)
  }

  /** SELECT ... FOR UPDATE SKIP LOCKED. */
  function ExecClaim(s: State, r: RelayId, ids: set<EventId>, now: Time): State {
    if r in s.relays || !Claimable(s, ids, now) then s
    else s.(relays := s.relays[r := Relay(ids, {})])
  }

  /** The bus takes one record of the batch. It may take some and not others, and a
      retry may make it take one twice. */
  function ExecAcknowledge(s: State, r: RelayId, e: EventId): State {
    if r !in s.relays || e !in s.relays[r].claimed || e !in s.rows then s
    else
      var p := s.rows[e].partition;
      s.(logs := s.logs[p := Log(s, p) + [e]],
         relays := s.relays[r := s.relays[r].(acknowledged := s.relays[r].acknowledged + {e})])
  }

  /** Only once every record is acknowledged are the rows marked, in the
      transaction that claimed them. */
  function ExecMark(s: State, r: RelayId, now: Time): State {
    if r !in s.relays || !(s.relays[r].claimed <= s.relays[r].acknowledged) then s
    else s.(rows := map e | e in s.rows ::
                      if e in s.relays[r].claimed then s.rows[e].(publishedAt := Some(now)) else s.rows[e],
            relays := s.relays - {r})
  }

  /** A failed publish commits the attempt and the delay. */
  function ExecBackOff(s: State, r: RelayId, now: Time): State {
    if r !in s.relays then s
    else s.(rows := map e | e in s.rows ::
                      if e in s.relays[r].claimed
                      then s.rows[e].(attempts := s.rows[e].attempts + 1,
                                      availableAt := now + Backoff(s.rows[e].attempts))
                      else s.rows[e],
            relays := s.relays - {r})
  }

  function ExecPurge(s: State, before: Time): State {
    s.(rows := map e | e in s.rows && !(s.rows[e].publishedAt.Some? && s.rows[e].publishedAt.value < before) :: s.rows[e])
  }

  // ---------------------------------------------------------------- the consumer

  /** Where a batch begins in a partition. */
  function Position(from: map<Partition, nat>, span: Span, p: Partition): nat {
    if p in from then from[p] else if p in span.first then span.first[p] else 0
  }

  /** A partition the group has no offset in is begun at the beginning by a group set up
      so; by any other at what was its end when the group came to it, which is no
      further than its end now. */
  ghost predicate BeginsRight(s: State, g: Group, from: map<Partition, nat>, span: Span) {
    && (forall p :: p in span.first <==> p in span.upto && p !in from)
    && (forall p :: p in span.first ==> span.first[p] <= |Log(s, p)| && (g in s.setup.fromStart ==> span.first[p] == 0))
  }

  /** A batch of records from the given positions on as far as its span, in some order. */
  ghost predicate IsBatch(s: State, g: Group, from: map<Partition, nat>, span: Span, todo: seq<(Partition, nat)>) {
    && BeginsRight(s, g, from, span)
    && (forall p :: p in span.upto ==> (g, p) in s.setup.subscribed && span.upto[p] <= |Log(s, p)|)
    && (forall p, i: nat :: (p, i) in todo <==> p in span.upto && Position(from, span, p) <= i < span.upto[p])
  }

  ghost function PollAt(s: State, m: MemberId, g: Group, from: map<Partition, nat>, span: Span,
                        todo: seq<(Partition, nat)>): State
  {
    if m in s.members || !IsBatch(s, g, from, span, todo) then s
    else s.(members := s.members[m := Member(g, span, todo, None)])
  }

  predicate Settled(s: State, g: Group, e: EventId) {
    e in GroupOf(s, g).handled || (g, e) in s.setup.skips
  }

  /** The next record goes to the handler. An event the group skips, or has handled
      already, is done with. Otherwise the handler's transaction claims it, which
      waits while another member's claim on it is open. */
  ghost function ExecDeliver(s: State, m: MemberId): State {
    if m !in s.members || s.members[m].todo == [] || s.members[m].claiming.Some? then s
    else
      var member := s.members[m];
      var (p, i) := member.todo[0];
      if i >= |Log(s, p)| then s
      else
        var e := Log(s, p)[i];
        if Settled(s, member.group, e) then s.(members := s.members[m := member.(todo := member.todo[1..])])
        else if exists n :: n in s.members && n != m && s.members[n].group == member.group
                            && s.members[n].claiming == Some(e) then s
        else s.(members := s.members[m := member.(claiming := Some(e))])
  }

  /** The handler's transaction commits: the claim and the effect, together. */
  function ExecApply(s: State, m: MemberId): State {
    if m !in s.members || s.members[m].claiming.None? || s.members[m].todo == [] then s
    else
      var member := s.members[m];
      var g, e := GroupOf(s, member.group), member.claiming.value;
      s.(groups := s.groups[member.group := g.(handled := g.handled + {e}, effects := g.effects + multiset{e})],
         members := s.members[m := member.(todo := member.todo[1..], claiming := None)])
  }

  /** Where a group has begun, once a batch that had to begin somewhere is committed. */
  function StartsAfter(starts: map<Partition, nat>, first: map<Partition, nat>): map<Partition, nat> {
    starts + map p | p in first :: if p in starts && starts[p] > first[p] then starts[p] else first[p]
  }

  function Committed(g: GroupState, span: Span): GroupState {
    g.(offsets := g.offsets + span.upto, starts := StartsAfter(g.starts, span.first))
  }

  /** Offsets are committed when the whole batch is done with. */
  function ExecCommitOffsets(s: State, m: MemberId): State {
    if m !in s.members || s.members[m].todo != [] then s
    else
      var member := s.members[m];
      var g := GroupOf(s, member.group);
      s.(groups := s.groups[member.group := Committed(g, member.span)],
         members := s.members - {m})
  }

  /** One step of the system; one that is not possible, or has to wait, changes
      nothing. A poll resumes at the committed offsets: that the batch comes back
      after a failure is what the consumer loop assumes of the client, and is
      assumed here too. A failure rolls the open transaction back and drops the
      batch uncommitted, and so does a crash. */
  ghost function Exec(s: State, step: Step): State {
    match step
    case Enqueue(events, now) => ExecEnqueue(s, events, now)
    case Claim(r, ids, now) => ExecClaim(s, r, ids, now)
    case Acknowledge(r, e) => ExecAcknowledge(s, r, e)
    case MarkPublished(r, now) => ExecMark(s, r, now)
    case BackOff(r, now) => ExecBackOff(s, r, now)
    case RelayCrash(r) => s.(relays := s.relays - {r})
    case Purge(before) => ExecPurge(s, before)
    case Poll(m, g, span, todo) => PollAt(s, m, g, GroupOf(s, g).offsets, span, todo)
    case Deliver(m) => ExecDeliver(s, m)
    case Apply(m) => ExecApply(s, m)
    case Fail(m) => s.(members := s.members - {m})
    case CommitOffsets(m) => ExecCommitOffsets(s, m)
  }

  ghost function Run(s: State, steps: seq<Step>): State
    decreases |steps|
  {
    if steps == [] then s else Run(Exec(s, steps[0]), steps[1..])
  }

  function Initial(setup: Setup): State {
    State(map[], map[], map[], map[], map[], map[], setup)
  }

  // ------------------------------------------------------------------- invariant

  /** Nothing is lost: an event that committed is still waiting in the outbox, or
      it is on the bus, in its partition. */
  ghost predicate NothingLost(s: State) {
    forall e :: e in s.enqueued ==>
      || (e in s.rows && s.rows[e].publishedAt.None?)
      || e in Log(s, s.enqueued[e])
  }

  /** Nothing is invented: rows and records are events that committed. */
  ghost predicate NothingInvented(s: State) {
    && (forall e :: e in s.rows ==> e in s.enqueued && s.rows[e].partition == s.enqueued[e])
    && (forall p, i :: 0 <= i < |Log(s, p)| ==> Log(s, p)[i] in s.enqueued && s.enqueued[Log(s, p)[i]] == p)
  }

  /** Relays hold different rows, all unpublished, and know only what the bus took. */
  ghost predicate RelaysOk(s: State) {
    && (forall r, e :: r in s.relays && e in s.relays[r].claimed ==> e in s.rows && s.rows[e].publishedAt.None?)
    && (forall r, e :: r in s.relays && e in s.relays[r].acknowledged ==>
          e in s.enqueued && e in Log(s, s.enqueued[e]))
    && (forall q, r :: q in s.relays && r in s.relays && q != r ==> s.relays[q].claimed !! s.relays[r].claimed)
  }

  /** Each event took effect once if it was handled and not at all otherwise, and is
      handled only where it is subscribed to and not skipped. */
  ghost predicate AppliedOnce(g: Group, state: GroupState, enqueued: map<EventId, Partition>, setup: Setup) {
    && (forall e :: state.effects[e] == if e in state.handled then 1 else 0)
    && state.handled <= enqueued.Keys
    && (forall e :: e in state.handled ==> (g, e) !in setup.skips && (g, enqueued[e]) in setup.subscribed)
  }

  ghost predicate EffectsOk(s: State) {
    forall g :: g in s.groups ==> AppliedOnce(g, s.groups[g], s.enqueued, s.setup)
  }

  /** From where the group began up to a committed offset, everything is done with. */
  ghost predicate SettledBelow(s: State, g: Group, p: Partition, n: nat) {
    n <= |Log(s, p)| && forall i :: Begins(s, g, p) <= i < n ==> Settled(s, g, Log(s, p)[i])
  }

  ghost predicate OffsetsOk(s: State) {
    forall g, p :: g in s.groups && p in s.groups[g].offsets ==> SettledBelow(s, g, p, s.groups[g].offsets[p])
  }

  /** A group set up to read from the beginning begins there. */
  ghost predicate StartsOk(s: State) {
    forall g, p :: g in s.setup.fromStart ==> Begins(s, g, p) == 0
  }

  /** Where a member's batch answers from. */
  function From(s: State, member: Member, p: Partition): nat {
    if p in member.span.first then member.span.first[p] else Begins(s, member.group, p)
  }

  ghost predicate SpanOk(s: State, g: Group, span: Span) {
    && (forall p :: p in span.upto ==> (g, p) in s.setup.subscribed && span.upto[p] <= |Log(s, p)|)
    && (forall p :: p in span.first ==> p in span.upto && (g in s.setup.fromStart ==> span.first[p] == 0))
  }

  /** Of a polled batch, everything not waiting to be handed over is done with. */
  ghost predicate MemberOk(s: State, member: Member) {
    && SpanOk(s, member.group, member.span)
    && (forall p, i: nat :: p in member.span.upto && From(s, member, p) <= i < member.span.upto[p] && (p, i) !in member.todo ==>
          Settled(s, member.group, Log(s, p)[i]))
    && (forall p, i: nat :: (p, i) in member.todo ==> p in member.span.upto)
    && (member.claiming.Some? ==>
          && member.todo != []
          && var (p, i) := member.todo[0];
             i < |Log(s, p)| && Log(s, p)[i] == member.claiming.value
             && !Settled(s, member.group, member.claiming.value))
  }

  /** Two members of a group have claimed the same event. */
  ghost predicate Racing(a: Member, b: Member) {
    a.group == b.group && a.claiming.Some? && a.claiming == b.claiming
  }

  ghost predicate MembersOk(s: State) {
    && (forall m :: m in s.members ==> MemberOk(s, s.members[m]))
    && (forall m, n :: m in s.members && n in s.members && m != n ==> !Racing(s.members[m], s.members[n]))
  }

  /** The producing half and the consuming half. */
  ghost predicate SupplyOk(s: State) { NothingLost(s) && NothingInvented(s) && RelaysOk(s) }

  ghost predicate DemandOk(s: State) { EffectsOk(s) && OffsetsOk(s) && StartsOk(s) && MembersOk(s) }

  ghost predicate Inv(s: State) { SupplyOk(s) && DemandOk(s) }

  // --------------------------------------------------------- every step keeps it

  /** The bus only grows. */
  ghost predicate LogsGrow(s: State, t: State) {
    forall p :: Log(s, p) <= Log(t, p)
  }

  lemma GrowingKeepsMember(s: State, t: State, member: Member)
    requires LogsGrow(s, t) && s.groups == t.groups && s.setup == t.setup && MemberOk(s, member)
    ensures MemberOk(t, member)
  {
    forall p ensures Log(s, p) <= Log(t, p) {}
    if member.claiming.Some? {
      var (p, i) := member.todo[0];
      assert Log(s, p) <= Log(t, p);
    }
  }

  lemma GrowingKeepsDemand(s: State, t: State)
    requires LogsGrow(s, t) && s.groups == t.groups && s.members == t.members && s.setup == t.setup
    requires forall e :: e in s.enqueued ==> e in t.enqueued && t.enqueued[e] == s.enqueued[e]
    requires DemandOk(s)
    ensures DemandOk(t)
  {
    assert forall g, p :: Begins(t, g, p) == Begins(s, g, p);
    forall g, p | g in t.groups && p in t.groups[g].offsets ensures SettledBelow(t, g, p, t.groups[g].offsets[p]) {
      assert SettledBelow(s, g, p, s.groups[g].offsets[p]);
      assert Log(s, p) <= Log(t, p);
    }
    forall m | m in t.members ensures MemberOk(t, t.members[m]) {
      GrowingKeepsMember(s, t, s.members[m]);
    }
  }

  lemma EnqueueRelaysOk(s: State, t: State)
    requires RelaysOk(s) && t.relays == s.relays && t.logs == s.logs
    requires forall e :: e in s.enqueued ==> e in t.enqueued && t.enqueued[e] == s.enqueued[e]
    requires forall e :: e in s.rows ==> e in t.rows && t.rows[e] == s.rows[e]
    ensures RelaysOk(t)
  {
    assert forall p :: Log(t, p) == Log(s, p);
    hide Log;
  }

  lemma EnqueueLosesNothing(s: State, events: map<EventId, Partition>, now: Time)
    requires NothingLost(s) && NothingInvented(s) && events.Keys !! s.enqueued.Keys
    ensures NothingLost(ExecEnqueue(s, events, now))
  {
    var t := ExecEnqueue(s, events, now);
    forall e | e in t.enqueued
      ensures (e in t.rows && t.rows[e].publishedAt.None?) || e in Log(t, t.enqueued[e])
    {
      if e !in events {
        assert Log(t, s.enqueued[e]) == Log(s, s.enqueued[e]);
      }
    }
  }

  lemma EnqueueInventsNothing(s: State, events: map<EventId, Partition>, now: Time)
    requires NothingInvented(s) && events.Keys !! s.enqueued.Keys
    ensures NothingInvented(ExecEnqueue(s, events, now))
  {
    var t := ExecEnqueue(s, events, now);
    assert forall p :: Log(t, p) == Log(s, p);
    hide Log;
    forall e | e in t.rows ensures e in t.enqueued && t.rows[e].partition == t.enqueued[e] {
      if e !in events {
        assert e in s.rows;
      }
    }
  }

  lemma EnqueueKeepsRows(s: State, events: map<EventId, Partition>, now: Time)
    requires NothingInvented(s) && events.Keys !! s.enqueued.Keys
    ensures var t := ExecEnqueue(s, events, now);
            forall e :: e in s.rows ==> e in t.rows && t.rows[e] == s.rows[e]
  {
    forall e | e in s.rows ensures e !in events {
      assert e in s.enqueued.Keys;
    }
  }

  lemma EnqueueOk(s: State, events: map<EventId, Partition>, now: Time)
    requires Inv(s)
    ensures Inv(ExecEnqueue(s, events, now))
  {
    var t := ExecEnqueue(s, events, now);
    if events.Keys !! s.enqueued.Keys {
      EnqueueLosesNothing(s, events, now);
      EnqueueInventsNothing(s, events, now);
      EnqueueKeepsRows(s, events, now);
      EnqueueRelaysOk(s, t);
      assert forall p :: Log(t, p) == Log(s, p);
      hide NothingLost, NothingInvented, RelaysOk, DemandOk;
      GrowingKeepsDemand(s, t);
    }
  }

  lemma AcknowledgeLogs(s: State, r: RelayId, e: EventId)
    ensures var t := ExecAcknowledge(s, r, e);
            t != s ==> forall q :: Log(t, q) == Log(s, q) + if q == s.rows[e].partition then [e] else []
  {
  }

  lemma AcknowledgeKeepsFlow(s: State, r: RelayId, e: EventId)
    requires NothingLost(s) && NothingInvented(s)
    ensures NothingLost(ExecAcknowledge(s, r, e)) && NothingInvented(ExecAcknowledge(s, r, e))
  {
    AcknowledgeLogs(s, r, e);
    hide Log;
  }

  lemma AcknowledgeKeepsRelays(s: State, r: RelayId, e: EventId)
    requires NothingInvented(s) && RelaysOk(s)
    ensures RelaysOk(ExecAcknowledge(s, r, e))
  {
    AcknowledgeLogs(s, r, e);
    hide Log;
    var t := ExecAcknowledge(s, r, e);
    if t != s {
      assert e in Log(t, s.rows[e].partition);
    }
  }

  lemma AcknowledgeOk(s: State, r: RelayId, e: EventId)
    requires Inv(s)
    ensures Inv(ExecAcknowledge(s, r, e))
  {
    AcknowledgeLogs(s, r, e);
    AcknowledgeKeepsFlow(s, r, e);
    AcknowledgeKeepsRelays(s, r, e);
    hide Log, DemandOk, NothingLost, NothingInvented, RelaysOk;
    if ExecAcknowledge(s, r, e) != s {
      GrowingKeepsDemand(s, ExecAcknowledge(s, r, e));
    }
  }

  /** A step that leaves the bus, the groups and the members alone. */
  ghost predicate RelayOnly(s: State, t: State) {
    t == s.(rows := t.rows, relays := t.relays)
  }

  lemma RelayOnlyKeepsDemand(s: State, t: State)
    requires RelayOnly(s, t) && DemandOk(s)
    ensures DemandOk(t) && forall p :: Log(t, p) == Log(s, p)
  {
    assert forall p :: Log(t, p) == Log(s, p);
    GrowingKeepsDemand(s, t);
  }

  lemma MarkKeepsRelays(s: State, r: RelayId, now: Time)
    requires RelaysOk(s)
    ensures RelaysOk(ExecMark(s, r, now))
  {
    assert forall p :: Log(ExecMark(s, r, now), p) == Log(s, p);
    hide Log;
  }

  lemma InventsNothing(s: State, t: State)
    requires RelayOnly(s, t) && NothingInvented(s)
    requires forall e :: e in t.rows ==> e in s.rows && t.rows[e].partition == s.rows[e].partition
    ensures NothingInvented(t)
  {
    assert forall p :: Log(t, p) == Log(s, p);
    hide Log;
  }

  lemma MarkLosesNothing(s: State, r: RelayId, now: Time)
    requires NothingLost(s) && RelaysOk(s)
    ensures NothingLost(ExecMark(s, r, now))
  {
    assert forall p :: Log(ExecMark(s, r, now), p) == Log(s, p);
    assert r in s.relays ==> forall e :: e in s.relays[r].acknowledged ==> e in s.enqueued && e in Log(s, s.enqueued[e]);
    hide Log, RelaysOk;
  }

  lemma MarkOk(s: State, r: RelayId, now: Time)
    requires SupplyOk(s)
    ensures SupplyOk(ExecMark(s, r, now)) && RelayOnly(s, ExecMark(s, r, now))
  {
    InventsNothing(s, ExecMark(s, r, now));
    MarkKeepsRelays(s, r, now);
    MarkLosesNothing(s, r, now);
    hide RelaysOk, NothingLost, NothingInvented;
  }

  lemma BackOffKeepsRelays(s: State, r: RelayId, now: Time)
    requires RelaysOk(s)
    ensures RelaysOk(ExecBackOff(s, r, now))
  {
    assert forall p :: Log(ExecBackOff(s, r, now), p) == Log(s, p);
    hide Log, Backoff;
  }

  lemma BackOffLosesNothing(s: State, r: RelayId, now: Time)
    requires NothingLost(s)
    ensures NothingLost(ExecBackOff(s, r, now))
  {
    assert forall p :: Log(ExecBackOff(s, r, now), p) == Log(s, p);
    hide Log, Backoff;
  }

  lemma BackOffOk(s: State, r: RelayId, now: Time)
    requires SupplyOk(s)
    ensures SupplyOk(ExecBackOff(s, r, now)) && RelayOnly(s, ExecBackOff(s, r, now))
  {
    hide Backoff, Log;
    InventsNothing(s, ExecBackOff(s, r, now));
    BackOffKeepsRelays(s, r, now);
    BackOffLosesNothing(s, r, now);
    hide RelaysOk, NothingLost, NothingInvented;
  }

  lemma PurgeOk(s: State, before: Time)
    requires SupplyOk(s)
    ensures SupplyOk(ExecPurge(s, before)) && RelayOnly(s, ExecPurge(s, before))
  {
    assert forall p :: Log(ExecPurge(s, before), p) == Log(s, p);
    hide Log;
  }

  lemma ClaimRelaysOk(s: State, r: RelayId, ids: set<EventId>, now: Time)
    requires RelaysOk(s)
    ensures RelaysOk(ExecClaim(s, r, ids, now))
  {
    assert forall p :: Log(ExecClaim(s, r, ids, now), p) == Log(s, p);
    hide Log;
  }

  lemma ClaimOk(s: State, r: RelayId, ids: set<EventId>, now: Time)
    requires SupplyOk(s)
    ensures SupplyOk(ExecClaim(s, r, ids, now)) && RelayOnly(s, ExecClaim(s, r, ids, now))
  {
    assert forall p :: Log(ExecClaim(s, r, ids, now), p) == Log(s, p);
    ClaimRelaysOk(s, r, ids, now);
    hide Log, RelaysOk;
  }

  lemma CrashOk(s: State, r: RelayId)
    requires SupplyOk(s)
    ensures SupplyOk(s.(relays := s.relays - {r})) && RelayOnly(s, s.(relays := s.relays - {r}))
  {
    assert forall p :: Log(s.(relays := s.relays - {r}), p) == Log(s, p);
    hide Log;
  }

  /** A step that leaves the outbox, the bus and the relays alone. */
  ghost predicate ConsumerOnly(s: State, t: State) {
    t == s.(groups := t.groups, members := t.members)
  }

  lemma ConsumerOnlyKeepsSupply(s: State, t: State)
    requires ConsumerOnly(s, t) && SupplyOk(s)
    ensures SupplyOk(t)
  {
    assert forall p :: Log(t, p) == Log(s, p);
    hide Log;
  }

  lemma PolledOk(s: State, g: Group, span: Span, todo: seq<(Partition, nat)>)
    requires OffsetsOk(s) && IsBatch(s, g, GroupOf(s, g).offsets, span, todo)
    ensures MemberOk(s, Member(g, span, todo, None))
  {
    var member := Member(g, span, todo, None);
    var from := GroupOf(s, g).offsets;
    forall p, i: nat | p in span.upto && From(s, member, p) <= i < span.upto[p] && (p, i) !in todo
      ensures Settled(s, g, Log(s, p)[i])
    {
      OffsetSettles(s, g, p);
      hide Log, Settled, GroupOf, OffsetsOk, Begins;
      assert p in span.first <==> p !in from;
      assert i < Position(from, span, p);
    }
  }

  lemma OffsetSettles(s: State, g: Group, p: Partition)
    requires OffsetsOk(s)
    ensures p in GroupOf(s, g).offsets ==> SettledBelow(s, g, p, GroupOf(s, g).offsets[p])
  {
    hide SettledBelow;
  }

  lemma PollOk(s: State, m: MemberId, g: Group, span: Span, todo: seq<(Partition, nat)>)
    requires DemandOk(s)
    ensures var t := PollAt(s, m, g, GroupOf(s, g).offsets, span, todo); DemandOk(t) && ConsumerOnly(s, t)
  {
    hide IsBatch, MemberOk, OffsetsOk, EffectsOk, StartsOk, GroupOf;
    var t := PollAt(s, m, g, GroupOf(s, g).offsets, span, todo);
    if t != s {
      PolledOk(s, g, span, todo);
      ConsumersUnchanged(s, t);
    }
  }

  /** Members are judged by the bus and the groups only. */
  lemma ConsumersUnchanged(s: State, t: State)
    requires ConsumerOnly(s, t) && s.groups == t.groups
    ensures EffectsOk(s) == EffectsOk(t) && OffsetsOk(s) == OffsetsOk(t) && StartsOk(s) == StartsOk(t)
    ensures forall member :: MemberOk(s, member) == MemberOk(t, member)
  {
    assert forall p :: Log(t, p) == Log(s, p);
    assert forall g, e :: Settled(s, g, e) == Settled(t, g, e);
    assert forall g, p :: Begins(s, g, p) == Begins(t, g, p);
    hide Log, Settled, Begins;
  }

  /** Done with the head of the batch, a member is as it should be. */
  lemma TailOk(s: State, member: Member)
    requires MemberOk(s, member) && member.todo != []
    requires var (p, i) := member.todo[0]; i < |Log(s, p)| && Settled(s, member.group, Log(s, p)[i])
    ensures MemberOk(s, member.(todo := member.todo[1..], claiming := None))
  {
    hide Settled, Log;
    forall p, i: nat | p in member.span.upto && From(s, member, p) <= i < member.span.upto[p] && (p, i) !in member.todo[1..]
      ensures Settled(s, member.group, Log(s, p)[i])
    {
      if (p, i) in member.todo {
        assert (p, i) == member.todo[0];
      }
    }
  }

  /** Replacing one member. */
  lemma MemberSwap(s: State, t: State, m: MemberId, member: Member)
    requires DemandOk(s) && t == s.(members := s.members[m := member])
    requires MemberOk(s, member)
    requires forall n :: n in s.members && n != m ==> !Racing(member, s.members[n]) && !Racing(s.members[n], member)
    ensures DemandOk(t)
  {
    ConsumersUnchanged(s, t);
    hide MemberOk, EffectsOk, OffsetsOk, Racing;
  }

  lemma DeliverOwnOk(s: State, m: MemberId)
    requires m in s.members && MemberOk(s, s.members[m]) && ExecDeliver(s, m) != s
    ensures m in ExecDeliver(s, m).members && MemberOk(s, ExecDeliver(s, m).members[m])
  {
    var before := s.members[m];
    var (p, i) := before.todo[0];
    hide Settled, Log;
    if Settled(s, before.group, Log(s, p)[i]) {
      TailOk(s, before);
    }
  }

  lemma DeliverOk(s: State, m: MemberId)
    requires DemandOk(s)
    ensures DemandOk(ExecDeliver(s, m)) && ConsumerOnly(s, ExecDeliver(s, m))
  {
    var t := ExecDeliver(s, m);
    hide Settled, Log, EffectsOk, OffsetsOk, MemberOk;
    if t != s {
      DeliverOwnOk(s, m);
      MemberSwap(s, t, m, t.members[m]);
    }
  }

  lemma FailOk(s: State, m: MemberId)
    requires DemandOk(s)
    ensures var t := s.(members := s.members - {m}); DemandOk(t) && ConsumerOnly(s, t)
  {
    ConsumersUnchanged(s, s.(members := s.members - {m}));
    hide MemberOk;
  }

  /** A handled set that grows settles no less. */
  lemma SettlingKeepsMember(s: State, t: State, member: Member)
    requires ConsumerOnly(s, t) && MemberOk(s, member)
    requires forall g, e :: Settled(s, g, e) ==> Settled(t, g, e)
    requires forall g, p :: Begins(s, g, p) <= Begins(t, g, p)
    requires member.claiming.Some? ==> !Settled(t, member.group, member.claiming.value)
    ensures MemberOk(t, member)
  {
    assert forall p :: Log(t, p) == Log(s, p);
    hide Settled, Log, Begins;
  }

  lemma SettlingKeepsOffsets(s: State, t: State)
    requires ConsumerOnly(s, t) && OffsetsOk(s)
    requires forall g, e :: Settled(s, g, e) ==> Settled(t, g, e)
    requires forall g :: GroupOf(t, g).offsets == GroupOf(s, g).offsets && GroupOf(t, g).starts == GroupOf(s, g).starts
    ensures OffsetsOk(t)
  {
    assert forall p :: Log(t, p) == Log(s, p);
    forall g, p | g in t.groups && p in t.groups[g].offsets ensures SettledBelow(t, g, p, t.groups[g].offsets[p]) {
      assert p in GroupOf(s, g).offsets && SettledBelow(s, g, p, s.groups[g].offsets[p]);
    }
  }

  lemma ApplySettles(s: State, m: MemberId)
    ensures var t := ExecApply(s, m);
            && ConsumerOnly(s, t)
            && (forall g, e :: Settled(s, g, e) ==> Settled(t, g, e))
            && (forall g :: GroupOf(t, g).offsets == GroupOf(s, g).offsets && GroupOf(t, g).starts == GroupOf(s, g).starts)
            && (forall g, p :: Begins(t, g, p) == Begins(s, g, p))
  {
  }

  /** Only the member's own claim is settled by it. */
  lemma ApplyLeavesClaim(s: State, m: MemberId, other: Member)
    requires m in s.members && s.members[m].claiming.Some? && s.members[m].todo != []
    requires MemberOk(s, other) && !Racing(s.members[m], other)
    ensures other.claiming.Some? ==> !Settled(ExecApply(s, m), other.group, other.claiming.value)
  {
    ClaimUnsettled(s, other);
    hide MemberOk;
  }

  lemma ApplyMembersOk(s: State, m: MemberId)
    requires MembersOk(s) && m in s.members && s.members[m].claiming.Some? && s.members[m].todo != []
    ensures MembersOk(ExecApply(s, m))
  {
    hide MemberOk, Settled, Begins, GroupOf, Log;
    var t := ExecApply(s, m);
    ApplySettles(s, m);
    forall n | n in t.members
      ensures MemberOk(t, t.members[n])
    {
      if n == m {
        ApplyOwnOk(s, m);
      } else {
        ApplyLeavesClaim(s, m, s.members[n]);
        SettlingKeepsMember(s, t, s.members[n]);
      }
    }
  }

  lemma ApplyOwnOk(s: State, m: MemberId)
    requires m in s.members && s.members[m].claiming.Some? && s.members[m].todo != [] && MemberOk(s, s.members[m])
    ensures MemberOk(ExecApply(s, m), ExecApply(s, m).members[m])
  {
    var t, member := ExecApply(s, m), s.members[m];
    var e := member.claiming.value;
    ApplySettles(s, m);
    assert Settled(t, member.group, e);
    assert forall p :: Log(t, p) == Log(s, p);
    hide ExecApply, Settled, Begins, GroupOf, Log;
    assert SpanOk(t, member.group, member.span);
    AppliedTail(s, t, member);
  }

  lemma AppliedTail(s: State, t: State, member: Member)
    requires MemberOk(s, member) && member.claiming.Some? && Settled(t, member.group, member.claiming.value)
    requires forall p :: Log(t, p) == Log(s, p)
    requires forall g, e :: Settled(s, g, e) ==> Settled(t, g, e)
    requires forall g, p :: Begins(t, g, p) == Begins(s, g, p)
    requires SpanOk(t, member.group, member.span)
    ensures MemberOk(t, member.(todo := member.todo[1..], claiming := None))
  {
    hide Settled, Log, Begins;
    var after := member.(todo := member.todo[1..], claiming := None);
    assert forall x :: x in after.todo ==> x in member.todo;
    forall p, i: nat | p in member.span.upto && From(t, after, p) <= i < member.span.upto[p] && (p, i) !in after.todo
      ensures Settled(t, member.group, Log(t, p)[i])
    {
      assert From(t, after, p) == From(s, member, p);
      if (p, i) in member.todo {
        assert (p, i) == member.todo[0];
      }
    }
  }

  /** What is claimed committed, on a partition the group subscribes to. */
  lemma ClaimIsRecord(s: State, member: Member)
    requires MemberOk(s, member) && member.claiming.Some? && NothingInvented(s)
    ensures var e := member.claiming.value;
            e in s.enqueued && (member.group, s.enqueued[e]) in s.setup.subscribed && (member.group, e) !in s.setup.skips
            && e !in GroupOf(s, member.group).handled
  {
    var (p, i) := member.todo[0];
    assert Log(s, p)[i] in s.enqueued;
    assert (p, i) in member.todo;
    hide Log;
  }

  lemma AppliedOneMore(g: Group, state: GroupState, e: EventId, enqueued: map<EventId, Partition>, setup: Setup)
    requires AppliedOnce(g, state, enqueued, setup) && e !in state.handled
    requires e in enqueued && (g, e) !in setup.skips && (g, enqueued[e]) in setup.subscribed
    ensures AppliedOnce(g, state.(handled := state.handled + {e}, effects := state.effects + multiset{e}), enqueued, setup)
  {
  }

  lemma GroupApplied(s: State, g: Group)
    requires EffectsOk(s)
    ensures AppliedOnce(g, GroupOf(s, g), s.enqueued, s.setup)
  {
  }

  lemma ApplyEffectsOk(s: State, m: MemberId)
    requires EffectsOk(s) && MembersOk(s) && NothingInvented(s)
    requires m in s.members && s.members[m].claiming.Some? && s.members[m].todo != []
    ensures EffectsOk(ExecApply(s, m))
  {
    hide MemberOk, NothingInvented, AppliedOnce, GroupOf, Racing;
    var member := s.members[m];
    var e := member.claiming.value;
    ClaimIsRecord(s, member);
    GroupApplied(s, member.group);
    AppliedOneMore(member.group, GroupOf(s, member.group), e, s.enqueued, s.setup);
  }

  lemma ApplyStartsOk(s: State, m: MemberId)
    requires StartsOk(s)
    ensures StartsOk(ExecApply(s, m))
  {
    ApplySettles(s, m);
    hide Begins;
  }

  lemma ApplyOk(s: State, m: MemberId)
    requires DemandOk(s) && NothingInvented(s)
    ensures DemandOk(ExecApply(s, m)) && ConsumerOnly(s, ExecApply(s, m))
  {
    hide MemberOk, NothingInvented, EffectsOk, OffsetsOk, StartsOk, Settled, GroupOf, Begins;
    var t := ExecApply(s, m);
    ApplySettles(s, m);
    if t != s {
      ApplyMembersOk(s, m);
      ApplyEffectsOk(s, m);
      ApplyStartsOk(s, m);
      SettlingKeepsOffsets(s, t);
    }
  }

  /** A group never begins earlier for having committed. */
  lemma CommitBegins(s: State, m: MemberId)
    ensures forall g, p :: Begins(s, g, p) <= Begins(ExecCommitOffsets(s, m), g, p)
    ensures m in s.members && s.members[m].todo == [] ==>
              var t, member := ExecCommitOffsets(s, m), s.members[m];
              && (forall p :: p in member.span.first ==> member.span.first[p] <= Begins(t, member.group, p))
              && (forall p :: Begins(t, member.group, p) == Begins(s, member.group, p)
                              || (p in member.span.first && Begins(t, member.group, p) == member.span.first[p]))
              && (forall g, p :: g != member.group ==> Begins(t, g, p) == Begins(s, g, p))
  {
  }

  lemma CommitKeepsStarts(s: State, m: MemberId)
    requires StartsOk(s) && (m in s.members ==> MemberOk(s, s.members[m]))
    ensures StartsOk(ExecCommitOffsets(s, m))
  {
    CommitBegins(s, m);
    hide Begins, Log, Settled;
    assert m in s.members ==> SpanOk(s, s.members[m].group, s.members[m].span);
  }

  lemma CommittedOffsetsOk(s: State, m: MemberId)
    requires OffsetsOk(s) && m in s.members && MemberOk(s, s.members[m]) && s.members[m].todo == []
    ensures OffsetsOk(ExecCommitOffsets(s, m))
  {
    var t := ExecCommitOffsets(s, m);
    var member := s.members[m];
    assert forall p :: Log(t, p) == Log(s, p);
    assert forall g, e :: Settled(s, g, e) == Settled(t, g, e);
    CommitBegins(s, m);
    forall g, p | g in t.groups && p in t.groups[g].offsets ensures SettledBelow(t, g, p, t.groups[g].offsets[p]) {
      hide Log, Settled, Begins;
      if g == member.group && p in member.span.upto {
        assert t.groups[g].offsets[p] == member.span.upto[p];
      } else {
        assert SettledBelow(s, g, p, s.groups[g].offsets[p]);
      }
    }
  }

  lemma CommitOffsetsSettles(s: State, m: MemberId)
    ensures forall g, e :: Settled(s, g, e) == Settled(ExecCommitOffsets(s, m), g, e)
    ensures ConsumerOnly(s, ExecCommitOffsets(s, m))
  {
  }

  lemma CommitOffsetsKeepsMembers(s: State, m: MemberId)
    requires MembersOk(s)
    ensures MembersOk(ExecCommitOffsets(s, m))
  {
    var t := ExecCommitOffsets(s, m);
    CommitOffsetsSettles(s, m);
    CommitBegins(s, m);
    hide Settled, MemberOk, Racing, Begins;
    forall n | n in t.members
      ensures MemberOk(t, t.members[n])
    {
      ClaimUnsettled(s, s.members[n]);
      SettlingKeepsMember(s, t, s.members[n]);
    }
  }

  lemma ClaimUnsettled(s: State, member: Member)
    requires MemberOk(s, member)
    ensures member.claiming.Some? ==> !Settled(s, member.group, member.claiming.value)
  {
    hide Settled, Log;
  }

  lemma CommitOffsetsKeepsEffects(s: State, m: MemberId)
    requires EffectsOk(s)
    ensures EffectsOk(ExecCommitOffsets(s, m))
  {
  }

  lemma CommitOffsetsOk(s: State, m: MemberId)
    requires DemandOk(s)
    ensures DemandOk(ExecCommitOffsets(s, m)) && ConsumerOnly(s, ExecCommitOffsets(s, m))
  {
    CommitOffsetsSettles(s, m);
    CommitOffsetsKeepsMembers(s, m);
    CommitOffsetsKeepsEffects(s, m);
    CommitKeepsStarts(s, m);
    hide Settled, OffsetsOk, EffectsOk, StartsOk, MemberOk, Racing;
    if m in s.members && s.members[m].todo == [] {
      CommittedOffsetsOk(s, m);
    }
  }

  lemma InvStep(s: State, step: Step)
    requires Inv(s)
    ensures Inv(Exec(s, step))
  {
    var t := Exec(s, step);
    hide NothingLost, NothingInvented, RelaysOk, DemandOk, Settled, GroupOf;
    match step {
      case Enqueue(events, now) => EnqueueOk(s, events, now);
      case Acknowledge(r, e) => AcknowledgeOk(s, r, e);
      case Claim(r, ids, now) => ClaimOk(s, r, ids, now); RelayOnlyKeepsDemand(s, t);
      case MarkPublished(r, now) => MarkOk(s, r, now); RelayOnlyKeepsDemand(s, t);
      case BackOff(r, now) => BackOffOk(s, r, now); RelayOnlyKeepsDemand(s, t);
      case RelayCrash(r) => CrashOk(s, r); RelayOnlyKeepsDemand(s, t);
      case Purge(before) => PurgeOk(s, before); RelayOnlyKeepsDemand(s, t);
      case Poll(m, g, span, todo) => PollOk(s, m, g, span, todo); ConsumerOnlyKeepsSupply(s, t);
      case Deliver(m) => DeliverOk(s, m); ConsumerOnlyKeepsSupply(s, t);
      case Apply(m) => SupplyInvents(s); ApplyOk(s, m); ConsumerOnlyKeepsSupply(s, t);
      case Fail(m) => FailOk(s, m); ConsumerOnlyKeepsSupply(s, t);
      case CommitOffsets(m) => CommitOffsetsOk(s, m); ConsumerOnlyKeepsSupply(s, t);
    }
  }

  lemma SupplyInvents(s: State)
    requires SupplyOk(s)
    ensures NothingInvented(s)
  {
  }

  // ------------------------------------------------------------------- theorems

  lemma SetupIsKept(s: State, step: Step)
    ensures Exec(s, step).setup == s.setup
  {
    hide Claimable, IsBatch, Settled, GroupOf, Log, Committed, Backoff;
  }

  lemma {:induction false} RunKeepsInv(s: State, steps: seq<Step>)
    requires Inv(s)
    ensures Inv(Run(s, steps)) && Run(s, steps).setup == s.setup
    decreases |steps|
  {
    hide Inv, Exec;
    if steps != [] {
      InvStep(s, steps[0]);
      SetupIsKept(s, steps[0]);
      RunKeepsInv(Exec(s, steps[0]), steps[1..]);
    }
  }

  lemma InitialOk(setup: Setup)
    ensures Inv(Initial(setup))
  {
  }

  /** Over every run: no committed event is lost before it reaches the bus, however
      relays crash and rows are purged; every record from where a group began up to its
      committed offset was handled or is one it skips; a group that reads from the
      beginning began there; and no event takes effect twice on a group, nor one that
      never committed at all. */
  lemma AtLeastOncePublishedAtMostOnceApplied(setup: Setup, steps: seq<Step>, e: EventId, g: Group, p: Partition, i: nat)
    ensures var s := Run(Initial(setup), steps);
            && (e in s.enqueued ==> (e in s.rows && s.rows[e].publishedAt.None?) || e in Log(s, s.enqueued[e]))
            && (Begins(s, g, p) <= i < Offset(s, g, p) ==> i < |Log(s, p)| && Settled(s, g, Log(s, p)[i]))
            && (g in setup.fromStart ==> Begins(s, g, p) == 0)
            && GroupOf(s, g).effects[e] == (if e in GroupOf(s, g).handled then 1 else 0)
            && (e in GroupOf(s, g).handled ==> e in s.enqueued)
  {
    InitialOk(setup);
    RunKeepsInv(Initial(setup), steps);
    var s := Run(Initial(setup), steps);
    hide Run, Begins;
    if g in s.groups && p in s.groups[g].offsets {
      assert SettledBelow(s, g, p, s.groups[g].offsets[p]);
    }
    assert g in s.groups ==> AppliedOnce(g, s.groups[g], s.enqueued, s.setup);
  }

  /** No row waits to be published and the group has committed up to the end of every
      partition it subscribes to. */
  ghost predicate Drained(s: State, g: Group) {
    && (forall e :: e in s.rows ==> s.rows[e].publishedAt.Some?)
    && (forall p :: (g, p) in s.setup.subscribed ==> Offset(s, g, p) == |Log(s, p)|)
  }

  /** What a group is there for. */
  predicate Wanted(s: State, g: Group, e: EventId) {
    e in s.enqueued && (g, e) !in s.setup.skips && (g, s.enqueued[e]) in s.setup.subscribed
  }

  ghost predicate ExactlyOnce(s: State, g: Group) {
    forall e :: GroupOf(s, g).effects[e] == if Wanted(s, g, e) then 1 else 0
  }

  /** No record the group subscribes to lies unhandled before where it began. */
  ghost predicate NoneJumped(s: State, g: Group) {
    forall p, i: nat :: (g, p) in s.setup.subscribed && i < Begins(s, g, p) && i < |Log(s, p)| ==> Settled(s, g, Log(s, p)[i])
  }

  lemma EffectIsHandled(s: State, g: Group, e: EventId)
    requires EffectsOk(s)
    ensures GroupOf(s, g).effects[e] == if e in GroupOf(s, g).handled then 1 else 0
    ensures e in GroupOf(s, g).handled ==> Wanted(s, g, e)
  {
    assert g in s.groups ==> AppliedOnce(g, s.groups[g], s.enqueued, s.setup);
  }

  lemma OnceFromItsStart(s: State, g: Group, e: EventId, i: nat)
    requires Inv(s) && Drained(s, g) && Wanted(s, g, e)
    requires Begins(s, g, s.enqueued[e]) <= i < |Log(s, s.enqueued[e])| && Log(s, s.enqueued[e])[i] == e
    ensures GroupOf(s, g).effects[e] == 1
  {
    hide Begins, Log;
    var p := s.enqueued[e];
    assert i < Offset(s, g, p);
    assert SettledBelow(s, g, p, s.groups[g].offsets[p]);
    EffectIsHandled(s, g, e);
  }

  lemma OnTheBus(s: State, e: EventId) returns (i: nat)
    requires NothingLost(s) && e in s.enqueued && (e in s.rows ==> s.rows[e].publishedAt.Some?)
    ensures i < |Log(s, s.enqueued[e])| && Log(s, s.enqueued[e])[i] == e
  {
    i :| 0 <= i < |Log(s, s.enqueued[e])| && Log(s, s.enqueued[e])[i] == e;
  }

  lemma DrainedIff(s: State, g: Group)
    requires Inv(s) && Drained(s, g)
    ensures ExactlyOnce(s, g) <==> NoneJumped(s, g)
  {
    hide Begins, Log, NothingLost;
    if NoneJumped(s, g) {
      forall e ensures GroupOf(s, g).effects[e] == if Wanted(s, g, e) then 1 else 0 {
        EffectIsHandled(s, g, e);
        if Wanted(s, g, e) {
          var i := OnTheBus(s, e);
          if Begins(s, g, s.enqueued[e]) <= i {
            OnceFromItsStart(s, g, e, i);
          }
        }
      }
    }
    if ExactlyOnce(s, g) {
      forall p, i: nat | (g, p) in s.setup.subscribed && i < Begins(s, g, p) && i < |Log(s, p)|
        ensures Settled(s, g, Log(s, p)[i])
      {
        EffectIsHandled(s, g, Log(s, p)[i]);
        assert Log(s, p)[i] in s.enqueued && s.enqueued[Log(s, p)[i]] == p;
      }
    }
  }

  /** Exactly once: in every run, once drained, what took effect on the group is the set of
      events that committed on its partitions and that it does not skip, each once, exactly
      when none lies unhandled before where it began. */
  lemma ExactlyOnceWhenDrainedIff(setup: Setup, steps: seq<Step>, g: Group)
    requires Drained(Run(Initial(setup), steps), g)
    ensures ExactlyOnce(Run(Initial(setup), steps), g) <==> NoneJumped(Run(Initial(setup), steps), g)
  {
    hide Run, Drained, ExactlyOnce, NoneJumped;
    InitialOk(setup);
    RunKeepsInv(Initial(setup), steps);
    hide Inv;
    DrainedIff(Run(Initial(setup), steps), g);
  }

  /** So for a group that reads from the beginning, always. */
  lemma ExactlyOnceFromTheBeginning(setup: Setup, steps: seq<Step>, g: Group)
    requires g in setup.fromStart && Drained(Run(Initial(setup), steps), g)
    ensures ExactlyOnce(Run(Initial(setup), steps), g)
  {
    hide Run, Drained, ExactlyOnce, Begins;
    InitialOk(setup);
    RunKeepsInv(Initial(setup), steps);
    DrainedIff(Run(Initial(setup), steps), g);
  }

  /** And for any group, of an event some record of which lies at or after where it began. */
  lemma OnceFromWhereItBegan(setup: Setup, steps: seq<Step>, g: Group, e: EventId, i: nat)
    requires Drained(Run(Initial(setup), steps), g) && Wanted(Run(Initial(setup), steps), g, e)
    requires var s := Run(Initial(setup), steps);
             Begins(s, g, s.enqueued[e]) <= i < |Log(s, s.enqueued[e])| && Log(s, s.enqueued[e])[i] == e
    ensures GroupOf(Run(Initial(setup), steps), g).effects[e] == 1
  {
    hide Run, Drained, Begins, GroupOf;
    InitialOk(setup);
    RunKeepsInv(Initial(setup), steps);
    OnceFromItsStart(Run(Initial(setup), steps), g, e, i);
  }

  // Two events go out; a group that names its topics comes between them.
  const SETUP := Setup({}, {(0, 0)}, {})

  const JUMP: seq<Step> := [
    Enqueue(map[7 := 0, 8 := 0], 0), Claim(0, {7, 8}, 0), Acknowledge(0, 7), Acknowledge(0, 8), MarkPublished(0, 0),
    Poll(0, 0, Span(map[0 := 1], map[0 := 2]), [(0, 1)]), Deliver(0), Apply(0), CommitOffsets(0)]

  const OUT := map[7 := Row(0, 0, None, 0), 8 := Row(0, 0, None, 0)]
  const MARKED := map[7 := Row(0, 0, Some(0), 0), 8 := Row(0, 0, Some(0), 0)]
  const SPAN := Span(map[0 := 1], map[0 := 2])

  function Jumping(rows: map<EventId, Row>, log: seq<EventId>, relays: map<RelayId, Relay>): State {
    State(map[7 := 0, 8 := 0], rows, if log == [] then map[] else map[0 := log], relays, map[], map[], SETUP)
  }

  lemma JumpEnqueues()
    ensures ExecEnqueue(Initial(SETUP), map[7 := 0, 8 := 0], 0) == Jumping(OUT, [], map[])
  {
    assert ExecEnqueue(Initial(SETUP), map[7 := 0, 8 := 0], 0).rows == OUT;
  }

  lemma JumpClaims()
    ensures ExecClaim(Jumping(OUT, [], map[]), 0, {7, 8}, 0) == Jumping(OUT, [], map[0 := Relay({7, 8}, {})])
  {
  }

  lemma JumpTakes()
    ensures ExecAcknowledge(Jumping(OUT, [], map[0 := Relay({7, 8}, {})]), 0, 7) == Jumping(OUT, [7], map[0 := Relay({7, 8}, {7})])
    ensures ExecAcknowledge(Jumping(OUT, [7], map[0 := Relay({7, 8}, {7})]), 0, 8)
         == Jumping(OUT, [7, 8], map[0 := Relay({7, 8}, {7, 8})])
  {
    assert [] + [7] == [7] && [7] + [8] == [7, 8];
    assert {} + {7} == {7} && {7} + {8} == {7, 8};
  }

  lemma JumpMarks()
    ensures ExecMark(Jumping(OUT, [7, 8], map[0 := Relay({7, 8}, {7, 8})]), 0, 0) == Jumping(MARKED, [7, 8], map[])
  {
    var s := Jumping(OUT, [7, 8], map[0 := Relay({7, 8}, {7, 8})]);
    assert ExecMark(s, 0, 0).rows == MARKED && ExecMark(s, 0, 0).relays == map[];
  }

  lemma JumpPublishes()
    ensures Run(Initial(SETUP), JUMP[..5]) == Jumping(MARKED, [7, 8], map[])
  {
    hide Jumping, Initial, ExecEnqueue, ExecClaim, ExecAcknowledge, ExecMark;
    var s0 := Initial(SETUP);
    assert JUMP[..0] == [] && Run(s0, []) == s0;
    hide Run;
    JumpEnqueues();
    JumpClaims();
    JumpTakes();
    JumpMarks();
    RunOneMore(s0, JUMP, 0);
    RunOneMore(s0, JUMP, 1);
    RunOneMore(s0, JUMP, 2);
    RunOneMore(s0, JUMP, 3);
    RunOneMore(s0, JUMP, 4);
  }

  // The group's member with a batch of one, and what the group has done.
  function Jumped(groups: map<Group, GroupState>, todo: seq<(Partition, nat)>, claiming: Option<EventId>): State {
    Jumping(MARKED, [7, 8], map[]).(groups := groups, members := map[0 := Member(0, SPAN, todo, claiming)])
  }

  lemma JumpPolls()
    ensures Exec(Jumping(MARKED, [7, 8], map[]), JUMP[5]) == Jumped(map[], [(0, 1)], None)
  {
    assert IsBatch(Jumping(MARKED, [7, 8], map[]), 0, map[], SPAN, [(0, 1)]);
  }

  lemma JumpDelivers()
    ensures Exec(Jumped(map[], [(0, 1)], None), JUMP[6]) == Jumped(map[], [(0, 1)], Some(8))
  {
    var s := Jumped(map[], [(0, 1)], None);
    assert Log(s, 0)[1] == 8 && !Settled(s, 0, 8);
  }

  lemma JumpApplies()
    ensures Exec(Jumped(map[], [(0, 1)], Some(8)), JUMP[7])
         == Jumped(map[0 := GroupState(map[], map[], {8}, multiset{8})], [], None)
  {
    var s := Jumped(map[], [(0, 1)], Some(8));
    var todo: seq<(Partition, nat)> := [(0, 1)];
    assert s.members[0].todo == todo && todo[1..] == [];
    assert GroupOf(s, 0) == GroupState(map[], map[], {}, multiset{});
    assert {} + {8} == {8} && multiset{} + multiset{8} == multiset{8};
    assert ExecApply(s, 0).groups == map[0 := GroupState(map[], map[], {8}, multiset{8})];
  }

  lemma JumpCommits()
    ensures Exec(Jumped(map[0 := GroupState(map[], map[], {8}, multiset{8})], [], None), JUMP[8])
         == Jumping(MARKED, [7, 8], map[]).(groups := map[0 := GroupState(map[0 := 2], map[0 := 1], {8}, multiset{8})])
  {
    var g := GroupState(map[], map[], {8}, multiset{8});
    assert Committed(g, SPAN) == GroupState(map[0 := 2], map[0 := 1], {8}, multiset{8});
  }

  lemma JumpEnds(s: State)
    requires s == Jumping(MARKED, [7, 8], map[])
    ensures var t := s.(groups := map[0 := GroupState(map[0 := 2], map[0 := 1], {8}, multiset{8})]);
            Drained(t, 0) && Wanted(t, 0, 7) && GroupOf(t, 0).effects[7] == 0 && GroupOf(t, 0).effects[8] == 1
  {
  }

  /** And for any other there is a run that shows it: everything published, everything
      committed, and the event from before it came has not taken effect. */
  lemma JumpedOver()
    ensures var s := Run(Initial(SETUP), JUMP);
            && Drained(s, 0) && Wanted(s, 0, 7) && GroupOf(s, 0).effects[7] == 0 && GroupOf(s, 0).effects[8] == 1
  {
    hide Run, Exec, Initial, Jumping, Jumped;
    var s0 := Initial(SETUP);
    JumpPublishes();
    JumpPolls();
    JumpDelivers();
    JumpApplies();
    JumpCommits();
    JumpEnds(Run(s0, JUMP[..5]));
    RunOneMore(s0, JUMP, 5);
    RunOneMore(s0, JUMP, 6);
    RunOneMore(s0, JUMP, 7);
    RunOneMore(s0, JUMP, 8);
    assert JUMP[..9] == JUMP;
  }

  lemma {:induction false} RunOneMore(s: State, steps: seq<Step>, k: nat)
    requires k < |steps|
    ensures Run(s, steps[..k + 1]) == Exec(Run(s, steps[..k]), steps[k])
    decreases |steps|
  {
    hide Exec;
    if k == 0 {
      assert steps[..1][1..] == [] && steps[..0] == [];
      assert Run(Exec(s, steps[0]), []) == Exec(s, steps[0]);
    } else {
      RunOneMore(Exec(s, steps[0]), steps[1..], k - 1);
      assert steps[..k + 1][1..] == steps[1..][..k] && steps[..k][1..] == steps[1..][..k - 1];
    }
  }

  lemma LateStateOk(s: State)
    requires s == State(map[7 := 0], map[7 := Row(0, 0, Some(0), 0)], map[0 := [7]], map[],
                        map[0 := GroupState(map[0 := 0], map[0 := 0], {}, multiset{})], map[], Setup({}, {(0, 0)}, {0}))
    ensures Inv(s)
  {
  }

  const LATE := State(map[7 := 0], map[7 := Row(0, 0, Some(0), 0)], map[0 := [7]], map[],
                      map[0 := GroupState(map[0 := 0], map[0 := 0], {}, multiset{})], map[], Setup({}, {(0, 0)}, {0}))

  lemma LatePolls()
    ensures PollAt(LATE, 0, 0, map[0 := 1], Span(map[], map[0 := 1]), [])
         == LATE.(members := map[0 := Member(0, Span(map[], map[0 := 1]), [], None)])
  {
    assert IsBatch(LATE, 0, map[0 := 1], Span(map[], map[0 := 1]), []);
  }

  lemma LateCommits()
    ensures ExecCommitOffsets(LATE.(members := map[0 := Member(0, Span(map[], map[0 := 1]), [], None)]), 0)
         == LATE.(groups := map[0 := GroupState(map[0 := 1], map[0 := 0], {}, multiset{})])
  {
    assert StartsAfter(map[0 := 0], map[]) == map[0 := 0] && map[0 := 0] + map[0 := 1] == map[0 := 1];
  }

  /** The assumption on the poll is needed. Were a batch to start past a record that
      failed, the next commit would cover it unhandled: from a state every run
      property holds of, one such batch breaks the promise about offsets. */
  lemma ResumingPastAFailureLosesIt()
    ensures Inv(LATE)
    ensures var t := ExecCommitOffsets(PollAt(LATE, 0, 0, map[0 := 1], Span(map[], map[0 := 1]), []), 0);
            !OffsetsOk(t) && Begins(t, 0, 0) == 0 && Offset(t, 0, 0) == 1 && !Settled(t, 0, 7)
  {
    LateStateOk(LATE);
    hide Inv, PollAt, ExecCommitOffsets;
    LatePolls();
    LateCommits();
    var t := LATE.(groups := map[0 := GroupState(map[0 := 1], map[0 := 0], {}, multiset{})]);
    assert Log(t, 0)[0] == 7 && !SettledBelow(t, 0, 0, 1);
  }

  lemma {:induction false} Pow2Grows(a: nat, b: nat)
    requires a <= b
    ensures 1 <= Pow2(a) <= Pow2(b)
  {
    if b > 0 {
      if a < b {
        Pow2Grows(a, b - 1);
      } else {
        Pow2Grows(a - 1, b - 1);
      }
    }
  }

  /** A row that keeps failing waits longer each time, never less than two seconds
      and never more than five minutes, so it neither spins nor is forgotten. */
  lemma BackoffBounded(a: nat, b: nat)
    requires a <= b
    ensures 2 <= Backoff(a) <= Backoff(b) <= MAX_BACKOFF
  {
    Pow2Grows(a + 1, b + 1);
    Pow2Grows(1, a + 1);
  }

  // ------------------------------------------------------------ failures, row by row

  /** How long the k-th failure puts a row off: two seconds, then twice as long each time,
      and five minutes when twice as long would be more. */
  function Wait(k: nat): nat {
    if k <= 1 then 2 else if 2 * Wait(k - 1) < 300 then 2 * Wait(k - 1) else 300
  }

  lemma {:induction false} WaitIsBackoff(k: nat)
    ensures Backoff(k) == Wait(k + 1)
  {
    if k > 0 {
      WaitIsBackoff(k - 1);
      assert Pow2(k + 1) == 2 * Pow2(k);
    } else {
      assert Pow2(1) == 2 * Pow2(0) == 2;
    }
  }

  /** The step is the failure of a publish that the event's row was part of. */
  predicate FailsFor(s: State, step: Step, e: EventId) {
    step.BackOff? && step.relay in s.relays && e in s.relays[step.relay].claimed
  }

  /** How many failed publishes an event's row has been part of. */
  ghost function Failures(setup: Setup, steps: seq<Step>, e: EventId): nat {
    if steps == [] then 0
    else
      var init, last := steps[..|steps| - 1], steps[|steps| - 1];
      Failures(setup, init, e) + if FailsFor(Run(Initial(setup), init), last, e) then 1 else 0
  }

  /** When its row may next be claimed: when it was written, or once it has failed, as long
      after its last failure as the number of its failures says. */
  ghost function ReadyAt(setup: Setup, steps: seq<Step>, e: EventId): Time {
    if steps == [] then 0
    else
      var init, last := steps[..|steps| - 1], steps[|steps| - 1];
      if FailsFor(Run(Initial(setup), init), last, e) then last.now + Wait(Failures(setup, steps, e))
      else if last.Enqueue? && e in last.events && e !in Run(Initial(setup), init).enqueued then last.now
      else ReadyAt(setup, init, e)
  }

  lemma AfterLast(setup: Setup, steps: seq<Step>)
    requires steps != []
    ensures var init := steps[..|steps| - 1];
            && Inv(Run(Initial(setup), init))
            && Run(Initial(setup), steps) == Exec(Run(Initial(setup), init), steps[|steps| - 1])
  {
    hide Exec, Run, Inv, Initial;
    var init := steps[..|steps| - 1];
    InitialOk(setup);
    RunKeepsInv(Initial(setup), init);
    RunOneMore(Initial(setup), steps, |steps| - 1);
    assert steps[..|steps| - 1 + 1] == steps;
  }

  lemma {:induction false} NoFailureBefore(setup: Setup, steps: seq<Step>, e: EventId)
    requires e !in Run(Initial(setup), steps).enqueued
    ensures Failures(setup, steps, e) == 0
  {
    if steps != [] {
      hide Run, Initial;
      var init := steps[..|steps| - 1];
      AfterLast(setup, steps);
      EnqueuedStays(Run(Initial(setup), init), steps[|steps| - 1], e);
      NoFailureBefore(setup, init, e);
    }
  }

  lemma EnqueuedStays(s: State, step: Step, e: EventId)
    requires Inv(s) && e !in Exec(s, step).enqueued
    ensures e !in s.enqueued && !FailsFor(s, step, e)
  {
    hide Claimable, IsBatch, Settled, GroupOf, Log, Committed, Backoff, DemandOk, NothingLost;
  }

  /** A row after a step: new, put off, published, or as it was. */
  ghost predicate RowMoves(s: State, step: Step, e: EventId, row: Row) {
    if e !in s.rows then
      step.Enqueue? && e in step.events && e !in s.enqueued && row == Row(step.events[e], step.now, None, 0)
    else if FailsFor(s, step, e) then
      row == s.rows[e].(attempts := s.rows[e].attempts + 1, availableAt := step.now + Wait(s.rows[e].attempts + 1))
    else
      row == s.rows[e] || (step.MarkPublished? && row == s.rows[e].(publishedAt := Some(step.now)))
  }

  lemma RowAfter(s: State, step: Step, e: EventId)
    requires Inv(s) && e in Exec(s, step).rows
    ensures RowMoves(s, step, e, Exec(s, step).rows[e])
    ensures e in s.rows ==> !(step.Enqueue? && e in step.events && e !in s.enqueued)
  {
    hide Claimable, IsBatch, Settled, GroupOf, Log, Committed, Backoff, Wait, DemandOk, NothingLost;
    if e in s.rows {
      assert e in s.enqueued;
      WaitIsBackoff(s.rows[e].attempts);
    }
  }

  /** Over every run a row has counted every failed publish it was part of, and may next be
      claimed as long after the last as there have been: two seconds, four, eight and on to
      256, and then five minutes each time. */
  lemma {:induction false} EveryFailureCounts(setup: Setup, steps: seq<Step>, e: EventId)
    requires e in Run(Initial(setup), steps).rows
    ensures var row := Run(Initial(setup), steps).rows[e];
            row.attempts == Failures(setup, steps, e) && row.availableAt == ReadyAt(setup, steps, e)
  {
    if steps != [] {
      hide Run, Initial, Exec, Inv, FailsFor;
      var init, last := steps[..|steps| - 1], steps[|steps| - 1];
      var s := Run(Initial(setup), init);
      AfterLast(setup, steps);
      RowAfter(s, last, e);
      if e in s.rows {
        EveryFailureCounts(setup, init, e);
      } else {
        NoFailureBefore(setup, init, e);
        FailsOnlyRows(s, last, e);
      }
    }
  }

  lemma FailsOnlyRows(s: State, step: Step, e: EventId)
    requires Inv(s) && e !in s.rows
    ensures !FailsFor(s, step, e)
  {
    hide DemandOk, NothingLost, NothingInvented;
  }

  /** A relay claims exactly rows that are written and not published, whose time has come,
      and that no other relay holds. */
  lemma ClaimsWhatIsDue(setup: Setup, steps: seq<Step>, r: RelayId, ids: set<EventId>, now: Time)
    requires r !in Run(Initial(setup), steps).relays
    ensures var s := Run(Initial(setup), steps);
            var t := Exec(s, Claim(r, ids, now));
            if forall e :: e in ids ==>
                 && e in s.rows && s.rows[e].publishedAt.None? && ReadyAt(setup, steps, e) <= now
                 && forall q :: q in s.relays ==> e !in s.relays[q].claimed
            then t == s.(relays := s.relays[r := Relay(ids, {})])
            else t == s
  {
    hide Run, Initial, ReadyAt, Failures;
    var s := Run(Initial(setup), steps);
    forall e | e in ids && e in s.rows ensures s.rows[e].availableAt == ReadyAt(setup, steps, e) {
      EveryFailureCounts(setup, steps, e);
    }
  }

  /** A member that comes to a record its group has yet to handle waits exactly while
      another member of that group has it open; what any other group does with it, or its
      own does with others, is nothing to it. */
  lemma WaitsForItsOwnGroup(s: State, m: MemberId)
    requires m in s.members && s.members[m].todo != [] && s.members[m].claiming.None?
    requires var (p, i) := s.members[m].todo[0];
             i < |Log(s, p)| && Log(s, p)[i] !in GroupOf(s, s.members[m].group).handled
             && (s.members[m].group, Log(s, p)[i]) !in s.setup.skips
    ensures var member := s.members[m];
            var e := Log(s, member.todo[0].0)[member.todo[0].1];
            if exists n :: n in s.members && n != m && s.members[n].group == member.group && s.members[n].claiming == Some(e)
            then Exec(s, Deliver(m)) == s
            else Exec(s, Deliver(m)) == s.(members := s.members[m := member.(claiming := Some(e))])
  {
    hide GroupOf, Log;
  }
}
