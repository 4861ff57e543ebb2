/** The relay's drain and the consumer's loop as they are written, on tables updated in
    place.

    Platform holds the outbox, the bus and the tables of every consumer group. Its
    methods are the program's loops: one drain of a relay, one claim and effect, one
    batch handed over record by record. Each states its whole effect on the tables, and
    each is shown to be one of the runs of the event path, by naming the steps it takes
    there: claiming, acknowledgements and marking for a drain; a poll, deliveries,
    applications and a commit of offsets for a batch. */
module EventLoops {
  import opened Common
  import opened EventPath

  ghost predicate Reaches(s: State, t: State) {
    exists steps :: Run(s, steps) == t
  }

  lemma ReachesStep(s: State, t: State, step: Step)
    requires Reaches(s, t)
    ensures Reaches(s, Exec(t, step))
  {
    hide Exec;
    var steps :| Run(s, steps) == t;
    var more := steps + [step];
    assert more[..|steps|] == steps && more[..|steps| + 1] == more;
    RunOneMore(s, more, |steps|);
  }

  lemma ReachesItself(s: State)
    ensures Reaches(s, s)
  {
    assert Run(s, []) == s;
  }

  lemma ReachedIsOk(s: State, t: State)
    requires Inv(s) && Reaches(s, t)
    ensures Inv(t)
  {
    var steps :| Run(s, steps) == t;
    RunKeepsInv(s, steps);
  }

  function EventAt(s: State, at: (Partition, nat)): EventId
    requires at.1 < |Log(s, at.0)|
  {
    Log(s, at.0)[at.1]
  }

  ghost predicate Records(s: State, todo: seq<(Partition, nat)>) {
    forall k :: 0 <= k < |todo| ==> todo[k].1 < |Log(s, todo[k].0)|
  }

  /** The handler of this record runs, and fails. */
  ghost predicate FailsAt(s: State, g: Group, at: (Partition, nat), failing: set<EventId>)
    requires at.1 < |Log(s, at.0)|
  {
    !Settled(s, g, EventAt(s, at)) && EventAt(s, at) in failing
  }

  /** How many records are handed over before one fails. */
  ghost function Reach(s: State, g: Group, todo: seq<(Partition, nat)>, failing: set<EventId>): (n: nat)
    requires Records(s, todo)
    ensures n <= |todo|
    ensures forall k :: 0 <= k < n ==> !FailsAt(s, g, todo[k], failing)
    ensures n < |todo| ==> FailsAt(s, g, todo[n], failing)
  {
    if todo == [] || FailsAt(s, g, todo[0], failing) then 0
    else
      assert forall k :: 0 <= k < |todo| - 1 ==> todo[1..][k] == todo[k + 1];
      1 + Reach(s, g, todo[1..], failing)
  }

  lemma ReachUnique(s: State, g: Group, todo: seq<(Partition, nat)>, failing: set<EventId>, n: nat)
    requires Records(s, todo) && n <= |todo|
    requires forall k :: 0 <= k < n ==> !FailsAt(s, g, todo[k], failing)
    requires n < |todo| ==> FailsAt(s, g, todo[n], failing)
    ensures n == Reach(s, g, todo, failing)
  {
  }

  /** The events among the first n records that the group has yet to handle. */
  ghost function Unhandled(s: State, g: Group, todo: seq<(Partition, nat)>, n: nat): set<EventId>
    requires Records(s, todo) && n <= |todo|
  {
    set k | 0 <= k < n && !Settled(s, g, EventAt(s, todo[k])) :: EventAt(s, todo[k])
  }

  // --------------------------------------------------------- draining, as a run

  function Append(logs: map<Partition, seq<EventId>>, p: Partition, e: EventId): map<Partition, seq<EventId>> {
    logs[p := (if p in logs then logs[p] else []) + [e]]
  }

  /** The bus after taking some ids in order. */
  function Sent(logs: map<Partition, seq<EventId>>, rows: map<EventId, Row>, ids: seq<EventId>):
      map<Partition, seq<EventId>>
    requires forall k :: 0 <= k < |ids| ==> ids[k] in rows
  {
    if ids == [] then logs
    else Append(Sent(logs, rows, ids[..|ids| - 1]), rows[ids[|ids| - 1]].partition, ids[|ids| - 1])
  }

  /** The ids bound for a partition, in the order given. */
  function BoundFor(rows: map<EventId, Row>, ids: seq<EventId>, p: Partition): seq<EventId>
    requires forall k :: 0 <= k < |ids| ==> ids[k] in rows
  {
    if ids == [] then []
    else BoundFor(rows, ids[..|ids| - 1], p) +
         if rows[ids[|ids| - 1]].partition == p then [ids[|ids| - 1]] else []
  }

  /** Each partition grows by the ids bound for it, in the order handed over. */
  lemma {:induction false} SentKeepsOrder(s: State, ids: seq<EventId>, p: Partition)
    requires forall k :: 0 <= k < |ids| ==> ids[k] in s.rows
    ensures Log(s.(logs := Sent(s.logs, s.rows, ids)), p) == Log(s, p) + BoundFor(s.rows, ids, p)
    decreases |ids|
  {
    if ids != [] {
      SentKeepsOrder(s, ids[..|ids| - 1], p);
    }
  }

  function Marked(rows: map<EventId, Row>, ids: seq<EventId>, now: Time): map<EventId, Row> {
    map e | e in rows :: if e in ids then rows[e].(publishedAt := Some(now)) else rows[e]
  }

  function Delayed(rows: map<EventId, Row>, ids: seq<EventId>, now: Time): map<EventId, Row> {
    map e | e in rows ::
      if e in ids then rows[e].(attempts := rows[e].attempts + 1, availableAt := now + Backoff(rows[e].attempts))
      else rows[e]
  }

  lemma ClaimedAreRows(s: State, ids: seq<EventId>, now: Time)
    requires Claimable(s, IdSet(ids), now)
    ensures forall k :: 0 <= k < |ids| ==> ids[k] in s.rows
  {
    forall k | 0 <= k < |ids| ensures ids[k] in s.rows {
      assert ids[k] in IdSet(ids);
    }
  }

  /** Row by row: those of the batch are marked, or count the attempt and wait for it. */
  ghost predicate RowsAfterDrain(was: map<EventId, Row>, rows: map<EventId, Row>, ids: seq<EventId>, all: bool, now: Time) {
    && rows.Keys == was.Keys
    && forall e :: e in rows ==>
         rows[e] == if e !in ids then was[e]
                    else if all then was[e].(publishedAt := Some(now))
                    else was[e].(attempts := was[e].attempts + 1, availableAt := now + Wait(was[e].attempts + 1))
  }

  lemma RowsDrained(rows: map<EventId, Row>, ids: seq<EventId>, now: Time)
    ensures RowsAfterDrain(rows, Marked(rows, ids, now), ids, true, now)
    ensures RowsAfterDrain(rows, Delayed(rows, ids, now), ids, false, now)
  {
    forall e | e in rows ensures Backoff(rows[e].attempts) == Wait(rows[e].attempts + 1) {
      WaitIsBackoff(rows[e].attempts);
    }
    hide Backoff, Wait;
  }

  function IdSet(ids: seq<EventId>): set<EventId> { set e | e in ids }

  /** The state while a relay publishes: n of its ids have been taken. */
  ghost function Publishing(s: State, r: RelayId, ids: seq<EventId>, n: nat): State
    requires n <= |ids| && forall k :: 0 <= k < |ids| ==> ids[k] in s.rows
  {
    s.(logs := Sent(s.logs, s.rows, ids[..n]), relays := s.relays[r := Relay(IdSet(ids), IdSet(ids[..n]))])
  }

  lemma {:induction false} PublishIsRun(s: State, r: RelayId, ids: seq<EventId>, n: nat, now: Time)
    requires r !in s.relays && Claimable(s, IdSet(ids), now) && n <= |ids|
    requires forall k :: 0 <= k < |ids| ==> ids[k] in s.rows
    ensures Reaches(s, Publishing(s, r, ids, n))
  {
    if n == 0 {
      ReachesItself(s);
      ReachesStep(s, s, Claim(r, IdSet(ids), now));
      assert ids[..0] == [] && IdSet([]) == {};
      assert Publishing(s, r, ids, 0) == Exec(s, Claim(r, IdSet(ids), now));
    } else {
      hide Reaches, Claimable, Publishing, Exec, IdSet, Sent;
      PublishIsRun(s, r, ids, n - 1, now);
      ReachesStep(s, Publishing(s, r, ids, n - 1), Acknowledge(r, ids[n - 1]));
      PublishNext(s, r, ids, n);
    }
  }

  lemma PublishNext(s: State, r: RelayId, ids: seq<EventId>, n: nat)
    requires 0 < n <= |ids| && forall k :: 0 <= k < |ids| ==> ids[k] in s.rows
    ensures Publishing(s, r, ids, n) == Exec(Publishing(s, r, ids, n - 1), Acknowledge(r, ids[n - 1]))
  {
    var e := ids[n - 1];
    assert e in IdSet(ids);
    assert ids[..n][..n - 1] == ids[..n - 1] && ids[..n] == ids[..n - 1] + [e];
    assert IdSet(ids[..n]) == IdSet(ids[..n - 1]) + {e};
  }

  lemma MarkIsMarked(s: State, r: RelayId, ids: seq<EventId>, now: Time)
    requires r !in s.relays && forall k :: 0 <= k < |ids| ==> ids[k] in s.rows
    ensures Exec(Publishing(s, r, ids, |ids|), MarkPublished(r, now))
         == s.(logs := Sent(s.logs, s.rows, ids), rows := Marked(s.rows, ids, now))
  {
    hide Sent;
    var sent := Publishing(s, r, ids, |ids|);
    assert ids[..|ids|] == ids;
    assert sent.relays - {r} == s.relays;
    assert ExecMark(sent, r, now).rows == Marked(s.rows, ids, now);
  }

  lemma BackOffIsDelayed(s: State, r: RelayId, ids: seq<EventId>, taken: nat, now: Time)
    requires r !in s.relays && taken <= |ids| && forall k :: 0 <= k < |ids| ==> ids[k] in s.rows
    ensures Exec(Publishing(s, r, ids, taken), BackOff(r, now))
         == s.(logs := Sent(s.logs, s.rows, ids[..taken]), rows := Delayed(s.rows, ids, now))
  {
    hide Sent, Backoff;
    var sent := Publishing(s, r, ids, taken);
    assert sent.relays - {r} == s.relays;
    assert ExecBackOff(sent, r, now).rows == Delayed(s.rows, ids, now);
  }

  /** Drain as a whole: everything taken and marked, or the failure recorded. */
  lemma DrainIsRun(s: State, r: RelayId, ids: seq<EventId>, taken: nat, now: Time)
    requires r !in s.relays && Claimable(s, IdSet(ids), now) && taken <= |ids|
    requires forall k :: 0 <= k < |ids| ==> ids[k] in s.rows
    ensures Reaches(s, s.(logs := Sent(s.logs, s.rows, ids[..taken]),
                          rows := if taken == |ids| then Marked(s.rows, ids, now) else Delayed(s.rows, ids, now)))
  {
    hide Reaches, Claimable, Sent, Exec, Marked, Delayed, Publishing, IdSet;
    PublishIsRun(s, r, ids, taken, now);
    if taken == |ids| {
      assert ids[..taken] == ids;
      MarkIsMarked(s, r, ids, now);
      ReachesStep(s, Publishing(s, r, ids, taken), MarkPublished(r, now));
    } else {
      BackOffIsDelayed(s, r, ids, taken, now);
      ReachesStep(s, Publishing(s, r, ids, taken), BackOff(r, now));
    }
  }

  // --------------------------------------------------------- handling, as a run

  ghost function Handled(s: State, g: Group, events: set<EventId>): map<Group, GroupState> {
    if events == {} then s.groups
    else s.groups[g := GroupOf(s, g).(handled := GroupOf(s, g).handled + events,
                                      effects := GroupOf(s, g).effects + multiset(events))]
  }

  /** The state while a member works through a batch: n records are done with. */
  ghost function Handling(s: State, m: MemberId, g: Group, span: Span, todo: seq<(Partition, nat)>, n: nat):
      State
    requires Records(s, todo) && n <= |todo|
  {
    s.(groups := Handled(s, g, Unhandled(s, g, todo, n)), members := s.members[m := Member(g, span, todo[n..], None)])
  }

  lemma UnhandledGrows(s: State, g: Group, todo: seq<(Partition, nat)>, n: nat)
    requires Records(s, todo) && n < |todo|
    ensures Unhandled(s, g, todo, n + 1)
         == Unhandled(s, g, todo, n) + if Settled(s, g, EventAt(s, todo[n])) then {} else {EventAt(s, todo[n])}
  {
  }

  /** What the next record does to the group: nothing if it is settled, one more
      application if not. */
  lemma NextHandled(s: State, g: Group, todo: seq<(Partition, nat)>, n: nat)
    requires Records(s, todo) && n < |todo|
    ensures var before, e := s.(groups := Handled(s, g, Unhandled(s, g, todo, n))), EventAt(s, todo[n]);
            Handled(s, g, Unhandled(s, g, todo, n + 1)) == if Settled(before, g, e) then before.groups else Handled(before, g, {e})
  {
    var e, events := EventAt(s, todo[n]), Unhandled(s, g, todo, n);
    var before := s.(groups := Handled(s, g, events));
    UnhandledGrows(s, g, todo, n);
    if Settled(before, g, e) {
      assert Unhandled(s, g, todo, n + 1) == events;
    } else {
      HandledTwice(s, g, events, e);
    }
  }

  lemma TwoBatches(state: GroupState, events: set<EventId>, e: EventId)
    requires e !in events
    ensures state.handled + (events + {e}) == (state.handled + events) + {e}
    ensures state.effects + multiset(events + {e}) == (state.effects + multiset(events)) + multiset({e})
  {
    assert multiset(events + {e}) == multiset(events) + multiset({e});
  }

  lemma HandledTwice(s: State, g: Group, events: set<EventId>, e: EventId)
    requires e !in events
    ensures Handled(s, g, events + {e}) == Handled(s.(groups := Handled(s, g, events)), g, {e})
  {
    TwoBatches(GroupOf(s, g), events, e);
    assert events + {e} != {};
    if events == {} {
      assert events + {e} == {e};
    }
  }

  lemma HandlingReads(s: State, m: MemberId, g: Group, span: Span, todo: seq<(Partition, nat)>, n: nat)
    requires Records(s, todo) && n < |todo| && s.members == map[]
    ensures var t := Handling(s, m, g, span, todo, n);
            && t.members == map[m := Member(g, span, [todo[n]] + todo[n + 1..], None)]
            && todo[n].1 < |Log(t, todo[n].0)| && EventAt(t, todo[n]) == EventAt(s, todo[n])
  {
    hide Unhandled, Handled;
    assert todo[n..] == [todo[n]] + todo[n + 1..];
  }

  lemma HandlingNext(s: State, m: MemberId, g: Group, span: Span, todo: seq<(Partition, nat)>, n: nat)
    requires Records(s, todo) && n < |todo| && s.members == map[]
    ensures var t, e := Handling(s, m, g, span, todo, n), EventAt(s, todo[n]);
            Handling(s, m, g, span, todo, n + 1)
            == t.(groups := if Settled(t, g, e) then t.groups else Handled(t, g, {e}),
                  members := map[m := Member(g, span, todo[n + 1..], None)])
  {
    var t := Handling(s, m, g, span, todo, n);
    NextHandled(s, g, todo, n);
    assert GroupOf(s.(groups := t.groups), g) == GroupOf(t, g);
    hide Unhandled, Log;
  }

  /** The first n records have been handed over and none failed. */
  ghost predicate Done(s: State, t: State, g: Group, todo: seq<(Partition, nat)>, failing: set<EventId>, n: nat) {
    && Records(s, todo) && n <= |todo|
    && t == s.(groups := Handled(s, g, Unhandled(s, g, todo, n)))
    && forall k :: 0 <= k < n ==> !FailsAt(s, g, todo[k], failing)
  }

  lemma DoneNext(s: State, t: State, g: Group, todo: seq<(Partition, nat)>, failing: set<EventId>, n: nat)
    requires Done(s, t, g, todo, failing, n) && n < |todo| && !FailsAt(s, g, todo[n], failing)
    ensures var e := EventAt(s, todo[n]);
            Done(s, if Settled(t, g, e) then t else t.(groups := Handled(t, g, {e})), g, todo, failing, n + 1)
  {
    NextHandled(s, g, todo, n);
    hide Unhandled, Settled, FailsAt;
  }

  /** A settled record is dropped from the batch. */
  lemma HandOverSettled(t: State, m: MemberId, member: Member, next: (Partition, nat), rest: seq<(Partition, nat)>)
    requires t.members == map[m := member] && member.todo == [next] + rest && member.claiming == None
    requires next.1 < |Log(t, next.0)| && Settled(t, member.group, EventAt(t, next))
    ensures Exec(t, Deliver(m)) == t.(members := map[m := member.(todo := rest)])
  {
    hide Settled, Log;
  }

  /** One that is not is claimed and applied. */
  lemma HandOverNew(t: State, m: MemberId, member: Member, next: (Partition, nat), rest: seq<(Partition, nat)>)
    requires t.members == map[m := member] && member.todo == [next] + rest && member.claiming == None
    requires next.1 < |Log(t, next.0)| && !Settled(t, member.group, EventAt(t, next))
    ensures Exec(Exec(t, Deliver(m)), Apply(m))
         == t.(groups := Handled(t, member.group, {EventAt(t, next)}), members := map[m := member.(todo := rest)])
  {
    var e := EventAt(t, next);
    var claimed := t.(members := map[m := member.(claiming := Some(e))]);
    assert GroupOf(claimed, member.group) == GroupOf(t, member.group);
    hide GroupOf;
    NewIsClaimed(t, m, member, next, rest);
    hide Settled, Log, ExecDeliver;
    assert multiset({e}) == multiset{e};
  }

  lemma NewIsClaimed(t: State, m: MemberId, member: Member, next: (Partition, nat), rest: seq<(Partition, nat)>)
    requires t.members == map[m := member] && member.todo == [next] + rest && member.claiming == None
    requires next.1 < |Log(t, next.0)| && !Settled(t, member.group, EventAt(t, next))
    ensures ExecDeliver(t, m) == t.(members := map[m := member.(claiming := Some(EventAt(t, next)))])
  {
    hide Settled, Log;
  }

  lemma {:induction false} HandleIsRun(s: State, m: MemberId, g: Group, span: Span,
                                       todo: seq<(Partition, nat)>, n: nat)
    requires Records(s, todo) && n <= |todo| && s.members == map[]
    requires IsBatch(s, g, GroupOf(s, g).offsets, span, todo)
    ensures Reaches(s, Handling(s, m, g, span, todo, n))
  {
    hide Reaches, Handled, Unhandled, GroupOf, Exec, IsBatch, Handling;
    if n == 0 {
      PollIsRun(s, m, g, span, todo);
    } else {
      HandleIsRun(s, m, g, span, todo, n - 1);
      var t := Handling(s, m, g, span, todo, n - 1);
      HandlingReads(s, m, g, span, todo, n - 1);
      HandlingNext(s, m, g, span, todo, n - 1);
      ReachesStep(s, t, Deliver(m));
      if Settled(t, g, EventAt(t, todo[n - 1])) {
        HandOverSettled(t, m, t.members[m], todo[n - 1], todo[n..]);
      } else {
        HandOverNew(t, m, t.members[m], todo[n - 1], todo[n..]);
        ReachesStep(s, Exec(t, Deliver(m)), Apply(m));
      }
    }
  }

  lemma PollIsRun(s: State, m: MemberId, g: Group, span: Span, todo: seq<(Partition, nat)>)
    requires Records(s, todo) && s.members == map[] && IsBatch(s, g, GroupOf(s, g).offsets, span, todo)
    ensures Reaches(s, Handling(s, m, g, span, todo, 0))
  {
    ReachesItself(s);
    ReachesStep(s, s, Poll(m, g, span, todo));
    hide Reaches;
    assert todo[0..] == todo && Unhandled(s, g, todo, 0) == {};
  }

  /** The group after a round: what n records did, and the offsets if that was all. */
  ghost function AfterRound(s: State, g: Group, span: Span, todo: seq<(Partition, nat)>, n: nat): State
    requires Records(s, todo) && n <= |todo|
  {
    var t := s.(groups := Handled(s, g, Unhandled(s, g, todo, n)));
    if n < |todo| then t
    else t.(groups := t.groups[g := Committed(GroupOf(t, g), span)])
  }

  /** A round applies each event it reaches and has not applied before exactly once,
      however often the batch repeats it, and moves the offsets only when it has
      reached the end. */
  lemma RoundApplies(s: State, g: Group, span: Span, todo: seq<(Partition, nat)>, n: nat)
    requires Records(s, todo) && n <= |todo|
    ensures GroupOf(AfterRound(s, g, span, todo, n), g)
         == GroupState(if n == |todo| then GroupOf(s, g).offsets + span.upto else GroupOf(s, g).offsets,
                       if n == |todo| then StartsAfter(GroupOf(s, g).starts, span.first) else GroupOf(s, g).starts,
                       GroupOf(s, g).handled + Unhandled(s, g, todo, n),
                       GroupOf(s, g).effects + multiset(Unhandled(s, g, todo, n)))
  {
    var applied := Unhandled(s, g, todo, n);
    assert applied == {} ==> GroupOf(s, g).handled + applied == GroupOf(s, g).handled
                             && GroupOf(s, g).effects + multiset(applied) == GroupOf(s, g).effects;
    hide Unhandled;
  }

  lemma RoundIsRun(s: State, g: Group, span: Span, todo: seq<(Partition, nat)>, n: nat)
    requires Records(s, todo) && n <= |todo| && s.members == map[]
    requires IsBatch(s, g, GroupOf(s, g).offsets, span, todo)
    ensures Reaches(s, AfterRound(s, g, span, todo, n))
  {
    hide Reaches, IsBatch, Unhandled, Handled;
    HandleIsRun(s, 0, g, span, todo, n);
    var t := Handling(s, 0, g, span, todo, n);
    assert t.members - {0} == map[];
    if n < |todo| {
      ReachesStep(s, t, Fail(0));
    } else {
      ReachesStep(s, t, CommitOffsets(0));
    }
  }

  // ------------------------------------------------------------- it can always be drained

  lemma {:induction false} RunConcat(s: State, a: seq<Step>, b: seq<Step>)
    ensures Run(s, a + b) == Run(Run(s, a), b)
    decreases |a|
  {
    hide Exec;
    if a == [] {
      assert a + b == b;
    } else {
      assert (a + b)[1..] == a[1..] + b;
      RunConcat(Exec(s, a[0]), a[1..], b);
    }
  }

  lemma ReachesFurther(s: State, t: State, u: State)
    requires Reaches(s, t) && Reaches(t, u)
    ensures Reaches(s, u)
  {
    hide Run;
    var a :| Run(s, a) == t;
    var b :| Run(t, b) == u;
    RunConcat(s, a, b);
  }

  /** Everybody at work may stop. */
  function Quiet(s: State): State { s.(relays := map[], members := map[]) }

  lemma {:induction false} EverybodyStops(s: State)
    ensures Reaches(s, Quiet(s))
    decreases |s.relays| + |s.members|
  {
    hide Reaches, Claimable, IsBatch;
    ReachesItself(s);
    if r :| r in s.relays {
      var t := s.(relays := s.relays - {r});
      ReachesStep(s, s, RelayCrash(r));
      EverybodyStops(t);
      ReachesFurther(s, t, Quiet(s));
    } else if m :| m in s.members {
      var t := s.(members := s.members - {m});
      ReachesStep(s, s, Fail(m));
      EverybodyStops(t);
      ReachesFurther(s, t, Quiet(s));
    } else {
      assert Quiet(s) == s;
    }
  }

  ghost predicate Lists<T(!new)>(list: seq<T>, items: set<T>) { forall x :: x in list <==> x in items }

  lemma {:induction false} InSomeOrder<T(!new)>(items: set<T>)
    ensures exists list: seq<T> :: Lists(list, items)
    decreases |items|
  {
    if x :| x in items {
      InSomeOrder(items - {x});
      var list: seq<T> :| Lists(list, items - {x});
      assert Lists(list + [x], items);
    } else {
      assert Lists([], items);
    }
  }

  predicate ReadyBy(rows: map<EventId, Row>, ids: set<EventId>, now: Time) {
    forall e :: e in ids && e in rows ==> rows[e].availableAt <= now
  }

  lemma {:induction false} ATimeForAll(rows: map<EventId, Row>, ids: set<EventId>)
    requires ids <= rows.Keys
    ensures exists now: Time :: ReadyBy(rows, ids, now)
    decreases |ids|
  {
    if e :| e in ids {
      ATimeForAll(rows, ids - {e});
      var now: Time :| ReadyBy(rows, ids - {e}, now);
      assert ReadyBy(rows, ids, if now < rows[e].availableAt then rows[e].availableAt else now);
    } else {
      assert ReadyBy(rows, ids, 0);
    }
  }

  ghost predicate AllPublished(s: State) {
    forall e :: e in s.rows ==> s.rows[e].publishedAt.Some?
  }

  lemma CanPublish(s: State)
    requires s == Quiet(s)
    ensures exists t :: Reaches(s, t) && AllPublished(t) && t == Quiet(t) && t.enqueued == s.enqueued
  {
    var ids := set e | e in s.rows && s.rows[e].publishedAt.None?;
    ATimeForAll(s.rows, ids);
    var now: Time :| ReadyBy(s.rows, ids, now);
    InSomeOrder(ids);
    var list: seq<EventId> :| Lists(list, ids);
    assert IdSet(list) == ids;
    assert Claimable(s, IdSet(list), now);
    DrainIsRun(s, 0, list, |list|, now);
    hide Reaches, Claimable, Sent;
    assert list[..|list|] == list;
    var t := s.(logs := Sent(s.logs, s.rows, list), rows := Marked(s.rows, list, now));
    assert AllPublished(t);
  }

  function WholeSpan(s: State, g: Group): Span {
    var upto := map p | p in s.logs && (g, p) in s.setup.subscribed :: |s.logs[p]|;
    Span(map p | p in upto && p !in GroupOf(s, g).offsets :: 0, upto)
  }

  lemma WholeBatch(s: State, g: Group)
    ensures exists todo :: Records(s, todo) && IsBatch(s, g, GroupOf(s, g).offsets, WholeSpan(s, g), todo)
  {
    var span, from := WholeSpan(s, g), GroupOf(s, g).offsets;
    var items := set p, i: nat | p in span.upto && 0 <= i < span.upto[p] && Position(from, span, p) <= i :: (p, i);
    InSomeOrder(items);
    var todo: seq<(Partition, nat)> :| Lists(todo, items);
    forall p, i: nat
      ensures (p, i) in todo <==> p in span.upto && Position(from, span, p) <= i < span.upto[p]
    {
      assert (p, i) in todo <==> (p, i) in items;
    }
    forall k | 0 <= k < |todo| ensures todo[k].1 < |Log(s, todo[k].0)| {
      assert todo[k] in items;
    }
    assert IsBatch(s, g, from, span, todo);
  }

  lemma WholeRoundDrains(s: State, g: Group, todo: seq<(Partition, nat)>)
    requires OffsetsOk(s) && AllPublished(s) && Records(s, todo)
    ensures Drained(AfterRound(s, g, WholeSpan(s, g), todo, |todo|), g)
  {
    RoundApplies(s, g, WholeSpan(s, g), todo, |todo|);
    hide Records, Unhandled, Handled;
    var t := AfterRound(s, g, WholeSpan(s, g), todo, |todo|);
    forall p | (g, p) in s.setup.subscribed ensures Offset(t, g, p) == |Log(t, p)| {
      assert g in s.groups && p in s.groups[g].offsets ==> SettledBelow(s, g, p, s.groups[g].offsets[p]);
      assert p in s.logs <==> p in WholeSpan(s, g).upto;
    }
  }

  lemma CanHandle(s: State, g: Group)
    requires Inv(s) && s == Quiet(s) && AllPublished(s)
    ensures exists t :: Reaches(s, t) && Drained(t, g) && t.enqueued == s.enqueued
  {
    assert OffsetsOk(s);
    WholeBatch(s, g);
    hide Reaches, IsBatch, Records, Unhandled, Handled, AllPublished, OffsetsOk, Inv, Drained, WholeSpan;
    var todo :| Records(s, todo) && IsBatch(s, g, GroupOf(s, g).offsets, WholeSpan(s, g), todo);
    RoundIsRun(s, g, WholeSpan(s, g), todo, |todo|);
    WholeRoundDrains(s, g, todo);
  }

  /** Wherever it stands, with whatever failed and whoever crashed, everything committed so
      far can still be published and handled: a further run ends with nothing waiting and
      the group at the end of what it subscribes to. For a group that reads from the
      beginning, each event it wants has then taken effect exactly once. */
  lemma CanAlwaysBeDrained(setup: Setup, steps: seq<Step>, g: Group)
    ensures var s := Run(Initial(setup), steps);
            exists more :: Drained(Run(Initial(setup), steps + more), g)
                           && Run(Initial(setup), steps + more).enqueued == s.enqueued
                           && (g in setup.fromStart ==> ExactlyOnce(Run(Initial(setup), steps + more), g))
  {
    hide Inv, Reaches, Drained, AllPublished, Exec, ExactlyOnce, Initial;
    var s := Run(Initial(setup), steps);
    InitialOk(setup);
    RunKeepsInv(Initial(setup), steps);
    EverybodyStops(s);
    CanPublish(Quiet(s));
    var u :| Reaches(Quiet(s), u) && AllPublished(u) && u == Quiet(u) && u.enqueued == s.enqueued;
    ReachesFurther(s, Quiet(s), u);
    ReachedIsOk(s, u);
    CanHandle(u, g);
    var t :| Reaches(u, t) && Drained(t, g) && t.enqueued == s.enqueued;
    ReachesFurther(s, u, t);
    var more := StepsTo(s, t);
    RunConcat(Initial(setup), steps, more);
    if g in setup.fromStart {
      ExactlyOnceFromTheBeginning(setup, steps + more, g);
    }
  }

  lemma StepsTo(s: State, t: State) returns (steps: seq<Step>)
    requires Reaches(s, t)
    ensures Run(s, steps) == t
  {
    steps :| Run(s, steps) == t;
  }

  lemma PurgeIsRun(s: State, before: Time)
    ensures Reaches(s, ExecPurge(s, before))
  {
    hide Reaches;
    ReachesItself(s);
    ReachesStep(s, s, Purge(before));
  }

  // ------------------------------------------------------------------- the loops

  class Platform {
    var enqueued: map<EventId, Partition>
    var rows: map<EventId, Row>
    var logs: map<Partition, seq<EventId>>
    var groups: map<Group, GroupState>
    const setup: Setup

    /** The tables, between calls: nobody else holds a lock or a batch. */
    ghost function Now(): State reads this { State(enqueued, rows, logs, map[], groups, map[], setup) }

    ghost predicate Valid() reads this { Inv(Now()) }

    constructor (setup: Setup)
      ensures Valid() && Now() == Initial(setup)
    {
      this.setup := setup;
      enqueued, rows, logs, groups := map[], map[], map[], map[];
      new;
      InitialOk(setup);
    }

    /** Hand records to the bus one after another. */
    method PublishAll(ids: seq<EventId>)
      requires forall k :: 0 <= k < |ids| ==> ids[k] in rows
      modifies this`logs
      ensures logs == Sent(old(logs), rows, ids)
    {
      for i := 0 to |ids|
        invariant logs == Sent(old(logs), rows, ids[..i])
      {
        assert ids[..i + 1][..i] == ids[..i];
        logs := Append(logs, rows[ids[i]].partition, ids[i]);
      }
      assert ids[..|ids|] == ids;
    }

    /** Claim a batch, publish it in order, and mark it or back off, in one
        transaction. ids are the rows the claim returned; refused is the position
        of the first record the bus does not acknowledge, if any. */
    method Drain(ids: seq<EventId>, refused: Option<nat>, now: Time) returns (published: nat)
      requires Valid() && Claimable(Now(), IdSet(ids), now)
      modifies this
      ensures Valid() && Reaches(old(Now()), Now())
      ensures enqueued == old(enqueued) && groups == old(groups)
      ensures forall k :: 0 <= k < |ids| ==> ids[k] in old(rows)
      ensures var taken := if refused.Some? && refused.value < |ids| then refused.value else |ids|;
              && logs == Sent(old(logs), old(rows), ids[..taken])
              && published == (if taken == |ids| then |ids| else 0)
              && rows == (if taken == |ids| then Marked(old(rows), ids, now) else Delayed(old(rows), ids, now))
              && RowsAfterDrain(old(rows), rows, ids, taken == |ids|, now)
    {
      hide Inv, Reaches, Claimable, Marked, Delayed, RowsAfterDrain, IdSet, Sent;
      ghost var before := Now();
      ClaimedAreRows(before, ids, now);
      var taken := if refused.Some? && refused.value < |ids| then refused.value else |ids|;
      DrainIsRun(before, 0, ids, taken, now);
      RowsDrained(before.rows, ids, now);
      PublishAll(ids[..taken]);
      if taken < |ids| {
        rows := Delayed(rows, ids, now);
        published := 0;
      } else {
        rows := Marked(rows, ids, now);
        published := |ids|;
      }
      ReachedIsOk(before, Now());
    }

    /** Take away what was published longer ago than an age in seconds, and say how many
        rows that was; an age of nothing keeps everything. */
    method Purge(age: int, now: Time) returns (gone: int)
      requires Valid()
      modifies this`rows
      ensures Valid() && Reaches(old(Now()), Now())
      ensures rows.Keys <= old(rows).Keys && forall e :: e in rows ==> rows[e] == old(rows)[e]
      ensures forall e :: e in old(rows) && e !in rows <==>
                e in old(rows) && age > 0 && old(rows)[e].publishedAt.Some? && old(rows)[e].publishedAt.value + age < now
      ensures gone == |old(rows)| - |rows|
    {
      hide Inv, Reaches;
      ghost var before := Now();
      ReachesItself(before);
      if age <= 0 {
        return 0;
      }
      var kept := map e | e in rows && !(rows[e].publishedAt.Some? && rows[e].publishedAt.value < now - age) :: rows[e];
      gone := |rows| - |kept|;
      rows := kept;
      PurgeIsRun(before, now - age);
      ReachedIsOk(before, Now());
    }

    /** The claim on an event and the handler's effect, in one transaction. It says
        whether the handler ran. */
    method Once(g: Group, e: EventId) returns (ran: bool)
      modifies this`groups
      ensures ran <==> e !in GroupOf(old(Now()), g).handled
      ensures groups == if ran then Handled(old(Now()), g, {e}) else old(groups)
    {
      var state := if g in groups then groups[g] else GroupState(map[], map[], {}, multiset{});
      if e in state.handled {
        return false;
      }
      groups := groups[g := state.(handled := state.handled + {e}, effects := state.effects + multiset{e})];
      assert multiset({e}) == multiset{e};
      ran := true;
    }

    /** The handler: not this group's business, or once per event, or an error. */
    method Handle(g: Group, e: EventId, failing: set<EventId>) returns (ok: bool)
      modifies this`groups
      ensures ok <==> Settled(old(Now()), g, e) || e !in failing
      ensures groups == if Settled(old(Now()), g, e) || !ok then old(groups) else Handled(old(Now()), g, {e})
    {
      if (g, e) in setup.skips {
        return true;
      }
      if e in failing && !(g in groups && e in groups[g].handled) {
        return false;
      }
      var _ := Once(g, e);
      ok := true;
    }

    /** Hand the records over one after another and stop at the first that fails. */
    method HandOverAll(g: Group, todo: seq<(Partition, nat)>, failing: set<EventId>) returns (failed: bool)
      requires Records(Now(), todo)
      modifies this`groups
      ensures failed <==> Reach(old(Now()), g, todo, failing) < |todo|
      ensures groups == Handled(old(Now()), g, Unhandled(old(Now()), g, todo, Reach(old(Now()), g, todo, failing)))
    {
      ghost var before := Now();
      failed := false;
      ghost var n := 0;
      for i := 0 to |todo|
        invariant n <= i && (!failed ==> n == i)
        invariant Done(before, Now(), g, todo, failing, n)
        invariant failed ==> n < i && FailsAt(before, g, todo[n], failing)
      {
        hide Done, Settled, Reach, Unhandled, Handled;
        if failed {
          continue;
        }
        var e := logs[todo[i].0][todo[i].1];
        ghost var prior := Now();
        var ok := Handle(g, e, failing);
        if ok {
          DoneNext(before, prior, g, todo, failing, n);
          n := n + 1;
        } else {
          failed := true;
        }
      }
      ReachUnique(before, g, todo, failing, n);
    }

    /** One round of the consumer's loop: the offsets of a polled batch are
        committed only if no record of it failed. */
    method RunBatch(g: Group, span: Span, todo: seq<(Partition, nat)>, failing: set<EventId>)
      returns (committed: bool)
      requires Valid() && IsBatch(Now(), g, GroupOf(Now(), g).offsets, span, todo)
      modifies this`groups
      ensures Valid() && Reaches(old(Now()), Now())
      ensures Records(old(Now()), todo)
      ensures var n := Reach(old(Now()), g, todo, failing);
              (committed <==> n == |todo|) && Now() == AfterRound(old(Now()), g, span, todo, n)
    {
      ghost var before := Now();
      RoundIsRun(before, g, span, todo, Reach(before, g, todo, failing));
      hide Unhandled, Handled;
      var failed := HandOverAll(g, todo, failing);
      if !failed {
        var state := if g in groups then groups[g] else GroupState(map[], map[], {}, multiset{});
        groups := groups[g := Committed(state, span)];
      }
      committed := !failed;
      ReachedIsOk(before, Now());
    }
  }

}
