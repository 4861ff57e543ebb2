/** Free times: the opening pattern minus what is booked, computed when asked. */
module Slots {
  // Instants are integers and count seconds. How a wall clock time on a local date
  // becomes an instant, and what local date an instant falls on, is the calendar's
  // business and is left abstract.

  import opened Common
  import Bookings

  type Instant = int
  type Day = int

  const HOUR: int := 3_600
  const DAY: int := 24 * HOUR

  datatype Calendar = Calendar(
    dayOf: Instant -> Day,
    weekdayOf: Day -> int,
    at: (Day, string) -> Option<Instant>,
    nextDay: Instant -> Instant)

  datatype Window = Window(weekday: int, opens: string, closes: string)

  datatype Busy = Busy(start: Instant, end: Instant)

  datatype Resource = Resource(id: nat, capacity: int, opening: seq<Window>)

  datatype Slot = Slot(start: Instant, end: Instant, resource: nat)

  /** What Free is asked. */
  datatype Query = Query(resource: Resource, day: Day, duration: int, step: int, now: Instant)

  // -------------------------------------------------------------------- overlaps

  predicate RunsOver(b: Busy, start: Instant, end: Instant) { b.start < end && start < b.end }

  function Overlaps(busy: seq<Busy>, start: Instant, end: Instant): nat {
    if busy == [] then 0
    else Overlaps(busy[..|busy| - 1], start, end) + if RunsOver(busy[|busy| - 1], start, end) then 1 else 0
  }

  method CountOverlaps(busy: seq<Busy>, start: Instant, end: Instant) returns (n: nat)
    ensures n == Overlaps(busy, start, end)
  {
    n := 0;
    for i := 0 to |busy|
      invariant n == Overlaps(busy[..i], start, end)
    {
      assert busy[..i + 1][..i] == busy[..i];
      if busy[i].start < end && start < busy[i].end {
        n := n + 1;
      }
    }
    assert busy[..|busy|] == busy;
  }

  // --------------------------------------------------------------- opening hours

  /** A window as instants on one local date; one that closes before it opens runs
      past midnight. None when it is for another weekday or a clock is malformed. */
  function Hours(cal: Calendar, day: Day, w: Window): Option<(Instant, Instant)> {
    var open, close := cal.at(day, w.opens), cal.at(day, w.closes);
    if w.weekday != cal.weekdayOf(day) || open.None? || close.None? then None
    else Some((open.value, if close.value > open.value then close.value else cal.nextDay(close.value)))
  }

  /** Some window of the date holds the whole interval. */
  ghost predicate HeldOn(cal: Calendar, r: Resource, day: Day, start: Instant, end: Instant) {
    exists i :: 0 <= i < |r.opening| && Holds(cal, day, r.opening[i], start, end)
  }

  /** The window is for the weekday of the date, and the interval lies between its clocks on
      that date, or runs past midnight where it closes no later than it opens. */
  predicate Holds(cal: Calendar, day: Day, w: Window, start: Instant, end: Instant) {
    && w.weekday == cal.weekdayOf(day) && cal.at(day, w.opens).Some? && cal.at(day, w.closes).Some?
    && cal.at(day, w.opens).value <= start
    && end <= (var close := cal.at(day, w.closes).value;
               if cal.at(day, w.opens).value < close then close else cal.nextDay(close))
  }

  ghost predicate OpenThroughout(cal: Calendar, r: Resource, start: Instant, end: Instant) {
    HeldOn(cal, r, cal.dayOf(start), start, end)
  }

  method WithinOpening(cal: Calendar, r: Resource, start: Instant, end: Instant) returns (open: bool)
    ensures open <==> OpenThroughout(cal, r, start, end)
  {
    var day := cal.dayOf(start);
    for i := 0 to |r.opening|
      invariant forall j :: 0 <= j < i ==> !Holds(cal, day, r.opening[j], start, end)
    {
      var h := Hours(cal, day, r.opening[i]);
      if h.Some? && !(start < h.value.0) && !(end > h.value.1) {
        return true;
      }
    }
    open := false;
  }

  // ------------------------------------------------------------------ free times

  /** The start is still to come and the booking fits beside what is booked. */
  predicate Takes(q: Query, busy: seq<Busy>, start: Instant) {
    start > q.now && Overlaps(busy, start, start + q.duration) < q.resource.capacity
  }

  function SlotAt(q: Query, start: Instant): Slot { Slot(start, start + q.duration, q.resource.id) }

  /** The slots on one window's grid from a given start on. */
  function Grid(q: Query, busy: seq<Busy>, start: Instant, close: Instant): seq<Slot>
    requires q.step > 0
    decreases close - start - q.duration
  {
    if start + q.duration > close then []
    else (if Takes(q, busy, start) then [SlotAt(q, start)] else []) + Grid(q, busy, start + q.step, close)
  }

  /** The slots of the first n windows, window by window. */
  function Offers(cal: Calendar, q: Query, busy: seq<Busy>, n: nat): seq<Slot>
    requires q.step > 0 && n <= |q.resource.opening|
  {
    if n == 0 then []
    else Offers(cal, q, busy, n - 1) +
         (var h := Hours(cal, q.day, q.resource.opening[n - 1]);
          if h.None? then [] else Grid(q, busy, h.value.0, h.value.1))
  }

  ghost predicate Sorted(s: seq<Slot>) { forall i, j :: 0 <= i < j < |s| ==> s[i].start <= s[j].start }

  function Insert(s: seq<Slot>, x: Slot): seq<Slot> {
    if s == [] then [x]
    else if s[|s| - 1].start <= x.start then s + [x]
    else Insert(s[..|s| - 1], x) + [s[|s| - 1]]
  }

  lemma SortedSnoc(s: seq<Slot>, x: Slot)
    requires Sorted(s) && forall y :: y in s ==> y.start <= x.start
    ensures Sorted(s + [x])
  {
  }

  lemma {:induction false} InsertOk(s: seq<Slot>, x: Slot)
    requires Sorted(s)
    ensures Sorted(Insert(s, x)) && multiset(Insert(s, x)) == multiset(s) + multiset{x}
  {
    if s != [] {
      var init, last := s[..|s| - 1], s[|s| - 1];
      assert s == init + [last];
      if last.start <= x.start {
        SortedSnoc(s, x);
      } else {
        InsertOk(init, x);
        assert multiset(s) == multiset(init) + multiset{last};
        forall y | y in Insert(init, x) ensures y.start <= last.start {
          assert y in multiset(Insert(init, x));
        }
        SortedSnoc(Insert(init, x), last);
        hide Sorted;
      }
    }
  }

  method SortByStart(s: seq<Slot>) returns (out: seq<Slot>)
    ensures Sorted(out) && multiset(out) == multiset(s)
  {
    out := [];
    for i := 0 to |s|
      invariant Sorted(out) && multiset(out) == multiset(s[..i])
    {
      assert s[..i + 1] == s[..i] + [s[i]];
      InsertOk(out, s[i]);
      out := Insert(out, s[i]);
    }
    assert s[..|s|] == s;
  }

  /** The inner loop: one window, from its opening to its closing. */
  method FreeInWindow(q: Query, busy: seq<Busy>, open: Instant, close: Instant) returns (out: seq<Slot>)
    requires q.step > 0
    ensures out == Grid(q, busy, open, close)
  {
    out := [];
    var start := open;
    while !(start + q.duration > close)
      invariant out + Grid(q, busy, start, close) == Grid(q, busy, open, close)
      decreases close - start - q.duration
    {
      var end := start + q.duration;
      if start > q.now {
        var n := CountOverlaps(busy, start, end);
        if n < q.resource.capacity {
          out := out + [Slot(start, end, q.resource.id)];
        }
      }
      start := start + q.step;
    }
  }

  /** The times a resource can take a booking of the given length on a local date:
      in order, each as often as a window offers it. */
  method Free(cal: Calendar, q: Query, busy: seq<Busy>) returns (out: seq<Slot>)
    ensures q.duration <= 0 || q.step <= 0 ==> out == []
    ensures q.duration > 0 && q.step > 0 ==>
              Sorted(out) && multiset(out) == multiset(Offers(cal, q, busy, |q.resource.opening|))
  {
    out := [];
    if q.duration <= 0 || q.step <= 0 {
      return;
    }
    var windows := q.resource.opening;
    for i := 0 to |windows|
      invariant out == Offers(cal, q, busy, i)
    {
      var h := Hours(cal, q.day, windows[i]);
      if h.None? {
        continue;
      }
      var found := FreeInWindow(q, busy, h.value.0, h.value.1);
      out := out + found;
    }
    out := SortByStart(out);
  }

  // ---------------------------------------------------------------- what it means

  /** The start is on the grid of some window of the day, ends by its closing,
      lies ahead and fits. */
  ghost predicate Offered(cal: Calendar, q: Query, busy: seq<Busy>, start: Instant) {
    && Takes(q, busy, start)
    && exists i, k: nat :: 0 <= i < |q.resource.opening| && OnGrid(cal, q, q.resource.opening[i], start, k)
  }

  ghost predicate OnGrid(cal: Calendar, q: Query, w: Window, start: Instant, k: nat) {
    && cal.at(q.day, w.opens).Some? && start == cal.at(q.day, w.opens).value + k * q.step
    && Holds(cal, q.day, w, start, start + q.duration)
  }

  lemma {:induction false} GridSound(q: Query, busy: seq<Busy>, start: Instant, close: Instant, x: Slot) returns (k: nat)
    requires q.step > 0 && x in Grid(q, busy, start, close)
    ensures x == SlotAt(q, start + k * q.step) && x.end <= close && Takes(q, busy, x.start)
    decreases close - start - q.duration
  {
    if Takes(q, busy, start) && x == SlotAt(q, start) {
      k := 0;
    } else {
      k := GridSound(q, busy, start + q.step, close, x);
      assert (k + 1) * q.step == k * q.step + q.step;
      k := k + 1;
    }
  }

  lemma {:induction false} GridComplete(q: Query, busy: seq<Busy>, start: Instant, close: Instant, k: nat)
    requires q.step > 0 && start + k * q.step + q.duration <= close && Takes(q, busy, start + k * q.step)
    ensures SlotAt(q, start + k * q.step) in Grid(q, busy, start, close)
    decreases k
  {
    if k == 0 {
      assert 0 * q.step == 0;
    } else {
      assert k * q.step == q.step + (k - 1) * q.step;
      assert 0 <= (k - 1) * q.step;
      GridComplete(q, busy, start + q.step, close, k - 1);
    }
  }

  lemma {:induction false} OffersSound(cal: Calendar, q: Query, busy: seq<Busy>, n: nat, x: Slot)
    requires q.step > 0 && n <= |q.resource.opening| && x in Offers(cal, q, busy, n)
    ensures x == SlotAt(q, x.start) && Offered(cal, q, busy, x.start)
  {
    if x in Offers(cal, q, busy, n - 1) {
      OffersSound(cal, q, busy, n - 1, x);
    } else {
      var h := Hours(cal, q.day, q.resource.opening[n - 1]);
      var k := GridSound(q, busy, h.value.0, h.value.1, x);
      hide Takes, Grid, Hours, OnGrid;
      OnGridIs(cal, q, q.resource.opening[n - 1], x.start, k);
    }
  }

  lemma OnGridIs(cal: Calendar, q: Query, w: Window, start: Instant, k: nat)
    requires q.step > 0
    ensures var h := Hours(cal, q.day, w);
            OnGrid(cal, q, w, start, k) <==> h.Some? && start == h.value.0 + k * q.step && start + q.duration <= h.value.1
  {
    assert 0 <= k * q.step;
  }

  lemma WindowOffers(cal: Calendar, q: Query, busy: seq<Busy>, w: Window, k: nat, start: Instant)
    requires q.step > 0 && Takes(q, busy, start) && OnGrid(cal, q, w, start, k)
    ensures var h := Hours(cal, q.day, w); h.Some? && SlotAt(q, start) in Grid(q, busy, h.value.0, h.value.1)
  {
    hide Takes, Hours, Grid, OnGrid;
    var h := Hours(cal, q.day, w);
    OnGridIs(cal, q, w, start, k);
    GridComplete(q, busy, h.value.0, h.value.1, k);
  }

  lemma {:induction false} OffersComplete(cal: Calendar, q: Query, busy: seq<Busy>, n: nat, i: nat, k: nat, start: Instant)
    requires q.step > 0 && i < n <= |q.resource.opening|
    requires Takes(q, busy, start) && OnGrid(cal, q, q.resource.opening[i], start, k)
    ensures SlotAt(q, start) in Offers(cal, q, busy, n)
  {
    hide Takes, Grid, Hours, OnGrid;
    if i < n - 1 {
      OffersComplete(cal, q, busy, n - 1, i, k, start);
    } else {
      WindowOffers(cal, q, busy, q.resource.opening[i], k, start);
    }
  }

  /** Free offers a start exactly when it is on the grid of a window of that day,
      ends by closing, lies after now and fits the capacity. */
  lemma FreeExactly(cal: Calendar, q: Query, busy: seq<Busy>, x: Slot)
    requires q.step > 0
    ensures x in Offers(cal, q, busy, |q.resource.opening|)
            <==> x == SlotAt(q, x.start) && Offered(cal, q, busy, x.start)
  {
    if x in Offers(cal, q, busy, |q.resource.opening|) {
      OffersSound(cal, q, busy, |q.resource.opening|, x);
    }
    if x == SlotAt(q, x.start) && Offered(cal, q, busy, x.start) {
      var i, k: nat :| 0 <= i < |q.resource.opening| && OnGrid(cal, q, q.resource.opening[i], x.start, k);
      OffersComplete(cal, q, busy, |q.resource.opening|, i, k, x.start);
    }
  }

  lemma OfferedIsHeld(cal: Calendar, q: Query, busy: seq<Busy>, start: Instant)
    requires q.step > 0 && Offered(cal, q, busy, start)
    ensures HeldOn(cal, q.resource, q.day, start, start + q.duration)
  {
    var i, k: nat :| 0 <= i < |q.resource.opening| && OnGrid(cal, q, q.resource.opening[i], start, k);
    assert 0 <= k * q.step;
  }

  /** A start that Free offers passes the opening check that creating the booking makes
      exactly when it is on the local date asked for, or a window of the date it is on
      holds it too. */
  lemma OfferedIsOpenIff(cal: Calendar, q: Query, busy: seq<Busy>, start: Instant)
    requires q.step > 0 && Offered(cal, q, busy, start)
    ensures OpenThroughout(cal, q.resource, start, start + q.duration)
            <==> cal.dayOf(start) == q.day || HeldOn(cal, q.resource, cal.dayOf(start), start, start + q.duration)
  {
    hide HeldOn, Offered;
    OfferedIsHeld(cal, q, busy, start);
  }

  /** A start after midnight is offered from the evening before, but the opening
      check looks at the start's own date: a bar open on day 1 from 22:00 to 02:00
      offers 01:00 and then refuses it. */
  lemma AfterMidnightIsRefused() returns (cal: Calendar, q: Query, start: Instant)
    ensures q.step > 0 && Offered(cal, q, [], start) && cal.dayOf(start) == q.day + 1
    ensures !OpenThroughout(cal, q.resource, start, start + q.duration)
  {
    cal := Calendar(t => t / DAY, d => d,
                    (d: Day, clock: string) => Some(d * DAY + if clock == "22:00" then 22 * HOUR else 2 * HOUR),
                    t => t + DAY);
    q := Query(Resource(0, 1, [Window(1, "22:00", "02:00")]), 1, 1800, HOUR, 0);
    start := 2 * DAY + HOUR;
    assert OnGrid(cal, q, q.resource.opening[0], start, 3);
  }

  // ------------------------------------------------- agreement with the diary

  function Within(busy: seq<Busy>, from: Instant, to: Instant): seq<Busy> {
    if busy == [] then []
    else Within(busy[..|busy| - 1], from, to) + if RunsOver(busy[|busy| - 1], from, to) then [busy[|busy| - 1]] else []
  }

  /** Fetching only the bookings that touch a range loses nothing for a time
      inside it. */
  lemma {:induction false} FetchedRangeSuffices(busy: seq<Busy>, from: Instant, to: Instant, start: Instant, end: Instant)
    requires from <= start && end <= to
    ensures Overlaps(Within(busy, from, to), start, end) == Overlaps(busy, start, end)
  {
    if busy != [] {
      var init, last := busy[..|busy| - 1], busy[|busy| - 1];
      FetchedRangeSuffices(init, from, to, start, end);
      if RunsOver(last, from, to) {
        assert (Within(init, from, to) + [last])[..|Within(init, from, to)|] == Within(init, from, to);
      } else {
        assert Within(init, from, to) + [] == Within(init, from, to);
      }
    }
  }

  /** What Availability fetches of the bookings: those that touch the time from a day before
      the date's midnight to two days after. */
  function Fetched(busy: seq<Busy>, midnight: Instant): seq<Busy> {
    Within(busy, midnight - DAY, midnight + 2 * DAY)
  }

  predicate InFetched(q: Query, midnight: Instant, start: Instant) {
    midnight - DAY <= start && start + q.duration <= midnight + 2 * DAY
  }

  /** Every start still to come on a grid of the date is inside the time fetched, with
      its end. */
  ghost predicate GridInside(cal: Calendar, q: Query, midnight: Instant) {
    forall i, k: nat, start ::
      (0 <= i < |q.resource.opening| && start > q.now && OnGrid(cal, q, q.resource.opening[i], start, k))
      ==> InFetched(q, midnight, start)
  }

  lemma TakesFromFetched(q: Query, busy: seq<Busy>, midnight: Instant, start: Instant)
    requires start > q.now && q.resource.capacity > 0 ==> InFetched(q, midnight, start)
    ensures Takes(q, Fetched(busy, midnight), start) <==> Takes(q, busy, start)
  {
    if start > q.now && q.resource.capacity > 0 {
      FetchedRangeSuffices(busy, midnight - DAY, midnight + 2 * DAY, start, start + q.duration);
    }
  }

  lemma {:induction false} GridFromFetched(q: Query, busy: seq<Busy>, midnight: Instant, start: Instant, close: Instant)
    requires q.step > 0
    requires forall k: nat :: (start + k * q.step + q.duration <= close && start + k * q.step > q.now
                               && q.resource.capacity > 0) ==> InFetched(q, midnight, start + k * q.step)
    ensures Grid(q, Fetched(busy, midnight), start, close) == Grid(q, busy, start, close)
    decreases close - start - q.duration
  {
    hide Takes, InFetched, Fetched;
    if !(start + q.duration > close) {
      assert start + 0 * q.step == start;
      TakesFromFetched(q, busy, midnight, start);
      forall k: nat | start + q.step + k * q.step + q.duration <= close && start + q.step + k * q.step > q.now
          && q.resource.capacity > 0
        ensures InFetched(q, midnight, start + q.step + k * q.step)
      {
        assert start + (k + 1) * q.step == start + q.step + k * q.step;
      }
      GridFromFetched(q, busy, midnight, start + q.step, close);
    }
  }

  lemma {:induction false} OffersInside(cal: Calendar, q: Query, busy: seq<Busy>, midnight: Instant, n: nat)
    requires q.step > 0 && n <= |q.resource.opening|
    requires q.resource.capacity <= 0 || GridInside(cal, q, midnight)
    ensures Offers(cal, q, Fetched(busy, midnight), n) == Offers(cal, q, busy, n)
  {
    hide Grid, Hours, Fetched, InFetched;
    if n > 0 {
      OffersInside(cal, q, busy, midnight, n - 1);
      var w := q.resource.opening[n - 1];
      var h := Hours(cal, q.day, w);
      if h.Some? {
        forall k: nat | h.value.0 + k * q.step + q.duration <= h.value.1 && h.value.0 + k * q.step > q.now
            && q.resource.capacity > 0
          ensures InFetched(q, midnight, h.value.0 + k * q.step)
        {
          OnGridIs(cal, q, w, h.value.0 + k * q.step, k);
        }
        GridFromFetched(q, busy, midnight, h.value.0, h.value.1);
      }
    }
  }

  function Copies(b: Busy, n: nat): seq<Busy> { if n == 0 then [] else Copies(b, n - 1) + [b] }

  lemma {:induction false} CopiesCount(b: Busy, n: nat, start: Instant, end: Instant)
    ensures Overlaps(Copies(b, n), start, end) == if RunsOver(b, start, end) then n else 0
    ensures !RunsOver(b, start, end) ==> Within(Copies(b, n), start, end) == []
  {
    if n > 0 {
      CopiesCount(b, n - 1, start, end);
      assert Copies(b, n)[..n - 1] == Copies(b, n - 1) by { CopiesLength(b, n - 1); }
      CopiesLength(b, n);
    }
  }

  lemma {:induction false} CopiesLength(b: Busy, n: nat)
    ensures |Copies(b, n)| == n
  {
    if n > 0 {
      CopiesLength(b, n - 1);
    }
  }

  /** The part of a slot that lies outside the time fetched. */
  function Outside(q: Query, midnight: Instant, start: Instant): Busy {
    var from, to, end := midnight - DAY, midnight + 2 * DAY, start + q.duration;
    if end > to then Busy(if start > to then start else to, end)
    else Busy(start, if end < from then end else from)
  }

  /** As many bookings as the resource holds, in that part, would be overlooked. */
  lemma OverlookedOutside(cal: Calendar, q: Query, midnight: Instant, i: nat, k: nat, start: Instant)
    requires q.step > 0 && q.duration > 0 && q.resource.capacity > 0 && start > q.now
    requires i < |q.resource.opening| && OnGrid(cal, q, q.resource.opening[i], start, k) && !InFetched(q, midnight, start)
    ensures var n, busy := |q.resource.opening|, Copies(Outside(q, midnight, start), q.resource.capacity);
            Offers(cal, q, Fetched(busy, midnight), n) != Offers(cal, q, busy, n)
  {
    hide Offers, OnGrid;
    var b := Outside(q, midnight, start);
    var busy := Copies(b, q.resource.capacity);
    CopiesCount(b, q.resource.capacity, start, start + q.duration);
    CopiesCount(b, q.resource.capacity, midnight - DAY, midnight + 2 * DAY);
    assert Fetched(busy, midnight) == [];
    assert Offered(cal, q, Fetched(busy, midnight), start);
    FreeExactly(cal, q, Fetched(busy, midnight), SlotAt(q, start));
    FreeExactly(cal, q, busy, SlotAt(q, start));
  }

  /** The bookings fetched offer what all of them would, whatever they are, exactly when
      the resource takes none or every start to come on the date's grids lies, to its end,
      inside the time fetched. */
  lemma OffersFromFetchedIff(cal: Calendar, q: Query, midnight: Instant)
    requires q.step > 0 && q.duration > 0
    ensures var n := |q.resource.opening|;
            (forall busy :: Offers(cal, q, Fetched(busy, midnight), n) == Offers(cal, q, busy, n))
            <==> q.resource.capacity <= 0 || GridInside(cal, q, midnight)
  {
    hide Offers, Fetched, OnGrid, InFetched;
    var n := |q.resource.opening|;
    if q.resource.capacity <= 0 || GridInside(cal, q, midnight) {
      forall busy ensures Offers(cal, q, Fetched(busy, midnight), n) == Offers(cal, q, busy, n) {
        OffersInside(cal, q, busy, midnight, n);
      }
    } else {
      var i, k: nat, start :| 0 <= i < n && start > q.now && OnGrid(cal, q, q.resource.opening[i], start, k)
                              && !InFetched(q, midnight, start);
      OverlookedOutside(cal, q, midnight, i, k, start);
    }
  }

  /** The clock of the date shows times of no more than 24 hours, and the same time on the
      next date is no more than 24 hours on. */
  ghost predicate OrdinaryDay(cal: Calendar, day: Day, midnight: Instant) {
    && (forall clock :: cal.at(day, clock).Some? ==> midnight <= cal.at(day, clock).value <= midnight + DAY)
    && (forall t :: midnight <= t <= midnight + DAY ==> cal.nextDay(t) <= t + DAY)
  }

  lemma OrdinaryIsInside(cal: Calendar, q: Query, midnight: Instant)
    requires q.step > 0 && OrdinaryDay(cal, q.day, midnight)
    ensures GridInside(cal, q, midnight)
  {
    forall i, k: nat, start | 0 <= i < |q.resource.opening| && start > q.now && OnGrid(cal, q, q.resource.opening[i], start, k)
      ensures InFetched(q, midnight, start)
    {
      var w := q.resource.opening[i];
      assert cal.at(q.day, w.opens).value >= midnight && cal.at(q.day, w.closes).value <= midnight + DAY;
      assert 0 <= k * q.step;
    }
  }

  /** So on an ordinary day, windows past midnight and all. */
  lemma OffersFromFetched(cal: Calendar, q: Query, busy: seq<Busy>, midnight: Instant)
    requires q.step > 0 && OrdinaryDay(cal, q.day, midnight)
    ensures Offers(cal, q, Fetched(busy, midnight), |q.resource.opening|) == Offers(cal, q, busy, |q.resource.opening|)
  {
    hide Offers, Fetched, GridInside, OrdinaryDay;
    OrdinaryIsInside(cal, q, midnight);
    OffersInside(cal, q, busy, midnight, |q.resource.opening|);
  }

  /** The day the clocks go back is an hour longer, and then it can fail: a window that
      runs from a quarter to midnight to half past eleven the next night offers a time
      that a booking not fetched is in the way of. */
  lemma LongDayOverlooksABooking() returns (cal: Calendar, q: Query, busy: seq<Busy>, start: Instant)
    ensures q.step > 0 && cal.at(q.day, "00:00") == Some(0)
    ensures Offered(cal, q, Fetched(busy, 0), start) && !Offered(cal, q, busy, start)
  {
    cal := Calendar(t => 0, d => d,
                    (d: Day, clock: string) =>
                      Some(if clock == "23:45" then DAY + 2_700 else if clock == "23:30" then DAY + 1_800 else 0),
                    t => t + DAY);
    q := Query(Resource(0, 1, [Window(0, "23:45", "23:30")]), 0, 1_800, 1_800, 0);
    busy := [Busy(2 * DAY, 2 * DAY + 1_800)];
    start := 2 * DAY - 900;
    assert OnGrid(cal, q, q.resource.opening[0], start, 46);
    assert busy[..0] == [] && !RunsOver(busy[0], -DAY, 2 * DAY);
    assert Within(busy, -DAY, 2 * DAY) == Within([], -DAY, 2 * DAY) + [] == [];
    assert Overlaps(busy, start, start + q.duration) == Overlaps([], start, start + q.duration) + 1;
  }

  /** The rows the Busy query returns, in whatever order: the times of exactly the
      active bookings of a resource that touch the range, each once. */
  ghost predicate IsBusyResult(rows: seq<Busy>, ids: seq<Bookings.BookingId>,
                               bs: map<Bookings.BookingId, Bookings.Booking>,
                               r: Bookings.ResourceId, from: Instant, to: Instant)
  {
    && |rows| == |ids|
    && (forall i, j :: 0 <= i < j < |ids| ==> ids[i] != ids[j])
    && (forall b :: b in ids <==> b in bs && bs[b].resource == r && Bookings.Active(bs[b].status)
                                  && RunsOver(Busy(bs[b].start, bs[b].end), from, to))
    && (forall i :: 0 <= i < |ids| ==> rows[i] == Busy(bs[ids[i]].start, bs[ids[i]].end))
  }

  ghost function RunningOver(ids: seq<Bookings.BookingId>, bs: map<Bookings.BookingId, Bookings.Booking>,
                             start: Instant, end: Instant): set<Bookings.BookingId> {
    set b | b in ids && b in bs && RunsOver(Busy(bs[b].start, bs[b].end), start, end)
  }

  lemma {:induction false} CountIsCardinality(rows: seq<Busy>, ids: seq<Bookings.BookingId>,
                                              bs: map<Bookings.BookingId, Bookings.Booking>,
                                              start: Instant, end: Instant)
    requires |rows| == |ids|
    requires forall i, j :: 0 <= i < j < |ids| ==> ids[i] != ids[j]
    requires forall i :: 0 <= i < |ids| ==> ids[i] in bs && rows[i] == Busy(bs[ids[i]].start, bs[ids[i]].end)
    ensures Overlaps(rows, start, end) == |RunningOver(ids, bs, start, end)|
    decreases |rows|
  {
    var n := |ids|;
    if n == 0 {
      assert RunningOver(ids, bs, start, end) == {};
    } else {
      CountIsCardinality(rows[..n - 1], ids[..n - 1], bs, start, end);
      var before := RunningOver(ids[..n - 1], bs, start, end);
      var last := if RunsOver(rows[n - 1], start, end) then {ids[n - 1]} else {};
      assert ids == ids[..n - 1] + [ids[n - 1]];
      assert ids[n - 1] !in ids[..n - 1];
      assert RunningOver(ids, bs, start, end) == before + last;
    }
  }

  /** A time offered from a committed state of the diary is one that the check
      made under the lock would admit in that state. */
  lemma OfferedHasRoom(cal: Calendar, q: Query, rows: seq<Busy>, ids: seq<Bookings.BookingId>, db: Bookings.Db,
                       from: Instant, to: Instant, start: Instant, id: Bookings.BookingId, key: Option<Bookings.Key>)
    requires q.resource.id in db.capacity && q.resource.capacity == db.capacity[q.resource.id]
    requires IsBusyResult(rows, ids, db.bookings, q.resource.id, from, to)
    requires Offered(cal, q, rows, start) && from <= start && start + q.duration <= to && id !in db.bookings
    ensures Bookings.Room(db, Bookings.Create(id, q.resource.id, start, start + q.duration, key))
  {
    var end := start + q.duration;
    CountIsCardinality(rows, ids, db.bookings, start, end);
    assert RunningOver(ids, db.bookings, start, end)
        == Bookings.Overlapping(db.bookings, q.resource.id, start, end, id);
  }

  /** And a resource is picked for a time exactly when the check would admit a booking of
      it then. */
  lemma FitsIsRoom(r: Resource, rows: seq<Busy>, ids: seq<Bookings.BookingId>, db: Bookings.Db,
                   start: Instant, end: Instant, id: Bookings.BookingId, key: Option<Bookings.Key>)
    requires r.id in db.capacity && r.capacity == db.capacity[r.id] && id !in db.bookings
    requires IsBusyResult(rows, ids, db.bookings, r.id, start, end)
    ensures FitsIn(r, rows, start, end) <==> Bookings.Room(db, Bookings.Create(id, r.id, start, end, key))
  {
    CountIsCardinality(rows, ids, db.bookings, start, end);
    assert RunningOver(ids, db.bookings, start, end)
        == Bookings.Overlapping(db.bookings, r.id, start, end, id);
  }

  // ---------------------------------------------------------- picking a resource

  /** What a caller asks for: anything, a resource by its id, or something that is no id. */
  datatype Wanted = Any | ById(id: nat) | NotAnId

  datatype NoPick = NothingSetUp | BadId | NoSuchResource | OutsideHours | Closed | Full

  predicate FitsIn(r: Resource, busy: seq<Busy>, start: Instant, end: Instant) {
    Overlaps(busy, start, end) < r.capacity
  }

  /** "Any stylist": the first resource that is open and free. Closed and full are
      told apart. */
  method PickAny(cal: Calendar, resources: seq<Resource>, busy: seq<seq<Busy>>, start: Instant, end: Instant)
    returns (r: Result<nat, NoPick>)
    requires |busy| == |resources|
    ensures r.Ok? ==>
              && r.value < |resources|
              && OpenThroughout(cal, resources[r.value], start, end)
              && FitsIn(resources[r.value], busy[r.value], start, end)
              && forall j :: 0 <= j < r.value ==>
                   !(OpenThroughout(cal, resources[j], start, end) && FitsIn(resources[j], busy[j], start, end))
    ensures r.Err? ==> forall j :: 0 <= j < |resources| ==>
                         !(OpenThroughout(cal, resources[j], start, end) && FitsIn(resources[j], busy[j], start, end))
    ensures r.Err? ==> r.error in {NothingSetUp, Closed, Full}
    ensures r == Err(NothingSetUp) <==> resources == []
    ensures r == Err(Closed) <==>
              resources != [] && forall j :: 0 <= j < |resources| ==> !OpenThroughout(cal, resources[j], start, end)
  {
    if |resources| == 0 {
      return Err(NothingSetUp);
    }
    var anyOpen := false;
    ghost var openOne := 0;
    for i := 0 to |resources|
      invariant forall j :: 0 <= j < i ==>
                  !(OpenThroughout(cal, resources[j], start, end) && FitsIn(resources[j], busy[j], start, end))
      invariant !anyOpen ==> forall j :: 0 <= j < i ==> !OpenThroughout(cal, resources[j], start, end)
      invariant anyOpen ==> 0 <= openOne < i && OpenThroughout(cal, resources[openOne], start, end)
    {
      var open := WithinOpening(cal, resources[i], start, end);
      if !open {
        continue;
      }
      anyOpen := true;
      openOne := i;
      var n := CountOverlaps(busy[i], start, end);
      if n < resources[i].capacity {
        return Ok(i);
      }
    }
    r := Err(if anyOpen then Full else Closed);
  }

  /** The first with the id. */
  ghost predicate IsFirst(resources: seq<Resource>, id: nat, i: nat) {
    i < |resources| && resources[i].id == id && forall j :: 0 <= j < i ==> resources[j].id != id
  }

  /** A resource asked for by its id need only be open: whether it is free is left to the
      check under the lock. */
  method PickNamed(cal: Calendar, resources: seq<Resource>, id: nat, start: Instant, end: Instant)
    returns (r: Result<nat, NoPick>)
    ensures r.Ok? ==> IsFirst(resources, id, r.value) && OpenThroughout(cal, resources[r.value], start, end)
    ensures r.Err? ==> r.error == NoSuchResource || r.error == OutsideHours
    ensures r == Err(NoSuchResource) <==> forall j :: 0 <= j < |resources| ==> resources[j].id != id
    ensures forall i: nat :: r == Err(OutsideHours) && IsFirst(resources, id, i) ==> !OpenThroughout(cal, resources[i], start, end)
  {
    hide OpenThroughout;
    for i := 0 to |resources|
      invariant forall j :: 0 <= j < i ==> resources[j].id != id
    {
      if resources[i].id == id {
        var open := WithinOpening(cal, resources[i], start, end);
        if !open {
          return Err(OutsideHours);
        }
        return Ok(i);
      }
    }
    r := Err(NoSuchResource);
  }

  /** The whole choice: nothing set up comes before what was asked for. */
  method PickResource(cal: Calendar, resources: seq<Resource>, busy: seq<seq<Busy>>, wanted: Wanted, start: Instant, end: Instant)
    returns (r: Result<nat, NoPick>)
    requires |busy| == |resources|
    ensures r == Err(NothingSetUp) <==> resources == []
    ensures r == Err(BadId) <==> resources != [] && wanted.NotAnId?
    ensures r.Ok? ==> r.value < |resources| && OpenThroughout(cal, resources[r.value], start, end)
    ensures r.Ok? && wanted.ById? ==> IsFirst(resources, wanted.id, r.value)
    ensures resources != [] && wanted.ById? ==>
              forall i: nat :: IsFirst(resources, wanted.id, i) && OpenThroughout(cal, resources[i], start, end) ==> r == Ok(i)
    ensures r == Err(NoSuchResource) <==>
              resources != [] && wanted.ById? && forall j :: 0 <= j < |resources| ==> resources[j].id != wanted.id
    ensures wanted.Any? && resources != [] ==>
              (r.Ok? <==> (exists j :: 0 <= j < |resources| && OpenThroughout(cal, resources[j], start, end)
                                       && FitsIn(resources[j], busy[j], start, end)))
    ensures wanted.Any? && r.Ok? ==>
              && FitsIn(resources[r.value], busy[r.value], start, end)
              && forall j :: 0 <= j < r.value ==>
                   !(OpenThroughout(cal, resources[j], start, end) && FitsIn(resources[j], busy[j], start, end))
    ensures r == Err(Closed) <==>
              wanted.Any? && resources != [] && forall j :: 0 <= j < |resources| ==> !OpenThroughout(cal, resources[j], start, end)
  {
    hide OpenThroughout;
    if |resources| == 0 {
      return Err(NothingSetUp);
    }
    match wanted
    case NotAnId => r := Err(BadId);
    case ById(id) => r := PickNamed(cal, resources, id, start, end);
    case Any => r := PickAny(cal, resources, busy, start, end);
  }
}
