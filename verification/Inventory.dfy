/** Stock levels, each the sum of its moves, and a warning sent on the crossing. */
module Inventory {
  // One tenant's stock. Locks on the level row make each operation atomic.

  import opened Common

  const MIN32: int := -0x8000_0000
  const MAX32: int := 0x7fff_ffff

  predicate Word(x: int) { MIN32 <= x <= MAX32 }

  /** Negation of a 32-bit integer: the least one is its own. */
  function Neg32(x: int): int { if x == MIN32 then x else -x }

  /** Which is what 32-bit words make of it: still a word, and the two come to a multiple
      of what a word wraps at. */
  lemma NegationWraps(x: int)
    requires Word(x)
    ensures Word(Neg32(x)) && (Neg32(x) + x) % 0x1_0000_0000 == 0
  {
  }

  datatype Kind = Adjustment | Reserve | Release | Consume | ConsumeUnreserved

  datatype Reference = Reference(kind: string, id: string)

  datatype Move = Move(item: nat, delta: int, kind: Kind, ref: Reference, key: string)

  datatype Level = Level(onHand: int, reserved: int, threshold: Option<int>, announced: bool)

  /** What happened, in order. Adjusted and Low are the events sent; Rearmed records a
      change of threshold, which sends none. */
  datatype Note =
    | Adjusted(item: nat, onHand: int, reserved: int, low: bool)
    | Low(item: nat, onHand: int, threshold: int)
    | Rearmed(item: nat)

  datatype State = State(levels: map<nat, Level>, moves: seq<Move>, log: seq<Note>)

  datatype Error = NotFound | OverRelease | Overflow

  /** What a caller is shown of a level: whether the warning went out is not in it. */
  datatype Figures = Figures(onHand: int, reserved: int, threshold: Option<int>)

  function Shown(l: Level): Figures { Figures(l.onHand, l.reserved, l.threshold) }

  datatype Receipt = Receipt(figures: Figures, repeat: bool)

  const EMPTY := Level(0, 0, None, false)

  function LevelOf(levels: map<nat, Level>, item: nat): Level {
    if item in levels then levels[item] else EMPTY
  }

  predicate IsLow(l: Level) { l.threshold.Some? && l.onHand <= l.threshold.value }

  // ------------------------------------------------------------------------ the moves

  /** What a move does to the shelf and to what is held. */
  function ShelfChange(m: Move): int {
    match m.kind
    case Adjustment => m.delta
    case Consume | ConsumeUnreserved => Neg32(m.delta)
    case Reserve | Release => 0
  }

  function HeldChange(m: Move): int {
    match m.kind
    case Reserve => m.delta
    case Release | Consume => Neg32(m.delta)
    case Adjustment | ConsumeUnreserved => 0
  }

  predicate KeyTaken(moves: seq<Move>, key: string) {
    key != "" && exists i :: 0 <= i < |moves| && moves[i].key == key
  }

  /** The level row after a move, unless a counter leaves its width or what is held
      would go below nothing. */
  function Moved(l: Level, m: Move): Result<Level, Error> {
    var onHand, reserved := l.onHand + ShelfChange(m), l.reserved + HeldChange(m);
    if !Word(onHand) || !Word(reserved) then Err(Overflow)
    else if reserved < 0 then Err(OverRelease)
    else
      var after := l.(onHand := onHand, reserved := reserved);
      Ok(after.(announced := IsLow(after)))
  }

  function News(item: nat, was: Level, now: Level): seq<Note> {
    var moved := [Adjusted(item, now.onHand, now.reserved, IsLow(now))];
    if IsLow(now) && !was.announced then moved + [Low(item, now.onHand, now.threshold.value)] else moved
  }

  function Apply(s: State, m: Move): (State, Result<Receipt, Error>) {
    if KeyTaken(s.moves, m.key) then
      (s, if m.item in s.levels then Ok(Receipt(Shown(s.levels[m.item]), true)) else Err(NotFound))
    else
      var was := LevelOf(s.levels, m.item);
      match Moved(was, m)
      case Err(e) => (s, Err(e))
      case Ok(now) =>
        (State(s.levels[m.item := now], s.moves + [m], s.log + News(m.item, was, now)), Ok(Receipt(Shown(now), false)))
  }

  function SetThreshold(s: State, item: nat, threshold: Option<int>): State {
    var l := LevelOf(s.levels, item);
    State(s.levels[item := l.(threshold := threshold, announced := false)], s.moves, s.log + [Rearmed(item)])
  }

  // -------------------------------------------------------------------------- in place

  class Stock {
    var levels: map<nat, Level>
    var moves: seq<Move>
    var log: seq<Note>

    ghost function Now(): State
      reads this
    {
      State(levels, moves, log)
    }

    static method Changes(m: Move) returns (dOnHand: int, dReserved: int)
      ensures dOnHand == ShelfChange(m) && dReserved == HeldChange(m)
      ensures m.delta != MIN32 ==>
                (dOnHand, dReserved) == match m.kind
                                        case Adjustment => (m.delta, 0)
                                        case Reserve => (0, m.delta)
                                        case Release => (0, -m.delta)
                                        case Consume => (-m.delta, -m.delta)
                                        case ConsumeUnreserved => (-m.delta, 0)
    {
      dOnHand, dReserved := 0, 0;
      match m.kind {
        case Adjustment => dOnHand := m.delta;
        case Reserve => dReserved := m.delta;
        case Release => dReserved := Neg32(m.delta);
        case Consume => dOnHand, dReserved := Neg32(m.delta), Neg32(m.delta);
        case ConsumeUnreserved => dOnHand := Neg32(m.delta);
      }
    }

    method ApplyMove(m: Move) returns (r: Result<Receipt, Error>)
      modifies this
      ensures (Now(), r) == Apply(old(Now()), m)
    {
      if KeyTaken(moves, m.key) {
        return if m.item in levels then Ok(Receipt(Shown(levels[m.item]), true)) else Err(NotFound);
      }
      var before := levels;
      moves := moves + [m];
      var dOnHand, dReserved := Changes(m);
      if m.item !in levels {
        levels := levels[m.item := EMPTY];
      }
      var row := levels[m.item];
      var onHand, reserved := row.onHand + dOnHand, row.reserved + dReserved;
      if !Word(onHand) || !Word(reserved) || reserved < 0 {
        levels, moves := before, moves[..|moves| - 1];
        return Err(if !Word(onHand) || !Word(reserved) then Overflow else OverRelease);
      }
      var wasLow := row.announced;
      row := row.(onHand := onHand, reserved := reserved);
      var nowLow := row.threshold.Some? && row.onHand <= row.threshold.value;
      log := log + [Adjusted(m.item, onHand, reserved, nowLow)];
      if nowLow && !wasLow {
        log := log + [Low(m.item, onHand, row.threshold.value)];
        row := row.(announced := true);
      } else if !nowLow && wasLow {
        row := row.(announced := false);
      }
      levels := levels[m.item := row];
      assert levels == before[m.item := row];
      assert log == old(log) + News(m.item, LevelOf(before, m.item), row);
      return Ok(Receipt(Shown(row), false));
    }

    method ChangeThreshold(item: nat, threshold: Option<int>) returns (l: Level)
      modifies this
      ensures Now() == SetThreshold(old(Now()), item, threshold) && l == levels[item]
    {
      if item !in levels {
        levels := levels[item := EMPTY.(threshold := threshold)];
      } else {
        levels := levels[item := levels[item].(threshold := threshold, announced := false)];
      }
      log := log + [Rearmed(item)];
      l := levels[item];
    }

    /** What is held against one reference, summed from the moves. */
    method ReservedFor(item: nat, ref: Reference) returns (net: int)
      ensures net == HeldFor(moves, item, ref)
    {
      net := 0;
      for i := 0 to |moves|
        invariant net == HeldFor(moves[..i], item, ref)
      {
        assert moves[..i + 1][..i] == moves[..i];
        var m := moves[i];
        if m.item == item && m.ref == ref {
          match m.kind {
            case Reserve => net := net + m.delta;
            case Release => net := net - m.delta;
            case Consume => net := net - m.delta;
            case _ =>
          }
        }
      }
      assert moves[..|moves|] == moves;
    }
  }

  // -------------------------------------------------------------------- runs, invariant

  datatype Command = Do(m: Move) | Set(item: nat, threshold: Option<int>)

  function Step(s: State, c: Command): State {
    match c
    case Do(m) => Apply(s, m).0
    case Set(item, threshold) => SetThreshold(s, item, threshold)
  }

  function Run(s: State, cs: seq<Command>): State {
    if cs == [] then s else Step(Run(s, cs[..|cs| - 1]), cs[|cs| - 1])
  }

  const START := State(map[], [], [])

  function ShelfSum(moves: seq<Move>, item: nat): int {
    if moves == [] then 0
    else
      var m := moves[|moves| - 1];
      ShelfSum(moves[..|moves| - 1], item) + if m.item == item then ShelfChange(m) else 0
  }

  function HeldSum(moves: seq<Move>, item: nat): int {
    if moves == [] then 0
    else
      var m := moves[|moves| - 1];
      HeldSum(moves[..|moves| - 1], item) + if m.item == item then HeldChange(m) else 0
  }

  /** Whether, going by what has happened, the item stands warned: the last thing that
      counts was a warning, and not a recovery or a change of threshold. */
  function Warned(log: seq<Note>, item: nat): bool {
    if log == [] then false
    else
      var n := log[|log| - 1];
      if n.item != item then Warned(log[..|log| - 1], item)
      else match n
        case Low(_, _, _) => true
        case Rearmed(_) => false
        case Adjusted(_, _, _, low) => low && Warned(log[..|log| - 1], item)
  }

  /** What every level row says of the history. */
  predicate RowSound(l: Level, moves: seq<Move>, log: seq<Note>, item: nat) {
    && l.onHand == ShelfSum(moves, item)
    && l.reserved == HeldSum(moves, item)
    && 0 <= l.reserved && Word(l.onHand) && Word(l.reserved)
    && (l.announced ==> IsLow(l))
    && l.announced == Warned(log, item)
  }

  ghost predicate RowsSound(s: State) {
    forall item :: RowSound(LevelOf(s.levels, item), s.moves, s.log, item)
  }

  predicate KeysOnce(moves: seq<Move>) {
    forall i, j :: 0 <= i < j < |moves| && moves[j].key != "" ==> moves[i].key != moves[j].key
  }

  /** No warning is sent to an item that stands warned. */
  predicate WarnedOnce(log: seq<Note>) {
    forall j :: 0 <= j < |log| && log[j].Low? ==> !Warned(log[..j], log[j].item)
  }

  ghost predicate Inv(s: State) {
    RowsSound(s) && KeysOnce(s.moves) && WarnedOnce(s.log)
  }

  lemma NewsWarns(log: seq<Note>, item: nat, was: Level, now: Level)
    requires was.announced == Warned(log, item) && now.announced == IsLow(now)
    ensures Warned(log + News(item, was, now), item) == now.announced
  {
    var adjusted := Adjusted(item, now.onHand, now.reserved, IsLow(now));
    assert (log + [adjusted])[..|log|] == log;
    if IsLow(now) && !was.announced {
      var low := Low(item, now.onHand, now.threshold.value);
      assert log + News(item, was, now) == log + [adjusted] + [low];
    } else {
      assert log + News(item, was, now) == log + [adjusted];
    }
  }

  lemma NewsLeavesOthers(log: seq<Note>, item: nat, was: Level, now: Level, other: nat)
    requires other != item
    ensures Warned(log + News(item, was, now), other) == Warned(log, other)
  {
    var adjusted := Adjusted(item, now.onHand, now.reserved, IsLow(now));
    assert (log + [adjusted])[..|log|] == log;
    if IsLow(now) && !was.announced {
      var low := Low(item, now.onHand, now.threshold.value);
      assert log + News(item, was, now) == log + [adjusted] + [low];
      assert (log + [adjusted] + [low])[..|log| + 1] == log + [adjusted];
    } else {
      assert log + News(item, was, now) == log + [adjusted];
    }
  }

  lemma NewsWarnsOnce(log: seq<Note>, item: nat, was: Level, now: Level)
    requires WarnedOnce(log) && was.announced == Warned(log, item)
    ensures WarnedOnce(log + News(item, was, now))
  {
    var adjusted := Adjusted(item, now.onHand, now.reserved, IsLow(now));
    var log2 := log + News(item, was, now);
    forall j | 0 <= j < |log2| && log2[j].Low?
      ensures !Warned(log2[..j], log2[j].item)
    {
      if j < |log| {
        assert log2[..j] == log[..j];
      } else {
        assert log2[..j] == log + [adjusted];
        assert (log + [adjusted])[..|log|] == log;
      }
    }
  }

  lemma MoveSums(moves: seq<Move>, m: Move, item: nat)
    ensures ShelfSum(moves + [m], item) == ShelfSum(moves, item) + if m.item == item then ShelfChange(m) else 0
    ensures HeldSum(moves + [m], item) == HeldSum(moves, item) + if m.item == item then HeldChange(m) else 0
  {
    assert (moves + [m])[..|moves|] == moves;
  }

  lemma ApplyKeepsRow(s: State, m: Move, item: nat)
    requires RowsSound(s) && !KeyTaken(s.moves, m.key) && Moved(LevelOf(s.levels, m.item), m).Ok?
    ensures var t := Apply(s, m).0;
            RowSound(LevelOf(t.levels, item), t.moves, t.log, item)
  {
    hide Warned, ShelfSum, HeldSum, News;
    var was := LevelOf(s.levels, m.item);
    assert RowSound(was, s.moves, s.log, m.item);
    assert RowSound(LevelOf(s.levels, item), s.moves, s.log, item);
    var now := Moved(was, m).value;
    MoveSums(s.moves, m, item);
    if item == m.item {
      NewsWarns(s.log, item, was, now);
    } else {
      NewsLeavesOthers(s.log, m.item, was, now, item);
    }
  }

  lemma SetKeepsRow(s: State, changed: nat, threshold: Option<int>, item: nat)
    requires RowsSound(s)
    ensures var t := SetThreshold(s, changed, threshold);
            RowSound(LevelOf(t.levels, item), t.moves, t.log, item)
  {
    hide ShelfSum, HeldSum;
    assert (s.log + [Rearmed(changed)])[..|s.log|] == s.log;
    assert RowSound(LevelOf(s.levels, item), s.moves, s.log, item);
  }

  lemma StepKeepsInv(s: State, c: Command)
    requires Inv(s)
    ensures Inv(Step(s, c))
  {
    hide RowSound, Moved, News, WarnedOnce;
    match c
    case Set(changed, threshold) =>
      forall item ensures RowSound(LevelOf(Step(s, c).levels, item), Step(s, c).moves, Step(s, c).log, item) {
        SetKeepsRow(s, changed, threshold, item);
      }
      RearmWarnsOnce(s.log, changed);
    case Do(m) =>
      if !KeyTaken(s.moves, m.key) && Moved(LevelOf(s.levels, m.item), m).Ok? {
        forall item ensures RowSound(LevelOf(Step(s, c).levels, item), Step(s, c).moves, Step(s, c).log, item) {
          ApplyKeepsRow(s, m, item);
        }
        RowAnnounced(s, m.item);
        NewsWarnsOnce(s.log, m.item, LevelOf(s.levels, m.item), Moved(LevelOf(s.levels, m.item), m).value);
      }
  }

  lemma RowAnnounced(s: State, item: nat)
    requires RowsSound(s)
    ensures LevelOf(s.levels, item).announced == Warned(s.log, item)
  {
    assert RowSound(LevelOf(s.levels, item), s.moves, s.log, item);
  }

  lemma RearmWarnsOnce(log: seq<Note>, item: nat)
    requires WarnedOnce(log)
    ensures WarnedOnce(log + [Rearmed(item)])
  {
    var log2 := log + [Rearmed(item)];
    forall j | 0 <= j < |log2| && log2[j].Low?
      ensures !Warned(log2[..j], log2[j].item)
    {
      assert log2[..j] == log[..j];
    }
  }

  /** After any run every level is the sum of the item's moves, what is held is never
      negative, an announced item is low, and no key is in the moves twice. */
  lemma {:induction false} RunKeepsInv(cs: seq<Command>)
    ensures Inv(Run(START, cs))
  {
    if cs == [] {
      assert WarnedOnce([]);
    } else {
      hide Inv;
      RunKeepsInv(cs[..|cs| - 1]);
      StepKeepsInv(Run(START, cs[..|cs| - 1]), cs[|cs| - 1]);
    }
  }

  // ------------------------------------------------------------------------- the edges

  predicate Resets(n: Note, item: nat) {
    n.item == item && (n.Rearmed? || (n.Adjusted? && !n.low))
  }

  lemma {:induction false} StillWarned(log: seq<Note>, i: nat, j: nat, item: nat)
    requires i < j <= |log| && log[i].Low? && log[i].item == item
    requires forall k :: i < k < j ==> !Resets(log[k], item)
    ensures Warned(log[..j], item)
    decreases j
  {
    if i + 1 < j {
      StillWarned(log, i, j - 1, item);
    }
    assert log[..j][..j - 1] == log[..j - 1];
  }

  /** Between two warnings about one item lies a recovery or a change of threshold. */
  lemma WarningsAreEdges(cs: seq<Command>, i: nat, j: nat)
    requires var log := Run(START, cs).log;
             i < j < |log| && log[i].Low? && log[j].Low? && log[i].item == log[j].item
    ensures var log := Run(START, cs).log;
            exists k :: i < k < j && Resets(log[k], log[i].item)
  {
    hide Run, RowsSound, Warned;
    var log := Run(START, cs).log;
    RunKeepsInv(cs);
    if forall k :: i < k < j ==> !Resets(log[k], log[i].item) {
      StillWarned(log, i, j, log[i].item);
      assert false;
    }
  }

  /** And no crossing goes unannounced: after a move an item is low exactly when it
      stands warned. */
  lemma LowMeansWarned(cs: seq<Command>, m: Move)
    requires var s := Run(START, cs); Apply(s, m).1.Ok? && !Apply(s, m).1.value.repeat
    ensures var t := Apply(Run(START, cs), m).0;
            var l := LevelOf(t.levels, m.item);
            (l.threshold.Some? && l.onHand <= l.threshold.value) <==> Warned(t.log, m.item)
  {
    hide Run, Warned, News;
    RunKeepsInv(cs);
    ApplyKeepsRow(Run(START, cs), m, m.item);
  }

  // ---------------------------------------------------------------------- the whole series

  /** The movements announced, in order. */
  function Announced(log: seq<Note>): seq<Note> {
    if log == [] then []
    else
      var n := log[|log| - 1];
      if n.Adjusted? then Announced(log[..|log| - 1]) + [n] else Announced(log[..|log| - 1])
  }

  /** Announcement k is of move k, with the level that move left. */
  predicate Tells(told: seq<Note>, moves: seq<Move>) {
    && |told| == |moves|
    && forall k :: 0 <= k < |told| ==> TellsMove(told[k], moves, k)
  }

  predicate TellsMove(n: Note, moves: seq<Move>, k: nat)
    requires k < |moves|
  {
    && n.Adjusted? && n.item == moves[k].item
    && n.onHand == ShelfSum(moves[..k + 1], n.item) && n.reserved == HeldSum(moves[..k + 1], n.item)
  }

  lemma NewsAnnounces(log: seq<Note>, item: nat, was: Level, now: Level)
    ensures Announced(log + News(item, was, now)) == Announced(log) + [Adjusted(item, now.onHand, now.reserved, IsLow(now))]
  {
    var adjusted := Adjusted(item, now.onHand, now.reserved, IsLow(now));
    assert (log + [adjusted])[..|log|] == log;
    if IsLow(now) && !was.announced {
      var low := Low(item, now.onHand, now.threshold.value);
      assert log + News(item, was, now) == log + [adjusted] + [low];
      assert (log + [adjusted] + [low])[..|log| + 1] == log + [adjusted];
    }
  }

  lemma TellsOneMore(told: seq<Note>, moves: seq<Move>, n: Note, m: Move)
    requires Tells(told, moves) && TellsMove(n, moves + [m], |moves|)
    ensures Tells(told + [n], moves + [m])
  {
    hide ShelfSum, HeldSum;
    forall k | 0 <= k < |told|
      ensures TellsMove(told[k], moves + [m], k)
    {
      assert TellsMove(told[k], moves, k);
      assert (moves + [m])[..k + 1] == moves[..k + 1];
    }
  }

  /** Every move is announced, in order, with the level it left: nothing in the series is
      missing and nothing is in it twice. */
  lemma {:induction false} EveryMoveIsTold(cs: seq<Command>)
    ensures Tells(Announced(Run(START, cs).log), Run(START, cs).moves)
  {
    if cs != [] {
      var init, c := cs[..|cs| - 1], cs[|cs| - 1];
      EveryMoveIsTold(init);
      RunKeepsInv(init);
      StepIsTold(Run(START, init), c);
    }
  }

  lemma StepIsTold(s: State, c: Command)
    requires RowsSound(s) && Tells(Announced(s.log), s.moves)
    ensures Tells(Announced(Step(s, c).log), Step(s, c).moves)
  {
    hide Tells, News, ShelfSum, HeldSum, Warned;
    match c
    case Set(item, _) =>
      assert (s.log + [Rearmed(item)])[..|s.log|] == s.log;
    case Do(m) =>
      if !KeyTaken(s.moves, m.key) && Moved(LevelOf(s.levels, m.item), m).Ok? {
        var was := LevelOf(s.levels, m.item);
        var now := Moved(was, m).value;
        assert RowSound(was, s.moves, s.log, m.item);
        MoveSums(s.moves, m, m.item);
        NewsAnnounces(s.log, m.item, was, now);
        assert (s.moves + [m])[..|s.moves| + 1] == s.moves + [m];
        TellsOneMore(Announced(s.log), s.moves, Adjusted(m.item, now.onHand, now.reserved, IsLow(now)), m);
      }
  }

  // ----------------------------------------------------------------------------- repeats

  /** A move that was applied, not found applied already. */
  predicate Fresh(s: State, m: Move) {
    Apply(s, m).1.Ok? && !Apply(s, m).1.value.repeat
  }

  lemma KeysStay(moves: seq<Move>, m: Move, key: string)
    requires KeyTaken(moves, key)
    ensures KeyTaken(moves + [m], key)
  {
    var i :| 0 <= i < |moves| && moves[i].key == key;
    assert (moves + [m])[i].key == key;
  }

  lemma {:induction false} KeyAndRowStay(s: State, cs: seq<Command>, key: string, item: nat)
    requires KeyTaken(s.moves, key) && item in s.levels
    ensures KeyTaken(Run(s, cs).moves, key) && item in Run(s, cs).levels
  {
    hide KeyTaken, Moved, News;
    if cs != [] {
      KeyAndRowStay(s, cs[..|cs| - 1], key, item);
      match cs[|cs| - 1]
      case Do(m) => KeysStay(Run(s, cs[..|cs| - 1]).moves, m, key);
      case Set(_, _) =>
    }
  }

  /** A move applied once and sent again under its key, however much later, changes
      nothing, sends nothing and is answered with the row as it then stands. */
  lemma RepeatIsHarmless(s: State, m: Move, cs: seq<Command>)
    requires m.key != "" && Fresh(s, m)
    ensures var u := Run(Apply(s, m).0, cs);
            m.item in u.levels && Apply(u, m) == (u, Ok(Receipt(Shown(u.levels[m.item]), true)))
  {
    hide Moved, News, Run;
    var t := Apply(s, m).0;
    assert t.moves[|s.moves|] == m;
    KeyAndRowStay(t, cs, m.key, m.item);
  }

  /** The threshold an item stands at after some commands. */
  function ThresholdAfter(cs: seq<Command>, item: nat, first: Option<int>): Option<int> {
    if cs == [] then first
    else match cs[|cs| - 1]
      case Set(i, threshold) =>
        if i == item then threshold else ThresholdAfter(cs[..|cs| - 1], item, first)
      case Do(_) => ThresholdAfter(cs[..|cs| - 1], item, first)
  }

  /** The moves a run added. */
  function Added(s: State, cs: seq<Command>): seq<Move> {
    if |s.moves| <= |Run(s, cs).moves| then Run(s, cs).moves[|s.moves|..] else []
  }

  /** What a run did to a row is what the moves it added and the thresholds it set say. */
  lemma {:induction false} RowAfter(s: State, cs: seq<Command>, item: nat)
    ensures |s.moves| <= |Run(s, cs).moves| && Run(s, cs).moves == s.moves + Added(s, cs)
    ensures var was, now := LevelOf(s.levels, item), LevelOf(Run(s, cs).levels, item);
            && now.onHand == was.onHand + ShelfSum(Added(s, cs), item)
            && now.reserved == was.reserved + HeldSum(Added(s, cs), item)
            && now.threshold == ThresholdAfter(cs, item, was.threshold)
  {
    if cs != [] {
      var init := cs[..|cs| - 1];
      RowAfter(s, init, item);
      match cs[|cs| - 1]
      case Set(_, _) =>
      case Do(m) => RowAfterMove(s, init, m, item);
    }
  }

  lemma RowAfterMove(s: State, init: seq<Command>, m: Move, item: nat)
    requires Run(s, init).moves == s.moves + Added(s, init)
    ensures var was := Run(s, init);
            var now := Step(was, Do(m));
            var added := if now.moves == was.moves then Added(s, init) else Added(s, init) + [m];
            && now.moves == s.moves + added && |s.moves| <= |now.moves| && now.moves[|s.moves|..] == added
            && LevelOf(now.levels, item).threshold == LevelOf(was.levels, item).threshold
            && LevelOf(now.levels, item).onHand - ShelfSum(added, item) == LevelOf(was.levels, item).onHand - ShelfSum(Added(s, init), item)
            && LevelOf(now.levels, item).reserved - HeldSum(added, item) == LevelOf(was.levels, item).reserved - HeldSum(Added(s, init), item)
  {
    hide Run, Added, News, ShelfSum, HeldSum;
    MoveSums(Added(s, init), m, item);
    assert s.moves + (Added(s, init) + [m]) == s.moves + Added(s, init) + [m];
  }

  /** The repeat is answered as the first time exactly when the moves in between came to
      nothing on the shelf and in what is held, and left the threshold where it was. */
  lemma RepeatAgreesIff(s: State, m: Move, cs: seq<Command>)
    requires m.key != "" && Fresh(s, m)
    ensures var t, first := Apply(s, m).0, Apply(s, m).1.value.figures;
            var again := Apply(Run(t, cs), m).1;
            && again.Ok?
            && (again.value.figures == first <==>
                && ShelfSum(Added(t, cs), m.item) == 0 && HeldSum(Added(t, cs), m.item) == 0
                && ThresholdAfter(cs, m.item, first.threshold) == first.threshold)
  {
    hide Moved, News, Run, Added, ShelfSum, HeldSum, ThresholdAfter;
    RepeatIsHarmless(s, m, cs);
    RowAfter(Apply(s, m).0, cs, m.item);
  }

  /** So the two can differ: five in under a key, two more in, and the repeat of the
      first is answered with seven. */
  lemma RepeatMayDiffer(ref: Reference)
    ensures var m, other := Move(1, 5, Adjustment, ref, "k"), Move(1, 2, Adjustment, ref, "");
            var t := Apply(START, m).0;
            && Apply(START, m).1 == Ok(Receipt(Figures(5, 0, None), false))
            && Apply(Run(t, [Do(other)]), m).1 == Ok(Receipt(Figures(7, 0, None), true))
  {
    var m, other := Move(1, 5, Adjustment, ref, "k"), Move(1, 2, Adjustment, ref, "");
    var t := Apply(START, m).0;
    RepeatIsHarmless(START, m, [Do(other)]);
    assert [Do(other)][..0] == [];
    assert Run(t, []) == t;
    assert Run(t, [Do(other)]) == Apply(t, other).0;
  }

  // ------------------------------------------------------------------ held, by reference

  /** What a move means for what is held, as the report reads it. */
  function Holding(m: Move): int {
    match m.kind
    case Reserve => m.delta
    case Release | Consume => -m.delta
    case Adjustment | ConsumeUnreserved => 0
  }

  function HeldFor(moves: seq<Move>, item: nat, ref: Reference): int {
    if moves == [] then 0
    else
      var m := moves[|moves| - 1];
      HeldFor(moves[..|moves| - 1], item, ref) + if m.item == item && m.ref == ref then Holding(m) else 0
  }

  function HeldOver(moves: seq<Move>, item: nat, refs: seq<Reference>): int {
    if refs == [] then 0
    else HeldOver(moves, item, refs[..|refs| - 1]) + HeldFor(moves, item, refs[|refs| - 1])
  }

  predicate Distinct(refs: seq<Reference>) {
    forall i, j :: 0 <= i < j < |refs| ==> refs[i] != refs[j]
  }

  lemma {:induction false} HeldOverNone(item: nat, refs: seq<Reference>)
    ensures HeldOver([], item, refs) == 0
  {
    if refs != [] {
      HeldOverNone(item, refs[..|refs| - 1]);
    }
  }

  lemma {:induction false} HeldOverLast(moves: seq<Move>, item: nat, refs: seq<Reference>)
    requires moves != [] && Distinct(refs)
    ensures var m := moves[|moves| - 1];
            HeldOver(moves, item, refs) ==
            HeldOver(moves[..|moves| - 1], item, refs) + if m.item == item && m.ref in refs then Holding(m) else 0
  {
    if refs != [] {
      HeldOverLast(moves, item, refs[..|refs| - 1]);
      assert refs == refs[..|refs| - 1] + [refs[|refs| - 1]];
    }
  }

  /** Quantities as the service passes them on: a hold, a release or a sale is of at
      least one. */
  predicate Positive(m: Move) { m.kind.Adjustment? || m.delta > 0 }

  lemma {:induction false} HeldByReference(moves: seq<Move>, item: nat, refs: seq<Reference>)
    requires Distinct(refs) && forall m :: m in moves ==> Positive(m) && (m.item == item ==> m.ref in refs)
    ensures HeldOver(moves, item, refs) == HeldSum(moves, item)
  {
    if moves == [] {
      HeldOverNone(item, refs);
    } else {
      HeldOverLast(moves, item, refs);
      HeldByReference(moves[..|moves| - 1], item, refs);
    }
  }

  /** What the level says is held is the sum of what every reference holds. */
  lemma ReservedIsEveryReference(cs: seq<Command>, item: nat, refs: seq<Reference>)
    requires Distinct(refs)
    requires forall m :: m in Run(START, cs).moves ==> Positive(m) && (m.item == item ==> m.ref in refs)
    ensures LevelOf(Run(START, cs).levels, item).reserved == HeldOver(Run(START, cs).moves, item, refs)
  {
    hide Run, HeldOver, HeldSum, Warned, ShelfSum;
    var s := Run(START, cs);
    RunKeepsInv(cs);
    assert RowSound(LevelOf(s.levels, item), s.moves, s.log, item);
    HeldByReference(s.moves, item, refs);
  }

  // ------------------------------------------------------------- by kind of movement

  /** All that stocktakes and deliveries changed. */
  function StockTaken(moves: seq<Move>, item: nat): int {
    if moves == [] then 0
    else
      var m := moves[|moves| - 1];
      StockTaken(moves[..|moves| - 1], item) + if m.item == item && m.kind == Adjustment then m.delta else 0
  }

  /** All that was sold, held before or not. */
  function Sold(moves: seq<Move>, item: nat): int {
    if moves == [] then 0
    else
      var m := moves[|moves| - 1];
      Sold(moves[..|moves| - 1], item) + if m.item == item && m.kind in {Consume, ConsumeUnreserved} then m.delta else 0
  }

  lemma {:induction false} ShelfByKind(moves: seq<Move>, item: nat)
    requires forall m :: m in moves ==> Positive(m)
    ensures ShelfSum(moves, item) == StockTaken(moves, item) - Sold(moves, item)
  {
    if moves != [] {
      assert Positive(moves[|moves| - 1]);
      ShelfByKind(moves[..|moves| - 1], item);
    }
  }

  /** After any run what is on the shelf is what stocktakes and deliveries made it, less
      everything that was sold. */
  lemma OnHandIsAdjustedLessSold(cs: seq<Command>, item: nat)
    requires forall m :: m in Run(START, cs).moves ==> Positive(m)
    ensures var s := Run(START, cs);
            LevelOf(s.levels, item).onHand == StockTaken(s.moves, item) - Sold(s.moves, item)
  {
    hide Run, HeldSum, ShelfSum, Warned;
    RunKeepsInv(cs);
    assert RowSound(LevelOf(Run(START, cs).levels, item), Run(START, cs).moves, Run(START, cs).log, item);
    ShelfByKind(Run(START, cs).moves, item);
  }

  function Available(f: Figures): int { f.onHand - f.reserved }

  /** What a move that is applied makes of the row: stock is held or let go without leaving
      the shelf, and sold off the shelf, out of what is held or not. */
  predicate Made(m: Move, was: Figures, now: Figures) {
    match m.kind
    case Adjustment => now == was.(onHand := was.onHand + m.delta)
    case Reserve => now == was.(reserved := was.reserved + m.delta) && Available(now) == Available(was) - m.delta
    case Release => now == was.(reserved := was.reserved - m.delta) && Available(now) == Available(was) + m.delta
    case Consume =>
      now == was.(onHand := was.onHand - m.delta, reserved := was.reserved - m.delta) && Available(now) == Available(was)
    case ConsumeUnreserved => now == was.(onHand := was.onHand - m.delta) && Available(now) == Available(was) - m.delta
  }

  lemma MoveByKind(s: State, m: Move)
    requires Positive(m) && Fresh(s, m)
    ensures var was, now, t := Shown(LevelOf(s.levels, m.item)), Apply(s, m).1.value.figures, Apply(s, m).0;
            && Made(m, was, now)
            && t.levels.Keys == s.levels.Keys + {m.item} && Shown(t.levels[m.item]) == now
            && (forall item :: item in s.levels && item != m.item ==> t.levels[item] == s.levels[item])
            && t.moves == s.moves + [m]
  {
    hide KeyTaken, News, Moved, Made;
    MovedMakes(LevelOf(s.levels, m.item), m);
  }

  lemma MovedMakes(l: Level, m: Move)
    requires Positive(m) && Moved(l, m).Ok?
    ensures Made(m, Shown(l), Shown(Moved(l, m).value))
  {
  }

  /** And which are applied: those whose figures are words, and that leave no less than
      nothing held. */
  lemma AppliedIff(s: State, m: Move)
    requires Positive(m) && !KeyTaken(s.moves, m.key)
    ensures var was := LevelOf(s.levels, m.item);
            var onHand := was.onHand + if m.kind == Adjustment then m.delta
                                       else if m.kind in {Consume, ConsumeUnreserved} then -m.delta else 0;
            var reserved := was.reserved + if m.kind == Reserve then m.delta
                                           else if m.kind in {Release, Consume} then -m.delta else 0;
            var fits := MIN32 <= onHand <= MAX32 && MIN32 <= reserved <= MAX32;
            && (Apply(s, m).1.Ok? <==> fits && reserved >= 0)
            && (Apply(s, m).1 == Err(OverRelease) <==> fits && reserved < 0)
            && (Apply(s, m).1.Err? ==> Apply(s, m).0 == s && Apply(s, m).1.error in {OverRelease, Overflow})
  {
  }

  /** A move under a key that was used changes nothing, and is answered with the row of its
      own item, if it has one. */
  lemma UsedKeyChangesNothing(s: State, m: Move, i: nat)
    requires i < |s.moves| && s.moves[i].key == m.key != ""
    ensures Apply(s, m).0 == s
    ensures m.item in s.levels ==>
              var l := s.levels[m.item]; Apply(s, m).1 == Ok(Receipt(Figures(l.onHand, l.reserved, l.threshold), true))
    ensures m.item !in s.levels ==> Apply(s, m).1 == Err(NotFound)
  {
  }

  /** Nothing keeps one reference from giving back what another holds: the check is on
      the total alone. */
  lemma ReferencesMayBorrow(a: Reference, b: Reference)
    requires a != b
    ensures var cs := [Do(Move(1, 3, Reserve, a, "")), Do(Move(1, 2, Release, b, ""))];
            HeldFor(Run(START, cs).moves, 1, b) == -2 && LevelOf(Run(START, cs).levels, 1).reserved == 1
  {
    var m1, m2 := Move(1, 3, Reserve, a, ""), Move(1, 2, Release, b, "");
    var cs := [Do(m1), Do(m2)];
    assert cs[..1] == [Do(m1)] && [Do(m1)][..0] == [];
    var s1 := Run(START, [Do(m1)]);
    assert Run(START, []) == START;
    assert s1 == Apply(START, m1).0;
    assert s1.moves == [] + [m1] == [m1];
    assert Run(START, cs) == Apply(s1, m2).0;
    assert [m1, m2][..1] == [m1] && [m1][..0] == [];
    assert Run(START, cs).moves == [m1] + [m2] == [m1, m2];
    assert HeldFor([m1], 1, b) == 0;
    assert HeldFor([m1, m2], 1, b) == -2;
  }

  predicate GivesBack(m: Move) { m.kind.Release? || m.kind.Consume? }

  lemma HeldForMove(moves: seq<Move>, m: Move, item: nat, ref: Reference)
    ensures HeldFor(moves + [m], item, ref) ==
            HeldFor(moves, item, ref) + if m.item == item && m.ref == ref then Holding(m) else 0
  {
    assert (moves + [m])[..|moves|] == moves;
  }

  /** A release or a sale that is accepted leaves its reference holding no less than
      nothing exactly when it is of no more than ReservedFor gives beforehand, and it
      leaves every other reference alone. */
  lemma NothingBorrowedIff(s: State, m: Move, item: nat, ref: Reference)
    requires GivesBack(m) && Fresh(s, m)
    ensures var t := Apply(s, m).0;
            && (HeldFor(t.moves, m.item, m.ref) >= 0 <==> m.delta <= HeldFor(s.moves, m.item, m.ref))
            && (item != m.item || ref != m.ref ==> HeldFor(t.moves, item, ref) == HeldFor(s.moves, item, ref))
  {
    hide HeldFor, Moved, News;
    HeldForMove(s.moves, m, m.item, m.ref);
    HeldForMove(s.moves, m, item, ref);
  }

  /** The question a caller can put to ReservedFor before each command. */
  predicate Asked(s: State, c: Command) {
    c.Do? && GivesBack(c.m) && Fresh(s, c.m) ==> c.m.delta <= HeldFor(s.moves, c.m.item, c.m.ref)
  }

  ghost predicate NobodyBorrows(s: State) {
    forall item, ref :: HeldFor(s.moves, item, ref) >= 0
  }

  predicate PositiveCommand(c: Command) { c.Do? ==> Positive(c.m) }

  lemma StepBorrowsIff(s: State, c: Command)
    requires NobodyBorrows(s) && PositiveCommand(c)
    ensures NobodyBorrows(Step(s, c)) <==> Asked(s, c)
  {
    hide HeldFor, Moved, News, KeyTaken;
    if c.Do? && Fresh(s, c.m) {
      var t := Step(s, c);
      forall item, ref ensures HeldFor(t.moves, item, ref) >= 0 <== Asked(s, c) {
        HeldForMove(s.moves, c.m, item, ref);
      }
      HeldForMove(s.moves, c.m, c.m.item, c.m.ref);
    }
  }

  lemma AfterOneMore(cs: seq<Command>, k: nat)
    requires k < |cs|
    ensures Run(START, cs[..k + 1]) == Step(Run(START, cs[..k]), cs[k])
  {
    assert cs[..k + 1][..k] == cs[..k];
  }

  lemma {:induction false} AskingKeepsAll(cs: seq<Command>, k: nat)
    requires k <= |cs| && forall c :: c in cs ==> PositiveCommand(c)
    requires forall j :: 0 <= j < k ==> Asked(Run(START, cs[..j]), cs[j])
    ensures NobodyBorrows(Run(START, cs[..k]))
  {
    hide Asked, PositiveCommand, Step;
    if k == 0 {
      assert Run(START, cs[..0]) == START;
    } else {
      hide NobodyBorrows, Run;
      AskingKeepsAll(cs, k - 1);
      AfterOneMore(cs, k - 1);
      assert PositiveCommand(cs[k - 1]);
      StepBorrowsIff(Run(START, cs[..k - 1]), cs[k - 1]);
    }
  }

  /** No reference ever gives back what another holds exactly when every release and sale
      that was accepted was of no more than its own reference held. */
  lemma NobodyEverBorrowsIff(cs: seq<Command>)
    requires forall c :: c in cs ==> PositiveCommand(c)
    ensures (forall k :: 0 <= k <= |cs| ==> NobodyBorrows(Run(START, cs[..k])))
            <==> (forall k :: 0 <= k < |cs| ==> Asked(Run(START, cs[..k]), cs[k]))
  {
    hide NobodyBorrows, Asked, PositiveCommand, Step, Run;
    if forall k :: 0 <= k <= |cs| ==> NobodyBorrows(Run(START, cs[..k])) {
      forall k | 0 <= k < |cs| ensures Asked(Run(START, cs[..k]), cs[k]) {
        AfterOneMore(cs, k);
        assert NobodyBorrows(Run(START, cs[..k])) && NobodyBorrows(Run(START, cs[..k + 1]));
        assert PositiveCommand(cs[k]);
        StepBorrowsIff(Run(START, cs[..k]), cs[k]);
      }
    }
    if forall k :: 0 <= k < |cs| ==> Asked(Run(START, cs[..k]), cs[k]) {
      forall k | 0 <= k <= |cs| ensures NobodyBorrows(Run(START, cs[..k])) {
        AskingKeepsAll(cs, k);
      }
    }
  }
}
