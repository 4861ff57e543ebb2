/** The printer turns a placed order into the lines of a ticket. */
module Printer {
  import opened Common

  type ItemId = nat
  type StationId = nat

  /** A line as the event carries it; the item is None when its identifier does
      not parse. */
  datatype OrderLine = OrderLine(item: Option<ItemId>, name: string, quantity: int)

  datatype TicketLine = TicketLine(item: ItemId, name: string, quantity: int, station: Option<StationId>)

  datatype Outcome = Skip | Send(lines: seq<TicketLine>, routed: nat)

  function Route(routes: map<ItemId, StationId>, line: OrderLine): TicketLine
    requires line.item.Some?
  {
    TicketLine(line.item.value, line.name, line.quantity,
               if line.item.value in routes then Some(routes[line.item.value]) else None)
  }

  /** The lines that parse, in order. */
  function Routed(routes: map<ItemId, StationId>, lines: seq<OrderLine>): seq<TicketLine> {
    if lines == [] then []
    else Routed(routes, lines[..|lines| - 1]) +
         var last := lines[|lines| - 1];
         if last.item.Some? then [Route(routes, last)] else []
  }

  /** The item, name and quantity as ordered, with the station its item is routed to. */
  predicate Keeps(routes: map<ItemId, StationId>, line: OrderLine, t: TicketLine) {
    && line.item == Some(t.item) && t.name == line.name && t.quantity == line.quantity
    && (t.item in routes ==> t.station == Some(routes[t.item])) && (t.item !in routes ==> t.station == None)
  }

  /** How many lines parse. */
  function Parsing(lines: seq<OrderLine>): nat {
    if lines == [] then 0 else Parsing(lines[..|lines| - 1]) + if lines[|lines| - 1].item.Some? then 1 else 0
  }

  lemma {:induction false} RoutedParses(routes: map<ItemId, StationId>, lines: seq<OrderLine>)
    ensures |Routed(routes, lines)| == Parsing(lines)
  {
    if lines != [] {
      RoutedParses(routes, lines[..|lines| - 1]);
    }
  }

  /** The ticket has as many lines as the order has that parse, and each of those stands on
      it after as many as parse before it, as it was ordered. */
  lemma {:induction false} TicketIsTheOrder(routes: map<ItemId, StationId>, lines: seq<OrderLine>, i: nat)
    requires i < |lines| && lines[i].item.Some?
    ensures |Routed(routes, lines)| == Parsing(lines) && Parsing(lines[..i]) < Parsing(lines)
    ensures Keeps(routes, lines[i], Routed(routes, lines)[Parsing(lines[..i])])
    decreases |lines|
  {
    var init := lines[..|lines| - 1];
    RoutedParses(routes, lines);
    RoutedParses(routes, init);
    if i < |init| {
      TicketIsTheOrder(routes, init, i);
      assert init[..i] == lines[..i];
    }
  }

  function Stationed(lines: seq<TicketLine>): nat {
    if lines == [] then 0 else Stationed(lines[..|lines| - 1]) + if lines[|lines| - 1].station.Some? then 1 else 0
  }

  lemma {:induction false} StationedAll(lines: seq<TicketLine>)
    ensures Stationed(lines) <= |lines|
    ensures Stationed(lines) == |lines| <==> forall k :: 0 <= k < |lines| ==> lines[k].station.Some?
  {
    if lines != [] {
      StationedAll(lines[..|lines| - 1]);
    }
  }

  /** What the kitchen store relies on: a ticket that is sent has a line, no line
      that parses is dropped for want of a station, and the count of routed lines
      is the count of those that have one. */
  method Place(open: bool, lines: seq<OrderLine>, routes: map<ItemId, StationId>) returns (out: Outcome)
    ensures out.Skip? <==> open || forall i :: 0 <= i < |lines| ==> lines[i].item == None
    ensures out.Send? ==> out.lines != [] && out.lines == Routed(routes, lines)
    ensures out.Send? ==> out.routed == Stationed(out.lines) <= |out.lines|
    ensures out.Send? ==> (out.routed == |out.lines| <==> forall k :: 0 <= k < |out.lines| ==> out.lines[k].station.Some?)
  {
    if open || |lines| == 0 {
      return Skip;
    }
    var placed := [];
    var routed := 0;
    for i := 0 to |lines|
      invariant placed == Routed(routes, lines[..i])
      invariant placed == [] <==> forall j :: 0 <= j < i ==> lines[j].item == None
      invariant routed == Stationed(placed)
    {
      assert lines[..i + 1][..i] == lines[..i];
      if lines[i].item.None? {
        continue;
      }
      var line := Route(routes, lines[i]);
      if line.station.Some? {
        routed := routed + 1;
      }
      assert (placed + [line])[..|placed|] == placed;
      placed := placed + [line];
    }
    StationedAll(placed);
    assert lines[..|lines|] == lines;
    if |placed| == 0 {
      return Skip;
    }
    out := Send(placed, routed);
  }
}
