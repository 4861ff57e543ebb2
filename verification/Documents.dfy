/** What is on a document: lines that each add up, and totals that are theirs. */
module Documents {
  import opened Common

  /** A line as it is asked for. `foreign` says one of its amounts names another
      currency than the market's. */
  datatype Asked = Asked(quantity: int, unitPrice: int, net: int, tax: int, gross: int, rate: int, foreign: bool)

  datatype Line = Line(quantity: int, unitPrice: int, net: int, tax: int, gross: int, rate: int)

  datatype Body = Body(lines: seq<Line>, net: int, tax: int, gross: int)

  datatype Error = EmptyLine | ForeignCurrency | DoesNotAddUp

  const NOTHING := Body([], 0, 0, 0)

  /** A gross left out is made up from its parts; one given has to agree with them. */
  function Checked(a: Asked): Result<Line, Error> {
    if a.quantity == 0 then Err(EmptyLine)
    else if a.foreign then Err(ForeignCurrency)
    else
      var gross := if a.gross == 0 then a.net + a.tax else a.gross;
      if a.net + a.tax != gross then Err(DoesNotAddUp)
      else Ok(Line(a.quantity, a.unitPrice, a.net, a.tax, gross, a.rate))
  }

  function Added(b: Body, l: Line): Body {
    Body(b.lines + [l], b.net + l.net, b.tax + l.tax, b.gross + l.gross)
  }

  /** The document of some lines, or what is wrong with the first that is wrong. */
  function Built(asked: seq<Asked>): Result<Body, Error> {
    if asked == [] then Ok(NOTHING)
    else
      var init := Built(asked[..|asked| - 1]);
      if init.Err? then init
      else match Checked(asked[|asked| - 1])
        case Err(e) => Err(e)
        case Ok(l) => Ok(Added(init.value, l))
  }

  /** A line that can be written: of something, in the market's currency, and with a gross
      that is left out or is what its parts come to. */
  predicate Right(a: Asked) {
    a.quantity != 0 && !a.foreign && (a.gross == 0 || a.gross == a.net + a.tax)
  }

  method Build(asked: seq<Asked>) returns (r: Result<Body, Error>)
    ensures r == Built(asked)
    ensures r.Ok? <==> forall i :: 0 <= i < |asked| ==> Right(asked[i])
    ensures r.Ok? ==> |r.value.lines| == |asked|
    ensures r.Ok? ==> forall i :: 0 <= i < |asked| ==> Keeps(asked[i], r.value.lines[i])
    ensures r.Err? ==> exists i :: 0 <= i < |asked| && FirstWrong(asked, i, r.error)
  {
    BuiltKeeps(asked);
    var d := NOTHING;
    for i := 0 to |asked|
      invariant Built(asked[..i]) == Ok(d)
    {
      assert asked[..i + 1][..i] == asked[..i];
      var l := asked[i];
      if l.quantity == 0 {
        BuiltStops(asked, i + 1);
        return Err(EmptyLine);
      }
      if l.foreign {
        BuiltStops(asked, i + 1);
        return Err(ForeignCurrency);
      }
      var gross := l.gross;
      if gross == 0 {
        gross := l.net + l.tax;
      }
      if l.net + l.tax != gross {
        BuiltStops(asked, i + 1);
        return Err(DoesNotAddUp);
      }
      d := Body(d.lines + [Line(l.quantity, l.unitPrice, l.net, l.tax, gross, l.rate)],
                d.net + l.net, d.tax + l.tax, d.gross + gross);
    }
    assert asked[..|asked|] == asked;
    return Ok(d);
  }

  /** The line as it was asked for, with its gross. */
  predicate Keeps(a: Asked, l: Line) {
    && l.quantity == a.quantity && l.unitPrice == a.unitPrice && l.rate == a.rate
    && l.net == a.net && l.tax == a.tax && l.gross == a.net + a.tax
  }

  /** The error is of the first line that is wrong, and the first thing wrong with it. */
  predicate FirstWrong(asked: seq<Asked>, i: nat, e: Error)
    requires i < |asked|
  {
    && (forall j :: 0 <= j < i ==> Right(asked[j]))
    && match e
       case EmptyLine => asked[i].quantity == 0
       case ForeignCurrency => asked[i].quantity != 0 && asked[i].foreign
       case DoesNotAddUp =>
         && asked[i].quantity != 0 && !asked[i].foreign
         && asked[i].gross != 0 && asked[i].gross != asked[i].net + asked[i].tax
  }

  lemma {:induction false} BuiltKeeps(asked: seq<Asked>)
    ensures Built(asked).Ok? <==> forall i :: 0 <= i < |asked| ==> Right(asked[i])
    ensures Built(asked).Ok? ==> |Built(asked).value.lines| == |asked|
    ensures Built(asked).Ok? ==> forall i :: 0 <= i < |asked| ==> Keeps(asked[i], Built(asked).value.lines[i])
    ensures Built(asked).Err? ==> exists i :: 0 <= i < |asked| && FirstWrong(asked, i, Built(asked).error)
  {
    if asked != [] {
      var init, last := asked[..|asked| - 1], asked[|asked| - 1];
      BuiltKeeps(init);
      assert asked == init + [last];
      if Built(init).Err? {
        var i :| 0 <= i < |init| && FirstWrong(init, i, Built(init).error);
        assert FirstWrong(asked, i, Built(asked).error);
      } else if Built(asked).Err? {
        assert FirstWrong(asked, |init|, Built(asked).error);
      }
    }
  }

  lemma {:induction false} BuiltStops(asked: seq<Asked>, n: nat)
    requires n <= |asked| && Built(asked[..n]).Err?
    ensures Built(asked) == Built(asked[..n])
  {
    if n < |asked| {
      assert asked[..|asked| - 1][..n] == asked[..n];
      BuiltStops(asked[..|asked| - 1], n);
    } else {
      assert asked[..n] == asked;
    }
  }

  // ------------------------------------------------------------------------- soundness

  function Nets(lines: seq<Line>): int {
    if lines == [] then 0 else Nets(lines[..|lines| - 1]) + lines[|lines| - 1].net
  }

  function Taxes(lines: seq<Line>): int {
    if lines == [] then 0 else Taxes(lines[..|lines| - 1]) + lines[|lines| - 1].tax
  }

  function Grosses(lines: seq<Line>): int {
    if lines == [] then 0 else Grosses(lines[..|lines| - 1]) + lines[|lines| - 1].gross
  }

  predicate AddsUp(lines: seq<Line>) {
    forall i :: 0 <= i < |lines| ==> lines[i].net + lines[i].tax == lines[i].gross
  }

  /** Every line adds up, the totals are the sums of the lines, and they add up too. */
  predicate Sound(b: Body) {
    && AddsUp(b.lines)
    && b.net == Nets(b.lines) && b.tax == Taxes(b.lines) && b.gross == Grosses(b.lines)
    && b.net + b.tax == b.gross
  }

  lemma AddedIsSound(b: Body, l: Line)
    requires Sound(b) && l.net + l.tax == l.gross
    ensures Sound(Added(b, l))
  {
    assert (b.lines + [l])[..|b.lines|] == b.lines;
  }

  lemma {:induction false} BuiltIsSound(asked: seq<Asked>)
    ensures Built(asked).Ok? ==> Sound(Built(asked).value) && |Built(asked).value.lines| == |asked|
    ensures Built(asked).Ok? <==> forall i :: 0 <= i < |asked| ==> Checked(asked[i]).Ok?
  {
    hide Sound, Checked;
    if asked == [] {
      assert Sound(NOTHING) by { NothingIsSound(); }
    } else {
      var init, last := asked[..|asked| - 1], asked[|asked| - 1];
      BuiltIsSound(init);
      assert asked == init + [last];
      if Built(init).Ok? && Checked(last).Ok? {
        CheckedAddsUp(last);
        AddedIsSound(Built(init).value, Checked(last).value);
      }
    }
  }

  lemma NothingIsSound()
    ensures Sound(NOTHING)
  {
  }

  lemma CheckedAddsUp(a: Asked)
    requires Checked(a).Ok?
    ensures Checked(a).value.net + Checked(a).value.tax == Checked(a).value.gross
  {
  }

  // ----------------------------------------------------------------------- credit notes

  function CreditLine(l: Line): Line { Line(-l.quantity, l.unitPrice, -l.net, -l.tax, -l.gross, l.rate) }

  function CreditLines(lines: seq<Line>): seq<Line> {
    if lines == [] then [] else CreditLines(lines[..|lines| - 1]) + [CreditLine(lines[|lines| - 1])]
  }

  /** As many given back, at the same price and rate. */
  predicate Reverses(l: Line, c: Line) {
    && c.quantity + l.quantity == 0 && c.unitPrice == l.unitPrice && c.rate == l.rate
    && c.net + l.net == 0 && c.tax + l.tax == 0 && c.gross + l.gross == 0
  }

  lemma {:induction false} CreditLinesAt(lines: seq<Line>)
    ensures |CreditLines(lines)| == |lines|
    ensures forall i :: 0 <= i < |lines| ==> Reverses(lines[i], CreditLines(lines)[i])
  {
    if lines != [] {
      CreditLinesAt(lines[..|lines| - 1]);
    }
  }

  /** The whole of a document, credited. */
  function Credited(b: Body): Body { Body(CreditLines(b.lines), -b.net, -b.tax, -b.gross) }

  method Credit(b: Body) returns (note: Body)
    ensures note == Credited(b)
    ensures |note.lines| == |b.lines| && forall i :: 0 <= i < |b.lines| ==> Reverses(b.lines[i], note.lines[i])
  {
    CreditLinesAt(b.lines);
    var lines: seq<Line> := [];
    for i := 0 to |b.lines|
      invariant lines == CreditLines(b.lines[..i])
    {
      assert b.lines[..i + 1][..i] == b.lines[..i];
      var l := b.lines[i];
      lines := lines + [Line(-l.quantity, l.unitPrice, -l.net, -l.tax, -l.gross, l.rate)];
    }
    assert b.lines[..|b.lines|] == b.lines;
    note := Body(lines, -b.net, -b.tax, -b.gross);
  }

  lemma {:induction false} CreditLinesCancel(lines: seq<Line>)
    ensures Nets(CreditLines(lines)) == -Nets(lines)
    ensures Taxes(CreditLines(lines)) == -Taxes(lines)
    ensures Grosses(CreditLines(lines)) == -Grosses(lines)
    ensures AddsUp(lines) ==> AddsUp(CreditLines(lines))
  {
    if lines != [] {
      var init := lines[..|lines| - 1];
      CreditLinesCancel(init);
      var c := CreditLines(init);
      assert (c + [CreditLine(lines[|lines| - 1])])[..|c|] == c;
    }
  }

  lemma CreditedIsSound(b: Body)
    requires Sound(b)
    ensures Sound(Credited(b))
  {
    CreditLinesCancel(b.lines);
  }

  lemma {:induction false} SumsConcat(x: seq<Line>, y: seq<Line>)
    ensures Nets(x + y) == Nets(x) + Nets(y)
    ensures Taxes(x + y) == Taxes(x) + Taxes(y)
    ensures Grosses(x + y) == Grosses(x) + Grosses(y)
  {
    if y == [] {
      assert x + y == x;
    } else {
      assert (x + y)[..|x + y| - 1] == x + y[..|y| - 1];
      SumsConcat(x, y[..|y| - 1]);
    }
  }

  /** A document and the credit note for the whole of it come to nothing: in the totals
      on their faces and over all their lines together. */
  lemma CreditCancels(b: Body)
    requires Sound(b)
    ensures var n := Credited(b);
            && b.net + n.net == 0 && b.tax + n.tax == 0 && b.gross + n.gross == 0
            && Nets(b.lines + n.lines) == 0 && Taxes(b.lines + n.lines) == 0 && Grosses(b.lines + n.lines) == 0
  {
    CreditLinesCancel(b.lines);
    SumsConcat(b.lines, CreditLines(b.lines));
  }
}
