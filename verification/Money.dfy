/** Pricing of sale lines and the one place a tax figure is rounded.

    Amounts are integers in a currency's minor units. PriceLine is the arithmetic over
    unbounded integers; PriceLine64 is the same arithmetic with every operation wrapped
    to a signed 64-bit word, as the program runs it, and the last section says exactly
    when the two agree, for every price and every rate. */
module Money {
  import opened Common

  const EXPONENT: map<string, nat> := map["HUF" := 0, "BDT" := 2, "EUR" := 2, "USD" := 2, "GBP" := 2]

  const BASIS: int := 10_000
  const MAX_RATE: int := 100_000

  datatype Error = Currency | Mismatch | Quantity | TaxRate | DiscountNegative | DiscountHigh | NoLines

  datatype Line = Line(
    quantity: int,
    unitPrice: int,
    currency: string,
    rate: int,          // basis points: 2700 is 27%
    inclusive: bool,    // is the unit price gross or net?
    discount: int)

  datatype Amounts = Amounts(gross: int, net: int, tax: int, currency: string)

  /** Integer division that truncates toward zero, as the source's language has it. */
  function Quot(a: int, b: int): int
    requires b != 0
  {
    if a >= 0 then a / b else -((-a) / b)
  }

  // Division rounding half away from zero.
  function DivRoundHalfUp(num: int, den: int): int
    requires den != 0
  {
    var neg := (num < 0) != (den < 0);
    var n := if num < 0 then -num else num;
    var d := if den < 0 then -den else den;
    var q := (n + d / 2) / d;
    if neg then -q else q
  }

  // The tests made before any arithmetic, in the program's order.
  function Check(l: Line): (e: Option<Error>)
  {
    if l.currency !in EXPONENT then Some(Currency)
    else if l.quantity <= 0 then Some(Quantity)
    else if l.rate < 0 || l.rate > MAX_RATE then Some(TaxRate)
    else if l.discount < 0 then Some(DiscountNegative)
    else None
  }

  function Price(subject: int, rate: int, inclusive: bool, currency: string): Amounts
    requires 0 <= rate <= MAX_RATE
  {
    if inclusive then
      var net := DivRoundHalfUp(subject * BASIS, BASIS + rate);
      Amounts(subject, net, subject - net, currency)
    else
      var tax := DivRoundHalfUp(subject * rate, BASIS);
      Amounts(subject + tax, subject, tax, currency)
  }

  function PriceLine(l: Line): Result<Amounts, Error>
  {
    var e := Check(l);
    if e.Some? then Err(e.value)
    else
      var base := l.unitPrice * l.quantity;
      if l.discount > base then Err(DiscountHigh)
      else Ok(Price(base - l.discount, l.rate, l.inclusive, l.currency))
  }

  // ---- Rounding: one figure, at most half a minor unit away ----

  // Half-up rounding is nearest: the error is at most half the divisor, and a
  // tie goes up.
  lemma {:induction false} Rounded(num: int, den: int)
    requires num >= 0 && den > 0
    ensures DivRoundHalfUp(num, den) >= 0
    ensures -den < 2 * (DivRoundHalfUp(num, den) * den - num) <= den
  {
    var n := num + den / 2;
    assert n == (n / den) * den + n % den;
  }

  // Nothing else is nearest.
  lemma NearestIsUnique(num: int, den: int, q: int)
    requires num >= 0 && den > 0
    requires -den < 2 * (q * den - num) <= den
    ensures DivRoundHalfUp(num, den) == q
  {
    assert (q + 1) * den == q * den + den;
    QuotientBetween(num + den / 2, den, q, q);
  }

  // Rounding is odd in each argument, so a negative figure rounds away from zero too.
  lemma RoundsAwayFromZero(num: int, den: int)
    requires den > 0
    ensures DivRoundHalfUp(-num, den) == -DivRoundHalfUp(num, den)
    ensures DivRoundHalfUp(num, -den) == -DivRoundHalfUp(num, den)
  {
    if num == 0 {
      assert (0 + den / 2) / den == 0;
    }
  }

  // The tax a line would bear if no figure were ever rounded.
  function ExactTax(l: Line): real
    requires 0 <= l.rate
  {
    var subject := l.unitPrice * l.quantity - l.discount;
    if l.inclusive then (subject * l.rate) as real / (10_000 + l.rate) as real
    else (subject * l.rate) as real / 10_000.0
  }

  lemma QuotientBetween(num: int, den: int, lo: int, hi: int)
    requires den > 0
    requires lo * den <= num < (hi + 1) * den
    ensures lo <= num / den <= hi
  {
    var q := num / den;
    assert num == q * den + num % den;
    assert (q - hi - 1) * den < 0;
    assert (q + 1 - lo) * den > 0;
    SignOfFactor(q - hi - 1, den);
    SignOfFactor(q + 1 - lo, den);
  }

  lemma SignOfFactor(a: int, b: int)
    requires b > 0
    ensures (a * b < 0) == (a < 0) && (a * b > 0) == (a > 0)
  {
  }

  lemma SignOfRealFactor(a: real, b: real)
    requires b > 0.0 && a * b >= 0.0
    ensures a >= 0.0
  {
  }

  lemma RealQuotient(x: int, den: int, t: int)
    requires den > 0
    requires -den <= 2 * (t * den - x) <= den
    ensures -0.5 <= t as real - x as real / den as real <= 0.5
  {
    var d := den as real;
    var q := x as real / d;
    assert q * d == x as real;
    var diff := t as real - q;
    assert diff * d == t as real * d - x as real;
    assert t as real * d == (t * den) as real;
    assert (0.5 - diff) * d == 0.5 * d - diff * d;
    assert (0.5 + diff) * d == 0.5 * d + diff * d;
    SignOfRealFactor(0.5 - diff, d);
    SignOfRealFactor(0.5 + diff, d);
  }

  // Net of a gross figure never exceeds it, and the tax is the other part.
  lemma {:induction false} NetWithinGross(gross: int, rate: int)
    requires gross >= 0 && 0 <= rate
    ensures 0 <= DivRoundHalfUp(gross * BASIS, BASIS + rate) <= gross
  {
    var den := BASIS + rate;
    var num := gross * BASIS + den / 2;
    assert gross * rate >= 0;
    assert (gross + 1) * den == gross * BASIS + gross * rate + den;
    QuotientBetween(num, den, 0, gross);
  }

  lemma PriceBounds(subject: int, rate: int, inclusive: bool, currency: string)
    requires subject >= 0 && 0 <= rate <= MAX_RATE
    ensures var a := Price(subject, rate, inclusive, currency);
            a.gross == a.net + a.tax && 0 <= a.net <= a.gross
  {
    if inclusive {
      NetWithinGross(subject, rate);
    } else {
      assert subject * rate >= 0;
      Rounded(subject * rate, BASIS);
    }
  }

  lemma TaxError(subject: int, rate: int, inclusive: bool, currency: string)
    requires subject >= 0 && 0 <= rate <= MAX_RATE
    ensures var den := if inclusive then BASIS + rate else BASIS;
            -den <= 2 * (Price(subject, rate, inclusive, currency).tax * den - subject * rate) <= den
  {
    hide DivRoundHalfUp;
    if inclusive {
      var den := BASIS + rate;
      var net := Price(subject, rate, inclusive, currency).net;
      Rounded(subject * BASIS, den);
      assert (subject - net) * den == subject * BASIS + subject * rate - net * den;
    } else {
      assert subject * rate >= 0;
      Rounded(subject * rate, BASIS);
    }
  }

  /** Everything a priced line promises: the parts add up, neither is negative, and
      the tax is within half a minor unit of the unrounded figure. */
  lemma PricedLine(l: Line, a: Amounts)
    requires PriceLine(l) == Ok(a)
    ensures a.gross == a.net + a.tax && 0 <= a.net <= a.gross
    ensures a.currency == l.currency && l.currency in EXPONENT
    ensures (if l.inclusive then a.gross else a.net) == l.unitPrice * l.quantity - l.discount
    ensures -0.5 <= a.tax as real - ExactTax(l) <= 0.5
  {
    var subject := l.unitPrice * l.quantity - l.discount;
    PriceBounds(subject, l.rate, l.inclusive, l.currency);
    TaxError(subject, l.rate, l.inclusive, l.currency);
    RealQuotient(subject * l.rate, if l.inclusive then BASIS + l.rate else BASIS, a.tax);
  }

  /** A line is priced exactly when its currency is one of the five, it is of at least one,
      its rate is from nothing to ten times the price, and its discount is not negative and
      no more than it comes to; otherwise the error is the first of these that fails. */
  lemma PricedIff(l: Line)
    ensures
      var known := l.currency in {"HUF", "BDT", "EUR", "USD", "GBP"};
      var some, taxed := l.quantity >= 1, 0 <= l.rate <= 100_000;
      var r := PriceLine(l);
      && (r.Ok? <==> known && some && taxed && 0 <= l.discount <= l.unitPrice * l.quantity)
      && (r.Err? ==> r.error !in {Mismatch, NoLines})
      && (r == Err(Currency) <==> !known)
      && (r == Err(Quantity) <==> known && !some)
      && (r == Err(TaxRate) <==> known && some && !taxed)
      && (r == Err(DiscountNegative) <==> known && some && taxed && l.discount < 0)
  {
    hide Price;
    assert EXPONENT.Keys == {"HUF", "BDT", "EUR", "USD", "GBP"};
  }

  // ---------------------------------------------------------------------- totals

  function Totals(lines: seq<Amounts>, currency: string): Amounts {
    if lines == [] then Amounts(0, 0, 0, currency)
    else
      var t, a := Totals(lines[..|lines| - 1], currency), lines[|lines| - 1];
      Amounts(t.gross + a.gross, t.net + a.net, t.tax + a.tax, currency)
  }

  method Total(lines: seq<Amounts>) returns (r: Result<Amounts, Error>)
    ensures r == Err(NoLines) <==> lines == []
    ensures r == Err(Mismatch) <==> exists i :: 0 <= i < |lines| && lines[i].currency != lines[0].currency
    ensures r.Err? ==> r.error in {NoLines, Mismatch}
    ensures r.Ok? ==> r.value == Totals(lines, lines[0].currency)
  {
    if |lines| == 0 {
      return Err(NoLines);
    }
    var out := Amounts(0, 0, 0, lines[0].currency);
    for i := 0 to |lines|
      invariant forall k :: 0 <= k < i ==> lines[k].currency == lines[0].currency
      invariant out == Totals(lines[..i], lines[0].currency)
    {
      assert lines[..i + 1][..i] == lines[..i];
      if lines[i].currency != out.currency {
        return Err(Mismatch);
      }
      out := Amounts(out.gross + lines[i].gross, out.net + lines[i].net, out.tax + lines[i].tax, out.currency);
    }
    assert lines[..|lines|] == lines;
    return Ok(out);
  }

  function ExactTaxes(lines: seq<Line>): real
    requires forall l :: l in lines ==> 0 <= l.rate
  {
    if lines == [] then 0.0
    else ExactTaxes(lines[..|lines| - 1]) + ExactTax(lines[|lines| - 1])
  }

  predicate Priced(lines: seq<Line>, amounts: seq<Amounts>) {
    |lines| == |amounts| && forall i :: 0 <= i < |lines| ==> PriceLine(lines[i]) == Ok(amounts[i])
  }

  /** A receipt's totals are its lines' totals, and their error grows by at most half
      a minor unit a line. */
  lemma {:induction false} TotalRounding(lines: seq<Line>, amounts: seq<Amounts>, currency: string)
    requires Priced(lines, amounts)
    ensures var t := Totals(amounts, currency);
            && t.gross == t.net + t.tax
            && 0 <= t.net <= t.gross
    ensures forall l :: l in lines ==> 0 <= l.rate
    ensures -(|lines| as real) / 2.0 <= Totals(amounts, currency).tax as real - ExactTaxes(lines) <= |lines| as real / 2.0
  {
    assert forall l :: l in lines ==> exists i :: 0 <= i < |lines| && lines[i] == l;
    if lines != [] {
      var n := |lines| - 1;
      TotalRounding(lines[..n], amounts[..n], currency);
      PricedLine(lines[n], amounts[n]);
    }
  }

  // ----------------------------------------------------------------- round trips

  /** The gross of a net amount, and the net of a gross one. */
  function GrossOf(net: int, rate: int): int
    requires 0 <= rate <= MAX_RATE
  {
    Price(net, rate, false, "").gross
  }

  function NetOf(gross: int, rate: int): int
    requires 0 <= rate <= MAX_RATE
  {
    Price(gross, rate, true, "").net
  }

  /** How far the rounding of the tax moves a gross from its net at the full rate. */
  lemma GrossError(net: int, rate: int)
    requires net >= 0 && 0 <= rate <= MAX_RATE
    ensures -BASIS / 2 < GrossOf(net, rate) * BASIS - net * (BASIS + rate) <= BASIS / 2
    ensures rate == 0 || net == 0 ==> GrossOf(net, rate) == net
    ensures GrossOf(net, rate) >= net
  {
    var x := net * rate;
    assert x >= 0;
    Rounded(x, BASIS);
    assert net * (BASIS + rate) == net * BASIS + x;
    if rate == 0 || net == 0 {
      assert x == 0;
    }
  }

  lemma NetOfGross(net: int, rate: int)
    requires net >= 0 && 0 <= rate <= MAX_RATE
    ensures NetOf(GrossOf(net, rate), rate) == net
  {
    GrossError(net, rate);
    assert rate == 0 ==> net * (BASIS + rate) == net * BASIS;
    NearestIsUnique(GrossOf(net, rate) * BASIS, BASIS + rate, net);
  }

  /** Pricing a line exclusive of tax and then its gross inclusive of tax, at the
      same rate, gives back the very same figures: for every line and every rate. */
  lemma ExclusiveThenInclusive(l: Line, a: Amounts)
    requires PriceLine(l) == Ok(a) && !l.inclusive
    ensures PriceLine(Line(1, a.gross, l.currency, l.rate, true, 0)) == Ok(a)
  {
    PricedLine(l, a);
    NetOfGross(a.net, l.rate);
  }

  /** The other way round the gross may drift, by at most one minor unit for every
      started 200% of tax. */
  lemma InclusiveThenExclusive(gross: int, rate: int)
    requires gross >= 0 && 0 <= rate <= MAX_RATE
    ensures -1 - rate / 20_000 <= GrossOf(NetOf(gross, rate), rate) - gross <= 1 + rate / 20_000
  {
    hide DivRoundHalfUp;
    var den := BASIS + rate;
    var net := NetOf(gross, rate);
    Rounded(gross * BASIS, den);
    GrossError(net, rate);
  }

  /** The drift bound is reached. */
  lemma DriftIsReached()
    ensures GrossOf(NetOf(2, 2_700), 2_700) == 2 + 1 + 2_700 / 20_000
    ensures GrossOf(NetOf(2, 30_000), 30_000) == 2 + 1 + 30_000 / 20_000
  {
    assert (2 * 10_000 + 12_700 / 2) / 12_700 == 2;
    assert (2 * 2_700 + 5_000) / 10_000 == 1;
    assert (2 * 10_000 + 40_000 / 2) / 40_000 == 1;
    assert (1 * 30_000 + 5_000) / 10_000 == 3;
  }

  predicate GrossOfSome(gross: int, rate: int, net: int)
    requires 0 <= rate <= MAX_RATE
  {
    net >= 0 && GrossOf(net, rate) == gross
  }

  /** A gross survives the trip exactly when some net amount grosses up to it. */
  lemma NoDriftIff(gross: int, rate: int)
    requires gross >= 0 && 0 <= rate <= MAX_RATE
    ensures GrossOf(NetOf(gross, rate), rate) == gross <==> exists net :: GrossOfSome(gross, rate, net)
  {
    NetWithinGross(gross, rate);
    if GrossOf(NetOf(gross, rate), rate) == gross {
      assert GrossOfSome(gross, rate, NetOf(gross, rate));
    }
    forall net | GrossOfSome(gross, rate, net)
      ensures GrossOf(NetOf(gross, rate), rate) == gross
    {
      NetOfGross(net, rate);
    }
  }

  /** And which prices those are, from the price and the rate alone: the ones within half
      the basis, one way or the other, of a whole number of net units. */
  lemma NoDriftExactly(gross: int, rate: int)
    requires gross >= 0 && 0 <= rate <= MAX_RATE
    ensures GrossOf(NetOf(gross, rate), rate) == gross <==>
              var r := gross * BASIS % (BASIS + rate); r <= BASIS / 2 || BASIS + rate - r < BASIS / 2
  {
    hide DivRoundHalfUp;
    var den := BASIS + rate;
    var num, net := gross * BASIS, NetOf(gross, rate);
    NetWithinGross(gross, rate);
    NearestParts(num, den);
    GrossError(net, rate);
    GrossIs(net, rate, gross);
  }

  // The nearest quotient goes down or up to a multiple, by the remainder.
  lemma NearestParts(num: int, den: int)
    requires num >= 0 && den > 0
    ensures var q, r := DivRoundHalfUp(num, den), num % den;
            num - q * den == if r + den / 2 < den then r else r - den
  {
    var q, r := num / den, num % den;
    assert num == q * den + r;
    assert (q + 1) * den == q * den + den;
    if r + den / 2 < den {
      QuotientBetween(num + den / 2, den, q, q);
    } else {
      assert (q + 2) * den == q * den + den + den;
      QuotientBetween(num + den / 2, den, q + 1, q + 1);
    }
  }

  // A gross is the one a net prices to when it is that near the full rate.
  lemma GrossIs(net: int, rate: int, gross: int)
    requires net >= 0 && 0 <= rate <= MAX_RATE
    ensures GrossOf(net, rate) == gross <==> -BASIS / 2 < gross * BASIS - net * (BASIS + rate) <= BASIS / 2
  {
    hide DivRoundHalfUp;
    GrossError(net, rate);
  }

  // ---------------------------------------------------------------- 64-bit words

  const HALF64: int := 0x8000_0000_0000_0000
  const MAX64: int := HALF64 - 1

  function Wrap(x: int): int { (x + HALF64) % (2 * HALF64) - HALF64 }

  predicate Word(x: int) { -HALF64 <= x <= MAX64 }

  /** DivRoundHalfUp as 64-bit words compute it, for a positive divisor. */
  function Div64(num: int, den: int): int
    requires Word(num) && 0 < den
  {
    var n := if num < 0 then Wrap(-num) else num;
    var q := Quot(Wrap(n + den / 2), den);
    if num < 0 then Wrap(-q) else q
  }

  function Price64(subject: int, rate: int, inclusive: bool, currency: string): Amounts
    requires 0 <= rate <= MAX_RATE
  {
    if inclusive then
      var net := Div64(Wrap(subject * BASIS), BASIS + rate);
      Amounts(subject, net, Wrap(subject - net), currency)
    else
      var tax := Div64(Wrap(subject * rate), BASIS);
      Amounts(Wrap(subject + tax), subject, tax, currency)
  }

  function PriceLine64(l: Line): Result<Amounts, Error>
  {
    var e := Check(l);
    if e.Some? then Err(e.value)
    else
      var base := Wrap(l.unitPrice * l.quantity);
      if l.discount > base then Err(DiscountHigh)
      else Ok(Price64(Wrap(base - l.discount), l.rate, l.inclusive, l.currency))
  }

  /** Every figure formed in pricing a subject amount is a 64-bit word. */
  predicate Fits(subject: int, rate: int, inclusive: bool)
    requires 0 <= rate <= MAX_RATE
  {
    if inclusive then subject * BASIS + (BASIS + rate) / 2 <= MAX64
    else subject * rate + BASIS / 2 <= MAX64 && GrossOf(subject, rate) <= MAX64
  }

  lemma WrapIsIdentity(x: int)
    ensures Word(Wrap(x)) && (Wrap(x) == x <==> Word(x))
  {
  }

  lemma Div64Agrees(num: int, den: int)
    requires 0 <= num && 0 < den && num + den / 2 <= MAX64
    ensures Wrap(num) == num && Div64(num, den) == DivRoundHalfUp(num, den)
  {
    WrapIsIdentity(num);
    WrapIsIdentity(num + den / 2);
  }

  // A true quotient that needed more than 63 bits is large and positive.
  lemma QuotientExceeds(num: int, den: int, k: int)
    requires 0 <= num && 0 < den && (k + 1) * den <= num + den / 2
    ensures DivRoundHalfUp(num, den) > k
  {
    var n := num + den / 2;
    assert n == (n / den) * den + n % den;
    assert (n / den - k) * den > 0;
    SignOfFactor(n / den - k, den);
  }

  lemma WrapOnce(x: int)
    requires -3 * HALF64 <= x < 3 * HALF64
    ensures Wrap(x) == if x > MAX64 then x - 2 * HALF64 else if x < -HALF64 then x + 2 * HALF64 else x
  {
  }

  lemma QuotientBelow(m: int, den: int)
    requires 0 <= m && 2 <= den
    ensures 0 <= m / den && (m / den) * den <= m && 2 * (m / den) <= m
  {
    var q, r := m / den, m % den;
    assert m == q * den + r;
    SignOfFactor(q + 1, den);
    assert (q + 1) * den == q * den + den;
    assert q * (den - 2) == q * den - 2 * q;
    assert q >= 0;
    assert q * (den - 2) >= 0;
  }

  lemma QuotBounds(a: int, den: int)
    requires 2 <= den
    ensures a >= 0 ==> 0 <= Quot(a, den) && Quot(a, den) * den <= a && 2 * Quot(a, den) <= a
    ensures a < 0 ==> 0 <= -Quot(a, den) && -Quot(a, den) * den <= -a && -2 * Quot(a, den) <= -a
  {
    QuotientBelow(if a >= 0 then a else -a, den);
  }

  // When a word quotient is positive, what it is the quotient of.
  lemma WordQuotient(w: int, den: int)
    requires Word(w) && 2 <= den <= BASIS + MAX_RATE && Div64(w, den) > 0
    ensures w >= 0 ==> w + den / 2 <= MAX64 && Div64(w, den) * den <= w + den / 2
    ensures w < 0 ==> w <= den / 2 - HALF64 && Div64(w, den) * den <= 2 * HALF64 + w - den / 2
  {
    hide Wrap, Quot;
    var h := den / 2;
    var n := if w < 0 then Wrap(-w) else w;
    WrapOnce(-w);
    WrapOnce(n + h);
    var s := Wrap(n + h);
    QuotBounds(s, den);
    WrapOnce(-Quot(s, den));
  }

  /** The numerators just past a word that wrap, are negated, wrap again in the rounding
      and come out a whole quotient: only an odd divisor has any. */
  predicate Cancels(num: int, den: int)
    requires den > 0
  {
    den % 2 == 1 && HALF64 <= num <= HALF64 + den / 2 && (num - den / 2) % den == 0
  }

  lemma QuotientInBand(num: int, den: int)
    requires 2 <= den <= BASIS + MAX_RATE && HALF64 <= num <= HALF64 + den / 2
    ensures Div64(Wrap(num), den) == (num - den / 2) / den
  {
    hide Wrap;
    var h := den / 2;
    WrapOnce(num);
    WrapOnce(2 * HALF64 - num);
    WrapOnce(Wrap(2 * HALF64 - num) + h);
    QuotientBelow(num - h, den);
    WrapOnce((num - h) / den);
  }

  lemma QuotientOutOfBand(num: int, den: int)
    requires 0 <= num && 2 <= den <= BASIS + MAX_RATE && num + den / 2 > MAX64
    requires !(HALF64 <= num <= HALF64 + den / 2)
    ensures Div64(Wrap(num), den) != DivRoundHalfUp(num, den)
  {
    hide DivRoundHalfUp, Div64;
    var w, q := Wrap(num), Div64(Wrap(num), den);
    WrapIsIdentity(num);
    QuotientExceeds(num, den, 0);
    if 0 < q {
      WordQuotient(w, den);
      assert (q + 1) * den == q * den + den;
      QuotientExceeds(num, den, q);
    }
  }

  lemma HalfUpInBand(num: int, den: int)
    requires 0 <= num - den / 2 && 2 <= den
    ensures DivRoundHalfUp(num, den) == (num - den / 2) / den <==> den % 2 == 1 && (num - den / 2) % den == 0
  {
    var x, h := num - den / 2, den / 2;
    var q, r := x / den, x % den;
    assert x == q * den + r;
    if den % 2 == 1 && r == 0 {
      assert (q + 1) * den == q * den + den;
      QuotientBetween(num + h, den, q, q);
    } else {
      assert (q + 1) * den == q * den + den;
      QuotientExceeds(num, den, q);
    }
  }

  /** Past the word size a quotient is right by accident exactly where it cancels. */
  lemma OverflowShows(num: int, den: int)
    requires 0 <= num && 2 <= den <= BASIS + MAX_RATE && num + den / 2 > MAX64
    ensures Div64(Wrap(num), den) == DivRoundHalfUp(num, den) <==> Cancels(num, den)
  {
    hide DivRoundHalfUp, Div64, Wrap;
    if HALF64 <= num <= HALF64 + den / 2 {
      QuotientInBand(num, den);
      HalfUpInBand(num, den);
    } else {
      QuotientOutOfBand(num, den);
    }
  }

  /** For a line whose fields fit their types, the program's words give the unbounded
      answer exactly when the line total is a word and, unless the line is refused, every
      figure in its pricing is or the overflow cancels. A negative total is refused, and
      wrapped it has to be refused too. */
  lemma WordsAgreeIff(l: Line)
    requires Check(l).None? && l.discount <= MAX64
    ensures var base := l.unitPrice * l.quantity;
            PriceLine64(l) == PriceLine(l) <==>
              if base < 0 then Wrap(base) < l.discount
              else base <= MAX64 && (l.discount <= base ==> Comes(base - l.discount, l.rate, l.inclusive))
  {
    hide Price, Price64, Wrap, Comes;
    var base := l.unitPrice * l.quantity;
    WrapIsIdentity(base);
    if base > MAX64 {
      OverflowingLine(l, base);
    } else if 0 <= base && l.discount <= base {
      WrapIsIdentity(base - l.discount);
      PriceComesIff(base - l.discount, l.rate, l.inclusive, l.currency);
    }
  }

  /** The pricing of a subject amount comes out right in words. */
  predicate Comes(subject: int, rate: int, inclusive: bool)
    requires 0 <= rate <= MAX_RATE
  {
    Fits(subject, rate, inclusive) || (inclusive && Cancels(subject * BASIS, BASIS + rate))
  }

  lemma PriceComesIff(subject: int, rate: int, inclusive: bool, currency: string)
    requires 0 <= subject <= MAX64 && 0 <= rate <= MAX_RATE
    ensures Price64(subject, rate, inclusive, currency) == Price(subject, rate, inclusive, currency) <==> Comes(subject, rate, inclusive)
  {
    if Fits(subject, rate, inclusive) {
      hide Price, Price64, Fits, Cancels;
      PriceAgrees(subject, rate, inclusive, currency);
    } else if inclusive {
      hide Wrap, DivRoundHalfUp, Div64, Cancels;
      NetWithinGross(subject, rate);
      OverflowShows(subject * BASIS, BASIS + rate);
      WrapIsIdentity(subject - DivRoundHalfUp(subject * BASIS, BASIS + rate));
    } else {
      hide Price, Price64, Fits, Cancels;
      ExclusiveDiffers(subject, rate, currency);
    }
  }

  /** When every figure fits, the words are right: at every rate, even or odd. */
  lemma PriceAgrees(subject: int, rate: int, inclusive: bool, currency: string)
    requires 0 <= subject <= MAX64 && 0 <= rate <= MAX_RATE
    requires Fits(subject, rate, inclusive)
    ensures Price64(subject, rate, inclusive, currency) == Price(subject, rate, inclusive, currency)
  {
    hide Wrap, DivRoundHalfUp, Div64;
    PriceBounds(subject, rate, inclusive, currency);
    if inclusive {
      Div64Agrees(subject * BASIS, BASIS + rate);
      WrapIsIdentity(subject - DivRoundHalfUp(subject * BASIS, BASIS + rate));
    } else {
      assert subject * rate >= 0;
      Div64Agrees(subject * rate, BASIS);
      WrapIsIdentity(subject + DivRoundHalfUp(subject * rate, BASIS));
    }
  }

  lemma ExclusiveDiffers(subject: int, rate: int, currency: string)
    requires 0 <= subject <= MAX64 && 0 <= rate <= MAX_RATE
    requires !Fits(subject, rate, false)
    ensures Price64(subject, rate, false, currency) != Price(subject, rate, false, currency)
  {
    hide Wrap, DivRoundHalfUp, Div64;
    var num := subject * rate;
    assert num >= 0;
    WrapIsIdentity(num);
    if num + BASIS / 2 > MAX64 {
      OverflowShows(num, BASIS);
    } else {
      WrapIsIdentity(subject + Div64(Wrap(num), BASIS));
    }
  }

  lemma OverflowingLine(l: Line, base: int)
    requires Check(l).None? && base == l.unitPrice * l.quantity && MAX64 < base && l.discount <= MAX64
    ensures PriceLine64(l) != PriceLine(l)
  {
    hide DivRoundHalfUp, Div64;
    WrapIsIdentity(base);
    var b := Wrap(base);
    assert b < base;
    if l.discount <= b {
      WrapIsIdentity(b - l.discount);
    }
  }

  lemma ProductBound(a: int, b: int, c: int)
    requires 0 <= a && 0 <= b <= c
    ensures 0 <= a * b <= a * c
  {
    assert a * (c - b) == a * c - a * b;
  }

  lemma SmallFits(subject: int, rate: int, inclusive: bool)
    requires 0 <= subject <= 92_233_720_368_547 && 0 <= rate <= MAX_RATE
    ensures Fits(subject, rate, inclusive)
  {
    hide DivRoundHalfUp;
    ProductBound(subject, rate, MAX_RATE);
    Rounded(subject * rate, BASIS);
  }

  /** A bound a caller can check once for every rate: line totals up to
      92 233 720 368 547 minor units. */
  lemma WordsAgreeUpTo(l: Line)
    requires -HALF64 <= l.unitPrice * l.quantity <= 92_233_720_368_547
    ensures PriceLine64(l) == PriceLine(l)
  {
    var base := l.unitPrice * l.quantity;
    hide Fits, Price, Price64, Wrap;
    WrapIsIdentity(base);
    if Check(l).None? && l.discount <= base {
      var subject := base - l.discount;
      WrapIsIdentity(subject);
      SmallFits(subject, l.rate, l.inclusive);
      PriceAgrees(subject, l.rate, l.inclusive, l.currency);
    }
  }

  /** The bound is the largest one: one minor unit more, at the highest rate, comes
      out wrong. */
  lemma WordsDisagreeBeyond()
    ensures var l := Line(1, 92_233_720_368_548, "HUF", MAX_RATE, false, 0);
            PriceLine64(l) != PriceLine(l)
  {
    var l := Line(1, 92_233_720_368_548, "HUF", MAX_RATE, false, 0);
    WordsAgreeIff(l);
  }

  /** At an odd rate a gross price can overflow and still come out right. */
  lemma OddRateCoincidence()
    ensures !Fits(922337203685478, 87_247, true)
    ensures Price64(922337203685478, 87_247, true, "HUF") == Price(922337203685478, 87_247, true, "HUF")
  {
    var num, den := 922337203685478 * BASIS, BASIS + 87_247;
    assert (num + den / 2) / den == 94844797647791;
    assert Wrap(num) == num - 2 * HALF64;
  }
}
