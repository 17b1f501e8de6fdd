/** Currency conversion through a table of rates against the US dollar, and
    the currency entries shown in the currency picker. */
module Currency {
  import opened Wrappers
  import opened Numerics

  /** The rates the table starts with, each the value of one unit of the
      currency in US dollars. */
  const SeedRates: map<string, real> :=
    map["USD" := 1.0, "EUR" := 1.13, "GBP" := 1.33, "EGP" := 0.020]

  /** `amount.multiply(fromRate).divide(toRate, 2, HALF_UP)`: the amount
      carried over at the ratio of the two dollar rates, to the nearest cent. */
  function ConvertAt(amount: real, fromRate: real, toRate: real): (r: real)
    requires toRate != 0.0
    ensures IsCents(r)
    ensures -0.005 <= r - Scaled(amount, fromRate, toRate) <= 0.005
  {
    RoundCentsIsCents(Scaled(amount, fromRate, toRate));
    RoundCentsError(Scaled(amount, fromRate, toRate));
    RoundCents(Scaled(amount, fromRate, toRate))
  }

  /** The exact amount before rounding. */
  function Scaled(amount: real, fromRate: real, toRate: real): real
    requires toRate != 0.0
  {
    amount * fromRate / toRate
  }

  /** The rate table. The source keeps it in one static map; here it is the
      state of one object that the callers share. */
  class CurrencyConversion {
    var rates: map<string, real>

    constructor ()
      ensures rates == SeedRates
    {
      rates := SeedRates;
    }

    /** Adds a rate, or replaces the rate already stored for the code. No
        check is made on the rate. */
    method AddConversionRate(fromCode: string, rate: real)
      modifies this
      ensures rates == old(rates)[fromCode := rate]
    {
      rates := rates[fromCode := rate];
    }

    /** `convert` against this table. */
    function Convert(fromCode: string, toCode: string, amount: real): (r: Result<real, Exception>)
      reads this
      ensures r == Err(IllegalArgument) <==> fromCode !in rates || toCode !in rates
      ensures r == Err(Arithmetic) <==> fromCode in rates && toCode in rates && rates[toCode] == 0.0
      ensures r.Ok? ==> r.value == ConvertAt(amount, rates[fromCode], rates[toCode])
      ensures r.Ok? ==> -0.005 <= r.value - Scaled(amount, rates[fromCode], rates[toCode]) <= 0.005
    {
      ConvertWith(rates, fromCode, toCode, amount)
    }
  }

  /** Conversion between two codes of a rate table. An unknown code on
      either side is an IllegalArgumentException; a zero target rate makes
      BigDecimal.divide throw an ArithmeticException. */
  function ConvertWith(rates: map<string, real>, fromCode: string, toCode: string, amount: real): (r: Result<real, Exception>)
    ensures r == Err(IllegalArgument) <==> fromCode !in rates || toCode !in rates
    ensures r == Err(Arithmetic) <==> fromCode in rates && toCode in rates && rates[toCode] == 0.0
    ensures r.Ok? <==> fromCode in rates && toCode in rates && rates[toCode] != 0.0
    ensures r.Ok? ==> r.value == ConvertAt(amount, rates[fromCode], rates[toCode])
  {
    if fromCode !in rates || toCode !in rates then Err(IllegalArgument)
    else if rates[toCode] == 0.0 then Err(Arithmetic)
    else Ok(ConvertAt(amount, rates[fromCode], rates[toCode]))
  }

  /** A converted amount that falls exactly on a half cent is rounded to
      the cent further from zero: 0.125 comes out as 0.13, never 0.12. */
  lemma ConvertAtTie(amount: real, fromRate: real, toRate: real, n: nat)
    requires toRate != 0.0
    requires Scaled(amount, fromRate, toRate) == (n as real + 0.5) / 100.0
    ensures ConvertAt(amount, fromRate, toRate) == (n + 1) as real / 100.0
    ensures n == 12 ==> ConvertAt(amount, fromRate, toRate) == 0.13
  {
    RoundCentsTie(n);
  }

  /** At equal rates the amount is only rounded to cents. */
  lemma ConvertAtSameRate(amount: real, rate: real)
    requires rate != 0.0
    ensures ConvertAt(amount, rate, rate) == RoundCents(amount)
  {
    assert Scaled(amount, rate, rate) == amount;
  }

  /** Converting into the same currency rounds to cents, and so gives an
      amount in whole cents back unchanged. */
  lemma ConvertSameCurrency(rates: map<string, real>, code: string, amount: real)
    requires code in rates && rates[code] != 0.0
    ensures ConvertWith(rates, code, code, amount) == Ok(RoundCents(amount))
    ensures IsCents(amount) ==> ConvertWith(rates, code, code, amount) == Ok(amount)
  {
    ConvertAtSameRate(amount, rates[code]);
    if IsCents(amount) {
      RoundCentsExact(amount);
    }
  }

  lemma ScaleByRate(a1: real, a2: real, rf: real, rt: real)
    requires a1 <= a2 && rf > 0.0 && rt > 0.0
    ensures a1 * rf / rt <= a2 * rf / rt
  {
    MulMonotonic(a1, a2, rf);
    DivMonotonic(a1 * rf, a2 * rf, rt);
  }

  /** With positive rates a larger amount never converts to a smaller one. */
  lemma ConvertAtMonotonic(a1: real, a2: real, fromRate: real, toRate: real)
    requires fromRate > 0.0 && toRate > 0.0
    requires a1 <= a2
    ensures ConvertAt(a1, fromRate, toRate) <= ConvertAt(a2, fromRate, toRate)
  {
    ScaleByRate(a1, a2, fromRate, toRate);
    RoundCentsMonotonic(Scaled(a1, fromRate, toRate), Scaled(a2, fromRate, toRate));
  }

  lemma RescaleError(y: real, a: real, ra: real, rb: real, e: real)
    requires ra > 0.0 && rb > 0.0 && e >= 0.0
    requires -e <= y - a * ra / rb <= e
    ensures -(e * (rb / ra)) <= y * rb / ra - a <= e * (rb / ra)
  {
    assert y * rb / ra - a == (y - a * ra / rb) * (rb / ra);
    assert rb / ra > 0.0;
    MulMonotonic(-e, y - a * ra / rb, rb / ra);
    MulMonotonic(y - a * ra / rb, e, rb / ra);
  }

  lemma AddErrors(u: real, v: real, w: real, e1: real, e2: real)
    requires -e1 <= u - v <= e1 && -e2 <= v - w <= e2
    ensures -(e1 + e2) <= u - w <= e1 + e2
  {
  }

  lemma RoundTripBound(amount: real, ra: real, rb: real, there: real, back: real)
    requires ra > 0.0 && rb > 0.0
    requires -0.005 <= there - Scaled(amount, ra, rb) <= 0.005
    requires -0.005 <= back - Scaled(there, rb, ra) <= 0.005
    ensures -0.005 * (1.0 + rb / ra) <= back - amount <= 0.005 * (1.0 + rb / ra)
  {
    RescaleError(there, amount, ra, rb, 0.005);
    AddErrors(back, there * rb / ra, amount, 0.005, 0.005 * (rb / ra));
  }

  /** Converting there and back loses at most half a cent on each leg, the
      first leg's loss being scaled by the ratio of the two rates. */
  lemma ConvertAtRoundTrip(amount: real, ra: real, rb: real)
    requires ra > 0.0 && rb > 0.0
    ensures var back := ConvertAt(ConvertAt(amount, ra, rb), rb, ra);
            -0.005 * (1.0 + rb / ra) <= back - amount <= 0.005 * (1.0 + rb / ra)
  {
    var there := ConvertAt(amount, ra, rb);
    var back := ConvertAt(there, rb, ra);
    RoundTripBound(amount, ra, rb, there, back);
  }

  /** The seeded table: a thousand euros are 1130 dollars, ten dollars are
      500 Egyptian pounds, and a code the table lacks is refused. */
  lemma SeededConversions()
    ensures ConvertWith(SeedRates, "EUR", "USD", 1000.0) == Ok(1130.0)
    ensures ConvertWith(SeedRates, "USD", "EGP", 10.0) == Ok(500.0)
    ensures ConvertWith(SeedRates, "USD", "JPY", 5.0) == Err(IllegalArgument)
  {
    assert SeedRates["EUR"] == 1.13 && SeedRates["USD"] == 1.0 && SeedRates["EGP"] == 0.020;
    FloorOfInt(113000);
    FloorOfInt(50000);
    assert 1000.0 * 1.13 / 1.0 == 1130.0;
    assert 10.0 * 1.0 / 0.020 == 500.0;
    RoundCentsExact(1130.0);
    RoundCentsExact(500.0);
  }

  /** One entry of the currency picker. */
  datatype CurrencyItem = CurrencyItem(code: string, name: string, symbol: string)
  {
    /** `code - name (symbol)`. */
    function DisplayName(): (r: string)
      ensures |r| == |code| + |name| + |symbol| + 6
      ensures r[..|code|] == code && r[|code|..|code| + 3] == " - "
      ensures r[|code| + 3..|code| + 3 + |name|] == name
      ensures r[|code| + 3 + |name|..|code| + 5 + |name|] == " ("
      ensures r[|r| - |symbol| - 1..] == symbol + ")"
    {
      code + " - " + name + " (" + symbol + ")"
    }
  }

  /** Entries with the same name and symbol are told apart by their display
      names exactly when their codes differ. */
  lemma DisplayNameSeparatesCodes(x: CurrencyItem, y: CurrencyItem)
    requires x.name == y.name && x.symbol == y.symbol
    ensures x.DisplayName() == y.DisplayName() <==> x.code == y.code
  {
    if x.DisplayName() == y.DisplayName() {
      var tail := " - " + x.name + " (" + x.symbol + ")";
      assert x.DisplayName() == x.code + tail;
      assert y.DisplayName() == y.code + tail;
      assert |x.code| == |y.code|;
      assert x.code == x.DisplayName()[..|x.code|];
    }
  }
}
