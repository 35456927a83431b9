/** Foreign-exchange conversion over one rate table, with floating point idealised to reals. */
module Fx {
  import opened Sums
  import opened Text

  datatype Currency = USD | BHD | SAR | AED | KWD | OMR | QAR | JOD | EUR | GBP | CNY

  function ParseCurrency(code: string): Option<Currency> {
    match code
    case "USD" => Some(USD)
    case "BHD" => Some(BHD)
    case "SAR" => Some(SAR)
    case "AED" => Some(AED)
    case "KWD" => Some(KWD)
    case "OMR" => Some(OMR)
    case "QAR" => Some(QAR)
    case "JOD" => Some(JOD)
    case "EUR" => Some(EUR)
    case "GBP" => Some(GBP)
    case "CNY" => Some(CNY)
    case _ => None
  }

  /** Minor units in one major unit: three decimals for the dinars and the rial, two otherwise. */
  function MinorPerMajor(c: Currency): real {
    match c
    case BHD | KWD | OMR | JOD => 1000.0
    case _ => 100.0
  }

  function Peg(c: Currency): real {
    match c
    case USD => 1.0
    case BHD => 0.376
    case SAR => 3.75
    case AED => 3.6725
    case KWD => 0.3072
    case OMR => 0.3845
    case QAR => 3.64
    case JOD => 0.709
    case EUR => 0.92
    case GBP => 0.79
    case CNY => 7.2
  }

  /** A feed answer: it may miss currencies or carry non-positive numbers. */
  datatype RateTable = RateTable(perUsd: map<Currency, real>, live: bool)

  /** The live rate where the feed has a usable one, the peg otherwise: never absent, never zero. */
  function PerUsd(table: RateTable, c: Currency): (v: real)
    ensures v > 0.0
  {
    if table.live && c in table.perUsd && table.perUsd[c] > 0.0 then table.perUsd[c] else Peg(c)
  }

  /** Units of `to` per unit of `from`. */
  function Rate(table: RateTable, from: Currency, to: Currency): real {
    if from == to then 1.0 else PerUsd(table, to) / PerUsd(table, from)
  }

  /** `Math.round`: halves go up. */
  function Round(x: real): int {
    (x + 0.5).Floor
  }

  function Times(x: int, k: real): real {
    x as real * k
  }

  /** An amount times a rate, rounded to whole minor units. */
  function Scaled(x: int, k: real): int {
    Round(Times(x, k))
  }

  function Convert(table: RateTable, minor: int, from: Currency, to: Currency): int {
    var fromMajor := minor as real / MinorPerMajor(from);
    Round(fromMajor * Rate(table, from, to) * MinorPerMajor(to))
  }

  /** Minor units of `to` per minor unit of `from`. */
  function MinorRate(table: RateTable, from: Currency, to: Currency): real {
    Rate(table, from, to) * MinorPerMajor(to) / MinorPerMajor(from)
  }

  // ----- arithmetic on positive reals -----

  lemma ScaleMonotone(x: real, y: real, k: real)
    requires x <= y && k > 0.0
    ensures x * k <= y * k
  {
    assert (y - x) * k >= 0.0;
  }

  lemma QuotientPositive(y: real, x: real)
    requires x > 0.0 && y > 0.0
    ensures y / x > 0.0
  {
  }

  lemma CancelQuotients(x: real, y: real, z: real)
    requires x > 0.0 && y > 0.0 && z > 0.0
    ensures (y / x) * (z / y) == z / x
  {
    var p, q := y / x, z / y;
    assert p * x == y && q * y == z;
    assert (p * q) * x == z;
  }

  lemma ScaledReciprocals(r: real, s: real, m: real, n: real)
    requires r > 0.0 && r * s == 1.0 && m > 0.0 && n > 0.0
    ensures r * n / m > 0.0
    ensures (r * n / m) * (s * m / n) == 1.0
  {
    var p, q := r * n / m, s * m / n;
    assert p * m == r * n && q * n == s * m;
    assert (p * q) * (m * n) == (p * m) * (q * n) == (r * n) * (s * m) == (r * s) * (m * n) == m * n;
    UnitFactor(p * q, m * n);
    QuotientPositive(r * n, m);
  }

  lemma UnitFactor(u: real, v: real)
    requires v > 0.0 && u * v == v
    ensures u == 1.0
  {
    assert (u - 1.0) * v == 0.0;
  }

  lemma RegroupProduct(x: real, r: real, m: real, n: real)
    requires m > 0.0
    ensures (x / m) * r * n == x * (r * n / m)
  {
    var d, e := x / m, r * n / m;
    assert d * m == x && e * m == r * n;
    assert (d * r * n) * m == x * (r * n) == (x * e) * m;
    SameMultiple(d * r * n, x * e, m);
  }

  lemma SameMultiple(u: real, v: real, m: real)
    requires m > 0.0 && u * m == v * m
    ensures u == v
  {
    assert (u - v) * m == 0.0;
  }

  lemma InverseRate(k: real, l: real)
    requires k > 0.0 && k * l == 1.0
    ensures 0.5 * l == 0.5 / k && l > 0.0
  {
    var q := 0.5 / k;
    assert q * k == 0.5;
    assert (0.5 * l) * k == 0.5 * (k * l);
    SameMultiple(0.5 * l, q, k);
  }

  lemma UndoScale(x: real, there: real, k: real, l: real)
    requires l > 0.0 && k * l == 1.0
    requires x * k - 0.5 <= there <= x * k + 0.5
    ensures x - 0.5 * l <= there * l <= x + 0.5 * l
  {
    var xk := x * k;
    assert xk * l == x * (k * l) == x;
    ScaleMonotone(xk - 0.5, there, l);
    ScaleMonotone(there, xk + 0.5, l);
    assert (xk - 0.5) * l == xk * l - 0.5 * l;
    assert (xk + 0.5) * l == xk * l + 0.5 * l;
  }

  lemma RoundNearest(x: real)
    ensures x - 0.5 < Round(x) as real <= x + 0.5
  {
  }

  lemma RoundMonotone(x: real, y: real)
    requires x <= y
    ensures Round(x) <= Round(y)
  {
  }

  /** Rounding `x * k` and then rounding that amount times `1/k`. */
  lemma RoundTripGap(x: int, there: int, back: int, k: real, l: real)
    requires k > 0.0 && k * l == 1.0
    requires there == Scaled(x, k) && back == Scaled(there, l)
    ensures -(0.5 + 0.5 / k) <= (back - x) as real <= 0.5 + 0.5 / k
  {
    RoundNearest(x as real * k);
    RoundNearest(there as real * l);
    InverseRate(k, l);
    UndoScale(x as real, there as real, k, l);
  }

  lemma ScaledByOne(x: int)
    ensures Scaled(x, 1.0) == x
  {
    assert x as real * 1.0 == x as real;
  }

  lemma GapBelowOne(k: real)
    requires k > 1.0
    ensures 0.5 / k < 0.5
  {
    var q := 0.5 / k;
    assert q * k == 0.5;
    if q >= 0.5 {
      ScaleMonotone(0.5, q, k);
    }
  }

  lemma KeepsUp(x: int, k: real)
    requires Times(x, 1.0 - k) <= 0.5
    ensures Scaled(x, k) >= x
  {
    assert x as real * k == x as real - x as real * (1.0 - k);
  }

  lemma FallsBehind(y: int, k: real)
    requires Times(y, 1.0 - k) > 0.5
    ensures Scaled(y, k) <= y - 1
  {
    assert y as real * k == y as real - y as real * (1.0 - k);
  }

  lemma ScaledMonotone(x: int, y: int, k: real)
    requires x <= y && k > 0.0
    ensures Scaled(x, k) <= Scaled(y, k)
  {
    ScaleMonotone(x as real, y as real, k);
    RoundMonotone(x as real * k, y as real * k);
  }

  lemma HalfOver(g: real) returns (q: real)
    requires g > 0.0
    ensures q * g == 0.5
  {
    q := 0.5 / g;
  }

  lemma TimesAtMost(x: int, q: real, g: real)
    requires x as real <= q && g > 0.0 && q * g == 0.5
    ensures Times(x, g) <= 0.5
  {
    ScaleMonotone(x as real, q, g);
  }

  lemma TimesAbove(y: int, q: real, g: real)
    requires q < y as real && g > 0.0 && q * g == 0.5
    ensures 0.5 < Times(y, g)
  {
    StrictlyScaled(q, y as real, g);
  }

  lemma Below(q: real) returns (x: int)
    ensures x as real <= q < (x + 1) as real
  {
    x := q.Floor;
  }

  /** The first whole multiple of `g` above one half. */
  lemma FirstAboveHalf(g: real) returns (x: int, y: int)
    requires g > 0.0
    ensures y == x + 1 && Times(x, g) <= 0.5 < Times(y, g)
  {
    hide Times;
    var q := HalfOver(g);
    x := Below(q);
    y := x + 1;
    TimesAtMost(x, q, g);
    TimesAbove(y, q, g);
  }

  /** Below one unit per unit, two amounts are rounded to the same one: `y` is the first whole
      amount whose converted value has fallen more than a half behind it, and `x` the one before. */
  lemma CoarserRateMerges(k: real) returns (x: int, y: int)
    requires 0.0 < k < 1.0
    ensures x != y && Scaled(x, k) == Scaled(y, k)
  {
    x, y := FirstAboveHalf(1.0 - k);
    KeepsUp(x, k);
    FallsBehind(y, k);
    ScaledMonotone(x, y, k);
  }

  lemma StrictlyScaled(x: real, y: real, k: real)
    requires x < y && k > 0.0
    ensures x * k < y * k
  {
    assert (y - x) * k > 0.0;
  }

  // ----- rates and conversions -----

  /** Whatever the feed holds, rates are positive. */
  lemma RatePositive(table: RateTable, a: Currency, b: Currency)
    ensures Rate(table, a, b) > 0.0
  {
    QuotientPositive(PerUsd(table, b), PerUsd(table, a));
  }

  /** Rates are transitive across a third currency; with `c == a`, mutually reciprocal. */
  lemma RatesCompose(table: RateTable, a: Currency, b: Currency, c: Currency)
    ensures Rate(table, a, b) * Rate(table, b, c) == Rate(table, a, c)
  {
    RateIsQuotient(table, a, b);
    RateIsQuotient(table, b, c);
    RateIsQuotient(table, a, c);
    QuotientsCompose(PerUsd(table, a), PerUsd(table, b), PerUsd(table, c),
                     Rate(table, a, b), Rate(table, b, c), Rate(table, a, c));
  }

  lemma QuotientsCompose(x: real, y: real, z: real, xy: real, yz: real, xz: real)
    requires x > 0.0 && y > 0.0 && z > 0.0
    requires xy == y / x && yz == z / y && xz == z / x
    ensures xy * yz == xz
  {
    CancelQuotients(x, y, z);
  }

  lemma RateIsQuotient(table: RateTable, a: Currency, b: Currency)
    ensures Rate(table, a, b) == PerUsd(table, b) / PerUsd(table, a)
  {
    assert PerUsd(table, a) / PerUsd(table, a) == 1.0;
  }

  lemma MinorRatesAreReciprocal(table: RateTable, a: Currency, b: Currency)
    ensures MinorRate(table, a, b) > 0.0
    ensures MinorRate(table, a, b) * MinorRate(table, b, a) == 1.0
  {
    RatePositive(table, a, b);
    RatesCompose(table, a, b, a);
    RatesReciprocalScaled(Rate(table, a, b), Rate(table, b, a), MinorPerMajor(a), MinorPerMajor(b),
                          MinorRate(table, a, b), MinorRate(table, b, a));
  }

  lemma RatesReciprocalScaled(r: real, s: real, m: real, n: real, k: real, l: real)
    requires r > 0.0 && r * s == 1.0 && m > 0.0 && n > 0.0
    requires k == r * n / m && l == s * m / n
    ensures k > 0.0 && k * l == 1.0
  {
    ScaledReciprocals(r, s, m, n);
  }

  lemma ConvertIsRoundedProduct(table: RateTable, minor: int, a: Currency, b: Currency)
    ensures Convert(table, minor, a, b) == Scaled(minor, MinorRate(table, a, b))
  {
    RegroupProduct(minor as real, Rate(table, a, b), MinorPerMajor(a), MinorPerMajor(b));
  }

  /** A larger amount never converts to less. */
  lemma ConvertMonotone(table: RateTable, x: int, y: int, a: Currency, b: Currency)
    requires x <= y
    ensures Convert(table, x, a, b) <= Convert(table, y, a, b)
  {
    ConvertIsRoundedProduct(table, x, a, b);
    ConvertIsRoundedProduct(table, y, a, b);
    MinorRatesAreReciprocal(table, a, b);
    ScaledMonotone(x, y, MinorRate(table, a, b));
  }

  function ThereAndBack(table: RateTable, x: int, a: Currency, b: Currency): int {
    Convert(table, Convert(table, x, a, b), b, a)
  }

  /** Converting and converting back moves an amount by at most 1/2 + 1/(2k) minor units. */
  lemma RoundTripError(table: RateTable, x: int, a: Currency, b: Currency)
    ensures var k := MinorRate(table, a, b);
            var gap := (ThereAndBack(table, x, a, b) - x) as real;
            k > 0.0 && -(0.5 + 0.5 / k) <= gap <= 0.5 + 0.5 / k
  {
    MinorRatesAreReciprocal(table, a, b);
    var there := Convert(table, x, a, b);
    ConvertIsRoundedProduct(table, x, a, b);
    ConvertIsRoundedProduct(table, there, b, a);
    RoundTripGap(x, there, Convert(table, there, b, a), MinorRate(table, a, b), MinorRate(table, b, a));
  }

  /** The way back recovers every amount exactly when one minor unit of `a` is worth at least one of `b`. */
  lemma LosslessExactlyWhenFiner(table: RateTable, a: Currency, b: Currency)
    ensures (forall x :: ThereAndBack(table, x, a, b) == x) <==> MinorRate(table, a, b) >= 1.0
  {
    MinorRatesAreReciprocal(table, a, b);
    if MinorRate(table, a, b) >= 1.0 {
      forall x
        ensures ThereAndBack(table, x, a, b) == x
      {
        LosslessWhenFiner(table, x, a, b);
      }
    } else {
      var x, y := CoarserConversionMerges(table, a, b);
      assert ThereAndBack(table, x, a, b) == ThereAndBack(table, y, a, b);
    }
  }

  lemma CoarserConversionMerges(table: RateTable, a: Currency, b: Currency) returns (x: int, y: int)
    requires MinorRate(table, a, b) < 1.0
    ensures x != y && Convert(table, x, a, b) == Convert(table, y, a, b)
  {
    MinorRatesAreReciprocal(table, a, b);
    var k := MinorRate(table, a, b);
    x, y := CoarserRateMerges(k);
    ConvertIsRoundedProduct(table, x, a, b);
    ConvertIsRoundedProduct(table, y, a, b);
  }

  lemma LosslessWhenFiner(table: RateTable, x: int, a: Currency, b: Currency)
    requires MinorRate(table, a, b) >= 1.0
    ensures ThereAndBack(table, x, a, b) == x
  {
    MinorRatesAreReciprocal(table, a, b);
    var there := Convert(table, x, a, b);
    ConvertIsRoundedProduct(table, x, a, b);
    ConvertIsRoundedProduct(table, there, b, a);
    NoGapWhenFiner(x, there, Convert(table, there, b, a), MinorRate(table, a, b), MinorRate(table, b, a));
  }

  lemma NoGapWhenFiner(x: int, there: int, back: int, k: real, l: real)
    requires k >= 1.0 && k * l == 1.0
    requires there == Scaled(x, k) && back == Scaled(there, l)
    ensures back == x
  {
    if k > 1.0 {
      RoundTripGap(x, there, back, k, l);
      GapBelowOne(k);
    } else {
      assert k == 1.0 && l == 1.0;
      ScaledByOne(x);
    }
  }

  // ----- the settlement amount of a transfer -----

  /** A wire with a send currency settles at the converted amount, anything else at the US-dollar amount;
      `None` is the refusal of an unsupported currency. */
  function ResolveSettlement(
    table: RateTable, isWireOut: bool, amountCents: int, sendCurrency: string, sendMinor: Option<int>
  ): Option<int> {
    if isWireOut && sendCurrency != "" && sendMinor.Some? then
      match ParseCurrency(Upper(sendCurrency))
      case None => None
      case Some(c) => Some(Convert(table, sendMinor.value, c, USD))
    else Some(amountCents)
  }

  /** A wire sent in dollars, in any spelling of their code, settles at exactly the amount sent. */
  lemma DollarWiresSettleAtFace(table: RateTable, amountCents: int, code: string, sent: int)
    requires Upper(code) == "USD"
    ensures ResolveSettlement(table, true, amountCents, code, Some(sent)) == Some(sent)
  {
    ConvertIsRoundedProduct(table, sent, USD, USD);
    assert MinorRate(table, USD, USD) == 1.0;
    ScaledByOne(sent);
  }

  ghost function CodeOf(c: Currency): string {
    match c
    case USD => "USD"
    case BHD => "BHD"
    case SAR => "SAR"
    case AED => "AED"
    case KWD => "KWD"
    case OMR => "OMR"
    case QAR => "QAR"
    case JOD => "JOD"
    case EUR => "EUR"
    case GBP => "GBP"
    case CNY => "CNY"
  }

  lemma ParsesExactly(code: string, c: Currency)
    ensures ParseCurrency(code) == Some(c) <==> code == CodeOf(c)
  {
  }

  /** Units of `c` for a dollar: the feed's number when it is live and positive, the peg otherwise. */
  ghost predicate DollarBuys(table: RateTable, c: Currency, p: real) {
    if table.live && c in table.perUsd && table.perUsd[c] > 0.0 then p == table.perUsd[c] else p == Peg(c)
  }

  /** `cents` is within half a cent of `sent` minor units of `c`, at the rates `p` of `c` and `u` of the dollar. */
  ghost predicate NearRate(cents: int, sent: int, c: Currency, p: real, u: real) {
    var unit := p * MinorPerMajor(c);
    -unit <= 2.0 * (cents as real * unit - sent as real * (u * 100.0)) <= unit
  }

  /** The rate of a minor unit, without its quotients. */
  lemma MinorRateTimes(k: real, rate: real, m: real, p: real, u: real)
    requires m > 0.0 && p > 0.0 && rate == u / p && k == rate * 100.0 / m
    ensures k * (p * m) == u * 100.0
  {
    assert k * m == rate * 100.0 && rate * p == u;
    assert k * (p * m) == (k * m) * p == (rate * 100.0) * p == (rate * p) * 100.0;
  }

  lemma WithinHalf(x: int, n: int, k: real, unit: real, total: real)
    requires n == Scaled(x, k) && unit > 0.0 && k * unit == total
    ensures -unit <= 2.0 * (n as real * unit - x as real * total) <= unit
  {
    var gap := n as real - x as real * k;
    RoundNearest(x as real * k);
    ScaleMonotone(-0.5, gap, unit);
    ScaleMonotone(gap, 0.5, unit);
    assert n as real * unit == (x as real * k + gap) * unit == x as real * (k * unit) + gap * unit;
  }

  lemma HasMinorUnits(c: Currency, p: real)
    requires p > 0.0
    ensures MinorPerMajor(c) > 0.0 && p * MinorPerMajor(c) > 0.0
  {
  }

  lemma ConvertIsNear(table: RateTable, sent: int, c: Currency)
    requires c != USD
    ensures NearRate(Convert(table, sent, c, USD), sent, c, PerUsd(table, c), PerUsd(table, USD))
  {
    hide Convert, Scaled, MinorPerMajor, PerUsd, Peg, Rate, MinorRate;
    RateIsQuotient(table, c, USD);
    MinorRateIs(table, c);
    var k, p, u, m := MinorRate(table, c, USD), PerUsd(table, c), PerUsd(table, USD), MinorPerMajor(c);
    ConvertIsRoundedProduct(table, sent, c, USD);
    HasMinorUnits(c, p);
    MinorRateTimes(k, Rate(table, c, USD), m, p, u);
    WithinHalf(sent, Convert(table, sent, c, USD), k, p * m, u * 100.0);
  }

  lemma MinorRateIs(table: RateTable, c: Currency)
    ensures MinorRate(table, c, USD) == Rate(table, c, USD) * 100.0 / MinorPerMajor(c)
  {
  }

  /** What a transfer settles at. Without a wire's currency and amount: the dollars asked for. With them: nothing for a
      currency the service does not know, the amount itself for dollars, and otherwise within half a cent of the rate. */
  lemma SettlesAtTheRate(table: RateTable, isWireOut: bool, amountCents: int, code: string, sent: Option<int>)
    ensures var r := ResolveSettlement(table, isWireOut, amountCents, code, sent);
            if !isWireOut || code == "" || sent.None? then r == Some(amountCents)
            else if forall c :: Upper(code) != CodeOf(c) then r == None
            else if Upper(code) == "USD" then r == sent
            else
              r.Some? && exists c, p, u ::
                && Upper(code) == CodeOf(c) && DollarBuys(table, c, p) && DollarBuys(table, USD, u)
                && NearRate(r.value, sent.value, c, p, u)
  {
    hide Convert, NearRate;
    if isWireOut && code != "" && sent.Some? {
      var parsed := ParseCurrency(Upper(code));
      forall c
        ensures parsed == Some(c) <==> Upper(code) == CodeOf(c)
      {
        ParsesExactly(Upper(code), c);
      }
      if Upper(code) == "USD" {
        DollarWiresSettleAtFace(table, amountCents, code, sent.value);
      } else if parsed.Some? {
        ConvertIsNear(table, sent.value, parsed.value);
      }
    }
  }

  const PEGS := RateTable(map[], false)

  /** A hundred thousand minor units of each currency in cents, at the pegs. */
  lemma PegAnswers()
    ensures Convert(PEGS, 100_000, BHD, USD) == 26_596
    ensures Convert(PEGS, 100_000, SAR, USD) == 26_667
    ensures Convert(PEGS, 100_000, AED, USD) == 27_229
    ensures Convert(PEGS, 100_000, KWD, USD) == 32_552
    ensures Convert(PEGS, 100_000, OMR, USD) == 26_008
    ensures Convert(PEGS, 100_000, QAR, USD) == 27_473
    ensures Convert(PEGS, 100_000, JOD, USD) == 14_104
    ensures Convert(PEGS, 100_000, EUR, USD) == 108_696
    ensures Convert(PEGS, 100_000, GBP, USD) == 126_582
    ensures Convert(PEGS, 100_000, CNY, USD) == 13_889
  {
  }
}
