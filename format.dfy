/** The dashboard's formatting helpers (script.js, `formatPrice`,
    `formatLargeNumber`, `formatPercentage`, `getChangeClass`). Each is
    modelled by the branch it takes and the number it hands to the digit
    formatter; the digit strings produced by `toFixed` and `toLocaleString`
    are not modelled. */
module Format {
  import opened Assets

  /** The CSS class a percentage change is drawn with. */
  datatype ChangeClass = Positive | Negative | Neutral

  /** `getChangeClass`: the sign of a change, three ways. */
  function GetChangeClass(percentage: real): (c: ChangeClass)
    ensures c == Positive <==> percentage > 0.0
    ensures c == Negative <==> percentage < 0.0
    ensures c == Neutral <==> percentage == 0.0
  {
    if percentage > 0.0 then Positive
    else if percentage < 0.0 then Negative
    else Neutral
  }

  /** The suffix `formatLargeNumber` appends. */
  datatype Suffix = Trillion | Billion | Million | Unscaled

  const MILLION: real := 1000000.0
  const BILLION: real := 1000000000.0
  const TRILLION: real := 1000000000000.0

  /** The divisor that goes with each suffix. */
  function Scale(s: Suffix): real
  {
    match s
    case Trillion => TRILLION
    case Billion => BILLION
    case Million => MILLION
    case Unscaled => 1.0
  }

  /** Position of a suffix in the order of magnitudes, smallest first. */
  function Magnitude(s: Suffix): nat
  {
    match s
    case Unscaled => 0
    case Million => 1
    case Billion => 2
    case Trillion => 3
  }

  /** The threshold chain of `formatLargeNumber`: the first test that passes
      picks the suffix. */
  function LargeNumberBand(num: real): (s: Suffix)
    ensures s == Trillion <==> num >= TRILLION
    ensures s == Billion <==> BILLION <= num < TRILLION
    ensures s == Million <==> MILLION <= num < BILLION
    ensures s == Unscaled <==> num < MILLION
  {
    if num >= TRILLION then Trillion
    else if num >= BILLION then Billion
    else if num >= MILLION then Million
    else Unscaled
  }

  /** A larger number never gets a smaller suffix. */
  lemma LargeNumberBandMonotone(a: real, b: real)
    requires a <= b
    ensures Magnitude(LargeNumberBand(a)) <= Magnitude(LargeNumberBand(b))
  {
  }

  /** What `formatLargeNumber` hands to the digit formatter: the quotient
      `value`, followed by `suffix`. The quotient goes through `toFixed(2)`
      when a suffix is chosen and through `toLocaleString` when it is not;
      the rounding of `toFixed` is not modelled, so a quotient just below
      1000 (999999999999 gives 999.999999999 with B) prints as `1000.00`. */
  datatype LargeNumber = LargeNumber(value: real, suffix: Suffix)

  /** `formatLargeNumber`: divide by the chosen band's scale. The quotient
      times the suffix's scale is the input again, and a suffixed quotient is
      at least 1 (below 1000 for B and M, before `toFixed(2)` rounds it). */
  function FormatLargeNumber(num: real): (r: LargeNumber)
    ensures r.suffix == LargeNumberBand(num)
    ensures r.value * Scale(r.suffix) == num
    ensures r.suffix != Unscaled ==> 1.0 <= r.value
    ensures r.suffix == Billion || r.suffix == Million ==> r.value < 1000.0
  {
    var s := LargeNumberBand(num);
    LargeNumber(num / Scale(s), s)
  }

  /** The two branches of `formatPrice`. */
  datatype PriceStyle =
    | Grouped2   // `toLocaleString('en-US')` with exactly two fraction digits
    | Fixed6     // `toFixed(6)`

  datatype Price = Price(value: real, style: PriceStyle)

  /** `formatPrice`: prices of one unit or more are grouped with two
      decimals, smaller ones (including zero and negatives) get six. */
  function FormatPrice(price: real): (r: Price)
    ensures r.value == price
    ensures r.style == Grouped2 <==> price >= 1.0
    ensures r.style == Fixed6 <==> price < 1.0
  {
    if price >= 1.0 then Price(price, Grouped2) else Price(price, Fixed6)
  }

  /** What `formatPercentage` prints: the literal `N/A`, or the value with
      two decimals and a `%`, preceded by `+` when `plus` holds. */
  datatype Percentage = NotAvailable | Signed(plus: bool, value: real)

  /** `formatPercentage`: `N/A` for a null or absent value; otherwise an
      explicit `+` for zero and positive values (a negative value carries the
      `-` that `toFixed` prints). */
  function FormatPercentage(percentage: Option<real>): (r: Percentage)
    ensures r.NotAvailable? <==> percentage.None?
    ensures percentage.Some? ==> r.value == percentage.value && (r.plus <==> percentage.value >= 0.0)
  {
    match percentage
    case None => NotAvailable
    case Some(p) => Signed(p >= 0.0, p)
  }

  /** The `+` sign and the colour class agree: a shown `+` is never drawn
      negative, and a missing `+` is always drawn negative. */
  lemma SignMatchesClass(p: real)
    ensures FormatPercentage(Some(p)).plus <==> GetChangeClass(p) != Negative
  {
  }
}
