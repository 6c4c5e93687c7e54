/** Integer micro-USD money (src/metering/money.ts), over the reals the dollar amounts stand for. */
module Money {
  import opened Wrappers
  import opened Pricing
  import opened Decimal

  const MICROS_PER_USD: int := 1_000_000
  const MAX_POOL_MICROS: int := 1_000_000 * MICROS_PER_USD
  const EPSILON: real := 0.000000001

  datatype MoneyError = NotAnInteger | OutOfRange

  /** `assertMicros` accepts the value. */
  predicate InRange(micros: int) {
    -MAX_POOL_MICROS <= micros <= MAX_POOL_MICROS
  }

  function AssertMicros(micros: int): Result<int, MoneyError> {
    if InRange(micros) then Ok(micros) else Err(OutOfRange)
  }

  function Ceil(x: real): int {
    -((-x).Floor)
  }

  function UsdToMicrosCeil(usd: real): Result<int, MoneyError> {
    AssertMicros(Ceil(usd * MICROS_PER_USD as real - EPSILON))
  }

  function MicrosToUsd(micros: int): Result<real, MoneyError> {
    if InRange(micros) then Ok(micros as real / MICROS_PER_USD as real) else Err(OutOfRange)
  }

  /** The micro-USD amount `moneyUsd` keeps of a dollar value: six decimals, never negative. */
  function MoneyUsdMicros(usd: real): int {
    Round((if usd < 0.0 then 0.0 else usd) * MICROS_PER_USD as real)
  }

  /** `moneyUsd` (src/metering/billing.ts). */
  function MoneyUsd(usd: real): real {
    MoneyUsdMicros(usd) as real / MICROS_PER_USD as real
  }

  /**
   * The conversion gives less than a micro too much; it gives too little exactly
   * when what exceeds a whole micro is positive and within the epsilon that absorbs
   * binary representation error.
   */
  lemma CeilRoundsUpOutsideEpsilon(usd: real)
    ensures var exact, micros := usd * MICROS_PER_USD as real, UsdToMicrosCeil(usd);
      micros.Ok? ==>
        && micros.value as real < exact + 1.0
        && (micros.value as real < exact <==> 0.0 < exact - exact.Floor as real <= 0.000000001)
  {
    var exact := usd * MICROS_PER_USD as real;
    var y := exact - EPSILON;
    assert (-y).Floor as real <= -y < (-y).Floor as real + 1.0;
    assert exact.Floor as real <= exact < exact.Floor as real + 1.0;
    if exact - exact.Floor as real <= EPSILON {
      assert Ceil(y) == exact.Floor;
    } else {
      assert Ceil(y) == exact.Floor + 1;
    }
  }

  /** Converting micro-USD to dollars and back changes nothing: the ceiling does not round. */
  lemma MicrosRoundTrip(micros: int)
    requires InRange(micros)
    ensures MicrosToUsd(micros).Ok? && UsdToMicrosCeil(MicrosToUsd(micros).value) == Ok(micros)
  {
    var usd := micros as real / MICROS_PER_USD as real;
    assert usd * MICROS_PER_USD as real == micros as real;
    assert (-(micros as real - EPSILON)).Floor == -micros;
  }

  /**
   * An amount that went through `moneyUsd` has whole micros, so charging or
   * holding it in the pool takes exactly that many and never a micro more.
   */
  lemma SettledAmountsConvertExactly(usd: real)
    requires InRange(MoneyUsdMicros(usd))
    ensures UsdToMicrosCeil(MoneyUsd(usd)) == Ok(MoneyUsdMicros(usd)) && MoneyUsdMicros(usd) >= 0
  {
    MicrosRoundTrip(MoneyUsdMicros(usd));
    RoundMonotone(0.0, (if usd < 0.0 then 0.0 else usd) * MICROS_PER_USD as real);
  }

  // ----- Integers as the database driver returns them

  function PrintInt(n: int): string {
    if n < 0 then "-" + PrintNat(-n) else PrintNat(n)
  }

  /** `readMicros` on a trimmed string column. */
  function ReadMicros(s: string): Result<int, MoneyError> {
    var negative := s != "" && s[0] == '-';
    var digits := if negative then s[1..] else s;
    if digits == "" || !AllDigits(digits) then Err(NotAnInteger)
    else
      var n: int := ParseNat(digits);
      AssertMicros(if negative then -n else n)
  }

  /** Every amount in range survives the trip through its text column. */
  lemma ReadPrintRoundTrip(micros: int)
    ensures ReadMicros(PrintInt(micros)) == AssertMicros(micros)
  {
    var digits := PrintNat(if micros < 0 then -micros else micros);
    ParsePrintNat(if micros < 0 then -micros else micros);
    assert IsDigit(digits[0]);
    if micros < 0 {
      assert ("-" + digits)[1..] == digits;
    }
  }

  /** A column is read exactly when it is decimal digits, perhaps after one minus, and at most 10^12 in size. */
  lemma ReadMicrosMeans(s: string, digits: string)
    requires s == digits || s == "-" + digits
    requires digits != "" && digits[0] != '-'
    ensures ReadMicros(s).Ok? <==> AllDigits(digits) && ParseNat(digits) <= 1_000_000_000_000
    ensures ReadMicros(s).Ok? ==>
              var n: int := ParseNat(digits); ReadMicros(s).value == if s == digits then n else -n
    ensures ReadMicros(s) == Err(NotAnInteger) <==> !AllDigits(digits)
  {
    assert s != digits ==> s[1..] == digits && s[0] == '-';
  }

  /** Without digits, or with a second minus, nothing is read. */
  lemma NothingElseIsRead(s: string)
    requires s == "" || s == "-" || (|s| > 1 && s[0] == s[1] == '-')
    ensures ReadMicros(s) == Err(NotAnInteger)
  {
    if |s| > 1 {
      assert !IsDigit(s[1..][0]);
    }
  }

  /** The amount kept of a dollar value is the nearest whole micro, a negative value counting as none. */
  lemma MoneyUsdIsNearest(usd: real)
    ensures var exact := if usd < 0.0 then 0.0 else usd * 1_000_000.0;
      -0.5 <= MoneyUsdMicros(usd) as real - exact <= 0.5
    ensures MoneyUsd(usd) * 1_000_000.0 == MoneyUsdMicros(usd) as real
  {
    RoundIsNearest(if usd < 0.0 then 0.0 else usd * 1_000_000.0);
  }
}
