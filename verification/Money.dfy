/** Money of pkg/money/money.go, with Go's wrapping int64 and truncating division written out. */
module Money {
  import opened Wrappers
  import opened Decimal

  const MAX: int := 0x7FFF_FFFF_FFFF_FFFF
  const MIN: int := -MAX - 1
  const WIDTH: int := 0x1_0000_0000_0000_0000

  const CENTS_PER_UNIT: int := 100
  const PERCENT_BASE: int := 10000

  predicate Fits(x: int) {
    MIN <= x <= MAX
  }

  type Int64 = x: int | Fits(x) witness 0

  // What an int64 operation leaves of a true result.
  function Wrap(x: int): (r: Int64)
    ensures (r - x) % WIDTH == 0
  {
    (x - MIN) % WIDTH + MIN
  }

  lemma WrapFits(x: int)
    ensures Fits(x) <==> Wrap(x) == x
  {
  }

  // Go's / and %.
  function Quot(a: int, b: int): int
    requires b != 0
  {
    if a >= 0 then a / b else -(-a / b)
  }

  function Rem(a: int, b: int): int
    requires b != 0
  {
    a - b * Quot(a, b)
  }

  // Truncating division is division of magnitudes, with the sign of the product.
  lemma QuotRounds(a: int, b: int)
    requires b != 0
    ensures var r := a - b * Quot(a, b); -Abs(b) < r < Abs(b) && (r == 0 || (r > 0) == (a > 0)) && r == Rem(a, b)
  {
  }

  function Abs(x: int): int {
    if x < 0 then -x else x
  }

  datatype Money = Money(amount: Int64, currency: string)

  datatype MoneyError = CurrencyMismatch | MoneyOverflow

  datatype Rounding = Floor | HalfUp

  // What an operation should give: the true result if an int64 can hold it.
  function Exact(x: int, currency: string): Result<Money, MoneyError> {
    if Fits(x) then Ok(Money(x, currency)) else Err(MoneyOverflow)
  }

  /** Overflow is read off the wrapped sum, and is reported exactly when the true sum does not fit. */
  function Add(m: Money, other: Money): (r: Result<Money, MoneyError>)
    ensures r == if m.currency != other.currency then Err(CurrencyMismatch) else Exact(m.amount + other.amount, m.currency)
  {
    if m.currency != other.currency then Err(CurrencyMismatch)
    else
      var sum := Wrap(m.amount + other.amount);
      if (other.amount > 0 && sum < m.amount) || (other.amount < 0 && sum > m.amount) then Err(MoneyOverflow)
      else Ok(Money(sum, m.currency))
  }

  function Subtract(m: Money, other: Money): (r: Result<Money, MoneyError>)
    ensures r == if m.currency != other.currency then Err(CurrencyMismatch) else Exact(m.amount - other.amount, m.currency)
  {
    if m.currency != other.currency then Err(CurrencyMismatch)
    else
      var diff := Wrap(m.amount - other.amount);
      if (other.amount < 0 && diff < m.amount) || (other.amount > 0 && diff > m.amount) then Err(MoneyOverflow)
      else Ok(Money(diff, m.currency))
  }

  // Whether the guards of Multiply let the product through.
  predicate ProductPasses(a: int, factor: int)
    requires factor != 0
  {
    if factor > 0 then !(a > Quot(MAX, factor) || a < Quot(MIN, factor))
    else !(a < Quot(MAX, factor) || a > Quot(MIN, factor))
  }

  // -1 is left out: MIN / -1 does not fit, and Multiply deals with -1 before its guards.
  lemma ProductPassesExactly(a: int, factor: int)
    requires factor != 0 && factor != -1
    ensures ProductPasses(a, factor) <==> Fits(a * factor)
  {
    if factor > 0 {
      AtMost(a, factor, MAX);
      AtMost(-a, factor, -MIN);
      Negations(a, factor);
    } else {
      AtMost(-a, -factor, MAX);
      AtMost(a, -factor, -MIN);
      Negations(a, factor);
      QuotNegated(MAX, factor);
      QuotNegated(MIN, factor);
    }
  }

  lemma Negations(a: int, b: int)
    ensures -a * b == -(a * b) && a * -b == -(a * b) && -a * -b == a * b
  {
  }

  lemma AtMost(a: int, f: int, bound: nat)
    requires f > 0
    ensures a <= bound / f <==> a * f <= bound
  {
    var q := bound / f;
    assert q * f <= bound < (q + 1) * f;
    if a <= q {
      assert a * f <= q * f;
    } else {
      assert a * f >= (q + 1) * f;
    }
  }

  lemma QuotNegated(a: int, f: int)
    requires f < 0
    ensures Quot(a, f) == -Quot(a, -f)
  {
  }

  function Multiply(m: Money, factor: Int64): Result<Money, MoneyError> {
    var amount: int, f: int := m.amount, factor;
    if amount == 0 || f == 0 then Ok(Money(0, m.currency))
    else if f == -1 then
      if amount == MIN then Err(MoneyOverflow) else Ok(Money(Wrap(-amount), m.currency))
    else if amount == -1 then
      if f == MIN then Err(MoneyOverflow) else Ok(Money(Wrap(-f), m.currency))
    else if !ProductPasses(amount, f) then Err(MoneyOverflow)
    else Ok(Money(Wrap(amount * f), m.currency))
  }

  /** The special cases and the two division guards report an overflow exactly when the true product does not fit. */
  lemma MultiplyExact(m: Money, factor: Int64)
    ensures Multiply(m, factor) == Exact(m.amount * factor, m.currency)
  {
    hide Wrap, ProductPasses;
    var amount: int, f: int := m.amount, factor;
    if amount == 0 || f == 0 {
      assert amount * f == 0;
    } else if f == -1 {
      WrapFits(-amount);
      assert amount * f == -amount;
    } else if amount == -1 {
      WrapFits(-f);
      assert m.amount * factor == -f;
      assert Fits(f);
      assert Fits(-f) <==> f != MIN;
    } else {
      ProductPassesExactly(amount, f);
      WrapFits(amount * f);
    }
  }

  // ---- Percentages ----

  // PercentOf checks no overflow: every step wraps.
  function PercentOf(m: Money, pct: Int64, rounding: Rounding): (r: Money)
    ensures r.currency == m.currency
  {
    match rounding
    case HalfUp => Money(Wrap(Quot(Wrap(Wrap(m.amount * pct) + PERCENT_BASE / 2), PERCENT_BASE)), m.currency)
    case Floor => Money(Wrap(Quot(Wrap(m.amount * pct), PERCENT_BASE)), m.currency)
  }

  /** The rounded-down percentage is the true one, in the same currency, exactly when the intermediate product fits an int64. */
  lemma PercentExact(m: Money, pct: Int64)
    ensures PercentOf(m, pct, Floor).amount == Quot(m.amount * pct, 10_000) <==> Fits(m.amount * pct)
    ensures PercentOf(m, pct, Floor).currency == PercentOf(m, pct, HalfUp).currency == m.currency
  {
    var x := m.amount * pct;
    var w := Wrap(x);
    QuotNear(x);
    QuotNear(w);
    WrapFits(x);
    assert Fits(Quot(w, PERCENT_BASE));
    if w != x {
      // They differ by at least WIDTH, far more than PERCENT_BASE.
      Apart(w, x);
    }
  }

  lemma QuotNear(x: int)
    ensures -PERCENT_BASE < x - PERCENT_BASE * Quot(x, PERCENT_BASE) < PERCENT_BASE
    ensures Fits(x) ==> Fits(Quot(x, PERCENT_BASE))
  {
    QuotRounds(x, PERCENT_BASE);
  }

  lemma Apart(w: int, x: int)
    requires (w - x) % WIDTH == 0 && w != x
    ensures w - x >= WIDTH || x - w >= WIDTH
  {
  }

  // Division to the nearest whole number, ties away from zero.
  function Nearest(x: int): (r: int)
    ensures 2 * Abs(PERCENT_BASE * r - x) <= PERCENT_BASE
    ensures 2 * Abs(PERCENT_BASE * r - x) == PERCENT_BASE ==> PERCENT_BASE * Abs(r) > Abs(x)
  {
    if x >= 0 then (x + PERCENT_BASE / 2) / PERCENT_BASE else -((-x + PERCENT_BASE / 2) / PERCENT_BASE)
  }

  /**
   Rounding half up gives the nearest cent, ties away from zero, exactly when the
   true value is above minus half a cent and neither step wraps: adding half before
   a division that truncates toward zero is wrong for every value further down.
   */
  lemma HalfUpExact(m: Money, pct: Int64)
    ensures PercentOf(m, pct, HalfUp).amount == Nearest(m.amount * pct) <==>
      m.amount * pct > -PERCENT_BASE / 2 && Fits(m.amount * pct + PERCENT_BASE / 2)
  {
    hide Wrap, Quot, Nearest;
    var x := m.amount * pct;
    var half := PERCENT_BASE / 2;
    WrapSum(x, half);
    QuotFits(Wrap(x + half));
    WrapFits(Quot(Wrap(x + half), PERCENT_BASE));
    WrapFits(x + half);
    if Fits(x + half) {
      HalfUpNearest(x);
    } else {
      FarFromNearest(x, Wrap(x + half));
    }
  }

  lemma WrapSum(x: int, y: int)
    ensures Wrap(Wrap(x) + y) == Wrap(x + y)
  {
  }

  lemma QuotFits(w: Int64)
    ensures Fits(Quot(w, PERCENT_BASE))
  {
    QuotNear(w);
  }

  // A sum that wrapped is too far away to round to the same.
  lemma FarFromNearest(x: int, w: int)
    requires w == Wrap(x + PERCENT_BASE / 2) && w != x + PERCENT_BASE / 2
    ensures Quot(w, PERCENT_BASE) != Nearest(x)
  {
    Apart(w, x + PERCENT_BASE / 2);
    QuotNear(w);
    hide Quot, Wrap, Nearest;
    assert 2 * Abs(PERCENT_BASE * Nearest(x) - x) <= PERCENT_BASE;
  }

  lemma HalfUpNearest(x: int)
    ensures Quot(x + PERCENT_BASE / 2, PERCENT_BASE) == Nearest(x) <==> x > -PERCENT_BASE / 2
  {
  }

  /**
   A share and its complement lose at most one cent between them, and none
   exactly when the share is a whole number of cents.
   */
  lemma SharesSum(m: Money, p: Int64)
    requires 0 <= p <= PERCENT_BASE && Fits(m.amount * p) && Fits(m.amount * (PERCENT_BASE - p))
    ensures PercentOf(m, p, Floor).amount + PercentOf(m, PERCENT_BASE - p, Floor).amount ==
      if (m.amount * p) % PERCENT_BASE == 0 then m.amount else if m.amount > 0 then m.amount - 1 else m.amount + 1
  {
    hide PercentOf, Quot;
    var n: int, q := m.amount, PERCENT_BASE - p;
    PercentFits(m, p);
    PercentFits(m, q);
    Distributes(n, p, q);
    SameSign(n, p);
    SameSign(n, q);
    QuotSplit(n * p, n * q, n);
  }

  lemma QuotSplit(x: int, y: int, n: int)
    requires x + y == n * PERCENT_BASE && (if n >= 0 then x >= 0 && y >= 0 else x <= 0 && y <= 0)
    ensures Quot(x, PERCENT_BASE) + Quot(y, PERCENT_BASE) ==
      if x % PERCENT_BASE == 0 then n else if n > 0 then n - 1 else n + 1
  {
    if n >= 0 {
      SplitDivision(x, y, n);
    } else {
      SplitDivision(-x, -y, -n);
    }
  }

  lemma PercentFits(m: Money, p: Int64)
    requires Fits(m.amount * p)
    ensures PercentOf(m, p, Floor).amount == Quot(m.amount * p, PERCENT_BASE)
  {
    QuotNear(m.amount * p);
    WrapFits(m.amount * p);
    WrapFits(Quot(m.amount * p, PERCENT_BASE));
  }

  lemma Distributes(n: int, p: int, q: int)
    ensures n * p + n * q == n * (p + q)
  {
  }

  lemma SameSign(n: int, p: nat)
    ensures n >= 0 ==> n * p >= 0
    ensures n <= 0 ==> n * p <= 0
  {
  }

  lemma SplitDivision(x: nat, y: nat, n: int)
    requires x + y == n * PERCENT_BASE
    ensures x / PERCENT_BASE + y / PERCENT_BASE == if x % PERCENT_BASE == 0 then n else n - 1
  {
  }

  // ---- Printing ----

  // %02d
  function TwoDigits(n: nat): (s: string)
    requires n < 100
    ensures |s| == 2 && IsDigit(s[0]) && IsDigit(s[1])
  {
    [DigitChar(n / 10), DigitChar(n % 10)]
  }

  // %d
  function Printed(n: int): string {
    if n < 0 then "-" + Digits(-n) else Digits(n)
  }

  function ToString(m: Money): string {
    var major := Quot(m.amount, CENTS_PER_UNIT);
    var rem := Rem(m.amount, CENTS_PER_UNIT);
    var minor := if rem < 0 then -rem else rem;
    var sign := if m.amount < 0 && major == 0 then "-" else "";
    sign + Printed(major) + "." + TwoDigits(minor) + " " + m.currency
  }

  // Length of the leading run of digits.
  function DigitRun(s: string): (n: nat)
    ensures n <= |s| && (forall i :: 0 <= i < n ==> IsDigit(s[i])) && (n < |s| ==> !IsDigit(s[n]))
  {
    if s == [] || !IsDigit(s[0]) then 0 else 1 + DigitRun(s[1..])
  }

  // Parse "[-]digits.dd currency".
  function Parse(s: string): Option<Money> {
    var negative := s != [] && s[0] == '-';
    var body := if negative then s[1..] else s;
    ParseBody(negative, body)
  }

  function ParseBody(negative: bool, body: string): Option<Money> {
    var n := DigitRun(body);
    if n == 0 || |body| < n + 4 || body[n] != '.' || body[n + 3] != ' ' then None
    else if !IsDigit(body[n + 1]) || !IsDigit(body[n + 2]) then None
    else
      var cents := Value(body[..n]) * CENTS_PER_UNIT + 10 * DigitValue(body[n + 1]) + DigitValue(body[n + 2]);
      var amount := if negative then -cents else cents;
      if Fits(amount) then Some(Money(amount, body[n + 4..])) else None
  }

  lemma DigitRunIs(s: string, n: nat)
    requires n < |s| && (forall i :: 0 <= i < n ==> IsDigit(s[i])) && !IsDigit(s[n])
    ensures DigitRun(s) == n
  {
  }

  // The printed magnitude, after the sign.
  lemma ToStringShape(m: Money)
    ensures ToString(m) == (if m.amount < 0 then "-" else "") + Digits(Abs(m.amount) / CENTS_PER_UNIT) + "."
                           + TwoDigits(Abs(m.amount) % CENTS_PER_UNIT) + " " + m.currency
  {
  }

  // What parsing finds in an unsigned body.
  lemma BodyParts(digits: string, two: string, currency: string)
    requires digits != [] && (forall i :: 0 <= i < |digits| ==> IsDigit(digits[i])) && |two| == 2
    ensures var body, n := digits + "." + two + " " + currency, |digits|;
      && |body| >= n + 4 && DigitRun(body) == n && body[0] == digits[0]
      && body[n] == '.' && body[n + 1] == two[0] && body[n + 2] == two[1] && body[n + 3] == ' '
      && body[..n] == digits && body[n + 4..] == currency
  {
    DigitRunIs(digits + "." + two + " " + currency, |digits|);
  }

  /** Parsing what was printed gives the money back, for every int64 amount and any currency string. */
  lemma ParseToString(m: Money)
    ensures Parse(ToString(m)) == Some(m)
  {
    hide ToString, ParseBody;
    var major, minor := Abs(m.amount) / CENTS_PER_UNIT, Abs(m.amount) % CENTS_PER_UNIT;
    var body := Digits(major) + "." + TwoDigits(minor) + " " + m.currency;
    ToStringShape(m);
    assert body[0] == Digits(major)[0];
    ParseBodyIs(m.amount < 0, major, minor, m.currency);
    if m.amount < 0 {
      assert ToString(m) == "-" + body;
      assert ("-" + body)[1..] == body;
    } else {
      assert ToString(m) == body;
    }
  }

  lemma ParseBodyIs(negative: bool, major: nat, minor: nat, currency: string)
    requires minor < 100
    ensures var cents := major * CENTS_PER_UNIT + minor;
      var amount := if negative then -cents else cents;
      ParseBody(negative, Digits(major) + "." + TwoDigits(minor) + " " + currency) ==
        if Fits(amount) then Some(Money(amount, currency)) else None
  {
    BodyParts(Digits(major), TwoDigits(minor), currency);
    ValueOfDigits(major);
    TwoDigitsValue(minor);
  }

  lemma TwoDigitsValue(n: nat)
    requires n < 100
    ensures 10 * DigitValue(TwoDigits(n)[0]) + DigitValue(TwoDigits(n)[1]) == n
  {
  }

  /** No two different amounts of money print alike. */
  lemma StringInjective(a: Money, b: Money)
    requires ToString(a) == ToString(b)
    ensures a == b
  {
    ParseToString(a);
    ParseToString(b);
  }
}
