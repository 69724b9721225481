/** Error budget and status of an objective, from its burn rates. */
module ErrorBudget {
  import opened Arithmetic
  import opened Strings

  // ----- windows -----

  const NANOSECOND: int := 1_000_000_000

  /** The wrap-around of a signed 64-bit integer. */
  function Wrap(x: int): (y: int)
    ensures -0x8000_0000_0000_0000 <= y < 0x8000_0000_0000_0000
  {
    (x + 0x8000_0000_0000_0000) % 0x1_0000_0000_0000_0000 - 0x8000_0000_0000_0000
  }

  /** The longest prefix of digits. */
  function DigitPrefix(s: string): (d: string)
    ensures AllDigits(d) && d <= s
    ensures |d| < |s| ==> !IsDigit(s[|d|])
  {
    if |s| == 0 || !IsDigit(s[0]) then "" else [s[0]] + DigitPrefix(s[1..])
  }

  function SkipSpaces(s: string): string {
    if |s| > 0 && s[0] == ' ' then SkipSpaces(s[1..]) else s
  }

  /** fmt.Sscanf with "%d": leading spaces, an optional sign, digits; what follows them is ignored. */
  function ScanInt(s: string): Option<int> {
    var t := SkipSpaces(s);
    var negative := |t| > 0 && t[0] == '-';
    var signed := |t| > 0 && (t[0] == '-' || t[0] == '+');
    var digits := DigitPrefix(if signed then t[1..] else t);
    if digits == "" then None else
      var n: int := if negative then -(Decimal(digits) as int) else Decimal(digits);
      if n == Wrap(n) then Some(n) else None
  }

  /** Length of a window in nanoseconds, as a 64-bit duration. */
  function ParseWindow(window: string): Result<int> {
    if |window| < 2 then Err("window too short") else
      match ScanInt(window[..|window| - 1])
      case None => Err("invalid number in window")
      case Some(n) =>
        match window[|window| - 1]
        case 'd' => Ok(Wrap(Wrap(n * 24) * (3600 * NANOSECOND)))
        case 'h' => Ok(Wrap(n * (3600 * NANOSECOND)))
        case 'm' => Ok(Wrap(n * (60 * NANOSECOND)))
        case _ => Err("unsupported time unit")
  }

  function DurationSeconds(nanoseconds: int): real {
    nanoseconds as real / NANOSECOND as real
  }

  lemma {:induction false} DigitPrefixOf(digits: string, rest: string)
    requires AllDigits(digits) && (rest == "" || !IsDigit(rest[0]))
    ensures DigitPrefix(digits + rest) == digits
  {
    if |digits| == 0 {
      assert digits + rest == rest;
    } else {
      assert (digits + rest)[1..] == digits[1..] + rest;
      DigitPrefixOf(digits[1..], rest);
      assert digits == [digits[0]] + digits[1..];
    }
  }

  lemma WrapId(x: int)
    requires -0x8000_0000_0000_0000 <= x < 0x8000_0000_0000_0000
    ensures Wrap(x) == x
  {
  }

  lemma WrapOnce(x: int)
    requires 0x8000_0000_0000_0000 <= x < 0x1_8000_0000_0000_0000
    ensures Wrap(x) == x - 0x1_0000_0000_0000_0000
  {
  }

  lemma {:induction false} SpacesSkipped(spaces: string, s: string)
    requires (forall c | c in spaces :: c == ' ') && (s == "" || s[0] != ' ')
    ensures SkipSpaces(spaces + s) == s
  {
    if |spaces| == 0 {
      assert spaces + s == s;
    } else {
      assert (spaces + s)[1..] == spaces[1..] + s;
      assert spaces[0] in spaces && forall c | c in spaces[1..] :: c in spaces;
      SpacesSkipped(spaces[1..], s);
    }
  }

  /**
   What the scanner accepts before the unit: blanks, a sign, digits that fit a 64-bit integer, and
   then anything else, which it ignores.
   */
  lemma ScanMeaning(spaces: string, sign: string, digits: string, rest: string)
    requires (forall c | c in spaces :: c == ' ') && (sign == "" || sign == "-" || sign == "+")
    requires |digits| > 0 && AllDigits(digits) && (rest == "" || !IsDigit(rest[0]))
    ensures var n: int := if sign == "-" then -(Decimal(digits) as int) else Decimal(digits);
            ScanInt(spaces + (sign + (digits + rest)))
            == if -0x8000_0000_0000_0000 <= n < 0x8000_0000_0000_0000 then Some(n) else None
  {
    var body := digits + rest;
    var t := sign + body;
    assert IsDigit(digits[0]) && body[0] == digits[0];
    SpacesSkipped(spaces, t);
    DigitPrefixOf(digits, rest);
    if sign == "" {
      assert t == body;
    } else {
      assert t[0] == sign[0] && t[1..] == body;
    }
    hide DigitPrefix, SkipSpaces, AllDigits;
    ScanOf(spaces + t, t, body, digits);
  }

  lemma ScanOf(s: string, t: string, body: string, digits: string)
    requires SkipSpaces(s) == t && |t| > 0 && body == (if t[0] == '-' || t[0] == '+' then t[1..] else t)
    requires DigitPrefix(body) == digits && digits != ""
    ensures AllDigits(digits)
    ensures var n: int := if t[0] == '-' then -(Decimal(digits) as int) else Decimal(digits);
            ScanInt(s) == if -0x8000_0000_0000_0000 <= n < 0x8000_0000_0000_0000 then Some(n) else None
  {
    hide DigitPrefix, SkipSpaces, Wrap, Decimal, AllDigits;
    var n: int := if t[0] == '-' then -(Decimal(digits) as int) else Decimal(digits);
    if -0x8000_0000_0000_0000 <= n < 0x8000_0000_0000_0000 {
      WrapId(n);
    }
  }

  lemma PlainScan(digits: string)
    requires |digits| > 0 && AllDigits(digits)
    ensures ScanInt(digits) == if Decimal(digits) < 0x8000_0000_0000_0000 then Some(Decimal(digits)) else None
  {
    ScanMeaning("", "", digits, "");
    assert "" + ("" + (digits + "")) == digits;
  }

  /**
   A window of n days, as the resource definition writes it, is that many days exactly up to
   106751 days; a longer one overflows the 64-bit duration, or the integer before it.
   */
  lemma DaysMeaning(digits: string)
    requires |digits| > 0 && AllDigits(digits)
    ensures ParseWindow(digits + "d") == Ok(Decimal(digits) * 86_400_000_000_000) <==> Decimal(digits) <= 106751
  {
    hide Decimal, ScanInt, Wrap;
    var w := digits + "d";
    var n: int := Decimal(digits);
    assert w[..|w| - 1] == digits && w[|w| - 1] == 'd';
    PlainScan(digits);
    if n <= 106751 {
      WrapId(n * 24);
      WrapId(n * 86_400_000_000_000);
    } else {
      assert ParseWindow(w).Ok? ==> ParseWindow(w).value < 0x8000_0000_0000_0000;
    }
  }

  /** Hours and minutes likewise, up to 2562047 hours and 153722867 minutes. */
  lemma HoursAndMinutes(digits: string)
    requires |digits| > 0 && AllDigits(digits)
    ensures ParseWindow(digits + "h") == Ok(Decimal(digits) * 3_600_000_000_000) <==> Decimal(digits) <= 2562047
    ensures ParseWindow(digits + "m") == Ok(Decimal(digits) * 60_000_000_000) <==> Decimal(digits) <= 153722867
  {
    hide Decimal, ScanInt, Wrap;
    var h, m := digits + "h", digits + "m";
    var n: int := Decimal(digits);
    assert h[..|h| - 1] == digits == m[..|m| - 1] && h[|h| - 1] == 'h' && m[|m| - 1] == 'm';
    PlainScan(digits);
    if n <= 2562047 {
      WrapId(n * 3_600_000_000_000);
    } else {
      assert ParseWindow(h).Ok? ==> ParseWindow(h).value < 0x8000_0000_0000_0000;
    }
    if n <= 153722867 {
      WrapId(n * 60_000_000_000);
    } else {
      assert ParseWindow(m).Ok? ==> ParseWindow(m).value < 0x8000_0000_0000_0000;
    }
  }

  lemma DecimalOfNothing()
    ensures Decimal("") == 0
  {
  }

  lemma DecimalSnoc(s: string, c: char)
    requires AllDigits(s) && IsDigit(c)
    ensures AllDigits(s + [c]) && Decimal(s + [c]) == Decimal(s) * 10 + (c as int - '0' as int)
  {
    assert (s + [c])[..|s|] == s;
  }

  lemma LongestAndOne()
    ensures AllDigits("106752") && Decimal("106752") == 106752
  {
    hide Decimal;
    assert Decimal("") == 0 by { DecimalOfNothing(); }
    DecimalSnoc("", '1');
    DecimalSnoc("" + ['1'], '0');
    DecimalSnoc("" + ['1'] + ['0'], '6');
    DecimalSnoc("" + ['1'] + ['0'] + ['6'], '7');
    DecimalSnoc("" + ['1'] + ['0'] + ['6'] + ['7'], '5');
    DecimalSnoc("" + ['1'] + ['0'] + ['6'] + ['7'] + ['5'], '2');
    assert "" + ['1'] + ['0'] + ['6'] + ['7'] + ['5'] + ['2'] == "106752";
  }

  /** One day more than the longest window, and the duration is a negative one of nearly as many days. */
  lemma DaysOverflow()
    ensures ParseWindow("106752d") == Ok(-9_223_371_273_709_551_616)
  {
    LongestAndOne();
    hide Decimal, ScanInt, Wrap, AllDigits;
    PlainScan("106752");
    assert "106752d"[..6] == "106752";
    WrapId(106752 * 24);
    WrapOnce(9_223_372_800_000_000_000);
  }

  // ----- rounding -----

  /** math.Round: to the nearest integer, halves away from zero. */
  function Round(x: real): int {
    if x >= 0.0 then (x + 0.5).Floor else -((-x + 0.5).Floor)
  }

  /** Rounding to two decimals. */
  function Round2(x: real): real {
    Round(x * 100.0) as real / 100.0
  }

  lemma RoundNear(x: real)
    ensures x - 0.5 <= Round(x) as real <= x + 0.5
  {
  }

  lemma Round2Near(x: real)
    ensures x - 0.005 <= Round2(x) <= x + 0.005
  {
    RoundNear(x * 100.0);
  }

  // ----- the budget -----

  /** Amounts in minutes; the percentage rounded to two decimals. */
  datatype Budget = Budget(total: real, consumed: real, remaining: real, percentRemaining: real)

  method CalculatePercentage(totalSeconds: real, burnRate: real, errorRate: real) returns (budget: Budget, actual: real)
    ensures (budget, actual) == BudgetFor(totalSeconds, burnRate, errorRate)
  {
    actual := 100.0 - errorRate * 100.0;
    var remainingPercent := 100.0 - burnRate * 100.0;
    var remainingSeconds := remainingPercent / 100.0 * totalSeconds;
    var consumedSeconds := totalSeconds - remainingSeconds;
    if remainingSeconds < 0.0 {
      remainingSeconds := 0.0;
    }
    if remainingPercent < 0.0 {
      remainingPercent := 0.0;
    }
    budget := Budget(totalSeconds / 60.0, consumedSeconds / 60.0, remainingSeconds / 60.0, Round2(remainingPercent));
    actual := Round2(actual);
    var f := BudgetFor(totalSeconds, burnRate, errorRate);
    assert budget.total == f.0.total;
    assert budget.consumed == f.0.consumed;
    assert budget.remaining == f.0.remaining;
    assert budget.percentRemaining == f.0.percentRemaining;
    assert actual == f.1;
  }

  method Calculate(window: string, burnRate: real, errorRate: real) returns (r: Result<(Budget, real)>)
    ensures r.Ok? <==> ParseWindow(window).Ok?
    ensures r.Ok? ==> r.value == BudgetFor(DurationSeconds(ParseWindow(window).value), burnRate, errorRate)
  {
    var duration := ParseWindow(window);
    if duration.Err? {
      return Err(duration.error);
    }
    var budget, actual := CalculatePercentage(DurationSeconds(duration.value), burnRate, errorRate);
    r := Ok((budget, actual));
  }

  function AtLeastZero(x: real): real {
    if x < 0.0 then 0.0 else x
  }

  function BudgetFor(seconds: real, burnRate: real, errorRate: real): (Budget, real) {
    var percent := 100.0 - burnRate * 100.0;
    (Budget(seconds / 60.0, (seconds - percent / 100.0 * seconds) / 60.0,
            AtLeastZero(percent / 100.0 * seconds) / 60.0, Round2(AtLeastZero(percent))),
     Round2(100.0 - errorRate * 100.0))
  }

  /**
   Conservation: what is consumed is the burn rate's share of the whole window, and consumed
   plus remaining is the total exactly when no more than everything was burned; beyond that
   nothing remains.
   */
  lemma Conservation(seconds: real, b: real, e: real)
    requires seconds > 0.0
    ensures var budget := BudgetFor(seconds, b, e).0;
            && budget.consumed == b * budget.total
            && (budget.consumed + budget.remaining == budget.total <==> b <= 1.0)
            && (b > 1.0 ==> budget.remaining == 0.0)
  {
    var percent := 100.0 - b * 100.0;
    assert percent / 100.0 == 1.0 - b;
    assert percent / 100.0 * seconds == seconds - b * seconds;
    var spent := b * seconds;
    assert b * (seconds / 60.0) == spent / 60.0;
    if b > 1.0 {
      Product(b - 1.0, seconds);
      assert (b - 1.0) * seconds == spent - seconds;
    } else {
      NonNegativeProduct(1.0 - b, seconds);
      assert (1.0 - b) * seconds == seconds - spent;
    }
  }

  /**
   All amounts at once, for any window and any rates: consumed is the burn rate's share of the
   total, remaining the rest of it but never below zero, and the two percentages are those of the
   burn rate and of the error rate, to half a hundredth.
   */
  lemma Amounts(seconds: real, b: real, e: real)
    ensures var (budget, actual) := BudgetFor(seconds, b, e);
            && budget.total * 60.0 == seconds
            && budget.consumed == b * budget.total
            && budget.remaining == (if budget.consumed <= budget.total then budget.total - budget.consumed else 0.0)
            && (b <= 1.0 ==> 100.0 - 100.0 * b - 0.005 <= budget.percentRemaining <= 100.0 - 100.0 * b + 0.005)
            && (b > 1.0 ==> budget.percentRemaining == 0.0)
            && 100.0 - 100.0 * e - 0.005 <= actual <= 100.0 - 100.0 * e + 0.005
  {
    var percent := 100.0 - b * 100.0;
    Round2Near(AtLeastZero(percent));
    Round2Near(100.0 - e * 100.0);
    hide Round2;
    assert percent / 100.0 == 1.0 - b;
    var spent := b * seconds;
    assert percent / 100.0 * seconds == seconds - spent;
    assert b * (seconds / 60.0) == spent / 60.0;
    if b > 1.0 {
      ZeroRounds();
    }
  }

  lemma ZeroRounds()
    ensures Round2(0.0) == 0.0
  {
  }

  lemma Product(a: real, b: real)
    requires a > 0.0 && b > 0.0
    ensures a * b > 0.0
  {
  }

  lemma NonNegativeProduct(a: real, b: real)
    requires a >= 0.0 && b >= 0.0
    ensures a * b >= 0.0
  {
  }

  /** The documented percentage: remaining over the error budget of the window, never below zero. */
  function DocumentedPercent(seconds: real, target: real, e: real): real
    requires seconds > 0.0 && target < 100.0
  {
    var budget := (100.0 - target) / 100.0 * seconds;
    if budget == 0.0 then 0.0 else AtLeastZero((budget - e * seconds) / budget * 100.0)
  }

  lemma RatioOfWindows(seconds: real, u: real, e: real)
    requires seconds > 0.0 && u > 0.0
    ensures u * seconds > 0.0 && (u * seconds - e * seconds) / (u * seconds) == 1.0 - e / u
  {
    Product(u, seconds);
    var b, us := e / u, u * seconds;
    assert e == b * u;
    Associate(b, u, seconds);
    assert e * seconds == b * us;
    Complement(b, us);
    Cancel(us - e * seconds, 1.0 - b, us);
  }

  lemma Associate(a: real, b: real, c: real)
    ensures (a * b) * c == a * (b * c)
  {
  }

  lemma Cancel(p: real, a: real, b: real)
    requires b != 0.0 && p == a * b
    ensures p / b == a
  {
  }

  /**
   With the burn rate that the recording rules produce, the reported percentage is within half
   a hundredth of the documented formula, and so is the reported actual value.
   */
  lemma PercentDocumented(seconds: real, target: real, e: real)
    requires seconds > 0.0 && target < 100.0
    ensures var b := e / (1.0 - target / 100.0);
            var p := BudgetFor(seconds, b, e).0.percentRemaining;
            var d := DocumentedPercent(seconds, target, e);
            d - 0.005 <= p <= d + 0.005
    ensures var actual := BudgetFor(seconds, e / (1.0 - target / 100.0), e).1;
            100.0 - e * 100.0 - 0.005 <= actual <= 100.0 - e * 100.0 + 0.005
  {
    var u := 1.0 - target / 100.0;
    assert u == (100.0 - target) / 100.0 > 0.0;
    DocumentedIsBurn(seconds, target, e);
    Round2Near(AtLeastZero(100.0 - e / u * 100.0));
  }

  lemma DocumentedIsBurn(seconds: real, target: real, e: real)
    requires seconds > 0.0 && target < 100.0
    ensures DocumentedPercent(seconds, target, e) == AtLeastZero(100.0 - e / (1.0 - target / 100.0) * 100.0)
  {
    var u := 1.0 - target / 100.0;
    assert u == (100.0 - target) / 100.0 > 0.0;
    RatioOfWindows(seconds, u, e);
    assert (1.0 - e / u) * 100.0 == 100.0 - e / u * 100.0;
  }

  /**
   The reported total is the whole window. It is the documented error budget, a share of
   100 - target percent of the window, exactly for target zero.
   */
  lemma TotalIsWholeWindow(seconds: real, target: real, b: real, e: real)
    requires seconds > 0.0
    ensures BudgetFor(seconds, b, e).0.total * 60.0 == (100.0 - target) / 100.0 * seconds <==> target == 0.0
  {
    var share := (100.0 - target) / 100.0;
    if share * seconds == seconds {
      Cancel(seconds, share, seconds);
      Cancel(seconds, 1.0, seconds);
    }
  }

  /** The documented example, 99.9 over `30d`: an error budget of 43.2 minutes, and a reported total of 43200. */
  lemma ThirtyDayTotal(b: real, e: real)
    ensures ParseWindow("30d").Ok?
    ensures var seconds := DurationSeconds(ParseWindow("30d").value);
            && BudgetFor(seconds, b, e).0.total == 43200.0
            && (100.0 - 99.9) / 100.0 * seconds / 60.0 == 43.2
  {
    WindowNumbers();
    assert "30" + "d" == "30d";
    DaysMeaning("30");
  }

  /** The percentage is zero, and not above, exactly when more than 99.995% is burned. */
  lemma ExhaustedExactly(seconds: real, b: real, e: real)
    ensures BudgetFor(seconds, b, e).0.percentRemaining <= 0.0 <==> b > 0.99995
    ensures BudgetFor(seconds, b, e).0.percentRemaining >= 0.0
  {
    var p := AtLeastZero(100.0 - b * 100.0);
    var x := p * 100.0;
    assert Round(x) <= 0 <==> x < 0.5;
    assert x < 0.5 <==> b > 0.99995;
  }

  // ----- the status -----

  datatype Status = Met | Warning | Degraded | Critical | Violated

  datatype BurnRate = BurnRate(shortRate: real, longRate: real, shortWindow: string, longWindow: string)

  /** The first entry with the two windows; zero rates when there is none. */
  function Burn(shortWindow: string, longWindow: string, rates: seq<BurnRate>): (real, real) {
    if |rates| == 0 then (0.0, 0.0)
    else if rates[0].shortWindow == shortWindow && rates[0].longWindow == longWindow then
      (rates[0].shortRate, rates[0].longRate)
    else Burn(shortWindow, longWindow, rates[1..])
  }

  /** The rates looked up are those of the first entry with these windows, or zero without one. */
  lemma {:induction false} BurnExactly(shortWindow: string, longWindow: string, rates: seq<BurnRate>, i: nat)
    requires i <= |rates|
    requires forall j | 0 <= j < i :: rates[j].shortWindow != shortWindow || rates[j].longWindow != longWindow
    ensures i < |rates| && rates[i].shortWindow == shortWindow && rates[i].longWindow == longWindow ==>
              Burn(shortWindow, longWindow, rates) == (rates[i].shortRate, rates[i].longRate)
    ensures i == |rates| ==> Burn(shortWindow, longWindow, rates) == (0.0, 0.0)
  {
    if i == 0 {
    } else {
      BurnExactly(shortWindow, longWindow, rates[1..], i - 1);
    }
  }

  predicate Tier(shortWindow: string, longWindow: string, threshold: real, rates: seq<BurnRate>) {
    var pair := Burn(shortWindow, longWindow, rates);
    pair.0 > threshold && pair.1 > threshold
  }

  function DetermineStatus(percent: real, rates: seq<BurnRate>): Status {
    if percent <= 0.0 then Violated
    else if Tier("5m", "1h", 14.0, rates) then Critical
    else if Tier("1h", "6h", 6.0, rates) then Degraded
    else if Tier("6h", "3d", 1.0, rates) then Warning
    else Met
  }

  function Severity(s: Status): nat {
    match s case Met => 0 case Warning => 1 case Degraded => 2 case Critical => 3 case Violated => 4
  }

  /** The same presets, with no rate lower. */
  ghost predicate NoLower(low: seq<BurnRate>, high: seq<BurnRate>) {
    |low| == |high| && forall i | 0 <= i < |low| ::
      && low[i].shortWindow == high[i].shortWindow && low[i].longWindow == high[i].longWindow
      && low[i].shortRate <= high[i].shortRate && low[i].longRate <= high[i].longRate
  }

  lemma {:induction false} BurnMonotone(shortWindow: string, longWindow: string, low: seq<BurnRate>, high: seq<BurnRate>)
    requires NoLower(low, high)
    ensures Burn(shortWindow, longWindow, low).0 <= Burn(shortWindow, longWindow, high).0
    ensures Burn(shortWindow, longWindow, low).1 <= Burn(shortWindow, longWindow, high).1
  {
    if |low| == 0 {
    } else {
      assert NoLower(low[1..], high[1..]);
      BurnMonotone(shortWindow, longWindow, low[1..], high[1..]);
    }
  }

  /** A higher burn rate or a smaller budget never improves the status. */
  lemma StatusMonotone(p: real, q: real, low: seq<BurnRate>, high: seq<BurnRate>)
    requires NoLower(low, high) && q <= p
    ensures Severity(DetermineStatus(p, low)) <= Severity(DetermineStatus(q, high))
  {
    BurnMonotone("5m", "1h", low, high);
    BurnMonotone("1h", "6h", low, high);
    BurnMonotone("6h", "3d", low, high);
  }
}
