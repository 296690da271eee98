/**
  PhcTime: exact 64-bit arithmetic on PHC times, and their text form, of
  pkg/linuxptp-daemon/addons/phcfirststep/phc_first_step.go.

  The operations are on int64, a newtype: that they verify says that no intermediate step overflows.
 */
module PhcTime {
  import opened Options
  import opened Texts

  const MIN_INT64: int := -0x8000_0000_0000_0000
  const MAX_INT64: int := 0x7FFF_FFFF_FFFF_FFFF

  newtype int64 = x: int | -0x8000_0000_0000_0000 <= x <= 0x7FFF_FFFF_FFFF_FFFF

  const NS_PER_SECOND: int64 := 1_000_000_000
  const RESIDUAL_OFFSET_THRESHOLD: int64 := NS_PER_SECOND

  predicate FitsInt64(x: int) {
    MIN_INT64 <= x <= MAX_INT64
  }

  function Fitting(x: int): Option<int64> {
    if FitsInt64(x) then Some(x as int64) else None
  }

  // ------------------------------------------------------------------ decimal texts

  predicate IsDigit(c: char) {
    '0' <= c <= '9'
  }

  predicate AreDigits(text: string) {
    forall i :: 0 <= i < |text| ==> IsDigit(text[i])
  }

  function DigitValue(c: char): nat
    requires IsDigit(c)
  {
    c as int - '0' as int
  }

  function ValueOf(digits: string): nat
    requires AreDigits(digits)
  {
    if digits == "" then 0 else 10 * ValueOf(digits[..|digits| - 1]) + DigitValue(digits[|digits| - 1])
  }

  function DigitOf(n: nat): (c: char)
    requires n < 10
    ensures IsDigit(c) && DigitValue(c) == n
  {
    ('0' as int + n) as char
  }

  function Power(n: nat): nat {
    if n == 0 then 1 else 10 * Power(n - 1)
  }

  /** The digits of a number, with leading zeros up to a width; %0<width>d of a number that is not negative. */
  function Digits(n: nat, width: nat): (text: string)
    ensures text != "" && AreDigits(text) && ValueOf(text) == n
    ensures |text| >= width
    ensures width > 0 && n < Power(width) ==> |text| == width
    decreases n, width
  {
    if n < 10 && width <= 1 then [DigitOf(n)]
    else Digits(n / 10, if width == 0 then 0 else width - 1) + [DigitOf(n % 10)]
  }

  function Unsigned(text: string): string {
    if text != "" && (text[0] == '-' || text[0] == '+') then text[1..] else text
  }

  /** strconv.ParseInt(text, 10, 64). */
  function ParseInt(text: string): Option<int64> {
    var digits := Unsigned(text);
    if digits == "" || !AreDigits(digits) then None
    else Fitting(if text[0] == '-' then 0 - ValueOf(digits) else ValueOf(digits))
  }

  /** %d. */
  function FormatInt(n: int): string {
    if n < 0 then "-" + Digits(-n, 1) else Digits(n, 1)
  }

  lemma ParseFormatInt(n: int)
    requires FitsInt64(n)
    ensures ParseInt(FormatInt(n)) == Some(n as int64)
    ensures '.' !in FormatInt(n)
  {
    var digits := Digits(if n < 0 then -n else n, 1);
    assert Unsigned(FormatInt(n)) == digits;
  }

  /** Digits with or without a sign are read as the number they are, as long as it is an int64 ... */
  lemma ParseIntReads(digits: string)
    requires AreDigits(digits) && digits != ""
    ensures ParseInt(digits) == ParseInt("+" + digits) == Fitting(ValueOf(digits))
    ensures ParseInt("-" + digits) == Fitting(0 - ValueOf(digits))
  {
    assert IsDigit(digits[0]);
    assert Unsigned("+" + digits) == Unsigned("-" + digits) == Unsigned(digits) == digits;
  }

  /** ... and no other text is a number. */
  lemma ParseIntAccepts(text: string)
    requires ParseInt(text).Some?
    ensures text != "" && (AreDigits(text) || (|text| > 1 && (text[0] == '-' || text[0] == '+') && AreDigits(text[1..])))
  {
    assert Unsigned(text) == text || Unsigned(text) == text[1..];
  }

  /** Division of Go, towards zero. */
  function TruncDiv(a: int, b: int): int
    requires b > 0
  {
    if a >= 0 then a / b else -((-a) / b)
  }

  function TruncMod(a: int, b: int): int
    requires b > 0
  {
    a - b * TruncDiv(a, b)
  }

  // ------------------------------------------------------------------ the operations

  /** The corrected time is the difference, and there is none exactly if it is not an int64. */
  function CorrectedTime(phcTime: int64, offset: int64): (r: Option<int64>)
    ensures r == Fitting(phcTime as int - offset as int)
  {
    if (offset > 0 && phcTime < MIN_INT64 as int64 + offset) || (offset < 0 && phcTime > MAX_INT64 as int64 + offset) then None
    else Some(phcTime - offset)
  }

  const NINE_ZEROS := "000000000"

  function Seconds(text: string): string {
    Split(text, '.')[0]
  }

  function Fraction(text: string): string {
    var dot := IndexOf(text, '.');
    if dot == |text| then "" else text[dot + 1..]
  }

  /** The nine characters of a fraction that count, missing ones are zeros. */
  function Nine(fraction: string): (nine: string)
    ensures |nine| == 9
  {
    (fraction + NINE_ZEROS)[..9]
  }

  lemma NineDigits(nine: string)
    requires AreDigits(nine) && |nine| == 9
    ensures ValueOf(nine) < 1_000_000_000
  {
    ValueIsBounded(nine);
    assert Power(9) == 1_000_000_000;
  }

  lemma {:induction false} ValueIsBounded(digits: string)
    requires AreDigits(digits)
    ensures ValueOf(digits) < Power(|digits|)
  {
    if digits != "" {
      ValueIsBounded(digits[..|digits| - 1]);
    }
  }

  lemma NineCharacters(nine: string)
    requires |nine| == 9 && ParseInt(nine).Some?
    ensures -100_000_000 < ParseInt(nine).value < 1_000_000_000
  {
    var digits := Unsigned(nine);
    ValueIsBounded(digits);
    assert Power(9) == 1_000_000_000 && Power(8) == 100_000_000;
  }

  /** What int64 arithmetic makes of a number that is out of range by less than the range. */
  function Wrapped(x: int): int64
    requires 2 * MIN_INT64 <= x <= 2 * MAX_INT64
  {
    if x > MAX_INT64 then (x - 0x1_0000_0000_0000_0000) as int64
    else if x < MIN_INT64 then (x + 0x1_0000_0000_0000_0000) as int64
    else x as int64
  }

  /**
    Seconds and nanoseconds together, exact to both ends of int64. Negative nanoseconds make the bound of
    the last test wrap around, and are always refused.
   */
  function Combined(seconds: int64, nanoseconds: int64): (r: Option<int64>)
    requires -100_000_000 < nanoseconds < NS_PER_SECOND
    ensures r == if nanoseconds < 0 then None else Fitting(seconds as int * 1_000_000_000 + nanoseconds as int)
  {
    var minSeconds := TruncDiv(MIN_INT64, NS_PER_SECOND as int) as int64;
    var maxSeconds := TruncDiv(MAX_INT64, NS_PER_SECOND as int) as int64;
    if seconds < minSeconds - 1 || seconds > maxSeconds then None
    else if seconds == minSeconds - 1 then
      var minNanoseconds := NS_PER_SECOND + TruncMod(MIN_INT64, NS_PER_SECOND as int) as int64;
      if nanoseconds < minNanoseconds then None else Some(MIN_INT64 as int64 + nanoseconds - minNanoseconds)
    else
      var total := seconds * NS_PER_SECOND;
      assert nanoseconds < 0 ==> total > Wrapped(MAX_INT64 - nanoseconds as int);
      if total > Wrapped(MAX_INT64 - nanoseconds as int) then None else Some(total + nanoseconds)
  }

  /** The time a text says: floor seconds and nanoseconds, if both are numbers and the second is not negative. */
  function Said(text: string): Option<int> {
    Sum(ParseInt(Seconds(text)), ParseInt(Nine(Fraction(text))))
  }

  function Sum(seconds: Option<int64>, nanoseconds: Option<int64>): Option<int> {
    if seconds.None? || nanoseconds.None? || nanoseconds.value < 0 then None
    else Some(seconds.value as int * 1_000_000_000 + nanoseconds.value as int)
  }

  /** The time a text says, if it is an int64. */
  function TimeOf(text: string): Option<int64> {
    if Said(text).None? then None else Fitting(Said(text).value)
  }

  /** Any text is read as the time it says, and rejected exactly if it says none or one that is not an int64. */
  function PhcSecondsToNs(text: string): (r: Option<int64>)
    ensures r == TimeOf(text)
  {
    var seconds := ParseInt(Seconds(text));
    if seconds.None? then None
    else
      var nanoseconds := ParseInt(Nine(Fraction(text)));
      if nanoseconds.None? then None
      else
        NineCharacters(Nine(Fraction(text)));
        Combined(seconds.value, nanoseconds.value)
  }

  lemma SaidIsRead(text: string, seconds: Option<int64>, nanoseconds: Option<int64>)
    requires ParseInt(Seconds(text)) == seconds && ParseInt(Nine(Fraction(text))) == nanoseconds
    ensures PhcSecondsToNs(text)
         == if Sum(seconds, nanoseconds).None? then None else Fitting(Sum(seconds, nanoseconds).value)
  {}

  lemma SumFits(seconds: int, nanoseconds: nat)
    requires nanoseconds < 1_000_000_000
    ensures var sum := Sum(Fitting(seconds), Some(nanoseconds as int64));
      Fitting(seconds * 1_000_000_000 + nanoseconds) == if sum.None? then None else Fitting(sum.value)
  {}

  lemma ParsedAreRead(text: string, value: int, n: nat)
    requires ParseInt(Seconds(text)) == Fitting(value) && n < 1_000_000_000
    requires ParseInt(Nine(Fraction(text))) == Some(n as int64)
    ensures PhcSecondsToNs(text) == Fitting(value * 1_000_000_000 + n)
  {
    SumFits(value, n);
    SaidIsRead(text, Fitting(value), Some(n as int64));
  }

  lemma NineDigitsAreRead(text: string, seconds: string, value: int, nine: string)
    requires Seconds(text) == seconds && Nine(Fraction(text)) == nine
    requires ParseInt(seconds) == Fitting(value) && AreDigits(nine)
    ensures PhcSecondsToNs(text) == Fitting(value * 1_000_000_000 + ValueOf(nine))
  {
    var n := NineDigitsParse(nine);
    ParsedAreRead(text, value, n);
  }

  lemma NineDigitsParse(nine: string) returns (n: nat)
    requires AreDigits(nine) && |nine| == 9
    ensures n == ValueOf(nine) < 1_000_000_000 && ParseInt(nine) == Some(n as int64)
  {
    NineDigits(nine);
    ParseIntReads(nine);
    n := ValueOf(nine);
  }

  /**
    How decimals are read. Nine digits after the point are nanoseconds, on top of the seconds with their sign: the
    seconds are the seconds rounded down. Fewer digits count as if zeros followed, more than nine are ignored, and
    without a point there are no nanoseconds.
   */
  lemma DecimalIsRead(seconds: string, value: int, fraction: string)
    requires AreDigits(fraction) && '.' !in seconds && ParseInt(seconds) == Fitting(value)
    ensures |fraction| == 9 ==> PhcSecondsToNs(seconds + "." + fraction) == Fitting(value * 1_000_000_000 + ValueOf(fraction))
    ensures |fraction| < 9 ==> PhcSecondsToNs(seconds + "." + fraction) == PhcSecondsToNs(seconds + "." + (fraction + "0"))
    ensures |fraction| > 9 ==> PhcSecondsToNs(seconds + "." + fraction) == PhcSecondsToNs(seconds + "." + fraction[..9])
    ensures PhcSecondsToNs(seconds) == Fitting(value * 1_000_000_000)
  {
    NineIs(fraction);
    if |fraction| == 9 {
      NineAreRead(seconds, value, fraction);
    } else {
      SameIsRead(seconds, fraction, if |fraction| < 9 then fraction + "0" else fraction[..9]);
    }
    WholeIsRead(seconds, value);
  }

  lemma NineIs(fraction: string)
    ensures |fraction| == 9 ==> Nine(fraction) == fraction
    ensures |fraction| < 9 ==> Nine(fraction) == Nine(fraction + "0")
    ensures |fraction| > 9 ==> Nine(fraction) == Nine(fraction[..9])
  {}

  lemma NineAreRead(seconds: string, value: int, nine: string)
    requires AreDigits(nine) && |nine| == 9 && '.' !in seconds && ParseInt(seconds) == Fitting(value)
    ensures PhcSecondsToNs(seconds + "." + nine) == Fitting(value * 1_000_000_000 + ValueOf(nine))
  {
    DotSplits(seconds, nine);
    NineIs(nine);
    NineDigitsAreRead(seconds + "." + nine, seconds, value, nine);
  }

  lemma SameIsRead(seconds: string, a: string, b: string)
    requires '.' !in seconds && Nine(a) == Nine(b)
    ensures PhcSecondsToNs(seconds + "." + a) == PhcSecondsToNs(seconds + "." + b)
  {
    DotSplits(seconds, a);
    DotSplits(seconds, b);
    SaidIsRead(seconds + "." + a, ParseInt(seconds), ParseInt(Nine(a)));
    SaidIsRead(seconds + "." + b, ParseInt(seconds), ParseInt(Nine(b)));
  }

  lemma WholeIsRead(seconds: string, value: int)
    requires '.' !in seconds && ParseInt(seconds) == Fitting(value)
    ensures PhcSecondsToNs(seconds) == Fitting(value * 1_000_000_000)
  {
    SplitWhole(seconds, '.');
    assert Fraction(seconds) == "" && Nine("") == NINE_ZEROS;
    ValueOfZeros(9);
    NineDigitsAreRead(seconds, seconds, value, NINE_ZEROS);
  }

  lemma {:induction false} ValueOfZeros(k: nat)
    requires k <= 9
    ensures AreDigits(NINE_ZEROS[..k]) && ValueOf(NINE_ZEROS[..k]) == 0
    ensures k == 9 ==> NINE_ZEROS[..k] == NINE_ZEROS
  {
    if k > 0 {
      ValueOfZeros(k - 1);
      assert NINE_ZEROS[..k][..k - 1] == NINE_ZEROS[..k - 1];
    }
  }

  function FormatNs(value: int64): string {
    var seconds := TruncDiv(value as int, NS_PER_SECOND as int) as int64;
    var nanoseconds := TruncMod(value as int, NS_PER_SECOND as int) as int64;
    if nanoseconds < 0 then
      FormatInt((seconds - 1) as int) + "." + Digits((nanoseconds + NS_PER_SECOND) as int, 9)
    else
      FormatInt(seconds as int) + "." + Digits(nanoseconds as int, 9)
  }

  lemma DotSplits(a: string, b: string)
    requires '.' !in a
    ensures Seconds(a + "." + b) == a && Fraction(a + "." + b) == b
  {
    SplitJoined(a, b, '.');
    SplitWhole(a, '.');
    IndexOfFirst(a, b, '.');
  }

  /** The formatted time is the seconds rounded down, a point, and nine digits of nanoseconds. */
  lemma FormatNsIsFloor(value: int64)
    ensures FormatNs(value) == FormatInt(value as int / 1_000_000_000) + "." + Digits(value as int % 1_000_000_000, 9)
  {
    FloorFromTrunc(value as int);
  }

  lemma FloorFromTrunc(a: int)
    ensures var m := TruncMod(a, 1_000_000_000);
            -1_000_000_000 < m < 1_000_000_000
            && a / 1_000_000_000 == (if m < 0 then TruncDiv(a, 1_000_000_000) - 1 else TruncDiv(a, 1_000_000_000))
            && a % 1_000_000_000 == (if m < 0 then m + 1_000_000_000 else m)
  {}

  lemma ParseDigits(digits: string)
    requires AreDigits(digits) && digits != "" && FitsInt64(ValueOf(digits))
    ensures ParseInt(digits) == Some(ValueOf(digits) as int64)
    ensures '.' !in digits
  {
    assert IsDigit(digits[0]);
    assert Unsigned(digits) == digits;
  }

  /** Every time is read back as it was written, down to the least int64. */
  lemma RoundTrip(value: int64)
    ensures PhcSecondsToNs(FormatNs(value)) == Some(value)
  {
    var seconds, nanoseconds := value as int / 1_000_000_000, value as int % 1_000_000_000;
    FormatNsIsFloor(value);
    ParseFormatInt(seconds);
    assert Power(9) == 1_000_000_000;
    ParseDigits(Digits(nanoseconds, 9));
    assert value as int == seconds * 1_000_000_000 + nanoseconds;
    ReadsBack(FormatInt(seconds), Digits(nanoseconds, 9), seconds as int64, nanoseconds as int64, value);
  }

  lemma ReadsBack(a: string, b: string, seconds: int64, nanoseconds: int64, value: int64)
    requires '.' !in a && '.' !in b && |b| == 9
    requires ParseInt(a) == Some(seconds) && ParseInt(b) == Some(nanoseconds) && nanoseconds >= 0
    requires value as int == seconds as int * 1_000_000_000 + nanoseconds as int
    ensures TimeOf(a + "." + b) == Some(value)
  {
    var text := a + "." + b;
    DotSplits(a, b);
    assert Nine(b) == b;
    assert Said(text) == Sum(Some(seconds), Some(nanoseconds));
  }

  /** A sign before zero seconds is lost, whatever follows: the reader takes the seconds as rounded down. */
  lemma MinusZeroSeconds(fraction: string)
    ensures PhcSecondsToNs("-0" + "." + fraction) == PhcSecondsToNs("0" + "." + fraction)
    ensures AreDigits(Nine(fraction)) ==> PhcSecondsToNs("-0" + "." + fraction) == Fitting(ValueOf(Nine(fraction)))
  {
    DotSplits("-0", fraction);
    DotSplits("0", fraction);
    assert Unsigned("-0") == "0" && Unsigned("0") == "0" && ValueOf("0") == 0;
    if AreDigits(Nine(fraction)) {
      NineDigits(Nine(fraction));
      ParseDigits(Nine(fraction));
    }
  }

  // ------------------------------------------------------------------ stepping a PHC

  /** What the outside says during one adjustment: the measured offset, the PHC reading, whether the PHC could be set. */
  datatype Attempt = Attempt(offset: Option<int64>, reading: Option<string>, settable: bool)

  /** The time an adjustment sets, if it succeeds. */
  function Target(a: Attempt): Option<int64> {
    if a.offset.None? || a.reading.None? || !a.settable then None
    else
      var now := TimeOf(a.reading.value);
      if now.None? then None else Fitting(now.value as int - a.offset.value as int)
  }

  predicate IsResidual(offset: int64) {
    -1_000_000_000 <= offset <= 1_000_000_000
  }

  /**
    The PHC is set once or twice when the update succeeds: once exactly if the offset measured after the
    first step is within a second. When it fails, what the first adjustment set stays. Each time it is set to its reading less the measured offset.
   */
  method UpdatePhc(first: Attempt, second: Attempt) returns (ok: bool, written: seq<string>)
    ensures ok <==> Target(first).Some? && second.offset.Some? && (IsResidual(second.offset.value) || Target(second).Some?)
    ensures ok ==> |written| == if IsResidual(second.offset.value) then 1 else 2
    ensures !ok ==> |written| == if Target(first).None? then 0 else 1
    ensures forall k :: 0 <= k < |written| ==> IsWritten(written[k], if k == 0 then first else second)
  {
    written := [];
    for adjustment := 0 to 2
      invariant |written| == adjustment
      invariant adjustment > 0 ==> Target(first).Some?
      invariant adjustment > 1 ==> second.offset.Some? && !IsResidual(second.offset.value) && Target(second).Some?
      invariant forall k :: 0 <= k < adjustment ==> IsWritten(written[k], if k == 0 then first else second)
    {
      var a := if adjustment == 0 then first else second;
      if a.offset.None? {
        return false, written;
      }
      if adjustment > 0 && a.offset.value <= RESIDUAL_OFFSET_THRESHOLD && a.offset.value >= -RESIDUAL_OFFSET_THRESHOLD {
        return true, written;
      }
      var text := SetTo(a);
      if text.None? {
        return false, written;
      }
      written := written + [text.value];
    }
    return true, written;
  }

  method SetTo(a: Attempt) returns (text: Option<string>)
    requires a.offset.Some?
    ensures text.Some? <==> Target(a).Some?
    ensures text.Some? ==> IsWritten(text.value, a)
  {
    if a.reading.None? {
      return None;
    }
    var corrected := Corrected(a.reading.value, a.offset.value);
    if corrected.None? || !a.settable {
      return None;
    }
    var formatted := Formatted(corrected.value);
    return Some(formatted);
  }

  /** The reading less the offset. */
  method Corrected(reading: string, offset: int64) returns (corrected: Option<int64>)
    ensures corrected == Target(Attempt(Some(offset), Some(reading), true))
  {
    var phcTime := ReadTime(reading);
    if phcTime.None? {
      return None;
    }
    return CorrectedTime(phcTime.value, offset);
  }

  method ReadTime(reading: string) returns (phcTime: Option<int64>)
    ensures phcTime == TimeOf(reading)
  {
    return PhcSecondsToNs(reading);
  }

  method Formatted(value: int64) returns (text: string)
    ensures TimeOf(text) == Some(value)
  {
    RoundTrip(value);
    return FormatNs(value);
  }

  /** The text written says the target of the adjustment. */
  predicate IsWritten(text: string, a: Attempt) {
    Target(a).Some? && TimeOf(text) == Target(a)
  }
}
