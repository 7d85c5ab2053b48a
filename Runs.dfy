/** One logged run (Run.java): validation of the raw distance and time text,
    parsing of the time into hours, minutes and seconds, the derived
    `"W:SS"` pace, the guarded rating and the date order. */
module Runs {
  import opened Wrappers
  import opened Text
  import opened Dates

  /** The exceptions Run.java throws, one constructor per distinct cause. */
  datatype RunError =
    | InvalidDistance        // IllegalArgumentException: null or below 0.001
    | TimeEmpty              // IllegalArgumentException: null or blank time
    | TimeIllegalCharacter   // IllegalArgumentException: not a digit or ':'
    | TimeBadFieldCount      // IllegalArgumentException: 0 or more than 3 fields
    | TimeFieldNotNumber     // NumberFormatException from Integer.parseInt
    | TimeIsZero             // IllegalArgumentException: fields sum to 0
    | TimeOutOfRange         // DateTimeException from LocalTime.of
    | DateUnparsable         // exception from LocalDate.parse
    | TimeMissing            // NoSuchElementException in setRunTime
    | RatingOutOfRange       // IllegalArgumentException in setRating

  /** Smallest accepted distance. */
  const MinDistance: real := 0.001

  /** `java.time.LocalTime` at whole-second precision. */
  datatype LocalTime = LocalTime(hour: int, minute: int, second: int)

  predicate ValidLocalTime(t: LocalTime)
  {
    0 <= t.hour <= 23 && 0 <= t.minute <= 59 && 0 <= t.second <= 59
  }

  /** The `int[3]` that `stringToTime` returns: `[hours, minutes, seconds]`. */
  datatype TimeFields = TimeFields(hours: int, minutes: int, seconds: int)

  /** `LocalTime.of(hours, minutes, seconds)`. */
  function LocalTimeOf(f: TimeFields): (r: Result<LocalTime, RunError>)
    ensures r.Success? <==> 0 <= f.hours <= 23 && 0 <= f.minutes <= 59 && 0 <= f.seconds <= 59
    ensures r.Success? ==> ValidLocalTime(r.value) && r.value == LocalTime(f.hours, f.minutes, f.seconds)
    ensures r.Failure? ==> r.error == TimeOutOfRange
  {
    if 0 <= f.hours <= 23 && 0 <= f.minutes <= 59 && 0 <= f.seconds <= 59
    then Success(LocalTime(f.hours, f.minutes, f.seconds))
    else Failure(TimeOutOfRange)
  }

  // ---------------------------------------------------------------------
  // verifyTime

  predicate TimeChars(s: string)
  {
    forall i :: 0 <= i < |s| ==> IsDigit(s[i]) || s[i] == ':'
  }

  predicate FieldsParse(fields: seq<string>)
  {
    forall i :: 0 <= i < |fields| ==> ParseInt(fields[i]).Some?
  }

  function FieldValue(field: string): (v: int)
    requires ParseInt(field).Some?
    ensures 0 <= v <= MaxInt
  {
    ParseInt(field).value
  }

  /** Java `int` addition result: the value taken modulo 2^32 into
      `[-2^31, 2^31)`. */
  function Wrap32(x: int): (r: int)
    ensures -0x8000_0000 <= r <= MaxInt
  {
    ((x + 0x8000_0000) % 0x1_0000_0000) - 0x8000_0000
  }

  /** The `int sum` of verifyTime after adding the fields left to right. */
  function WrappedSum(fields: seq<string>): int
    requires FieldsParse(fields)
  {
    if fields == [] then 0
    else Wrap32(WrappedSum(fields[..|fields| - 1]) + FieldValue(fields[|fields| - 1]))
  }

  /** The mathematical sum of the field values. */
  function FieldSum(fields: seq<string>): int
    requires FieldsParse(fields)
  {
    if fields == [] then 0
    else FieldSum(fields[..|fields| - 1]) + FieldValue(fields[|fields| - 1])
  }

  /** What `verifyTime` accepts, and the exception it throws otherwise, in the
      order it checks: null or blank, a character other than a digit or ':',
      the field count of `split(":")`, a field `Integer.parseInt` rejects, and
      a zero `int` sum. */
  function VerifyTime(time: Option<string>): (r: Outcome<RunError>)
    ensures r.Pass? ==> time.Some? && time.value != []
    ensures r.Fail? ==> r.error in {TimeEmpty, TimeIllegalCharacter, TimeBadFieldCount, TimeFieldNotNumber, TimeIsZero}
  {
    if time.None? || IsBlank(time.value) then Fail(TimeEmpty)
    else if !TimeChars(time.value) then Fail(TimeIllegalCharacter)
    else
      var fields := JavaSplit(time.value);
      if |fields| > 3 || |fields| == 0 then Fail(TimeBadFieldCount)
      else if !FieldsParse(fields) then Fail(TimeFieldNotNumber)
      else if WrappedSum(fields) == 0 then Fail(TimeIsZero)
      else Pass
  }

  /** `verifyTime` as the source runs it: a loop over the characters, then a
      loop that parses and adds the fields in an `int`. */
  method CheckTime(time: Option<string>) returns (result: Outcome<RunError>)
    ensures result == VerifyTime(time)
  {
    if time.None? || IsBlank(time.value) {
      return Fail(TimeEmpty);
    }
    var text := time.value;
    var charsOk := CheckTimeChars(text);
    if !charsOk {
      return Fail(TimeIllegalCharacter);
    }
    var toVerify := JavaSplit(text);
    if |toVerify| > 3 || |toVerify| == 0 {
      return Fail(TimeBadFieldCount);
    }
    var sum := SumFields(toVerify);
    if sum.None? {
      return Fail(TimeFieldNotNumber);
    }
    if sum.value == 0 {
      return Fail(TimeIsZero);
    }
    return Pass;
  }

  /** The character loop of `verifyTime`: stops at the first character that is
      neither a digit nor ':'. */
  method CheckTimeChars(text: string) returns (ok: bool)
    ensures ok == TimeChars(text)
  {
    for i := 0 to |text|
      invariant forall j :: 0 <= j < i ==> IsDigit(text[j]) || text[j] == ':'
    {
      if IsDigit(text[i]) {
        continue;
      } else if text[i] == ':' {
        continue;
      }
      return false;
    }
    return true;
  }

  /** The summing loop of `verifyTime`: `None` when `Integer.parseInt` throws
      on a field, otherwise the `int` sum. */
  method SumFields(fields: seq<string>) returns (sum: Option<int>)
    ensures sum.None? <==> !FieldsParse(fields)
    ensures sum.Some? ==> sum.value == WrappedSum(fields)
  {
    var total := 0;
    for i := 0 to |fields|
      invariant FieldsParse(fields[..i])
      invariant total == WrappedSum(fields[..i])
    {
      var parsed := ParseInt(fields[i]);
      if parsed.None? {
        return None;
      }
      assert fields[..i + 1][..i] == fields[..i];
      total := Wrap32(total + parsed.value);
    }
    assert fields[..|fields|] == fields;
    return Some(total);
  }

  lemma {:induction false} ZeroFieldSumWraps(fields: seq<string>)
    requires FieldsParse(fields) && FieldSum(fields) == 0
    ensures WrappedSum(fields) == 0
  {
    if fields != [] {
      var init := fields[..|fields| - 1];
      assert FieldsParse(init);
      FieldSumNonNegative(init);
      ZeroFieldSumWraps(init);
    }
  }

  lemma {:induction false} FieldSumNonNegative(fields: seq<string>)
    requires FieldsParse(fields)
    ensures FieldSum(fields) >= 0
  {
    if fields != [] {
      var init := fields[..|fields| - 1];
      assert FieldsParse(init);
      FieldSumNonNegative(init);
    }
  }

  /** What an accepted time text is: not blank, digits and colons only, one to
      three fields each a non-empty digit string within `int`, and a positive
      total. */
  lemma VerifyTimeAccepted(text: string)
    requires VerifyTime(Some(text)) == Pass
    ensures !IsBlank(text) && TimeChars(text)
    ensures 1 <= |JavaSplit(text)| <= 3
    ensures forall i :: 0 <= i < |JavaSplit(text)| ==>
              JavaSplit(text)[i] != [] && AllDigits(JavaSplit(text)[i])
              && DigitsValue(JavaSplit(text)[i]) <= MaxInt
    ensures FieldsParse(JavaSplit(text)) && FieldSum(JavaSplit(text)) > 0
  {
    var fields := JavaSplit(text);
    FieldSumNonNegative(fields);
    if FieldSum(fields) == 0 {
      ZeroFieldSumWraps(fields);
    }
  }

  // ---------------------------------------------------------------------
  // stringToTime

  /** `stringToTime` as written: `"S"` gives `[0, 0, S]`, `"H:M:S"` gives
      `[H, M, S]`, and `"A:B"` gives `[B, A, 0]`, i.e. hours taken from the
      second field and minutes from the first. */
  function StringToTime(time: string): (f: TimeFields)
    requires VerifyTime(Some(time)).Pass?
    ensures 0 <= f.hours <= MaxInt && 0 <= f.minutes <= MaxInt && 0 <= f.seconds <= MaxInt
  {
    var fields := JavaSplit(time);
    if |fields| == 1 then TimeFields(0, 0, FieldValue(fields[0]))
    else if |fields| == 2 then TimeFields(FieldValue(fields[1]), FieldValue(fields[0]), 0)
    else TimeFields(FieldValue(fields[0]), FieldValue(fields[1]), FieldValue(fields[2]))
  }

  /** Validation, parsing and `LocalTime.of`, as the constructors and
      `setRunTime` chain them. */
  function ParseRunTime(time: Option<string>): (r: Result<LocalTime, RunError>)
    ensures r.Success? ==> VerifyTime(time).Pass? && ValidLocalTime(r.value)
    ensures VerifyTime(time).Fail? ==> r == Failure(VerifyTime(time).error)
  {
    match VerifyTime(time)
    case Fail(e) => Failure(e)
    case Pass => LocalTimeOf(StringToTime(time.value))
  }

  /** Digit fields joined by colons contain only digits and colons. */
  lemma {:induction false} JoinedDigitsAreTimeChars(fields: seq<string>)
    requires |fields| >= 1
    requires forall i :: 0 <= i < |fields| ==> AllDigits(fields[i])
    ensures TimeChars(JoinFields(fields))
  {
    if |fields| > 1 {
      JoinedDigitsAreTimeChars(fields[1..]);
    }
  }

  const FieldBound: int := 0x2000_0000

  lemma DigitsHaveNoColon(s: string)
    requires AllDigits(s)
    ensures ':' !in s
  {
    forall i | 0 <= i < |s| ensures s[i] != ':' {
      assert IsDigit(s[i]);
    }
  }

  lemma FieldSumOfFew(fields: seq<string>)
    requires 1 <= |fields| <= 3 && FieldsParse(fields)
    ensures |fields| == 1 ==> FieldSum(fields) == FieldValue(fields[0])
    ensures |fields| == 2 ==> FieldSum(fields) == FieldValue(fields[0]) + FieldValue(fields[1])
    ensures |fields| == 3 ==>
              FieldSum(fields) == FieldValue(fields[0]) + FieldValue(fields[1]) + FieldValue(fields[2])
  {
    var one := fields[..1];
    assert one[..0] == [];
    if |fields| >= 2 {
      var two := fields[..2];
      assert two[..1] == one;
      if |fields| == 3 {
        assert fields[..|fields| - 1] == two;
      }
    }
  }

  /** With at most three small fields the `int` sum does not wrap. */
  lemma {:induction false} SmallFieldsDoNotWrap(fields: seq<string>)
    requires |fields| <= 3 && FieldsParse(fields)
    requires forall i :: 0 <= i < |fields| ==> FieldValue(fields[i]) < FieldBound
    ensures 0 <= FieldSum(fields) <= |fields| * 0x1FFF_FFFF
    ensures WrappedSum(fields) == FieldSum(fields)
  {
    if fields != [] {
      var init := fields[..|fields| - 1];
      assert FieldsParse(init);
      assert forall i :: 0 <= i < |init| ==> init[i] == fields[i];
      SmallFieldsDoNotWrap(init);
      var x := FieldSum(init) + FieldValue(fields[|fields| - 1]);
      assert FieldSum(fields) == x;
      assert FieldValue(fields[|fields| - 1]) <= 0x1FFF_FFFF;
      assert |init| * 0x1FFF_FFFF + 0x1FFF_FFFF == |fields| * 0x1FFF_FFFF;
      assert 0 <= x < 0x6000_0000;
      assert Wrap32(x) == x;
    }
  }

  /** Texts made of one to three non-empty digit fields with small values
      pass every check of `verifyTime` but the last, and `split(":")` gives
      those fields back: they are accepted exactly when the sum is
      positive. */
  lemma VerifyDigitFields(fields: seq<string>)
    requires 1 <= |fields| <= 3
    requires forall i :: 0 <= i < |fields| ==>
               fields[i] != [] && AllDigits(fields[i]) && DigitsValue(fields[i]) < FieldBound
    requires FieldsParse(fields)
    ensures JavaSplit(JoinFields(fields)) == fields
    ensures VerifyTime(Some(JoinFields(fields))) == if FieldSum(fields) > 0 then Pass else Fail(TimeIsZero)
  {
    var text := JoinFields(fields);
    forall i | 0 <= i < |fields| ensures ':' !in fields[i] {
      DigitsHaveNoColon(fields[i]);
    }
    JavaSplitJoin(fields);
    JoinedDigitsAreTimeChars(fields);
    assert text[0] == fields[0][0] by {
      if |fields| > 1 {
        assert text == fields[0] + ":" + JoinFields(fields[1..]);
      }
    }
    DigitMakesNonBlank(text, 0);
    SmallFieldsDoNotWrap(fields);
  }

  /** The zero-padded `HH:MM:SS` text of a valid, non-zero time is read back
      as that time. */
  lemma ParseRunTimeHms(t: LocalTime)
    requires ValidLocalTime(t) && t.hour + t.minute + t.second > 0
    ensures ParseRunTime(Some(JoinFields([Padded(t.hour, 2), Padded(t.minute, 2), Padded(t.second, 2)])))
            == Success(t)
  {
    var fields := [Padded(t.hour, 2), Padded(t.minute, 2), Padded(t.second, 2)];
    assert Pow10(2) == 100;
    PaddedValue(t.hour, 2);
    PaddedValue(t.minute, 2);
    PaddedValue(t.second, 2);
    FieldSumOfFew(fields);
    VerifyDigitFields(fields);
  }

  /** A single field `S` is `S` seconds: accepted exactly when `0 < S <= 59`. */
  lemma ParseRunTimeSeconds(seconds: nat)
    requires 0 < seconds < FieldBound
    ensures ParseRunTime(Some(NatToString(seconds)))
            == LocalTimeOf(TimeFields(0, 0, seconds))
  {
    NatToStringValue(seconds);
    var fields := [NatToString(seconds)];
    FieldSumOfFew(fields);
    VerifyDigitFields(fields);
  }

  /** As written, `"MM:SS"` is read as hour `SS` and minute `MM`: it is
      accepted only when `SS <= 23`, and then as `SS` hours and `MM` minutes. */
  lemma ParseRunTimeTwoFields(first: nat, second: nat)
    requires first < 100 && second < 100 && first + second > 0
    ensures ParseRunTime(Some(JoinFields([Padded(first, 2), Padded(second, 2)])))
            == LocalTimeOf(TimeFields(second, first, 0))
  {
    var fields := [Padded(first, 2), Padded(second, 2)];
    assert Pow10(2) == 100;
    PaddedValue(first, 2);
    PaddedValue(second, 2);
    FieldSumOfFew(fields);
    VerifyDigitFields(fields);
  }

  /** The time read from one to three small digit fields, padded or not:
      `"S"` is `S` seconds, `"A:B"` is hour `B` and minute `A` (as written),
      `"H:M:S"` is `H:M:S`; fields that add up to zero are rejected. */
  lemma ParseRunTimeDigitFields(fields: seq<string>)
    requires 1 <= |fields| <= 3
    requires forall i :: 0 <= i < |fields| ==>
               fields[i] != [] && AllDigits(fields[i]) && DigitsValue(fields[i]) < FieldBound
    ensures var v := seq(|fields|, i requires 0 <= i < |fields| => DigitsValue(fields[i]));
            ParseRunTime(Some(JoinFields(fields)))
            == if v[0] + (if |v| > 1 then v[1] else 0) + (if |v| > 2 then v[2] else 0) == 0
               then Failure(TimeIsZero)
               else if |v| == 1 then LocalTimeOf(TimeFields(0, 0, v[0]))
               else if |v| == 2 then LocalTimeOf(TimeFields(v[1], v[0], 0))
               else LocalTimeOf(TimeFields(v[0], v[1], v[2]))
  {
    assert FieldsParse(fields);
    FieldSumOfFew(fields);
    VerifyDigitFields(fields);
  }

  /** The two-field texts the examples below use. */
  lemma TwoFieldTexts()
    ensures JoinFields([Padded(1, 2), Padded(30, 2)]) == "01:30"
    ensures JoinFields([Padded(30, 2), Padded(5, 2)]) == "30:05"
  {
    assert Padded(0, 1) == "0" && Padded(3, 1) == "3";
    assert Padded(1, 2) == "01" && Padded(30, 2) == "30" && Padded(5, 2) == "05";
  }

  /** `"01:30"` (meant as 1 minute 30 seconds) is rejected as hour 30. */
  lemma MinutesSecondsRejected()
    ensures ParseRunTime(Some("01:30")) == Failure(TimeOutOfRange)
  {
    TwoFieldTexts();
    ParseRunTimeTwoFields(1, 30);
  }

  /** `"30:05"` (meant as 30 minutes 5 seconds) becomes 5 hours 30 minutes. */
  lemma MinutesSecondsSwapped()
    ensures ParseRunTime(Some("30:05")) == Success(LocalTime(5, 30, 0))
  {
    TwoFieldTexts();
    ParseRunTimeTwoFields(30, 5);
  }

  /** `stringToTime` with the evident intent for two fields: `"M:S"` is
      `[0, M, S]`. */
  function StringToTimeIntended(time: string): (f: TimeFields)
    requires VerifyTime(Some(time)).Pass?
    ensures f.hours >= 0 && f.minutes >= 0 && f.seconds >= 0
  {
    var fields := JavaSplit(time);
    if |fields| == 1 then TimeFields(0, 0, FieldValue(fields[0]))
    else if |fields| == 2 then TimeFields(0, FieldValue(fields[0]), FieldValue(fields[1]))
    else TimeFields(FieldValue(fields[0]), FieldValue(fields[1]), FieldValue(fields[2]))
  }

  function ParseRunTimeIntended(time: Option<string>): (r: Result<LocalTime, RunError>)
    ensures VerifyTime(time).Fail? ==> r == Failure(VerifyTime(time).error)
  {
    match VerifyTime(time)
    case Fail(e) => Failure(e)
    case Pass => LocalTimeOf(StringToTimeIntended(time.value))
  }

  /** With the intended reading every zero-padded `MM:SS` text of a valid,
      non-zero duration under an hour is read back as that many minutes and
      seconds. */
  lemma MinutesSecondsRoundTrip(minute: nat, second: nat)
    requires minute <= 59 && second <= 59 && minute + second > 0
    ensures ParseRunTimeIntended(Some(JoinFields([Padded(minute, 2), Padded(second, 2)])))
            == Success(LocalTime(0, minute, second))
  {
    var fields := [Padded(minute, 2), Padded(second, 2)];
    assert Pow10(2) == 100;
    PaddedValue(minute, 2);
    PaddedValue(second, 2);
    FieldSumOfFew(fields);
    VerifyDigitFields(fields);
  }

  lemma ZeroTimeText()
    ensures JoinFields(["00", "00", "00"]) == "00:00:00"
    ensures DigitsValue("00") == 0
  {
    assert "00"[..1] == "0" && "0"[..0] == [];
  }

  /** A zero duration is rejected after the fields are summed. */
  lemma ZeroTimeRejected()
    ensures VerifyTime(Some("00:00:00")) == Fail(TimeIsZero)
  {
    var fields := ["00", "00", "00"];
    ZeroTimeText();
    FieldSumOfFew(fields);
    VerifyDigitFields(fields);
  }

  /** A letter is rejected before the text is split. */
  lemma LetterRejected()
    ensures VerifyTime(Some("5x:00")) == Fail(TimeIllegalCharacter)
  {
    var bad := "5x:00";
    DigitMakesNonBlank(bad, 0);
    assert !IsDigit(bad[1]);
  }

  // ---------------------------------------------------------------------
  // calculatePace

  /** A pace as the two numbers of its `"W:SS"` text. */
  datatype Pace = Pace(minutes: int, seconds: int)

  /** The numbers `calculatePace` prints: the whole minutes per unit of
      distance (the `(int)` cast, a floor on these non-negative values) and
      `Math.round` of sixty times the fraction. A rounded 60 is kept as 60. */
  function PaceOf(t: LocalTime, distance: real): (p: Pace)
    requires ValidLocalTime(t) && distance >= MinDistance
  {
    var totalMinutes := (t.hour * 60 + t.minute) as real + t.second as real / 60.0;
    var pace := totalMinutes / distance;
    var whole := pace.Floor;
    Pace(whole, (60.0 * (pace - whole as real) + 0.5).Floor)
  }

  /** The pace numbers are within half a second of the exact minutes per unit
      of distance, the seconds lie in 0..60 and a 60 is not carried. */
  lemma PaceOfBounds(t: LocalTime, distance: real)
    requires ValidLocalTime(t) && distance >= MinDistance
    ensures var p := PaceOf(t, distance);
            var exact := ((t.hour * 60 + t.minute) as real + t.second as real / 60.0) / distance;
            p.minutes >= 0 && 0 <= p.seconds <= 60
            && p.minutes as real + p.seconds as real / 60.0 - exact <= 1.0 / 120.0
            && exact - (p.minutes as real + p.seconds as real / 60.0) <= 1.0 / 120.0
  {
    var totalMinutes := (t.hour * 60 + t.minute) as real + t.second as real / 60.0;
    var exact := totalMinutes / distance;
    assert totalMinutes >= 0.0;
    assert exact >= 0.0;
    var whole := exact.Floor;
    var frac := exact - whole as real;
    assert 0.0 <= frac < 1.0;
    var sec := (60.0 * frac + 0.5).Floor;
    assert 60.0 * frac - 0.5 < sec as real <= 60.0 * frac + 0.5;
  }

  /** `""+n` padded to two characters, as `calculatePace` does for the seconds. */
  function SecondsText(n: nat): (s: string)
    ensures |s| >= 2 || n >= 100
  {
    var digits := NatToString(n);
    if |digits| == 1 then "0" + digits else digits
  }

  /** The `"W:SS"` text of a pace. */
  function FormatPace(p: Pace): string
    requires p.minutes >= 0 && 0 <= p.seconds
  {
    NatToString(p.minutes) + ":" + SecondsText(p.seconds)
  }

  /** Reading a pace text as `comparePace` does: `split(":")`, then the
      first two fields as numbers (`Double.parseDouble` fails on an empty
      field, and a missing second field is out of bounds). */
  function ParsePaceBySplit(s: string): (r: Option<Pace>)
  {
    var fields := JavaSplit(s);
    if |fields| >= 2 && fields[0] != [] && AllDigits(fields[0]) && fields[1] != [] && AllDigits(fields[1])
    then Some(Pace(DigitsValue(fields[0]), DigitsValue(fields[1])))
    else None
  }

  /** The same reading taken field by field: the digits before the first
      colon and the digits between it and the next colon. */
  function ParsePace(s: string): (r: Option<Pace>)
    ensures r.Some? ==> r.value.minutes >= 0 && r.value.seconds >= 0
  {
    var k := FieldEnd(s);
    if k == |s| then None
    else
      var rest := s[k + 1..];
      var minutes, seconds := s[..k], rest[..FieldEnd(rest)];
      if minutes != [] && AllDigits(minutes) && seconds != [] && AllDigits(seconds)
      then Some(Pace(DigitsValue(minutes), DigitsValue(seconds)))
      else None
  }

  /** Both readings agree on every text. */
  lemma ParsePaceMatchesSplit(s: string)
    ensures ParsePace(s) == ParsePaceBySplit(s)
  {
    SplitFieldsHead(s);
    var k := FieldEnd(s);
    var parts := SplitFields(s);
    if k < |s| {
      var rest := s[k + 1..];
      SplitFieldsHead(rest);
      assert parts[1] == SplitFields(rest)[0];
      var fields := JavaSplit(s);
      if rest[..FieldEnd(rest)] != [] {
        assert |fields| >= 2 && fields[0] == parts[0] && fields[1] == parts[1];
      }
    }
  }

  /** The seconds text is the digits of the number, padded to two. */
  lemma SecondsTextValue(n: nat)
    ensures SecondsText(n) != [] && AllDigits(SecondsText(n)) && DigitsValue(SecondsText(n)) == n
  {
    NatToStringValue(n);
    var s, digits := SecondsText(n), NatToString(n);
    if |digits| == 1 {
      assert s[..|s| - 1] == "0" && "0"[..0] == [];
      assert s[|s| - 1] == digits[0];
      assert digits[..0] == [];
    }
  }

  /** Two digit strings joined by a colon read as a pace. */
  lemma ParseDigitPair(m: string, s: string)
    requires m != [] && AllDigits(m) && s != [] && AllDigits(s)
    ensures ParsePace(m + ":" + s) == Some(Pace(DigitsValue(m), DigitsValue(s)))
  {
    var text := m + ":" + s;
    assert text == m + (":" + s);
    FieldEndAfterDigits(m, ":" + s);
    assert text[..|m|] == m;
    assert text[|m| + 1..] == s;
    FieldEndAfterDigits(s, []);
    assert s + [] == s;
  }

  /** A formatted pace reads back as itself. */
  lemma ParseFormatPace(p: Pace)
    requires p.minutes >= 0 && 0 <= p.seconds
    ensures ParsePace(FormatPace(p)) == Some(p)
  {
    NatToStringValue(p.minutes);
    SecondsTextValue(p.seconds);
    ParseDigitPair(NatToString(p.minutes), SecondsText(p.seconds));
  }

  /** The texts a run's pace can hold: every one reads as two numbers. */
  type PaceText = s: string | ParsePace(s).Some? witness "0:00"

  /** `calculatePace`: the formatted pace of a time over a distance. */
  function CalculatePace(t: LocalTime, distance: real): (s: PaceText)
    requires ValidLocalTime(t) && distance >= MinDistance
    ensures ParsePace(s) == Some(PaceOf(t, distance))
  {
    var p := PaceOf(t, distance);
    PaceOfBounds(t, distance);
    ParseFormatPace(p);
    FormatPace(p)
  }

  /** Six units in half an hour is a pace of `"5:00"`. */
  lemma PaceExample()
    ensures PaceOf(LocalTime(0, 30, 0), 6.0) == Pace(5, 0)
    ensures CalculatePace(LocalTime(0, 30, 0), 6.0) == "5:00"
  {
    var exact := ((0 * 60 + 30) as real + 0 as real / 60.0) / 6.0;
    assert exact == 5.0;
    assert exact.Floor == 5;
    assert (60.0 * (exact - 5 as real) + 0.5).Floor == 0;
    assert NatToString(5) == "5" && NatToString(0) == "0";
  }

  /** One minute 59 seconds over two units rounds to `"0:60"`: the 60 seconds
      are not carried into the minutes. */
  lemma PaceRolloverExample()
    ensures PaceOf(LocalTime(0, 1, 59), 2.0) == Pace(0, 60)
    ensures CalculatePace(LocalTime(0, 1, 59), 2.0) == "0:60"
  {
    var exact := ((0 * 60 + 1) as real + 59 as real / 60.0) / 2.0;
    assert exact == 119.0 / 120.0;
    assert exact.Floor == 0;
    assert 60.0 * exact + 0.5 == 60.0;
    assert (60.0 * (exact - 0 as real) + 0.5).Floor == 60;
    assert NatToString(0) == "0" && NatToString(60) == "60" by {
      assert NatToString(6) == "6";
    }
  }

  /** Different times over the same distance give different pace texts (used
      to show that `setRunTime` leaves a stale pace). */
  lemma PaceDependsOnTime()
    ensures CalculatePace(LocalTime(0, 30, 0), 6.0) != CalculatePace(LocalTime(1, 0, 0), 6.0)
  {
    PaceExample();
    var exact := ((1 * 60 + 0) as real + 0 as real / 60.0) / 6.0;
    assert exact == 10.0 && exact.Floor == 10;
    assert PaceOf(LocalTime(1, 0, 0), 6.0).minutes == 10;
  }

  // ---------------------------------------------------------------------
  // The Run object

  class Run {
    var title: Option<string>
    var location: Option<string>
    var paceOfRun: PaceText
    var description: Option<string>
    const distance: real
    var rating: int
    var timeRan: LocalTime
    const runDate: Date

    /** What every run keeps: an accepted distance, a `LocalTime` within its
        bounds, and a rating that is unset (0) or in 1..10. */
    ghost predicate Valid()
      reads this
    {
      distance >= MinDistance && ValidLocalTime(timeRan) && (rating == 0 || 1 <= rating <= 10)
    }

    /** The state both Java constructors leave after their checks passed. */
    ghost predicate Initialized(distance: real, timeRan: LocalTime, runDate: Date)
      reads this
    {
      && this.distance == distance && this.timeRan == timeRan && this.runDate == runDate
      && ValidLocalTime(timeRan) && distance >= MinDistance
      && paceOfRun == CalculatePace(timeRan, distance)
      && title == None && location == None && description == None && rating == 0
    }

    /** The assignments of the Java constructors, once their inputs are
        validated (see `NewRun` and `NewRunOn`). */
    constructor (distance: real, timeRan: LocalTime, runDate: Date)
      requires distance >= MinDistance && ValidLocalTime(timeRan)
      ensures Valid() && Initialized(distance, timeRan, runDate)
    {
      this.distance := distance;
      this.timeRan := timeRan;
      this.runDate := runDate;
      this.paceOfRun := CalculatePace(timeRan, distance);
      this.title := None;
      this.location := None;
      this.rating := 0;
      this.description := None;
    }

    method SetTitle(title: Option<string>)
      modifies this`title
      ensures this.title == title
    {
      this.title := title;
    }

    method SetLocation(location: Option<string>)
      modifies this`location
      ensures this.location == location
    {
      this.location := location;
    }

    method SetDescription(description: Option<string>)
      modifies this`description
      ensures this.description == description
    {
      this.description := description;
    }

    /** Stores a rating in 1..10; any other value fails and changes nothing. */
    method SetRating(rating: int) returns (result: Outcome<RunError>)
      requires Valid()
      modifies this`rating
      ensures Valid()
      ensures result.Pass? <==> 1 <= rating <= 10
      ensures result.Pass? ==> this.rating == rating
      ensures result.Fail? ==> result.error == RatingOutOfRange && this.rating == old(this.rating)
    {
      if rating > 10 || rating < 1 {
        return Fail(RatingOutOfRange);
      }
      this.rating := rating;
      return Pass;
    }

    /** `setRunTime` as written: a null or blank text fails with
        `NoSuchElementException`; otherwise the text is validated and parsed
        exactly as at construction and, on success, replaces `timeRan`. The
        recomputed pace is discarded, so `paceOfRun` keeps its old value. */
    method SetRunTime(time: Option<string>) returns (result: Outcome<RunError>)
      requires Valid()
      modifies this`timeRan
      ensures Valid()
      ensures paceOfRun == old(paceOfRun)
      ensures (time.None? || IsBlank(time.value)) ==> result == Fail(TimeMissing)
      ensures !(time.None? || IsBlank(time.value)) && ParseRunTime(time).Failure? ==>
                result == Fail(ParseRunTime(time).error)
      ensures result.Pass? <==> !(time.None? || IsBlank(time.value)) && ParseRunTime(time).Success?
      ensures result.Pass? ==> timeRan == ParseRunTime(time).value
      ensures result.Fail? ==> timeRan == old(timeRan)
    {
      if time.None? || IsBlank(time.value) {
        return Fail(TimeMissing);
      }
      var checked := CheckTime(time);
      if checked.Fail? {
        return Fail(checked.error);
      }
      var parsed := LocalTimeOf(StringToTime(time.value));
      if parsed.Failure? {
        return Fail(parsed.error);
      }
      timeRan := parsed.value;
      var _ := CalculatePace(timeRan, distance);
      return Pass;
    }

    /** `setRunTime` as its documentation intends: the pace is recomputed
        from the new time. */
    method SetRunTimeRecomputingPace(time: Option<string>) returns (result: Outcome<RunError>)
      requires Valid()
      modifies this`timeRan, this`paceOfRun
      ensures Valid()
      ensures result.Pass? <==> !(time.None? || IsBlank(time.value)) && ParseRunTime(time).Success?
      ensures result.Pass? ==> timeRan == ParseRunTime(time).value
      ensures result.Pass? ==> paceOfRun == CalculatePace(timeRan, distance)
      ensures result.Fail? ==> timeRan == old(timeRan) && paceOfRun == old(paceOfRun)
    {
      result := SetRunTime(time);
      if result.Pass? {
        paceOfRun := CalculatePace(timeRan, distance);
      }
    }

    /** `compareTo`: the sign of the date comparison; nothing but the dates
        takes part. */
    function CompareTo(o: Run): (c: int)
      ensures c < 0 <==> runDate < o.runDate
      ensures c == 0 <==> runDate == o.runDate
      ensures c > 0 <==> runDate > o.runDate
    {
      if runDate < o.runDate then -1 else if runDate == o.runDate then 0 else 1
    }
  }

  /** `compareTo` is antisymmetric and depends on the two dates only. */
  lemma CompareToAntisymmetric(a: Run, b: Run, c: Run)
    requires c.runDate == b.runDate
    ensures a.CompareTo(b) == -b.CompareTo(a)
    ensures a.CompareTo(b) == a.CompareTo(c)
  {
  }

  /** The checks both constructors make before assigning anything: the
      distance first, then the time text, then `LocalTime.of`. */
  function CheckRunInputs(distance: Option<real>, time: Option<string>): (r: Result<LocalTime, RunError>)
    ensures (distance.None? || distance.value < MinDistance) ==> r == Failure(InvalidDistance)
    ensures r.Success? ==> distance.Some? && distance.value >= MinDistance && ValidLocalTime(r.value)
    ensures distance.Some? && distance.value >= MinDistance ==> r == ParseRunTime(time)
  {
    if distance.None? || distance.value < MinDistance then Failure(InvalidDistance)
    else ParseRunTime(time)
  }

  /** `new Run(distance, time)`: the date is today's, passed in because it
      comes from the clock. */
  method NewRun(distance: Option<real>, time: Option<string>, today: Date) returns (r: Result<Run, RunError>)
    ensures r.Failure? <==> CheckRunInputs(distance, time).Failure?
    ensures r.Failure? ==> r.error == CheckRunInputs(distance, time).error
    ensures r.Success? ==> (fresh(r.value) && r.value.Valid()
      && r.value.Initialized(distance.value, CheckRunInputs(distance, time).value, today))
  {
    var checked := CheckRunInputs(distance, time);
    if checked.Failure? {
      return Failure(checked.error);
    }
    var run := new Run(distance.value, checked.value, today);
    return Success(run);
  }

  /** `new Run(distance, time, dateOfRun)`: the date text is parsed last, after
      the distance and time checks and the pace computation. */
  method NewRunOn(distance: Option<real>, time: Option<string>, dateOfRun: Option<string>)
    returns (r: Result<Run, RunError>)
    ensures CheckRunInputs(distance, time).Failure? ==>
              r == Failure(CheckRunInputs(distance, time).error)
    ensures CheckRunInputs(distance, time).Success? && ParseIsoDate(dateOfRun).None? ==>
              r == Failure(DateUnparsable)
    ensures r.Success? <==> CheckRunInputs(distance, time).Success? && ParseIsoDate(dateOfRun).Some?
    ensures r.Success? ==> (fresh(r.value) && r.value.Valid()
      && r.value.Initialized(distance.value, CheckRunInputs(distance, time).value, ParseIsoDate(dateOfRun).value))
  {
    var checked := CheckRunInputs(distance, time);
    if checked.Failure? {
      return Failure(checked.error);
    }
    var date := ParseIsoDate(dateOfRun);
    if date.None? {
      return Failure(DateUnparsable);
    }
    var run := new Run(distance.value, checked.value, date.value);
    return Success(run);
  }

  /** A run whose time is changed keeps the pace of its old time: the stored
      pace no longer matches `calculatePace` of the stored time. */
  method StalePaceExample() returns (run: Run)
    ensures run.Valid() && run.paceOfRun != CalculatePace(run.timeRan, run.distance)
  {
    run := new Run(6.0, LocalTime(0, 30, 0), 0);
    var text := JoinFields([Padded(1, 2), Padded(0, 2), Padded(0, 2)]);
    ParseRunTimeHms(LocalTime(1, 0, 0));
    assert IsDigit(text[0]);
    DigitMakesNonBlank(text, 0);
    var result := run.SetRunTime(Some(text));
    PaceDependsOnTime();
  }
}
