/** Calendar dates of runs. `LocalDate.parse` reads the ISO 8601 extended
    calendar date `YYYY-MM-DD` (ISO 8601:2004, section 4.1.2.2) and resolves
    it strictly; a date is kept as the ordered key `year * 10000 + month * 100
    + day`, whose order is the calendar order that `LocalDate.compareTo` uses. */
module Dates {
  import opened Wrappers
  import opened Text

  /** A calendar date, as its ordered key. */
  type Date = int

  predicate IsLeapYear(year: int)
  {
    year % 4 == 0 && (year % 100 != 0 || year % 400 == 0)
  }

  function DaysInMonth(year: int, month: int): (n: int)
    requires 1 <= month <= 12
    ensures 28 <= n <= 31
  {
    if month == 2 then (if IsLeapYear(year) then 29 else 28)
    else if month == 4 || month == 6 || month == 9 || month == 11 then 30
    else 31
  }

  predicate ValidDate(year: int, month: int, day: int)
  {
    1 <= month <= 12 && 1 <= day <= DaysInMonth(year, month)
  }

  function DateKey(year: int, month: int, day: int): Date
  {
    year * 10000 + month * 100 + day
  }

  /** The order of `LocalDate.compareTo`: by year, then month, then day. */
  predicate CalendarBefore(y1: int, m1: int, d1: int, y2: int, m2: int, d2: int)
  {
    y1 < y2 || (y1 == y2 && (m1 < m2 || (m1 == m2 && d1 < d2)))
  }

  /** On valid dates the key order is the calendar order, and equal keys
      mean the same date. */
  lemma DateKeyOrder(y1: int, m1: int, d1: int, y2: int, m2: int, d2: int)
    requires ValidDate(y1, m1, d1) && ValidDate(y2, m2, d2)
    ensures DateKey(y1, m1, d1) < DateKey(y2, m2, d2) <==> CalendarBefore(y1, m1, d1, y2, m2, d2)
    ensures DateKey(y1, m1, d1) == DateKey(y2, m2, d2) <==> y1 == y2 && m1 == m2 && d1 == d2
  {
    if y1 < y2 {
      assert DateKey(y1, m1, d1) < y1 * 10000 + 10000 <= DateKey(y2, m2, d2);
    } else if y2 < y1 {
      assert DateKey(y2, m2, d2) < y2 * 10000 + 10000 <= DateKey(y1, m1, d1);
    }
  }

  /** `LocalDate.parse(text)`: `None` stands for the exception thrown on a
      null or malformed text or an impossible date. */
  function ParseIsoDate(text: Option<string>): (r: Option<Date>)
    ensures r.Some? ==> text.Some? && |text.value| == 10 && text.value[4] == '-' && text.value[7] == '-'
    ensures r.Some? ==> exists y, m, d :: ValidDate(y, m, d) && r.value == DateKey(y, m, d)
  {
    if text.None? then None
    else
      var s := text.value;
      if |s| == 10 && AllDigits(s[..4]) && s[4] == '-' && AllDigits(s[5..7])
         && s[7] == '-' && AllDigits(s[8..])
      then
        var year, month, day := DigitsValue(s[..4]), DigitsValue(s[5..7]), DigitsValue(s[8..]);
        if ValidDate(year, month, day) then Some(DateKey(year, month, day)) else None
      else None
  }

  function Pow10(k: nat): nat
  {
    if k == 0 then 1 else 10 * Pow10(k - 1)
  }

  /** The last `width` decimal digits of `n`, zero-padded. */
  function Padded(n: nat, width: nat): (s: string)
    ensures |s| == width && AllDigits(s)
  {
    if width == 0 then [] else Padded(n / 10, width - 1) + [DigitChar(n % 10)]
  }

  lemma {:induction false} PaddedValue(n: nat, width: nat)
    requires n < Pow10(width)
    ensures DigitsValue(Padded(n, width)) == n
  {
    if width > 0 {
      PaddedValue(n / 10, width - 1);
      var s := Padded(n, width);
      assert s[..|s| - 1] == Padded(n / 10, width - 1);
    }
  }

  /** The text `YYYY-MM-DD` of a date with a four-digit year. */
  function FormatIsoDate(year: nat, month: nat, day: nat): (s: string)
    requires year <= 9999 && ValidDate(year, month, day)
  {
    Padded(year, 4) + "-" + Padded(month, 2) + "-" + Padded(day, 2)
  }

  /** Every date with a four-digit year is read back from its ISO text. */
  lemma ParseFormatIsoDate(year: nat, month: nat, day: nat)
    requires year <= 9999 && ValidDate(year, month, day)
    ensures ParseIsoDate(Some(FormatIsoDate(year, month, day))) == Some(DateKey(year, month, day))
  {
    var s := FormatIsoDate(year, month, day);
    assert s[..4] == Padded(year, 4);
    assert s[5..7] == Padded(month, 2);
    assert s[8..] == Padded(day, 2);
    assert Pow10(4) == 10000 && Pow10(2) == 100;
    PaddedValue(year, 4);
    PaddedValue(month, 2);
    PaddedValue(day, 2);
  }

  /** February 29 exists in leap years only. */
  lemma LeapDayExample()
    ensures ParseIsoDate(Some("2024-02-29")) == Some(20240229)
    ensures ParseIsoDate(Some("2023-02-29")) == None
    ensures ParseIsoDate(Some("2023-2-28")) == None
  {
    var a, b := "2024-02-29", "2023-02-29";
    assert a[..4] == "2024" && a[5..7] == "02" && a[8..] == "29";
    assert b[..4] == "2023" && b[5..7] == "02" && b[8..] == "29";
    assert DigitsValue("2024") == 2024 by {
      assert "2024"[..3] == "202" && "202"[..2] == "20" && "20"[..1] == "2" && "2"[..0] == [];
    }
    assert DigitsValue("2023") == 2023 by {
      assert "2023"[..3] == "202" && "202"[..2] == "20" && "20"[..1] == "2" && "2"[..0] == [];
    }
    assert DigitsValue("02") == 2 by { assert "02"[..1] == "0" && "0"[..0] == []; }
    assert DigitsValue("29") == 29 by { assert "29"[..1] == "2" && "2"[..0] == []; }
  }
}
