/** The text primitives the run log relies on from the Java library:
    ASCII decimal digits, `"" + n` for a non-negative `int`, `Integer.parseInt`
    on digit strings, `String.split(":")`, `String.trim()` and `String.isBlank()`. */
module Text {
  import opened Wrappers

  /** Largest Java `int` (`Integer.MAX_VALUE`). */
  const MaxInt: int := 0x7FFF_FFFF

  predicate IsDigit(c: char) { '0' <= c <= '9' }

  predicate AllDigits(s: string) { forall i :: 0 <= i < |s| ==> IsDigit(s[i]) }

  function DigitValue(c: char): (d: nat)
    requires IsDigit(c)
    ensures d < 10
  {
    (c as int) - ('0' as int)
  }

  function DigitChar(d: nat): (c: char)
    requires d < 10
    ensures IsDigit(c) && DigitValue(c) == d
  {
    (('0' as int) + d) as char
  }

  /** The number a string of decimal digits denotes (leading zeros allowed). */
  function DigitsValue(s: string): nat
    requires AllDigits(s)
  {
    if s == [] then 0 else 10 * DigitsValue(s[..|s| - 1]) + DigitValue(s[|s| - 1])
  }

  /** Java's `"" + n` for a non-negative `n`: decimal digits, no leading zero. */
  function NatToString(n: nat): (s: string)
    ensures 1 <= |s| && AllDigits(s)
    ensures |s| == 1 <==> n < 10
  {
    if n < 10 then [DigitChar(n)] else NatToString(n / 10) + [DigitChar(n % 10)]
  }

  /** Printing a number and reading it back gives the number. */
  lemma {:induction false} NatToStringValue(n: nat)
    ensures DigitsValue(NatToString(n)) == n
  {
    if n >= 10 {
      NatToStringValue(n / 10);
      var s := NatToString(n);
      assert s[..|s| - 1] == NatToString(n / 10);
    }
  }

  /** `Integer.parseInt` on a string of ASCII digits: fails (NumberFormatException)
      on the empty string and on values above `Integer.MAX_VALUE`. */
  function ParseInt(s: string): (r: Option<int>)
    ensures r.Some? <==> s != [] && AllDigits(s) && DigitsValue(s) <= MaxInt
    ensures r.Some? ==> 0 <= r.value <= MaxInt && r.value == DigitsValue(s)
  {
    if s != [] && AllDigits(s) && DigitsValue(s) <= MaxInt then Some(DigitsValue(s)) else None
  }

  /** `Integer.parseInt` reads back the decimal text of every `int` value
      that is not negative. */
  lemma ParseIntNatToString(n: nat)
    requires n <= MaxInt
    ensures ParseInt(NatToString(n)) == Some(n)
  {
    NatToStringValue(n);
  }

  /** Every field between colons, empty ones included: `"a::b:"` gives
      `["a", "", "b", ""]`. */
  function SplitFields(s: string): (r: seq<string>)
    ensures |r| >= 1
    ensures forall i :: 0 <= i < |r| ==> ':' !in r[i]
  {
    if s == [] then [[]]
    else
      var rest := SplitFields(s[1..]);
      if s[0] == ':' then [[]] + rest else [[s[0]] + rest[0]] + rest[1..]
  }

  /** The fields put back together with colons between them. */
  function JoinFields(fields: seq<string>): string
    requires |fields| >= 1
  {
    if |fields| == 1 then fields[0] else fields[0] + ":" + JoinFields(fields[1..])
  }

  /** Splitting loses nothing: joining the fields gives the text back. */
  lemma {:induction false} JoinSplitFields(s: string)
    ensures JoinFields(SplitFields(s)) == s
  {
    if s != [] {
      JoinSplitFields(s[1..]);
      var rest := SplitFields(s[1..]);
      if s[0] == ':' {
        assert [s[0]] + s[1..] == s;
      } else {
        assert |rest| == 1 ==> SplitFields(s) == [[s[0]] + rest[0]];
        assert |rest| > 1 ==> SplitFields(s)[1..] == rest[1..];
        assert [s[0]] + s[1..] == s;
      }
    }
  }

  /** A text without colons is a single field. */
  lemma {:induction false} SplitFieldsSingle(s: string)
    requires ':' !in s
    ensures SplitFields(s) == [s]
  {
    if s != [] {
      SplitFieldsSingle(s[1..]);
      assert [s[0]] + s[1..] == s;
    }
  }

  /** A colon-free field followed by a colon is split off unchanged. */
  lemma {:induction false} SplitFieldsCons(a: string, b: string)
    requires ':' !in a
    ensures SplitFields(a + ":" + b) == [a] + SplitFields(b)
  {
    if a == [] {
      assert a + ":" + b == [':'] + b;
      assert (a + ":" + b)[1..] == b;
    } else {
      SplitFieldsCons(a[1..], b);
      assert (a + ":" + b)[1..] == a[1..] + ":" + b;
      assert [a[0]] + a[1..] == a;
    }
  }

  /** Splitting the join of colon-free fields gives the fields back. */
  lemma {:induction false} SplitJoinFields(fields: seq<string>)
    requires |fields| >= 1
    requires forall i :: 0 <= i < |fields| ==> ':' !in fields[i]
    ensures SplitFields(JoinFields(fields)) == fields
  {
    if |fields| == 1 {
      SplitFieldsSingle(fields[0]);
    } else {
      SplitJoinFields(fields[1..]);
      SplitFieldsCons(fields[0], JoinFields(fields[1..]));
      assert [fields[0]] + fields[1..] == fields;
    }
  }

  /** The fields with every trailing empty field removed. */
  function DropTrailingEmpty(fields: seq<string>): (r: seq<string>)
    ensures |r| <= |fields| && r == fields[..|r|]
    ensures r != [] ==> r[|r| - 1] != []
    ensures forall i :: |r| <= i < |fields| ==> fields[i] == []
  {
    if fields == [] then []
    else if fields[|fields| - 1] == [] then DropTrailingEmpty(fields[..|fields| - 1])
    else fields
  }

  /** Java's `text.split(":")`: when no colon occurs the result is the text
      itself (even when it is empty); otherwise every field, with the trailing
      empty ones removed (so `":::"` gives no field at all). */
  function JavaSplit(text: string): (r: seq<string>)
    ensures forall i :: 0 <= i < |r| ==> ':' !in r[i]
  {
    var parts := SplitFields(text);
    if |parts| == 1 then parts else DropTrailingEmpty(parts)
  }

  /** Fields of which the last is non-empty are exactly what `split(":")`
      returns for their join. */
  lemma JavaSplitJoin(fields: seq<string>)
    requires |fields| >= 1 && fields[|fields| - 1] != []
    requires forall i :: 0 <= i < |fields| ==> ':' !in fields[i]
    ensures JavaSplit(JoinFields(fields)) == fields
  {
    SplitJoinFields(fields);
  }

  /** Where the first field ends: the index of the first colon, or the
      length when there is none. */
  function FieldEnd(s: string): (k: nat)
    ensures k <= |s|
  {
    if s == [] || s[0] == ':' then 0 else 1 + FieldEnd(s[1..])
  }

  /** The first field of the split is the text up to the first colon, and
      the fields after it are those of the text after that colon. */
  lemma {:induction false} SplitFieldsHead(s: string)
    ensures SplitFields(s)[0] == s[..FieldEnd(s)]
    ensures FieldEnd(s) < |s| ==> s[FieldEnd(s)] == ':' && SplitFields(s)[1..] == SplitFields(s[FieldEnd(s) + 1..])
    ensures FieldEnd(s) == |s| ==> SplitFields(s) == [s]
  {
    if s != [] && s[0] != ':' {
      SplitFieldsHead(s[1..]);
      assert s[1..][..FieldEnd(s[1..])] == s[1..FieldEnd(s)];
      assert s[..FieldEnd(s)] == [s[0]] + s[1..FieldEnd(s)];
      if FieldEnd(s) < |s| {
        assert s[FieldEnd(s) + 1..] == s[1..][FieldEnd(s[1..]) + 1..];
      } else {
        assert [s[0]] + s[1..] == s;
      }
    }
  }

  /** A digit string followed by more text: the first field ends right after
      the digits when a colon follows them. */
  lemma {:induction false} FieldEndAfterDigits(d: string, t: string)
    requires AllDigits(d)
    ensures FieldEnd(d + t) == |d| + FieldEnd(t)
  {
    if d != [] {
      FieldEndAfterDigits(d[1..], t);
      assert (d + t)[1..] == d[1..] + t;
    } else {
      assert d + t == t;
    }
  }

  /** `Character.isWhitespace`: the Unicode space, line and paragraph
      separators other than the no-break spaces, and the ASCII controls
      U+0009..U+000D and U+001C..U+001F. */
  predicate IsJavaWhitespace(c: char)
  {
    c == ' ' || ('\t' <= c <= '\r') || ('\U{1C}' <= c <= '\U{1F}')
    || c == '\U{1680}' || ('\U{2000}' <= c <= '\U{2006}') || ('\U{2008}' <= c <= '\U{200A}')
    || c == '\U{2028}' || c == '\U{2029}' || c == '\U{205F}' || c == '\U{3000}'
  }

  /** `String.trim()`: removes leading and trailing characters up to U+0020. */
  function Trim(s: string): (r: string)
  {
    TrimEnd(TrimStart(s))
  }

  function TrimStart(s: string): (r: string)
    ensures |r| <= |s| && r == s[|s| - |r|..]
    ensures forall i :: 0 <= i < |s| - |r| ==> s[i] <= ' '
  {
    if s != [] && s[0] <= ' ' then TrimStart(s[1..]) else s
  }

  function TrimEnd(s: string): (r: string)
    ensures |r| <= |s| && r == s[..|r|]
    ensures forall i :: |r| <= i < |s| ==> s[i] <= ' '
  {
    if s != [] && s[|s| - 1] <= ' ' then TrimEnd(s[..|s| - 1]) else s
  }

  /** `text.trim().isBlank()`: what is left after trimming is all whitespace. */
  predicate IsBlank(text: string)
  {
    forall c :: c in Trim(text) ==> IsJavaWhitespace(c)
  }

  /** A text holding a digit is never blank: trimming keeps the digit and a
      digit is not whitespace. */
  lemma DigitMakesNonBlank(text: string, i: nat)
    requires i < |text| && IsDigit(text[i])
    ensures !IsBlank(text)
  {
    var t := TrimStart(text);
    var k := |text| - |t|;
    assert i >= k;
    assert t[i - k] == text[i];
    var u := TrimEnd(t);
    assert i - k < |u|;
    assert u[i - k] == text[i];
    assert text[i] in Trim(text);
    assert !IsJavaWhitespace(text[i]);
  }
}
