/** The collection of runs (RunStorage.java): a list kept in ascending date
    order by appending and stably sorting, a size counter, the fastest and the
    longest run kept up to date on every addition and rescanned on removal,
    a binary search by date and the "latest seven" sub-collection. */
module Ledger {
  import opened Wrappers
  import opened Text
  import opened Dates
  import opened Runs

  // ---------------------------------------------------------------------
  // comparePace

  /** The two numbers a pace text holds. */
  function PaceNumbers(pace: PaceText): Pace
  {
    ParsePace(pace).value
  }

  /** The order `comparePace` decides: fewer minutes, or the same minutes
      and fewer seconds. */
  predicate Faster(p: Pace, q: Pace)
  {
    p.minutes < q.minutes || (p.minutes == q.minutes && p.seconds < q.seconds)
  }

  /** `comparePace`: 1 when the first pace is faster, -1 when it is slower and
      0 when both numbers agree. */
  function ComparePace(pace1: PaceText, pace2: PaceText): (c: int)
    ensures -1 <= c <= 1
    ensures c == 1 <==> Faster(PaceNumbers(pace1), PaceNumbers(pace2))
    ensures c == -1 <==> Faster(PaceNumbers(pace2), PaceNumbers(pace1))
    ensures c == 0 <==> PaceNumbers(pace1) == PaceNumbers(pace2)
  {
    var one, two := PaceNumbers(pace1), PaceNumbers(pace2);
    if one.minutes < two.minutes then 1
    else if one.minutes > two.minutes then -1
    else if one.seconds < two.seconds then 1
    else if one.seconds > two.seconds then -1
    else 0
  }

  /** Swapping the arguments negates the answer, and "not slower" is
      transitive. */
  lemma ComparePaceOrder(a: PaceText, b: PaceText, c: PaceText)
    ensures ComparePace(a, b) == -ComparePace(b, a)
    ensures ComparePace(a, b) >= 0 && ComparePace(b, c) >= 0 ==> ComparePace(a, c) >= 0
    ensures ComparePace(a, b) > 0 && ComparePace(b, c) >= 0 ==> ComparePace(a, c) > 0
  {
    var pa, pb, pc := PaceNumbers(a), PaceNumbers(b), PaceNumbers(c);
    if ComparePace(a, b) >= 0 && ComparePace(b, c) >= 0 {
      assert !Faster(pb, pa) && !Faster(pc, pb);
    }
  }

  /** Pace texts computed from runs compare as the paces they print. */
  lemma ComparePaceOfRuns(t1: LocalTime, d1: real, t2: LocalTime, d2: real)
    requires ValidLocalTime(t1) && d1 >= MinDistance && ValidLocalTime(t2) && d2 >= MinDistance
    ensures ComparePace(CalculatePace(t1, d1), CalculatePace(t2, d2)) == 1
            <==> Faster(PaceOf(t1, d1), PaceOf(t2, d2))
  {
  }

  // ---------------------------------------------------------------------
  // Date order of the list

  /** The dates of a list of runs, in list order. */
  function DatesOf(s: seq<Run>): (ds: seq<Date>)
    ensures |ds| == |s| && forall i :: 0 <= i < |s| ==> ds[i] == s[i].runDate
  {
    seq(|s|, i requires 0 <= i < |s| => s[i].runDate)
  }

  predicate SortedByDate(s: seq<Run>)
  {
    forall i, j :: 0 <= i < j < |s| ==> s[i].runDate <= s[j].runDate
  }

  /** The runs of `s` dated `d`, in list order. */
  function OnDate(s: seq<Run>, d: Date): seq<Run>
  {
    if s == [] then []
    else OnDate(s[..|s| - 1], d) + (if s[|s| - 1].runDate == d then [s[|s| - 1]] else [])
  }

  /** `runStorage.add(x)` followed by the stable `Collections.sort`: on a
      date-sorted list the new run ends up after every run with a date not
      later than its own (see `InsertAfterEqualsShape`). */
  function InsertAfterEquals(s: seq<Run>, x: Run): (r: seq<Run>)
    ensures |r| == |s| + 1
    ensures multiset(r) == multiset(s) + multiset{x}
  {
    if s == [] || s[|s| - 1].runDate <= x.runDate then s + [x]
    else
      var init, last := s[..|s| - 1], s[|s| - 1];
      assert s == init + [last];
      InsertAfterEquals(init, x) + [last]
  }

  /** The inserted run sits between the runs dated no later than it and the
      runs dated after it; the order of the others is unchanged. */
  lemma {:induction false} InsertAfterEqualsShape(s: seq<Run>, x: Run) returns (k: nat)
    requires SortedByDate(s)
    ensures k <= |s| && InsertAfterEquals(s, x) == s[..k] + [x] + s[k..]
    ensures forall i :: 0 <= i < k ==> s[i].runDate <= x.runDate
    ensures forall i :: k <= i < |s| ==> s[i].runDate > x.runDate
  {
    var n := |s|;
    if s == [] || s[n - 1].runDate <= x.runDate {
      k := n;
      assert s[..k] == s && s[k..] == [];
      forall i | 0 <= i < k ensures s[i].runDate <= x.runDate {
        if i < n - 1 {
          assert s[i].runDate <= s[n - 1].runDate;
        }
      }
    } else {
      var init, last := s[..n - 1], s[n - 1];
      SortedInit(s);
      k := InsertAfterEqualsShape(init, x);
      assert InsertAfterEquals(s, x) == InsertAfterEquals(init, x) + [last];
      SpliceBeforeLast(s, k, x);
      forall i | 0 <= i < k ensures s[i].runDate <= x.runDate {
        assert s[i] == init[i];
      }
      forall i | k <= i < n ensures s[i].runDate > x.runDate {
        if i < n - 1 {
          assert s[i] == init[i];
        }
      }
    }
  }

  /** Splicing a run into all but the last element of a list. */
  lemma SpliceBeforeLast(s: seq<Run>, k: nat, x: Run)
    requires k < |s|
    ensures s[..|s| - 1][..k] + [x] + s[..|s| - 1][k..] + [s[|s| - 1]] == s[..k] + [x] + s[k..]
  {
    var init := s[..|s| - 1];
    assert s[..k] == init[..k];
    assert s[k..] == init[k..] + [s[|s| - 1]];
  }

  /** Inserting into a date-sorted list keeps it sorted. */
  lemma InsertAfterEqualsSorted(s: seq<Run>, x: Run)
    requires SortedByDate(s)
    ensures SortedByDate(InsertAfterEquals(s, x))
  {
    var k := InsertAfterEqualsShape(s, x);
    var r := InsertAfterEquals(s, x);
    forall i, j | 0 <= i < j < |r| ensures r[i].runDate <= r[j].runDate {
      var i', j' := if i < k then i else i - 1, if j < k then j else j - 1;
      if i != k && j != k {
        assert r[i] == s[i'] && r[j] == s[j'];
      } else if i == k {
        assert r[j] == s[j'];
      } else {
        assert r[i] == s[i'];
      }
    }
  }

  /** Stability: among runs of one date the new run comes last and the others
      keep their order. */
  lemma {:induction false} InsertAfterEqualsStable(s: seq<Run>, x: Run, d: Date)
    ensures OnDate(InsertAfterEquals(s, x), d) == OnDate(s, d) + (if x.runDate == d then [x] else [])
  {
    if s == [] || s[|s| - 1].runDate <= x.runDate {
      OnDateSnoc(s, x, d);
    } else {
      var init, last := s[..|s| - 1], s[|s| - 1];
      var mid := InsertAfterEquals(init, x);
      InsertAfterEqualsStable(init, x, d);
      OnDateSnoc(mid, last, d);
      OnDateSnoc(init, last, d);
      assert s == init + [last];
    }
  }

  /** The runs of date `d` in a list with one more run at its end. */
  lemma OnDateSnoc(s: seq<Run>, y: Run, d: Date)
    ensures OnDate(s + [y], d) == OnDate(s, d) + (if y.runDate == d then [y] else [])
  {
    assert (s + [y])[..|s|] == s;
  }

  /** A run dated no earlier than every stored run is appended. */
  lemma InsertAfterLatest(s: seq<Run>, x: Run)
    requires SortedByDate(s)
    requires forall i :: 0 <= i < |s| ==> s[i].runDate <= x.runDate
    ensures InsertAfterEquals(s, x) == s + [x]
  {
  }

  /** Copying a date-sorted list run by run in order appends each run. */
  lemma AppendNext(s: seq<Run>, i: nat)
    requires SortedByDate(s) && i < |s|
    ensures InsertAfterEquals(s[..i], s[i]) == s[..i + 1]
  {
    var p := s[..i];
    assert forall j :: 0 <= j < i ==> p[j] == s[j];
    assert SortedByDate(p);
    InsertAfterLatest(p, s[i]);
    assert s[..i + 1] == p + [s[i]];
  }

  lemma DatesOfAppend(s: seq<Run>, x: Run)
    ensures DatesOf(s + [x]) == DatesOf(s) + [x.runDate]
  {
    assert (s + [x])[..|s|] == s;
  }

  /** A date-sorted list whose last run is dated no later than `d`, and
      whose runs are all dated no earlier than `d`, holds runs of date `d`
      only. */
  lemma AllOnOneDate(s: seq<Run>, d: Date)
    requires SortedByDate(s) && s != [] && s[|s| - 1].runDate <= d
    requires forall i :: 0 <= i < |s| ==> d <= s[i].runDate
    ensures DatesOf(s + [s[0]]) == [d] + DatesOf(s)
  {
    var n := |s|;
    forall i | 0 <= i < n ensures s[i].runDate == d {
      if i < n - 1 {
        assert s[i].runDate <= s[n - 1].runDate;
      }
    }
    var a, b := DatesOf(s + [s[0]]), [d] + DatesOf(s);
    forall i | 0 <= i < |a| ensures a[i] == b[i] {
      if i < n {
        assert a[i] == s[i].runDate;
      }
      if i > 0 {
        assert b[i] == s[i - 1].runDate;
      }
    }
  }

  /** A run dated no later than every stored run goes in front as far as the
      dates are concerned. */
  lemma {:induction false} InsertBeforeEarliest(s: seq<Run>, x: Run)
    requires SortedByDate(s)
    requires forall i :: 0 <= i < |s| ==> x.runDate <= s[i].runDate
    ensures DatesOf(InsertAfterEquals(s, x)) == [x.runDate] + DatesOf(s)
    decreases |s|, 1
  {
    var n := |s|;
    if s == [] {
      assert InsertAfterEquals(s, x) == [x];
    } else if s[n - 1].runDate <= x.runDate {
      AllOnOneDate(s, x.runDate);
      DatesOfAppend(s, s[0]);
      DatesOfAppend(s, x);
    } else {
      InsertBeforeEarliestStep(s, x);
    }
  }

  /** The inductive step of `InsertBeforeEarliest`: the last run is dated
      after the new one and stays last. */
  lemma {:induction false} InsertBeforeEarliestStep(s: seq<Run>, x: Run)
    requires SortedByDate(s) && s != [] && s[|s| - 1].runDate > x.runDate
    requires forall i :: 0 <= i < |s| ==> x.runDate <= s[i].runDate
    ensures DatesOf(InsertAfterEquals(s, x)) == [x.runDate] + DatesOf(s)
    decreases |s|, 0
  {
    var n := |s|;
    var init, last := s[..n - 1], s[n - 1];
    var mid := InsertAfterEquals(init, x);
    assert InsertAfterEquals(s, x) == mid + [last];
    DatesOfAppend(mid, last);
    DatesOfAppend(init, last);
    assert s == init + [last];
    SortedInit(s);
    assert forall i :: 0 <= i < |init| ==> x.runDate <= init[i].runDate by {
      assert forall i :: 0 <= i < |init| ==> init[i] == s[i];
    }
    InsertBeforeEarliest(init, x);
  }

  lemma SortedInit(s: seq<Run>)
    requires SortedByDate(s) && s != []
    ensures SortedByDate(s[..|s| - 1])
  {
    var init := s[..|s| - 1];
    forall i, j | 0 <= i < j < |init| ensures init[i].runDate <= init[j].runDate {
      assert init[i] == s[i] && init[j] == s[j];
    }
  }

  /** Removing one run keeps the list sorted. */
  lemma RemoveKeepsSorted(s: seq<Run>, i: nat)
    requires i < |s| && SortedByDate(s)
    ensures SortedByDate(RemoveAt(s, i))
  {
    var r := RemoveAt(s, i);
    RemoveAtIndex(s, i);
    forall a, b | 0 <= a < b < |r| ensures r[a].runDate <= r[b].runDate {
      var a', b' := if a < i then a else a + 1, if b < i then b else b + 1;
      assert r[a] == s[a'] && r[b] == s[b'];
    }
  }

  // ---------------------------------------------------------------------
  // findRun

  /** The binary search of `findRun` over `s[low..high]` (both ends
      included): the index of a run dated `d`, or -1. */
  function Probe(s: seq<Run>, d: Date, low: int, high: int): (i: int)
    requires 0 <= low <= high + 1 <= |s|
    ensures i == -1 || (low <= i <= high && s[i].runDate == d)
    ensures SortedByDate(s) && i == -1 ==> forall j :: low <= j <= high ==> s[j].runDate != d
    decreases high - low + 1
  {
    if low > high then -1
    else
      var mid := low + (high - low) / 2;
      if s[mid].runDate == d then mid
      else if s[mid].runDate < d then Probe(s, d, mid + 1, high)
      else Probe(s, d, low, mid - 1)
  }

  /** The search over the whole list. */
  function Search(s: seq<Run>, d: Date): (i: int)
    ensures i == -1 || (0 <= i < |s| && s[i].runDate == d)
    ensures SortedByDate(s) ==> (i == -1 <==> forall r :: r in s ==> r.runDate != d)
  {
    Probe(s, d, 0, |s| - 1)
  }

  /** Three runs entered on one day: the search answers the second, not the
      first entered as the documentation of `getRun` claims. */
  lemma SearchTieBreak(x: Run, y: Run, z: Run)
    requires x.runDate == y.runDate == z.runDate
    ensures InsertAfterEquals(InsertAfterEquals(InsertAfterEquals([], x), y), z) == [x, y, z]
    ensures Search([x, y, z], x.runDate) == 1
  {
    InsertThreeOnOneDate(x, y, z);
    SearchThreeOnOneDate(x, y, z);
  }

  /** Runs of one date are appended in the order they are added. */
  lemma InsertThreeOnOneDate(x: Run, y: Run, z: Run)
    requires x.runDate == y.runDate == z.runDate
    ensures InsertAfterEquals(InsertAfterEquals(InsertAfterEquals([], x), y), z) == [x, y, z]
  {
    assert InsertAfterEquals([], x) == [x];
    assert InsertAfterEquals([x], y) == [x, y];
  }

  /** The first probe of three runs of one date is the middle one. */
  lemma SearchThreeOnOneDate(x: Run, y: Run, z: Run)
    requires x.runDate == y.runDate == z.runDate
    ensures Search([x, y, z], x.runDate) == 1
  {
    assert Probe([x, y, z], x.runDate, 0, 2) == 1;
  }

  // ---------------------------------------------------------------------
  // The scans of setFastest and setLongest

  /** The pace numbers of a run. */
  function PaceOfRun(r: Run): Pace
    reads r
  {
    PaceNumbers(r.paceOfRun)
  }

  /** The index `setFastest`'s scan of the first `n` runs settles on: it
      moves only to a strictly faster run. */
  function FastestIndex(s: seq<Run>, n: nat): (k: nat)
    requires 1 <= n <= |s|
    reads s
    ensures k < n
  {
    if n == 1 then 0
    else
      var k := FastestIndex(s, n - 1);
      if ComparePace(s[k].paceOfRun, s[n - 1].paceOfRun) < 0 then n - 1 else k
  }

  /** The scan finds the first of the fastest runs: none of the first `n`
      is faster, and every run before it is slower. */
  lemma {:induction false} FastestIndexIsFirstFastest(s: seq<Run>, n: nat)
    requires 1 <= n <= |s|
    ensures var k := FastestIndex(s, n);
            && (forall j :: 0 <= j < n ==> !Faster(PaceOfRun(s[j]), PaceOfRun(s[k])))
            && (forall j :: 0 <= j < k ==> Faster(PaceOfRun(s[k]), PaceOfRun(s[j])))
  {
    if n > 1 {
      FastestIndexIsFirstFastest(s, n - 1);
    }
  }

  /** The index `setLongest`'s scan of the first `n` runs settles on: it
      moves only to a strictly longer run. */
  function LongestIndex(s: seq<Run>, n: nat): (k: nat)
    requires 1 <= n <= |s|
    ensures k < n
    ensures forall j :: 0 <= j < n ==> s[j].distance <= s[k].distance
    ensures forall j :: 0 <= j < k ==> s[j].distance < s[k].distance
  {
    if n == 1 then 0
    else
      var k := LongestIndex(s, n - 1);
      if s[n - 1].distance > s[k].distance then n - 1 else k
  }

  /** The fastest of the first `n` runs, `null` for none. */
  function FastestOf(s: seq<Run>, n: nat): (r: Run?)
    requires n <= |s|
    reads s
    ensures r == null <==> n == 0
  {
    if n == 0 then null else s[FastestIndex(s, n)]
  }

  /** The longest of the first `n` runs, `null` for none. */
  function LongestOf(s: seq<Run>, n: nat): (r: Run?)
    requires n <= |s|
    ensures r == null <==> n == 0
  {
    if n == 0 then null else s[LongestIndex(s, n)]
  }

  /** The rescanned fastest of the first `n` runs is one of them, and none
      of them is faster. */
  lemma FastestOfIsFastest(s: seq<Run>, n: nat)
    requires 1 <= n <= |s|
    ensures FastestOf(s, n) in s[..n]
    ensures forall j :: 0 <= j < n ==> !Faster(PaceOfRun(s[j]), PaceOfRun(FastestOf(s, n)))
  {
    FastestIndexIsFirstFastest(s, n);
    assert s[FastestIndex(s, n)] == s[..n][FastestIndex(s, n)];
  }

  /** The rescanned longest of the first `n` runs is one of them, and none
      of them is longer. */
  lemma LongestOfIsLongest(s: seq<Run>, n: nat)
    requires 1 <= n <= |s|
    ensures LongestOf(s, n) in s[..n]
    ensures forall j :: 0 <= j < n ==> s[j].distance <= LongestOf(s, n).distance
  {
    assert s[LongestIndex(s, n)] == s[..n][LongestIndex(s, n)];
  }

  /** Removing the run at index `i`. */
  function RemoveAt(s: seq<Run>, i: nat): (r: seq<Run>)
    requires i < |s|
    ensures |r| == |s| - 1
  {
    s[..i] + s[i + 1..]
  }

  /** The runs before the removed one keep their places and the runs after
      it move one place forward. */
  lemma RemoveAtIndex(s: seq<Run>, i: nat)
    requires i < |s|
    ensures forall j :: 0 <= j < |s| - 1 ==> RemoveAt(s, i)[j] == if j < i then s[j] else s[j + 1]
  {
    var r := RemoveAt(s, i);
    forall j | 0 <= j < |s| - 1 ensures r[j] == if j < i then s[j] else s[j + 1] {
      if j < i {
        assert r[j] == s[..i][j];
      } else {
        assert r[j] == s[i + 1..][j - i];
      }
    }
  }

  /** The runs left after a removal are stored runs. */
  lemma RemoveAtFrom(s: seq<Run>, i: nat, y: Run)
    requires i < |s| && y in RemoveAt(s, i)
    ensures y in s
  {
    assert multiset(s) == multiset(s[..i]) + multiset([s[i]]) + multiset(s[i + 1..]) by {
      assert s == s[..i] + [s[i]] + s[i + 1..];
    }
    assert y in multiset(RemoveAt(s, i));
  }

  /** Every stored run other than the removed one is left. */
  lemma RemoveAtKeeps(s: seq<Run>, i: nat, y: Run)
    requires i < |s| && y in s && y != s[i]
    ensures y in RemoveAt(s, i)
  {
    var r := RemoveAt(s, i);
    RemoveAtIndex(s, i);
    var k :| 0 <= k < |s| && s[k] == y;
    if k < i {
      assert r[k] == y;
    } else {
      assert r[k - 1] == y;
    }
  }

  /** A run of the list after an insertion is a stored run or the new one. */
  lemma InsertAfterEqualsMember(s: seq<Run>, x: Run, y: Run)
    requires y in InsertAfterEquals(s, x)
    ensures y in s || y == x
  {
    assert y in multiset(InsertAfterEquals(s, x));
  }

  /** `f` and `l` are stored runs of the fastest pace and of the greatest
      distance in `s`; an empty list constrains nothing. */
  ghost predicate ExactFor(s: seq<Run>, f: Run?, l: Run?)
    reads s, f
  {
    s != [] ==>
      && f != null && l != null && f in s && l in s
      && (forall r :: r in s ==> r.distance <= l.distance)
      && (forall r :: r in s ==> !Faster(PaceOfRun(r), PaceOfRun(f)))
  }

  /** The incremental update of `addRun` keeps exact aggregates exact: a
      new run that is not strictly longer (faster) than the current holder
      is not longer (faster) than any stored run. */
  lemma AddKeepsExact(s: seq<Run>, f: Run?, l: Run?, x: Run, f': Run?, l': Run?)
    requires ExactFor(s, f, l)
    requires s == [] ==> f' == x && l' == x
    requires s != [] ==> l' == (if l.distance < x.distance then x else l)
    requires s != [] ==> f' == (if Faster(PaceOfRun(x), PaceOfRun(f)) then x else f)
    ensures ExactFor(InsertAfterEquals(s, x), f', l')
  {
    var r := InsertAfterEquals(s, x);
    if s != [] {
      assert f' in multiset(r) && l' in multiset(r);
      assert x.distance <= l'.distance && l.distance <= l'.distance;
      forall y: Run | y in r ensures y.distance <= l'.distance {
        InsertAfterEqualsMember(s, x, y);
      }
      var px, pf := PaceOfRun(x), PaceOfRun(f);
      assert !Faster(px, PaceOfRun(f')) && !Faster(pf, PaceOfRun(f'));
      forall y: Run | y in r ensures !Faster(PaceOfRun(y), PaceOfRun(f')) {
        InsertAfterEqualsMember(s, x, y);
        if y != x {
          assert !Faster(PaceOfRun(y), pf);
        }
      }
    }
  }

  /** Removing a run and rescanning whichever aggregate was that run keeps
      exact aggregates exact. */
  lemma RemoveKeepsExact(s: seq<Run>, i: nat, f: Run?, l: Run?, f': Run?, l': Run?)
    requires i < |s| && ExactFor(s, f, l)
    requires f' == (if f == s[i] then FastestOf(RemoveAt(s, i), |s| - 1) else f)
    requires l' == (if l == s[i] then LongestOf(RemoveAt(s, i), |s| - 1) else l)
    ensures ExactFor(RemoveAt(s, i), f', l')
  {
    if RemoveAt(s, i) != [] {
      RemoveKeepsFastest(s, i, f, f');
      RemoveKeepsLongest(s, i, l, l');
    }
  }

  /** The fastest-run half of `RemoveKeepsExact`. */
  lemma RemoveKeepsFastest(s: seq<Run>, i: nat, f: Run, f': Run?)
    requires i < |s| && |s| > 1 && f in s
    requires forall y :: y in s ==> !Faster(PaceOfRun(y), PaceOfRun(f))
    requires f' == (if f == s[i] then FastestOf(RemoveAt(s, i), |s| - 1) else f)
    ensures f' != null && f' in RemoveAt(s, i)
    ensures forall y :: y in RemoveAt(s, i) ==> !Faster(PaceOfRun(y), PaceOfRun(f'))
  {
    var r := RemoveAt(s, i);
    if f == s[i] {
      RescannedFastest(r);
    } else {
      RemoveAtKeeps(s, i, f);
      forall y | y in r ensures !Faster(PaceOfRun(y), PaceOfRun(f')) {
        RemoveAtFrom(s, i, y);
      }
    }
  }

  /** The longest-run half of `RemoveKeepsExact`. */
  lemma RemoveKeepsLongest(s: seq<Run>, i: nat, l: Run, l': Run?)
    requires i < |s| && |s| > 1 && l in s
    requires forall y :: y in s ==> y.distance <= l.distance
    requires l' == (if l == s[i] then LongestOf(RemoveAt(s, i), |s| - 1) else l)
    ensures l' != null && l' in RemoveAt(s, i)
    ensures forall y :: y in RemoveAt(s, i) ==> y.distance <= l'.distance
  {
    var r := RemoveAt(s, i);
    if l == s[i] {
      RescannedLongest(r);
    } else {
      RemoveAtKeeps(s, i, l);
      forall y | y in r ensures y.distance <= l'.distance {
        RemoveAtFrom(s, i, y);
      }
    }
  }

  /** A rescan finds a stored run that no stored run is faster than. */
  lemma RescannedFastest(r: seq<Run>)
    requires r != []
    ensures FastestOf(r, |r|) in r
    ensures forall y :: y in r ==> !Faster(PaceOfRun(y), PaceOfRun(FastestOf(r, |r|)))
  {
    FastestIndexIsFirstFastest(r, |r|);
    forall y | y in r ensures !Faster(PaceOfRun(y), PaceOfRun(FastestOf(r, |r|))) {
      var j :| 0 <= j < |r| && r[j] == y;
    }
  }

  /** A rescan finds a stored run that no stored run is longer than. */
  lemma RescannedLongest(r: seq<Run>)
    requires r != []
    ensures LongestOf(r, |r|) in r
    ensures forall y :: y in r ==> y.distance <= LongestOf(r, |r|).distance
  {
    forall y | y in r ensures y.distance <= LongestOf(r, |r|).distance {
      var j :| 0 <= j < |r| && r[j] == y;
    }
  }

  /** `t` holds the runs of `u`, and its dates come in the order of `u`'s:
      the two lists differ at most in the order of runs of one date. */
  ghost predicate SameRunsAndDates(t: seq<Run>, u: seq<Run>)
  {
    multiset(t) == multiset(u) && DatesOf(t) == DatesOf(u)
  }

  /** One step of `getLatest7`'s descending loop: the run at `i` is dated no
      later than those already copied, so it goes in front of them. */
  lemma LatestStep(s: seq<Run>, i: nat, t: seq<Run>)
    requires i < |s| && SortedByDate(s) && SortedByDate(t)
    requires SameRunsAndDates(t, s[i + 1..])
    ensures SameRunsAndDates(InsertAfterEquals(t, s[i]), s[i..])
  {
    var x, rest := s[i], s[i + 1..];
    SliceCons(s, i);
    EarlierThanRest(s, i, t);
    InsertBeforeEarliest(t, x);
    DatesOfPrepend(x, rest);
  }

  /** The run at `i` of a date-sorted list is dated no later than any run of
      a list with the dates of the runs after it. */
  lemma EarlierThanRest(s: seq<Run>, i: nat, t: seq<Run>)
    requires i < |s| && SortedByDate(s) && DatesOf(t) == DatesOf(s[i + 1..])
    ensures forall j :: 0 <= j < |t| ==> s[i].runDate <= t[j].runDate
  {
    forall j | 0 <= j < |t| ensures s[i].runDate <= t[j].runDate {
      assert t[j].runDate == DatesOf(t)[j] == DatesOf(s[i + 1..])[j] == s[i + 1 + j].runDate;
    }
  }

  lemma SliceCons(s: seq<Run>, i: nat)
    requires i < |s|
    ensures s[i..] == [s[i]] + s[i + 1..]
  {
  }

  lemma DatesOfPrepend(x: Run, s: seq<Run>)
    ensures DatesOf([x] + s) == [x.runDate] + DatesOf(s)
  {
    var a, b := DatesOf([x] + s), [x.runDate] + DatesOf(s);
    assert |a| == |b|;
    forall j | 0 <= j < |a| ensures a[j] == b[j] {
      if j > 0 {
        assert ([x] + s)[j] == s[j - 1];
      }
    }
  }

  lemma ProbeTimeText()
    ensures JoinFields([Padded(0, 2), Padded(10, 2), Padded(0, 2)]) == "00:10:00"
  {
    assert Padded(0, 1) == "0" && Padded(1, 1) == "1";
    assert Padded(0, 2) == "00" && Padded(10, 2) == "10";
  }

  /** Why `getRun` cannot fail on its probe's time text. */
  lemma ProbeTimeAccepted()
    ensures CheckRunInputs(Some(1.0), Some("00:10:00")) == Success(LocalTime(0, 10, 0))
  {
    ParseRunTimeHms(LocalTime(0, 10, 0));
    ProbeTimeText();
  }

  /** The exceptions `getRun` throws. */
  datatype LookupError =
    | DateMissing     // IllegalArgumentException: null or blank date
    | DateNotParsed   // exception from LocalDate.parse in the probe run
    | NoRunOnDate     // NoSuchElementException: no run has that date

  // ---------------------------------------------------------------------
  // The collection

  class RunStorage {
    var runStorage: seq<Run>
    var size: int
    var fastestRun: Run?
    var longestRun: Run?

    /** What every public operation keeps: the counter matches the list, the
        list is in date order, and a non-empty collection has both
        aggregates set. */
    ghost predicate Valid()
      reads this
    {
      size == |runStorage| && SortedByDate(runStorage)
      && (size > 0 ==> fastestRun != null && longestRun != null)
    }

    /** The aggregates are what their names say: stored runs of the greatest
        distance and of the fastest pace. */
    ghost predicate AggregatesExact()
      reads this, runStorage, fastestRun
    {
      ExactFor(runStorage, fastestRun, longestRun)
    }

    constructor ()
      ensures Valid() && AggregatesExact()
      ensures runStorage == [] && size == 0 && fastestRun == null && longestRun == null
    {
      runStorage := [];
      size := 0;
      fastestRun := null;
      longestRun := null;
    }

    function GetSize(): (n: int)
      reads this
      ensures Valid() ==> n == |runStorage|
    {
      size
    }

    function GetFastest(): (r: Run?)
      reads this, runStorage, fastestRun
      ensures Valid() && size > 0 ==> r != null
      ensures AggregatesExact() && runStorage != [] ==>
                r in runStorage && forall o :: o in runStorage ==> !Faster(PaceOfRun(o), PaceOfRun(r))
    {
      fastestRun
    }

    function GetLongest(): (r: Run?)
      reads this, runStorage, fastestRun
      ensures Valid() && size > 0 ==> r != null
      ensures AggregatesExact() && runStorage != [] ==>
                r in runStorage && forall o :: o in runStorage ==> o.distance <= r.distance
    {
      longestRun
    }

    /** `addRun`: the first run becomes both aggregates; later runs replace
        the longest only when strictly longer and the fastest only when
        strictly faster; the run is then inserted after its date's runs. */
    method AddRun(toAdd: Run)
      requires Valid()
      modifies this
      ensures Valid()
      ensures runStorage == InsertAfterEquals(old(runStorage), toAdd) && size == old(size) + 1
      ensures old(size) == 0 ==> fastestRun == toAdd && longestRun == toAdd
      ensures old(size) > 0 ==>
                longestRun == (if old(longestRun.distance) < toAdd.distance then toAdd else old(longestRun))
      ensures old(size) > 0 ==>
                fastestRun == (if ComparePace(toAdd.paceOfRun, old(fastestRun.paceOfRun)) > 0
                               then toAdd else old(fastestRun))
      ensures old(AggregatesExact()) ==> AggregatesExact()
    {
      ghost var s0, f0, l0 := runStorage, fastestRun, longestRun;
      ghost var exact0 := ExactFor(s0, f0, l0);
      AdmitToAggregates(toAdd);
      InsertAfterEqualsSorted(runStorage, toAdd);
      runStorage := InsertAfterEquals(runStorage, toAdd);
      size := size + 1;
      if exact0 {
        assert ExactFor(s0, f0, l0);
        AddKeepsExact(s0, f0, l0, toAdd, fastestRun, longestRun);
      }
    }

    /** The first half of `addRun`: the first run becomes both aggregates,
        and a later run replaces the longest only when strictly longer and
        the fastest only when strictly faster. */
    method AdmitToAggregates(toAdd: Run)
      requires Valid()
      modifies this`fastestRun, this`longestRun
      ensures size == 0 ==> fastestRun == toAdd && longestRun == toAdd
      ensures size > 0 ==>
                longestRun == (if old(longestRun.distance) < toAdd.distance then toAdd else old(longestRun))
      ensures size > 0 ==>
                fastestRun == (if ComparePace(toAdd.paceOfRun, old(fastestRun.paceOfRun)) > 0
                               then toAdd else old(fastestRun))
    {
      if GetSize() == 0 {
        longestRun := toAdd;
        fastestRun := toAdd;
      } else {
        if longestRun.distance < toAdd.distance {
          longestRun := toAdd;
        }
        if ComparePace(toAdd.paceOfRun, fastestRun.paceOfRun) > 0 {
          fastestRun := toAdd;
        }
      }
    }

    /** `findRun`: the binary search over the whole list, comparing dates
        with `compareTo`. */
    method FindRun(toFind: Run) returns (index: int)
      ensures index == Search(runStorage, toFind.runDate)
    {
      var low := 0;
      var high := |runStorage| - 1;
      while low <= high
        invariant 0 <= low <= high + 1 <= |runStorage|
        invariant Probe(runStorage, toFind.runDate, low, high) == Search(runStorage, toFind.runDate)
        decreases high - low
      {
        var mid := low + (high - low) / 2;
        if runStorage[mid].CompareTo(toFind) == 0 {
          return mid;
        } else if runStorage[mid].CompareTo(toFind) < 0 {
          low := mid + 1;
        } else {
          high := mid - 1;
        }
      }
      return -1;
    }

    /** `setFastest`: scans the first `size` runs, which need not be all of
        the list while a removal is in progress. */
    method SetFastest()
      requires 0 <= size <= |runStorage|
      modifies this`fastestRun
      ensures fastestRun == FastestOf(runStorage, size)
    {
      if GetSize() == 0 {
        fastestRun := null;
        return;
      }
      var max := ScanFastest(runStorage, size);
      fastestRun := max;
    }

    /** `setLongest` as written: on an empty collection it clears
        `fastestRun` and leaves `longestRun` as it was. */
    method SetLongest()
      requires 0 <= size <= |runStorage|
      modifies this`fastestRun, this`longestRun
      ensures size == 0 ==> fastestRun == null && longestRun == old(longestRun)
      ensures size > 0 ==> longestRun == LongestOf(runStorage, size) && fastestRun == old(fastestRun)
    {
      if GetSize() == 0 {
        fastestRun := null;
        return;
      }
      var max := ScanLongest(runStorage, size);
      longestRun := max;
    }

    /** `removeRun` as written. The run found by date (which may be another
        run of that date) is removed and returned. Before removing it the
        counter is decremented and, when the argument's date equals that of
        an aggregate, that aggregate is rescanned over the first `size`
        runs of the unchanged list. */
    method RemoveRun(toRemove: Run) returns (removed: Run?)
      requires Valid()
      modifies this
      ensures Valid()
      ensures removed == null <==> Search(old(runStorage), toRemove.runDate) == -1
      ensures removed == null ==>
                runStorage == old(runStorage) && size == old(size)
                && fastestRun == old(fastestRun) && longestRun == old(longestRun)
      ensures removed != null ==>
                && removed == old(runStorage)[Search(old(runStorage), toRemove.runDate)]
                && removed.runDate == toRemove.runDate
                && runStorage == RemoveAt(old(runStorage), Search(old(runStorage), toRemove.runDate))
                && size == old(size) - 1
      ensures removed != null ==>
                longestRun == old(if toRemove.runDate == longestRun.runDate && size > 1
                                  then LongestOf(runStorage, size - 1) else longestRun)
      ensures removed != null && old(size) == 1 ==>
                fastestRun == (if toRemove.runDate in old({fastestRun.runDate, longestRun.runDate})
                               then null else old(fastestRun))
      ensures removed != null && old(size) > 1 ==>
                fastestRun == old(if toRemove.runDate == fastestRun.runDate
                                  then FastestOf(runStorage, size - 1) else fastestRun)
    {
      var indexOfRun := FindRun(toRemove);
      if indexOfRun == -1 {
        return null;
      }
      RescanBeforeRemoval(toRemove);
      removed := runStorage[indexOfRun];
      RemoveKeepsSorted(runStorage, indexOfRun);
      runStorage := RemoveAt(runStorage, indexOfRun);
    }

    /** The middle of `removeRun`: the counter is decremented and an
        aggregate whose date is the argument's is rescanned, all while the
        list still holds the run to be removed. */
    method RescanBeforeRemoval(toRemove: Run)
      requires Valid() && size > 0
      modifies this`size, this`fastestRun, this`longestRun
      ensures size == old(size) - 1
      ensures longestRun == old(if toRemove.runDate == longestRun.runDate && size > 1
                                then LongestOf(runStorage, size - 1) else longestRun)
      ensures old(size) == 1 ==>
                fastestRun == (if toRemove.runDate in old({fastestRun.runDate, longestRun.runDate})
                               then null else old(fastestRun))
      ensures old(size) > 1 ==>
                fastestRun == old(if toRemove.runDate == fastestRun.runDate
                                  then FastestOf(runStorage, size - 1) else fastestRun)
    {
      size := size - 1;
      if toRemove.CompareTo(fastestRun) == 0 {
        SetFastest();
      }
      if toRemove.CompareTo(longestRun) == 0 {
        SetLongest();
      }
    }

    /** `getRun`: a blank date fails; otherwise a probe run is built on that
        date (its time text always passes) and looked up by `findRun`. */
    method GetRun(date: Option<string>) returns (result: Result<Run, LookupError>)
      ensures (date.None? || IsBlank(date.value)) ==> result == Failure(DateMissing)
      ensures !(date.None? || IsBlank(date.value)) && ParseIsoDate(date).None? ==>
                result == Failure(DateNotParsed)
      ensures !(date.None? || IsBlank(date.value)) && ParseIsoDate(date).Some? ==>
                var i := Search(runStorage, ParseIsoDate(date).value);
                result == (if i == -1 then Failure(NoRunOnDate) else Success(runStorage[i]))
      ensures result.Success? ==> result.value in runStorage && Some(result.value.runDate) == ParseIsoDate(date)
      ensures SortedByDate(runStorage) && result == Failure(NoRunOnDate) ==>
                forall r :: r in runStorage ==> Some(r.runDate) != ParseIsoDate(date)
    {
      if date.None? || IsBlank(date.value) {
        return Failure(DateMissing);
      }
      ProbeTimeAccepted();
      var toFind := NewRunOn(Some(1.0), Some("00:10:00"), date);
      if toFind.Failure? {
        return Failure(DateNotParsed);
      }
      var index := FindRun(toFind.value);
      if index == -1 {
        return Failure(NoRunOnDate);
      }
      return Success(runStorage[index]);
    }

    /** `getLatest7`: a new collection built by `addRun` from the whole list
        when it holds fewer than seven runs, otherwise from the last seven,
        added latest first. This collection is not changed. */
    method GetLatest7() returns (topSeven: RunStorage)
      requires Valid()
      ensures fresh(topSeven) && topSeven.Valid() && topSeven.AggregatesExact()
      ensures size < 7 ==> topSeven.runStorage == runStorage
      ensures size >= 7 ==> SameRunsAndDates(topSeven.runStorage, runStorage[size - 7..])
    {
      if GetSize() < 7 {
        topSeven := CopyInOrder(runStorage);
      } else {
        topSeven := CopyLatestSeven(runStorage);
      }
    }

    // -------------------------------------------------------------------
    // Corrected removal

    /** `setLongest` with the field it evidently means to clear. */
    method SetLongestClearing()
      requires 0 <= size <= |runStorage|
      modifies this`longestRun
      ensures longestRun == LongestOf(runStorage, size)
    {
      if GetSize() == 0 {
        longestRun := null;
        return;
      }
      var max := ScanLongest(runStorage, size);
      longestRun := max;
    }

    /** `removeRun` as evidently intended: the run is removed first, and an
        aggregate that was the removed run is rescanned over what is left
        (and cleared when nothing is left). `RemoveKeepsExact` shows that
        exact aggregates stay exact. */
    method RemoveRunExact(toRemove: Run) returns (removed: Run?)
      requires Valid()
      modifies this
      ensures Valid()
      ensures removed == null <==> Search(old(runStorage), toRemove.runDate) == -1
      ensures removed == null ==> unchanged(this)
      ensures removed != null ==>
                && removed == old(runStorage)[Search(old(runStorage), toRemove.runDate)]
                && removed.runDate == toRemove.runDate
                && runStorage == RemoveAt(old(runStorage), Search(old(runStorage), toRemove.runDate))
      ensures removed != null ==>
                fastestRun == (if old(fastestRun) == removed then FastestOf(runStorage, size) else old(fastestRun))
      ensures removed != null ==>
                longestRun == (if old(longestRun) == removed then LongestOf(runStorage, size) else old(longestRun))
      ensures old(AggregatesExact()) ==> AggregatesExact()
    {
      var indexOfRun := FindRun(toRemove);
      if indexOfRun == -1 {
        return null;
      }
      removed := runStorage[indexOfRun];
      RemoveAndRescanExact(indexOfRun);
    }

    /** `RemoveAndRescan`, with the preservation of exact aggregates that
        `RemoveKeepsExact` proves. */
    method RemoveAndRescanExact(i: nat)
      requires Valid() && i < size
      modifies this
      ensures Valid()
      ensures runStorage == RemoveAt(old(runStorage), i)
      ensures fastestRun == (if old(fastestRun) == old(runStorage)[i] then FastestOf(runStorage, size) else old(fastestRun))
      ensures longestRun == (if old(longestRun) == old(runStorage)[i] then LongestOf(runStorage, size) else old(longestRun))
      ensures old(AggregatesExact()) ==> AggregatesExact()
    {
      ghost var s0, f0, l0 := runStorage, fastestRun, longestRun;
      ghost var exact0 := ExactFor(s0, f0, l0);
      RemoveAndRescan(i);
      if exact0 {
        assert ExactFor(s0, f0, l0);
        RemoveKeepsExact(s0, i, f0, l0, fastestRun, longestRun);
      }
    }

    /** The corrected removal once the run is found at index `i`: the run is
        removed, and an aggregate that was that run is rescanned over what
        is left. */
    method RemoveAndRescan(i: nat)
      requires Valid() && i < size
      modifies this
      ensures Valid()
      ensures runStorage == RemoveAt(old(runStorage), i)
      ensures fastestRun == (if old(fastestRun) == old(runStorage)[i] then FastestOf(runStorage, size) else old(fastestRun))
      ensures longestRun == (if old(longestRun) == old(runStorage)[i] then LongestOf(runStorage, size) else old(longestRun))
    {
      var removed := runStorage[i];
      RemoveKeepsSorted(runStorage, i);
      runStorage := RemoveAt(runStorage, i);
      size := size - 1;
      if removed == longestRun {
        SetLongestClearing();
      }
      if removed == fastestRun {
        SetFastest();
      }
    }
  }

  /** The loop of `setFastest` over the first `n` runs: it starts from the
      first run and moves to a run only when that one is strictly faster. */
  method ScanFastest(runs: seq<Run>, n: nat) returns (max: Run)
    requires 1 <= n <= |runs|
    ensures max == runs[FastestIndex(runs, n)]
  {
    max := runs[0];
    for i := 0 to n
      invariant i > 0 ==> max == runs[FastestIndex(runs, i)]
      invariant i == 0 ==> max == runs[0]
    {
      var currRun := runs[i];
      if ComparePace(max.paceOfRun, currRun.paceOfRun) < 0 {
        max := currRun;
      }
    }
  }

  /** The loop of `setLongest` over the first `n` runs: it starts from the
      first run and moves to a run only when that one is strictly longer. */
  method ScanLongest(runs: seq<Run>, n: nat) returns (max: Run)
    requires 1 <= n <= |runs|
    ensures max == runs[LongestIndex(runs, n)]
  {
    max := runs[0];
    for i := 0 to n
      invariant i > 0 ==> max == runs[LongestIndex(runs, i)]
      invariant i == 0 ==> max == runs[0]
    {
      var currRun := runs[i];
      if currRun.distance > max.distance {
        max := currRun;
      }
    }
  }

  /** The first loop of `getLatest7`: a new collection to which every run
      is added from the earliest on; each is appended. */
  method CopyInOrder(runs: seq<Run>) returns (topSeven: RunStorage)
    requires SortedByDate(runs)
    ensures fresh(topSeven) && topSeven.Valid() && topSeven.AggregatesExact()
    ensures topSeven.runStorage == runs
  {
    topSeven := new RunStorage();
    for i := 0 to |runs|
      invariant fresh(topSeven) && topSeven.Valid() && topSeven.AggregatesExact()
      invariant topSeven.runStorage == runs[..i]
    {
      AppendNext(runs, i);
      topSeven.AddRun(runs[i]);
    }
    assert runs[..|runs|] == runs;
  }

  /** The second loop of `getLatest7`: a new collection to which the last
      seven runs are added from the latest back; each goes in front of the
      runs of later dates, so the dates come out ascending. */
  method CopyLatestSeven(runs: seq<Run>) returns (topSeven: RunStorage)
    requires SortedByDate(runs) && |runs| >= 7
    ensures fresh(topSeven) && topSeven.Valid() && topSeven.AggregatesExact()
    ensures SameRunsAndDates(topSeven.runStorage, runs[|runs| - 7..])
  {
    topSeven := new RunStorage();
    var n := |runs|;
    var i := n - 1;
    while i >= n - 7
      invariant n - 8 <= i < n
      invariant fresh(topSeven) && topSeven.Valid() && topSeven.AggregatesExact()
      invariant SameRunsAndDates(topSeven.runStorage, runs[i + 1..])
    {
      AddEarlier(topSeven, runs, i);
      ghost var copied := runs[i..];
      i := i - 1;
      assert runs[i + 1..] == copied;
    }
  }

  /** The body of `getLatest7`'s descending loop: adding the run at `i`
      extends the copy of the runs after it to the runs from `i` on. */
  method AddEarlier(topSeven: RunStorage, runs: seq<Run>, i: nat)
    requires i < |runs| && SortedByDate(runs)
    requires topSeven.Valid() && topSeven.AggregatesExact()
    requires SameRunsAndDates(topSeven.runStorage, runs[i + 1..])
    modifies topSeven
    ensures topSeven.Valid() && topSeven.AggregatesExact()
    ensures SameRunsAndDates(topSeven.runStorage, runs[i..])
  {
    LatestStep(runs, i, topSeven.runStorage);
    topSeven.AddRun(runs[i]);
  }

  /** `getRun` as its documentation promises: a lower-bound binary search
      that answers the first run of the date, which by stability is the
      first of that date to have been entered. */
  method FindFirstRun(s: seq<Run>, d: Date) returns (index: int)
    requires SortedByDate(s)
    ensures index == -1 <==> forall r :: r in s ==> r.runDate != d
    ensures index != -1 ==> 0 <= index < |s| && s[index].runDate == d
                            && forall j :: 0 <= j < index ==> s[j].runDate != d
    ensures index != -1 ==> OnDate(s, d) != [] && OnDate(s, d)[0] == s[index]
  {
    var low, high := 0, |s|;
    while low < high
      invariant 0 <= low <= high <= |s|
      invariant forall j :: 0 <= j < low ==> s[j].runDate < d
      invariant forall j :: high <= j < |s| ==> s[j].runDate >= d
    {
      var mid := low + (high - low) / 2;
      if s[mid].runDate < d {
        low := mid + 1;
      } else {
        high := mid;
      }
    }
    if low < |s| && s[low].runDate == d {
      OnDateFirst(s, d, low);
      return low;
    }
    return -1;
  }

  /** When `k` is the first index dated `d`, the runs dated `d` begin with it. */
  lemma {:induction false} OnDateFirst(s: seq<Run>, d: Date, k: nat)
    requires k < |s| && s[k].runDate == d
    requires forall j :: 0 <= j < k ==> s[j].runDate != d
    ensures OnDate(s, d) != [] && OnDate(s, d)[0] == s[k]
  {
    if |s| - 1 == k {
      assert OnDate(s[..k], d) == [] by {
        OnDateNone(s[..k], d);
      }
    } else {
      OnDateFirst(s[..|s| - 1], d, k);
    }
  }

  lemma {:induction false} OnDateNone(s: seq<Run>, d: Date)
    requires forall j :: 0 <= j < |s| ==> s[j].runDate != d
    ensures OnDate(s, d) == []
  {
    if s != [] {
      OnDateNone(s[..|s| - 1], d);
    }
  }

  /** As written, removing the fastest and longest run of a two-run
      collection leaves it as both aggregates, although it is no longer
      stored: the rescan covers the first run only, which is the one being
      removed. The second run, a day later, ties with the first on pace and
      distance, so `addRun` keeps the first as both aggregates. */
  method RemovedRunStaysAggregate() returns (storage: RunStorage, gone: Run)
    ensures storage.Valid() && storage.size == 1
    ensures gone !in storage.runStorage
    ensures storage.fastestRun == gone && storage.longestRun == gone
  {
    gone := new Run(6.0, LocalTime(0, 30, 0), 20240101);
    var second := new Run(6.0, LocalTime(0, 30, 0), 20240102);
    storage := StoreTwo(gone, second);
    RemoveEarlierOfTwo(gone, second);
    var removed := storage.RemoveRun(gone);
  }

  /** A new collection of two runs on increasing dates that tie on pace and
      distance: the first added is both aggregates. */
  method StoreTwo(first: Run, second: Run) returns (storage: RunStorage)
    requires first.runDate < second.runDate
    requires first.paceOfRun == second.paceOfRun && first.distance == second.distance
    ensures fresh(storage)
    ensures storage.Valid() && storage.runStorage == [first, second]
    ensures storage.fastestRun == first && storage.longestRun == first
  {
    storage := new RunStorage();
    storage.AddRun(first);
    assert storage.runStorage == [first];
    storage.AddRun(second);
  }

  /** In a two-run list, the earlier run is found at index 0 and removing
      it leaves the later one. */
  lemma RemoveEarlierOfTwo(a: Run, b: Run)
    requires a.runDate < b.runDate
    ensures Search([a, b], a.runDate) == 0
    ensures RemoveAt([a, b], 0) == [b]
  {
    RemoveAtIndex([a, b], 0);
  }

  /** As written, removing the only run clears `fastestRun` but leaves
      `longestRun` pointing at the removed run. */
  method RemovedLastRunStaysLongest() returns (storage: RunStorage, gone: Run)
    ensures storage.Valid() && storage.size == 0
    ensures storage.fastestRun == null && storage.longestRun == gone
  {
    gone := new Run(5.0, LocalTime(0, 25, 0), 20240101);
    storage := new RunStorage();
    storage.AddRun(gone);
    var removed := storage.RemoveRun(gone);
  }
}
