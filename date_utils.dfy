/**
  The streak and badge engine of src/utils/dateUtils.js (repeated verbatim in
  server/db.js). A calendar date `YYYY-MM-DD` is a day number; "today" is a
  parameter instead of a read of the clock.
 */
module DateUtils {

  /** A calendar date as a whole day number (consecutive dates differ by 1). */
  type Day = int

  // ---------------------------------------------------------------------------
  // getDaysDifference
  // ---------------------------------------------------------------------------

  /** Whole calendar days from `from` to `to` (positive when `to` is later). */
  function DaysDifference(from: Day, to: Day): int
  {
    to - from
  }

  lemma DaysDifferenceProperties(a: Day, b: Day)
    ensures DaysDifference(a, a) == 0
    ensures DaysDifference(a, b) == -DaysDifference(b, a)
    ensures a + DaysDifference(a, b) == b
  {
  }

  // ---------------------------------------------------------------------------
  // Sorting a copy of the dates, most recent first
  // ---------------------------------------------------------------------------

  /** Most recent first; equal dates may repeat. */
  predicate Descending(s: seq<Day>)
  {
    forall i, j :: 0 <= i < j < |s| ==> s[i] >= s[j]
  }

  /** Every element of `r` is at most `bound` when `r` is a rearrangement of `s` and `s` is bounded. */
  lemma BoundedPermutation(bound: Day, s: seq<Day>, r: seq<Day>)
    requires multiset(r) == multiset(s)
    requires forall k :: 0 <= k < |s| ==> s[k] <= bound
    ensures forall k :: 0 <= k < |r| ==> r[k] <= bound
  {
    forall k | 0 <= k < |r|
      ensures r[k] <= bound
    {
      assert r[k] in multiset(r);
      assert r[k] in s;
    }
  }

  /** Puts `x` in its place in a list already sorted most recent first. */
  function InsertDescending(x: Day, s: seq<Day>): (r: seq<Day>)
    requires Descending(s)
    ensures Descending(r)
    ensures multiset(r) == multiset(s) + multiset{x}
  {
    if |s| == 0 || x >= s[0] then
      [x] + s
    else
      var rest := InsertDescending(x, s[1..]);
      InsertBelowHead(x, s, rest);
      [s[0]] + rest
  }

  /** A date later than `x` stays in front of `x` inserted into the rest of the list. */
  lemma InsertBelowHead(x: Day, s: seq<Day>, rest: seq<Day>)
    requires Descending(s) && |s| > 0 && x < s[0]
    requires Descending(rest) && multiset(rest) == multiset(s[1..]) + multiset{x}
    ensures Descending([s[0]] + rest)
    ensures multiset([s[0]] + rest) == multiset(s) + multiset{x}
  {
    assert s == [s[0]] + s[1..];
    BoundedPermutation(s[0], s[1..] + [x], rest);
  }

  /**
    The sorted copy `[...completedDates].sort((a, b) => new Date(b) - new Date(a))`:
    the same dates, most recent first.
   */
  function SortDescending(s: seq<Day>): (r: seq<Day>)
    ensures Descending(r)
    ensures multiset(r) == multiset(s)
  {
    if |s| == 0 then
      []
    else
      assert s == [s[0]] + s[1..];
      InsertDescending(s[0], SortDescending(s[1..]))
  }

  /** There is only one way to list a collection of dates most recent first. */
  lemma {:induction false} DescendingPermutationUnique(a: seq<Day>, b: seq<Day>)
    requires Descending(a) && Descending(b)
    requires multiset(a) == multiset(b)
    ensures a == b
  {
    assert |a| == |multiset(a)| == |multiset(b)| == |b|;
    if |a| > 0 {
      assert a[0] in multiset(b);
      assert b[0] in multiset(a);
      assert a[0] == b[0];
      assert a == [a[0]] + a[1..];
      assert b == [b[0]] + b[1..];
      assert multiset(a[1..]) == multiset(a) - multiset{a[0]};
      assert multiset(b[1..]) == multiset(b) - multiset{b[0]};
      assert multiset(a[1..]) == multiset(b[1..]);
      DescendingPermutationUnique(a[1..], b[1..]);
    }
  }

  // ---------------------------------------------------------------------------
  // calculateStreak
  // ---------------------------------------------------------------------------

  /** The date at index j is exactly one day before the date at index j - 1. */
  predicate OneDayStep(s: seq<Day>, j: nat)
    requires 0 < j < |s|
  {
    DaysDifference(s[j], s[j - 1]) == 1
  }

  /**
    Length of the run at the head of `s` in which each date is exactly one day
    before the previous one: the counting loop of calculateStreak, which stops
    at the first step that is not exactly one day.
   */
  function ConsecutiveRun(s: seq<Day>): (r: nat)
    requires |s| > 0
    ensures 1 <= r <= |s|
    ensures forall j :: 0 < j < r ==> OneDayStep(s, j)
    ensures r < |s| ==> !OneDayStep(s, r)
  {
    if |s| == 1 || !OneDayStep(s, 1) then
      1
    else
      StepsOfTail(s);
      1 + ConsecutiveRun(s[1..])
  }

  /** Steps inside the tail of `s` are the steps of `s`, shifted by one. */
  lemma StepsOfTail(s: seq<Day>)
    requires |s| > 0
    ensures forall j :: 1 < j < |s| ==> (OneDayStep(s[1..], j - 1) <==> OneDayStep(s, j))
  {
    forall j | 1 < j < |s|
      ensures OneDayStep(s[1..], j - 1) <==> OneDayStep(s, j)
    {
      assert s[1..][j - 1] == s[j] && s[1..][j - 2] == s[j - 1];
    }
  }

  /**
    The streak read off dates sorted most recent first: 0 when there is none or
    the most recent one is more than a day before today; otherwise the run of
    one-day steps back from the most recent one.
   */
  function SortedStreak(sorted: seq<Day>, today: Day): (r: nat)
    ensures r <= |sorted|
  {
    if |sorted| == 0 || DaysDifference(sorted[0], today) > 1 then 0 else ConsecutiveRun(sorted)
  }

  /** The streak of a habit with these completion dates on day `today`: the streak of their sorted copy. */
  function Streak(completedDates: seq<Day>, today: Day): (r: nat)
    ensures r <= |completedDates|
  {
    var sorted := SortDescending(completedDates);
    assert |sorted| == |multiset(sorted)| == |completedDates|;
    SortedStreak(sorted, today)
  }

  /** calculateStreak as the source runs it: sort a copy, then count with a loop that breaks at the first gap. */
  method CalculateStreak(completedDates: seq<Day>, today: Day) returns (streak: nat)
    ensures streak == Streak(completedDates, today)
  {
    if |completedDates| == 0 {
      return 0;
    }
    var sorted := SortDescending(completedDates);
    assert |sorted| == |multiset(sorted)| == |completedDates|;
    if DaysDifference(sorted[0], today) > 1 {
      return 0;
    }
    streak := 1;
    var i := 1;
    while i < |sorted|
      invariant 1 <= i <= |sorted|
      invariant streak == i
      invariant forall j :: 0 < j < i ==> OneDayStep(sorted, j)
    {
      if OneDayStep(sorted, i) {
        streak := streak + 1;
      } else {
        break;
      }
      i := i + 1;
    }
    RunIsMaximal(sorted, streak);
  }

  /** A run of one-day steps that cannot be extended is the one ConsecutiveRun counts. */
  lemma RunIsMaximal(s: seq<Day>, k: nat)
    requires 1 <= k <= |s|
    requires forall j :: 0 < j < k ==> OneDayStep(s, j)
    requires k < |s| ==> !OneDayStep(s, k)
    ensures ConsecutiveRun(s) == k
  {
  }

  /** The most recent of a collection of dates. */
  predicate IsLatest(latest: Day, dates: seq<Day>)
  {
    latest in dates && forall d :: d in dates ==> d <= latest
  }

  lemma SortedHeadIsLatest(dates: seq<Day>)
    requires |dates| > 0
    ensures |SortDescending(dates)| == |dates|
    ensures IsLatest(SortDescending(dates)[0], dates)
  {
    var s := SortDescending(dates);
    assert |s| == |multiset(s)| == |dates|;
    assert s[0] in multiset(dates);
    forall d | d in dates
      ensures d <= s[0]
    {
      assert d in multiset(s);
    }
  }

  /** The streak counts no more dates than there are, and it is 0 exactly when no date is today or yesterday (or later). */
  lemma StreakBounds(dates: seq<Day>, today: Day)
    ensures Streak(dates, today) <= |dates|
    ensures Streak(dates, today) == 0 <==> forall d :: d in dates ==> DaysDifference(d, today) > 1
  {
    if |dates| > 0 {
      SortedHeadIsLatest(dates);
    }
  }

  /** The result does not depend on the order in which the dates are listed. */
  lemma StreakIgnoresOrder(a: seq<Day>, b: seq<Day>, today: Day)
    requires multiset(a) == multiset(b)
    ensures Streak(a, today) == Streak(b, today)
  {
    assert |a| == |multiset(a)| == |multiset(b)| == |b|;
    DescendingPermutationUnique(SortDescending(a), SortDescending(b));
  }

  // ---------------------------------------------------------------------------
  // What the streak means for a set of dates
  // ---------------------------------------------------------------------------

  /** No date occurs twice (a date is completed or not, never twice). */
  predicate NoDuplicates(s: seq<Day>)
  {
    forall d | d in s :: multiset(s)[d] <= 1
  }

  lemma TwoOccurrences(s: seq<Day>, i: nat, j: nat)
    requires i < j < |s|
    ensures s[i] == s[j] ==> multiset(s)[s[i]] >= 2
  {
    assert s == s[..j] + [s[j]] + s[j + 1..];
    assert s[i] in s[..j];
    assert s[i] in multiset(s[..j]);
  }

  /** Dates sorted most recent first without repetition are strictly decreasing. */
  lemma DistinctDescendingIsStrict(s: seq<Day>)
    requires Descending(s) && NoDuplicates(s)
    ensures forall i, j :: 0 <= i < j < |s| ==> s[i] > s[j]
  {
    forall i, j | 0 <= i < j < |s|
      ensures s[i] > s[j]
    {
      TwoOccurrences(s, i, j);
    }
  }

  /** Inside a run of one-day steps, the j-th date is j days before the first. */
  lemma {:induction false} RunValues(s: seq<Day>, k: nat)
    requires k <= |s|
    requires forall j :: 0 < j < k ==> OneDayStep(s, j)
    ensures forall j :: 0 <= j < k ==> s[j] == s[0] - j
  {
    if k > 1 {
      RunValues(s, k - 1);
      assert OneDayStep(s, k - 1);
    }
  }

  /**
    On dates `s` sorted most recent first, a rearrangement of `dates` without
    repetition whose most recent is no earlier than yesterday, the streak covers
    exactly the days down to the first missing one.
   */
  lemma SortedStreakCountsDays(s: seq<Day>, dates: seq<Day>, today: Day, latest: Day, k: nat)
    requires Descending(s) && multiset(s) == multiset(dates)
    requires NoDuplicates(dates) && IsLatest(latest, dates)
    requires DaysDifference(latest, today) <= 1
    requires k == SortedStreak(s, today)
    ensures forall d :: latest - k < d <= latest ==> d in dates
    ensures latest - k !in dates
  {
    SameElements(s, dates);
    assert |s| == |multiset(dates)| > 0 by {
      assert latest in multiset(dates);
    }
    assert s[0] == latest by {
      assert s[0] in dates;
      assert latest in s;
    }
    assert k == ConsecutiveRun(s);
    RunValues(s, k);
    DistinctDescendingIsStrict(s);
    forall d | latest - k < d <= latest
      ensures d in dates
    {
      assert s[latest - d] == d;
    }
    forall m | 0 <= m < |s|
      ensures s[m] != latest - k
    {
      if k <= m {
        assert s[k] < s[k - 1] && !OneDayStep(s, k);
        assert s[m] <= s[k];
      }
    }
  }

  /** A rearrangement has the same dates, and repeats none when the original repeats none. */
  lemma SameElements(s: seq<Day>, t: seq<Day>)
    requires multiset(s) == multiset(t)
    ensures forall d :: d in s <==> d in t
    ensures NoDuplicates(t) ==> NoDuplicates(s)
  {
    forall d
      ensures d in s <==> d in t
    {
      assert d in s <==> d in multiset(s);
      assert d in t <==> d in multiset(t);
    }
  }

  /**
    For dates without repetition, whose most recent is `latest`, no earlier
    than yesterday: the streak is k exactly when the k days ending at `latest`
    are all completed and the day before them is not.
   */
  lemma StreakCountsConsecutiveDays(dates: seq<Day>, today: Day, latest: Day)
    requires NoDuplicates(dates)
    requires IsLatest(latest, dates)
    requires DaysDifference(latest, today) <= 1
    ensures forall d :: latest - Streak(dates, today) < d <= latest ==> d in dates
    ensures latest - Streak(dates, today) !in dates
  {
    var s := SortedListing(dates, today);
    SortedStreakCountsDays(s, dates, today, latest, Streak(dates, today));
  }

  /** A most-recent-first listing of the dates, whose streak is the streak of the dates. */
  lemma SortedListing(dates: seq<Day>, today: Day) returns (s: seq<Day>)
    ensures Descending(s) && multiset(s) == multiset(dates)
    ensures Streak(dates, today) == SortedStreak(s, today)
  {
    s := SortDescending(dates);
  }

  /** The k days that end on day `last`, most recent first. */
  function DaysEndingOn(last: Day, k: nat): (r: seq<Day>)
  {
    seq(k, i => last - i)
  }

  /** k consecutive days ending today or yesterday, listed in any order, give a streak of k. */
  lemma StreakOfConsecutiveDays(dates: seq<Day>, today: Day, last: Day, k: nat)
    requires multiset(dates) == multiset(DaysEndingOn(last, k))
    requires DaysDifference(last, today) <= 1
    ensures Streak(dates, today) == k
  {
    var run := DaysEndingOn(last, k);
    assert |dates| == |multiset(dates)| == k;
    if k > 0 {
      DescendingPermutationUnique(SortDescending(dates), run);
      RunIsMaximal(run, k);
    }
  }

  /** The streak of any list is the streak read off any most-recent-first listing of the same dates. */
  lemma StreakOfSortedList(dates: seq<Day>, sorted: seq<Day>, today: Day)
    requires Descending(sorted) && multiset(sorted) == multiset(dates)
    ensures Streak(dates, today) == SortedStreak(sorted, today)
  {
    DescendingPermutationUnique(SortDescending(dates), sorted);
  }

  /** The source's "consecutive streak" case: today, yesterday and the day before give 3. */
  lemma ThreeDaysEndingToday(today: Day)
    ensures Streak([today - 2, today - 1, today], today) == 3
  {
    var dates := [today - 2, today - 1, today];
    assert DaysEndingOn(today, 3) == [today, today - 1, today - 2];
    assert multiset(dates) == multiset(DaysEndingOn(today, 3));
    StreakOfConsecutiveDays(dates, today, today, 3);
  }

  /** The source's "stops at first gap" case: a missing day two days ago leaves a streak of 2. */
  lemma GapEndsStreak(today: Day)
    ensures Streak([today - 3, today - 1, today], today) == 2
  {
    var sorted := [today, today - 1, today - 3];
    assert Descending(sorted) && multiset(sorted) == multiset([today - 3, today - 1, today]) by {
      assert multiset(sorted) == multiset{today, today - 1, today - 3};
    }
    assert SortedStreak(sorted, today) == 2 by {
      RunIsMaximal(sorted, 2);
    }
    StreakOfSortedList([today - 3, today - 1, today], sorted, today);
  }

  /** A last completion five days ago gives no streak, although completions exist. */
  lemma StaleCompletionGivesZero(today: Day)
    ensures Streak([today - 5], today) == 0
  {
    StreakBounds([today - 5], today);
  }

  /**
    The same date listed twice is a step of 0 days, which ends the run like any
    other gap: the code does not merge repeated dates.
   */
  lemma RepeatedDateEndsRun(today: Day)
    ensures Streak([today - 1, today, today], today) == 1
  {
    var sorted := [today, today, today - 1];
    assert Descending(sorted) && multiset(sorted) == multiset([today - 1, today, today]) by {
      assert multiset(sorted) == multiset{today, today, today - 1};
    }
    assert SortedStreak(sorted, today) == 1 by {
      RunIsMaximal(sorted, 1);
    }
    StreakOfSortedList([today - 1, today, today], sorted, today);
  }

  // ---------------------------------------------------------------------------
  // getBadgeType
  // ---------------------------------------------------------------------------

  /** The badge tiers; NoBadge is the source's `null`. */
  datatype Badge = NoBadge | Bronze | Silver | Golden | Diamond

  /** Position of a tier in the order none < bronze < silver < golden < diamond. */
  function Rank(b: Badge): nat
  {
    match b
    case NoBadge => 0
    case Bronze => 1
    case Silver => 2
    case Golden => 3
    case Diamond => 4
  }

  /** The badge for a streak; thresholds 90/30/7/3, each inclusive at its lower bound. */
  function BadgeType(streak: int): (b: Badge)
    ensures b == Diamond <==> 90 <= streak
    ensures b == Golden <==> 30 <= streak < 90
    ensures b == Silver <==> 7 <= streak < 30
    ensures b == Bronze <==> 3 <= streak < 7
    ensures b == NoBadge <==> streak < 3
  {
    if streak >= 90 then Diamond
    else if streak >= 30 then Golden
    else if streak >= 7 then Silver
    else if streak >= 3 then Bronze
    else NoBadge
  }

  /** A longer streak never earns a lower badge. */
  lemma BadgeMonotone(a: int, b: int)
    requires a <= b
    ensures Rank(BadgeType(a)) <= Rank(BadgeType(b))
  {
  }
}
