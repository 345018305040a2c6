/** `calculate_streak`, which the three front ends define with identical
    bodies, modelled exactly as written.

    The loop walks the rows newest first, keeping `current_date` and a
    counter `streak`. A row is counted when `current_date - row.date ==
    streak`, and `current_date` then moves to that row's date. So the
    row counted i-th (from 0) lies i days before the row counted before
    it, i.e. Tri(i) = 0 + 1 + ... + i days before today: rows on today,
    today-1, today-3, today-6, ... are counted, while rows on three
    consecutive days ending today give a streak of 2. */
module Streak {
  import opened Entries

  /** 0 + 1 + ... + i (and 0 for negative i). */
  function Tri(i: int): nat {
    if i <= 0 then 0 else Tri(i - 1) + i
  }

  /** The loop of `calculate_streak` over the newest-first dates `ds`. The
      counter `streak` also counts the rows consumed so far (the loop stops
      at the first row it does not count), so `ds[streak]` is the next row. */
  function Walk(ds: seq<int>, current: int, streak: nat): (r: nat)
    requires streak <= |ds|
    ensures streak <= r <= |ds|
    decreases |ds| - streak
  {
    if streak == |ds| then streak
    else if current - ds[streak] == streak then Walk(ds, ds[streak], streak + 1)
    else streak
  }

  /** `calculate_streak(df)` evaluated on day `today`. */
  function CalculateStreak(store: seq<Entry>, today: int): (r: nat)
    ensures r <= |store|
    ensures |store| == 0 ==> r == 0
  {
    if |store| == 0 then 0 else Walk(Dates(SortByDateDesc(store)), today, 0)
  }

  /** The first k newest-first dates sit at today - Tri(0), today - Tri(1), ... */
  predicate IsChain(ds: seq<int>, today: int, k: nat) {
    k <= |ds| && forall i :: 0 <= i < k ==> ds[i] == today - Tri(i)
  }

  lemma {:induction false} WalkFindsLongestChain(ds: seq<int>, today: int, current: int, streak: nat)
    requires streak <= |ds|
    requires IsChain(ds, today, streak)
    requires current == today - Tri(streak - 1)
    ensures IsChain(ds, today, Walk(ds, current, streak))
    ensures Walk(ds, current, streak) < |ds| ==>
              ds[Walk(ds, current, streak)] != today - Tri(Walk(ds, current, streak))
    decreases |ds| - streak
  {
    if streak < |ds| {
      assert Tri(streak) == Tri(streak - 1) + streak;
      if current - ds[streak] == streak {
        WalkFindsLongestChain(ds, today, ds[streak], streak + 1);
      }
    }
  }

  /** Reference characterisation: the streak is the length of the longest
      prefix of the newest-first dates that sits at today - Tri(i). */
  lemma StreakIsLongestChain(store: seq<Entry>, today: int)
    ensures IsChain(Dates(SortByDateDesc(store)), today, CalculateStreak(store, today))
    ensures var k := CalculateStreak(store, today);
            var ds := Dates(SortByDateDesc(store));
            k < |ds| ==> ds[k] != today - Tri(k)
  {
    if |store| > 0 {
      WalkFindsLongestChain(Dates(SortByDateDesc(store)), today, today, 0);
    }
  }

  /** The characterisation pins the streak down: only one k qualifies. */
  lemma LongestChainIsUnique(ds: seq<int>, today: int, k: nat, k': nat)
    requires IsChain(ds, today, k) && (k < |ds| ==> ds[k] != today - Tri(k))
    requires IsChain(ds, today, k') && (k' < |ds| ==> ds[k'] != today - Tri(k'))
    ensures k == k'
  {
  }

  /** The streak is positive exactly when some row is dated today and no
      row is dated after today. */
  lemma StreakPositiveIffLatestIsToday(store: seq<Entry>, today: int)
    ensures CalculateStreak(store, today) >= 1 <==>
              (exists i :: 0 <= i < |store| && store[i].date == today)
              && (forall i :: 0 <= i < |store| ==> store[i].date <= today)
  {
    if |store| > 0 {
      SortedHeadIsMax(store);
      StreakIsLongestChain(store, today);
      var ds := Dates(SortByDateDesc(store));
      assert ds[0] == MaxDate(store);
      if CalculateStreak(store, today) == 0 {
        assert ds[0] != today;
      }
    }
  }

  /** Newest-first sequences with the same elements are equal. */
  lemma {:induction false} SortedDatesUnique(x: seq<int>, y: seq<int>)
    requires NonIncreasing(x) && NonIncreasing(y)
    requires multiset(x) == multiset(y)
    ensures x == y
  {
    SameElements(x, y);
    if |x| > 0 {
      HeadIsLargest(x, y[0]);
      HeadIsLargest(y, x[0]);
      SameTails(x, y);
      TailNonIncreasing(x);
      TailNonIncreasing(y);
      SortedDatesUnique(x[1..], y[1..]);
      assert x == [x[0]] + x[1..];
      assert y == [y[0]] + y[1..];
    }
  }

  lemma SameElements(x: seq<int>, y: seq<int>)
    requires multiset(x) == multiset(y)
    ensures |x| == |y|
    ensures |x| > 0 ==> x[0] in y && y[0] in x
  {
    assert |x| == |multiset(x)| == |multiset(y)| == |y|;
    if |x| > 0 {
      assert x[0] in multiset(y) && y[0] in multiset(x);
    }
  }

  lemma SameTails(x: seq<int>, y: seq<int>)
    requires multiset(x) == multiset(y) && |x| > 0 && |y| > 0 && x[0] == y[0]
    ensures multiset(x[1..]) == multiset(y[1..])
  {
    assert x == [x[0]] + x[1..];
    assert y == [y[0]] + y[1..];
    assert multiset(x[1..]) == multiset(x) - multiset{x[0]};
    assert multiset(y[1..]) == multiset(y) - multiset{y[0]};
  }

  lemma HeadIsLargest(ds: seq<int>, v: int)
    requires NonIncreasing(ds) && v in ds
    ensures v <= ds[0]
  {
    var k :| 0 <= k < |ds| && ds[k] == v;
    assert k == 0 || ds[0] >= ds[k];
  }

  lemma TailNonIncreasing(ds: seq<int>)
    requires NonIncreasing(ds) && |ds| > 0
    ensures NonIncreasing(ds[1..])
  {
    forall i, j | 0 <= i < j < |ds[1..]| ensures ds[1..][i] >= ds[1..][j] {
      assert ds[1..][i] == ds[i + 1] && ds[1..][j] == ds[j + 1];
    }
  }

  lemma SortedDatesAreDesc(s: seq<Entry>)
    ensures NonIncreasing(Dates(SortByDateDesc(s)))
  {
  }

  /** The streak depends only on which dates occur how often, not on the
      order of the rows in the file (they are sorted first). */
  lemma StreakIgnoresRowOrder(a: seq<Entry>, b: seq<Entry>, today: int)
    requires multiset(Dates(a)) == multiset(Dates(b))
    ensures CalculateStreak(a, today) == CalculateStreak(b, today)
  {
    SortKeepsDates(a);
    SortKeepsDates(b);
    SortedDatesAreDesc(a);
    SortedDatesAreDesc(b);
    SortedDatesUnique(Dates(SortByDateDesc(a)), Dates(SortByDateDesc(b)));
  }

  /** In particular, appending rows in the other order gives the same streak. */
  lemma StreakOfSwappedHalves(a: seq<Entry>, b: seq<Entry>, today: int)
    ensures CalculateStreak(a + b, today) == CalculateStreak(b + a, today)
  {
    DatesAppend(a, b);
    DatesAppend(b, a);
    StreakIgnoresRowOrder(a + b, b + a, today);
  }

  /** The newest-first dates of a store are the newest-first arrangement of
      its dates, whatever the file order. */
  lemma SortedDatesAre(store: seq<Entry>, ds: seq<int>)
    requires NonIncreasing(ds)
    requires multiset(ds) == multiset(Dates(store))
    ensures Dates(SortByDateDesc(store)) == ds
  {
    SortKeepsDates(store);
    SortedDatesAreDesc(store);
    SortedDatesUnique(Dates(SortByDateDesc(store)), ds);
  }

  /** The streak of a store whose newest-first dates are `ds`. */
  lemma StreakOfSortedDates(store: seq<Entry>, today: int, ds: seq<int>)
    requires NonIncreasing(ds)
    requires multiset(ds) == multiset(Dates(store))
    ensures CalculateStreak(store, today) == Walk(ds, today, 0)
  {
    SortedDatesAre(store, ds);
  }

  /** Rows on today, today-1 and today-2, in any file order, give a streak
      of 2, not 3. */
  lemma ThreeConsecutiveDaysGiveTwo(store: seq<Entry>, today: int)
    requires multiset(Dates(store)) == multiset{today, today - 1, today - 2}
    ensures CalculateStreak(store, today) == 2
  {
    ThreeConsecutiveDates(store, today);
    WalkOnConsecutiveDays(today);
    StreakOfSortedDates(store, today, [today, today - 1, today - 2]);
  }

  lemma ThreeConsecutiveDates(store: seq<Entry>, today: int)
    requires multiset(Dates(store)) == multiset{today, today - 1, today - 2}
    ensures multiset([today, today - 1, today - 2]) == multiset(Dates(store))
  {
  }

  lemma WalkOnConsecutiveDays(today: int)
    ensures var ds := [today, today - 1, today - 2];
            NonIncreasing(ds) && Walk(ds, today, 0) == 2
  {
    var ds := [today, today - 1, today - 2];
    assert Walk(ds, today - 1, 2) == 2;
    assert Walk(ds, today, 1) == 2;
  }

  /** Two rows dated today stop the streak at 1. */
  lemma TwoRowsTodayGiveOne(store: seq<Entry>, today: int)
    requires multiset(Dates(store)) == multiset{today, today}
    ensures CalculateStreak(store, today) == 1
  {
    TwoDatesToday(store, today);
    WalkOnOneDay(today);
    StreakOfSortedDates(store, today, [today, today]);
  }

  lemma WalkOnOneDay(today: int)
    ensures var ds := [today, today];
            NonIncreasing(ds) && Walk(ds, today, 0) == 1
  {
    assert Walk([today, today], today, 1) == 1;
  }

  lemma TwoDatesToday(store: seq<Entry>, today: int)
    requires multiset(Dates(store)) == multiset{today, today}
    ensures multiset([today, today]) == multiset(Dates(store))
  {
  }

  /** The `n` days ending on `today`, newest first. */
  function DaysEndingOn(today: int, n: nat): (ds: seq<int>)
    ensures |ds| == n && forall i :: 0 <= i < n ==> ds[i] == today - i
  {
    seq(n, i => today - i)
  }

  /** Any run of two or more consecutive days ending today, in any file
      order, gives 2 (so a week of daily entries shows a streak of 2). */
  lemma ConsecutiveDaysGiveTwo(store: seq<Entry>, today: int)
    requires |store| >= 2
    requires multiset(Dates(store)) == multiset(DaysEndingOn(today, |store|))
    ensures CalculateStreak(store, today) == 2
  {
    WalkOnDaysEndingOn(today, |store|);
    StreakOfSortedDates(store, today, DaysEndingOn(today, |store|));
  }

  lemma WalkOnDaysEndingOn(today: int, n: nat)
    requires n >= 2
    ensures var ds := DaysEndingOn(today, n);
            NonIncreasing(ds) && Walk(ds, today, 0) == 2
  {
    var ds := DaysEndingOn(today, n);
    assert ds[0] == today && ds[1] == today - 1;
    assert n > 2 ==> ds[2] == today - 2;
    assert Walk(ds, today - 1, 2) == 2;
    assert Walk(ds, today, 1) == 2;
  }

  /** Rows on today, today-1, today-3 and today-6, in any file order, are
      all counted. */
  lemma TriangularGapsGiveFour(store: seq<Entry>, today: int)
    requires multiset(Dates(store)) == multiset{today, today - 1, today - 3, today - 6}
    ensures CalculateStreak(store, today) == 4
  {
    TriangularDates(store, today);
    WalkOnTriangularGaps(today);
    StreakOfSortedDates(store, today, [today, today - 1, today - 3, today - 6]);
  }

  lemma TriangularDates(store: seq<Entry>, today: int)
    requires multiset(Dates(store)) == multiset{today, today - 1, today - 3, today - 6}
    ensures multiset([today, today - 1, today - 3, today - 6]) == multiset(Dates(store))
  {
  }

  lemma WalkOnTriangularGaps(today: int)
    ensures var ds := [today, today - 1, today - 3, today - 6];
            NonIncreasing(ds) && Walk(ds, today, 0) == 4
  {
    var ds := [today, today - 1, today - 3, today - 6];
    assert Walk(ds, today - 6, 4) == 4;
    assert Walk(ds, today - 3, 3) == 4;
    assert Walk(ds, today - 1, 2) == 4;
    assert Walk(ds, today, 1) == 4;
  }

  /** A row dated after today hides everything: the streak is 0. */
  lemma FutureRowGivesZero(store: seq<Entry>, today: int, i: int)
    requires 0 <= i < |store| && store[i].date > today
    ensures CalculateStreak(store, today) == 0
  {
    StreakPositiveIffLatestIsToday(store, today);
  }
}
