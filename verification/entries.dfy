/** The entry store: one row per logging action, kept in file order, and the
    queries every front end runs over it (has today been logged, the newest
    rows, the date range). Dates are day numbers; `today` is always a
    parameter because the program reads the clock itself. */
module Entries {

  /** The sentiment label written next to each entry. */
  datatype Sentiment = Negative | Neutral | Positive

  /** One CSV row: Date, Mood_Score, Mood_Label, Note, Sentiment_Score,
      Sentiment_Label, Timestamp. An empty `note` stands for a missing one
      (pandas reads an empty field as NaN). */
  datatype Entry = Entry(
    date: int,
    score: int,
    moodLabel: string,
    note: string,
    sentimentScore: real,
    sentimentLabel: Sentiment,
    timestamp: int)

  /** The dates of a sequence of entries, position by position. */
  function Dates(s: seq<Entry>): (ds: seq<int>)
    ensures |ds| == |s|
    ensures forall i :: 0 <= i < |s| ==> ds[i] == s[i].date
  {
    if |s| == 0 then [] else [s[0].date] + Dates(s[1..])
  }

  lemma DatesAppend(a: seq<Entry>, b: seq<Entry>)
    ensures Dates(a + b) == Dates(a) + Dates(b)
  {
    var l, r := Dates(a + b), Dates(a) + Dates(b);
    assert |l| == |r|;
    forall i | 0 <= i < |l| ensures l[i] == r[i] {
      if i < |a| { assert (a + b)[i] == a[i]; } else { assert (a + b)[i] == b[i - |a|]; }
    }
  }

  /** Number of entries dated `day`. */
  function CountOn(store: seq<Entry>, day: int): (n: nat)
    ensures n <= |store|
    ensures n > 0 <==> exists i :: 0 <= i < |store| && store[i].date == day
  {
    if |store| == 0 then 0
    else
      var rest := CountOn(store[1..], day);
      assert forall i :: 1 <= i < |store| ==> store[i] == store[1..][i - 1];
      (if store[0].date == day then 1 else 0) + rest
  }

  lemma {:induction false} CountOnAppend(store: seq<Entry>, e: Entry, day: int)
    ensures CountOn(store + [e], day) == CountOn(store, day) + (if e.date == day then 1 else 0)
  {
    if |store| > 0 {
      assert (store + [e])[1..] == store[1..] + [e];
      CountOnAppend(store[1..], e, day);
    }
  }

  /** `has_logged_today`: false on an empty store, otherwise whether some
      row carries today's date. */
  function HasLoggedToday(store: seq<Entry>, today: int): (r: bool)
    ensures r <==> exists i :: 0 <= i < |store| && store[i].date == today
  {
    if |store| == 0 then false else CountOn(store, today) > 0
  }

  /** No two rows share a date: the policy the console front end keeps. */
  predicate OnePerDay(store: seq<Entry>) {
    forall i, j :: 0 <= i < j < |store| ==> store[i].date != store[j].date
  }

  /** Newest first (non-increasing dates). */
  predicate SortedByDateDesc(s: seq<Entry>) {
    forall i, j :: 0 <= i < j < |s| ==> s[i].date >= s[j].date
  }

  /** Newest first, for a sequence of day numbers: `SortedByDateDesc(s)` is
      `NonIncreasing(Dates(s))`. */
  predicate NonIncreasing(ds: seq<int>) {
    forall i, j :: 0 <= i < j < |ds| ==> ds[i] >= ds[j]
  }

  function Insert(e: Entry, t: seq<Entry>): (r: seq<Entry>)
    requires SortedByDateDesc(t)
    ensures SortedByDateDesc(r)
    ensures multiset(r) == multiset(t) + multiset{e}
    ensures |r| == |t| + 1
    ensures forall x :: x in r <==> x == e || x in t
  {
    if |t| == 0 || e.date >= t[0].date then [e] + t
    else
      var rest := Insert(e, t[1..]);
      assert t == [t[0]] + t[1..];
      assert forall x :: x in rest ==> x.date <= t[0].date;
      [t[0]] + rest
  }

  /** `sort_values('Date', ascending=False)`: the same rows, newest first.
      Rows that share a date keep their file order; pandas does not promise
      any particular order for them. */
  function SortByDateDesc(s: seq<Entry>): (r: seq<Entry>)
    ensures SortedByDateDesc(r)
    ensures multiset(r) == multiset(s)
    ensures |r| == |s|
  {
    if |s| == 0 then []
    else
      assert s == [s[0]] + s[1..];
      Insert(s[0], SortByDateDesc(s[1..]))
  }

  /** The newest `n` rows: `sort_values('Date', ascending=False).head(n)`. */
  function Recent(store: seq<Entry>, n: nat): (r: seq<Entry>)
    ensures |r| == if n < |store| then n else |store|
    ensures SortedByDateDesc(r)
  {
    var sorted := SortByDateDesc(store);
    sorted[..if n < |sorted| then n else |sorted|]
  }

  /** No row of `rest` is newer than a row of `kept`. */
  predicate NoneNewer(rest: multiset<Entry>, kept: seq<Entry>) {
    forall e | e in rest :: forall k | 0 <= k < |kept| :: e.date <= kept[k].date
  }

  /** The recent rows are rows of the store, and every row left out is no
      newer than any row kept. */
  lemma RecentAreNewest(store: seq<Entry>, n: nat)
    ensures multiset(Recent(store, n)) <= multiset(store)
    ensures NoneNewer(multiset(store) - multiset(Recent(store, n)), Recent(store, n))
  {
    var sorted := SortByDateDesc(store);
    var m := if n < |sorted| then n else |sorted|;
    var r := sorted[..m];
    assert Recent(store, n) == r;
    SortedPrefixIsNewest(sorted, m);
    assert multiset(sorted) == multiset(store);
  }

  /** The rows cut off a date-sorted sequence are no newer than those kept. */
  lemma SortedPrefixIsNewest(sorted: seq<Entry>, m: nat)
    requires SortedByDateDesc(sorted) && m <= |sorted|
    ensures multiset(sorted[..m]) <= multiset(sorted)
    ensures NoneNewer(multiset(sorted) - multiset(sorted[..m]), sorted[..m])
  {
    var r := sorted[..m];
    var tail := sorted[m..];
    assert sorted == r + tail;
    assert multiset(sorted) == multiset(r) + multiset(tail);
    forall e | e in multiset(sorted) - multiset(r)
      ensures forall k | 0 <= k < m :: e.date <= r[k].date
    {
      assert e in tail;
      var j :| 0 <= j < |tail| && tail[j] == e;
      assert sorted[m + j] == e;
    }
  }

  /** Every row of a recent list is a row of the store. */
  lemma RecentFromStore(store: seq<Entry>, n: nat)
    ensures forall k :: 0 <= k < |Recent(store, n)| ==>
              exists i :: 0 <= i < |store| && store[i] == Recent(store, n)[k]
  {
    var r := Recent(store, n);
    RecentAreNewest(store, n);
    forall k | 0 <= k < |r|
      ensures exists i :: 0 <= i < |store| && store[i] == r[k]
    {
      assert r[k] in multiset(r);
      assert r[k] in multiset(store);
      assert r[k] in store;
    }
  }

  /** The earliest date in a non-empty store. */
  function MinDate(store: seq<Entry>): (d: int)
    requires |store| > 0
    ensures forall i :: 0 <= i < |store| ==> d <= store[i].date
    ensures exists i :: 0 <= i < |store| && store[i].date == d
  {
    if |store| == 1 then store[0].date
    else
      var m := MinDate(store[1..]);
      assert forall i :: 1 <= i < |store| ==> store[i] == store[1..][i - 1];
      if store[0].date <= m then store[0].date else m
  }

  /** The latest date in a non-empty store. */
  function MaxDate(store: seq<Entry>): (d: int)
    requires |store| > 0
    ensures forall i :: 0 <= i < |store| ==> store[i].date <= d
    ensures exists i :: 0 <= i < |store| && store[i].date == d
  {
    if |store| == 1 then store[0].date
    else
      var m := MaxDate(store[1..]);
      assert forall i :: 1 <= i < |store| ==> store[i] == store[1..][i - 1];
      if store[0].date >= m then store[0].date else m
  }

  /** Sorting keeps the multiset of dates. */
  lemma {:induction false} SortKeepsDates(s: seq<Entry>)
    ensures multiset(Dates(SortByDateDesc(s))) == multiset(Dates(s))
  {
    if |s| > 0 {
      SortKeepsDates(s[1..]);
      InsertKeepsDates(s[0], SortByDateDesc(s[1..]));
      assert Dates(s) == [s[0].date] + Dates(s[1..]);
    }
  }

  lemma {:induction false} InsertKeepsDates(e: Entry, t: seq<Entry>)
    requires SortedByDateDesc(t)
    ensures multiset(Dates(Insert(e, t))) == multiset(Dates(t)) + multiset{e.date}
  {
    if |t| == 0 || e.date >= t[0].date {
      assert Insert(e, t) == [e] + t;
      assert ([e] + t)[1..] == t;
    } else {
      var rest := Insert(e, t[1..]);
      InsertKeepsDates(e, t[1..]);
      assert Insert(e, t) == [t[0]] + rest;
      assert ([t[0]] + rest)[1..] == rest;
      assert Dates(Insert(e, t)) == [t[0].date] + Dates(rest);
      assert multiset(Dates(Insert(e, t))) == multiset{t[0].date} + multiset(Dates(rest));
    }
  }

  /** The first row of the date-sorted store carries the latest date. */
  lemma SortedHeadIsMax(s: seq<Entry>)
    requires |s| > 0
    ensures SortByDateDesc(s)[0].date == MaxDate(s)
  {
    HeadOfSortedPermutation(SortByDateDesc(s), s, MaxDate(s));
  }

  /** A newest-first arrangement of the rows starts with the latest date. */
  lemma HeadOfSortedPermutation(r: seq<Entry>, s: seq<Entry>, d: int)
    requires SortedByDateDesc(r) && multiset(r) == multiset(s)
    requires forall i :: 0 <= i < |s| ==> s[i].date <= d
    requires exists i :: 0 <= i < |s| && s[i].date == d
    ensures |r| > 0 && r[0].date == d
  {
    var i :| 0 <= i < |s| && s[i].date == d;
    assert s[i] in multiset(r);
    var j :| 0 <= j < |r| && r[j] == s[i];
    assert r[0] in multiset(s);
    var m :| 0 <= m < |s| && s[m] == r[0];
  }
}
