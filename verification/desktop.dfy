/** The two desktop front ends: the light one (`MoodTrackerGUI`) and the dark
    one (`MoodWiseDark`). Both save without a duplicate check and both list
    the newest rows; widgets, colours and charts are outside the model. */
module Desktop {
  import opened Wrappers
  import opened Entries
  import opened MoodScale
  import opened Logging
  import Text

  /** Light desktop `save_mood_entry`: the radio buttons only offer 1..5
      (any other score would fail the `mood_scale` lookup before the write
      is attempted). There is no duplicate check: every successful save
      appends one row dated today. */
  function SaveMoodEntry(store: seq<Entry>, today: int, score: int, typedNote: string,
                         classifier: string -> Option<real>, timestamp: int, writeOk: bool): (r: seq<Entry>)
    requires ValidScore(score)
    ensures !writeOk ==> r == store
    ensures writeOk ==>
              && |r| == |store| + 1 && r[..|store|] == store
              && r[|store|].date == today && r[|store|].score == score
              && r[|store|].moodLabel == ConsoleScale[score]
    ensures writeOk ==> r[|store|] == MakeEntry(today, score, ConsoleScale[score], typedNote, classifier, timestamp)
    ensures writeOk ==> CountOn(r, today) == CountOn(store, today) + 1
  {
    var e := MakeEntry(today, score, ConsoleScale[score], typedNote, classifier, timestamp);
    CountOnAppend(store, e, today);
    AppendRow(store, e, writeOk)
  }

  /** Saving twice on the same day leaves two rows dated today: the light
      desktop does not keep one entry per day. */
  lemma TwoSavesBreakOnePerDay(store: seq<Entry>, today: int, s1: int, s2: int, n1: string, n2: string,
                               classifier: string -> Option<real>, t1: int, t2: int)
    requires ValidScore(s1) && ValidScore(s2)
    ensures var once := SaveMoodEntry(store, today, s1, n1, classifier, t1, true);
            var twice := SaveMoodEntry(once, today, s2, n2, classifier, t2, true);
            CountOn(twice, today) == CountOn(store, today) + 2 && !OnePerDay(twice)
  {
    var once := SaveMoodEntry(store, today, s1, n1, classifier, t1, true);
    var twice := SaveMoodEntry(once, today, s2, n2, classifier, t2, true);
    assert twice[|store|] == once[|store|];
    assert twice[|store|].date == today == twice[|store| + 1].date;
  }

  /** Dark desktop `save_quick_mood`: like the light desktop, but the label
      written is the dark scale's label without emoji. */
  function SaveQuickMood(store: seq<Entry>, today: int, score: int, typedNote: string,
                         classifier: string -> Option<real>, timestamp: int, writeOk: bool): (r: seq<Entry>)
    requires ValidScore(score)
    ensures !writeOk ==> r == store
    ensures writeOk ==>
              && |r| == |store| + 1 && r[..|store|] == store
              && r[|store|].date == today && r[|store|].score == score
              && r[|store|].moodLabel == ProfessionalScale[score].name
              && r[|store|].note == Text.Strip(typedNote)
              && r[|store|].sentimentLabel == SentimentAnalysis.Label(r[|store|].sentimentScore)
    ensures writeOk ==>
              r[|store|] == MakeEntry(today, score, ProfessionalScale[score].name, typedNote, classifier, timestamp)
  {
    AppendRow(store, MakeEntry(today, score, ProfessionalScale[score].name, typedNote, classifier, timestamp), writeOk)
  }

  /** One row of the light desktop's "recent entries" panel. */
  datatype DashboardRow = DashboardRow(date: int, score: int, moodLabel: string, note: string)

  /** Light desktop `update_dashboard`: the five newest rows, a missing note
      shown as "No note". */
  function DashboardRows(store: seq<Entry>): (rows: seq<DashboardRow>)
    ensures |rows| == if |store| < 5 then |store| else 5
    ensures forall k :: 0 <= k < |rows| ==>
              var e := Recent(store, 5)[k];
              rows[k].date == e.date && rows[k].score == e.score && rows[k].moodLabel == e.moodLabel
    ensures forall k :: 0 <= k < |rows| ==>
              rows[k].note == if Recent(store, 5)[k].note == "" then "No note" else Recent(store, 5)[k].note
    ensures forall j, k :: 0 <= j < k < |rows| ==> rows[j].date >= rows[k].date
  {
    var recent := Recent(store, 5);
    seq(|recent|, k requires 0 <= k < |recent| =>
      var e := recent[k];
      DashboardRow(e.date, e.score, e.moodLabel, if e.note == "" then "No note" else e.note))
  }

  /** Dark desktop note preview: notes longer than 45 characters are cut to
      45 and followed by "..."; a missing note shows nothing. */
  function NotePreview(note: string): (p: Option<string>)
    ensures note == "" <==> p.None?
    ensures p.Some? ==> |p.value| <= 48
    ensures p.Some? && |note| <= 45 ==> p.value == note
    ensures p.Some? && |note| > 45 ==> |p.value| == 48 && p.value == note[..45] + "..."
  {
    if note == "" then None else Some(Text.Truncate(note, 45))
  }

  /** One row of the dark desktop's "recent activity" list: the date, the
      score with its `mood_scale` label and emoji, and the note preview. */
  datatype ActivityRow = ActivityRow(date: int, score: int, mood: Mood, preview: Option<string>)

  function ActivityRowOf(e: Entry): ActivityRow
    requires ValidScore(e.score)
  {
    ActivityRow(e.date, e.score, ProfessionalScale[e.score], NotePreview(e.note))
  }

  /** Row `row` is the activity row drawn for entry `e`. */
  predicate DrawnFor(row: ActivityRow, e: Entry) {
    ValidScore(e.score) && ActivityRowOf(e) == row
  }

  /** Row `row` is drawn for some entry of `store`. */
  predicate DrawnFromStore(row: ActivityRow, store: seq<Entry>) {
    exists i :: 0 <= i < |store| && DrawnFor(row, store[i])
  }

  /** The list as drawn: the rows completed, and whether a `mood_scale`
      lookup raised `KeyError` and ended the drawing early. */
  datatype ActivityList = ActivityList(rows: seq<ActivityRow>, raised: bool)

  /** Number of leading entries whose score is on the scale. */
  function ValidPrefix(es: seq<Entry>): (p: nat)
    ensures p <= |es|
    ensures forall k :: 0 <= k < p ==> ValidScore(es[k].score)
    ensures p < |es| ==> !ValidScore(es[p].score)
  {
    if |es| == 0 || !ValidScore(es[0].score) then 0 else 1 + ValidPrefix(es[1..])
  }

  /** Dark desktop `update_dark_recent_activity`: the eight newest rows with
      their moods and note previews; an empty store shows the empty-state
      panel. Each row looks its score up in `mood_scale`, so the first
      off-scale score raises and no later row is drawn. */
  function RecentActivity(store: seq<Entry>): (a: ActivityList)
    ensures |store| == 0 ==> a == ActivityList([], false)
    ensures !a.raised ==> |a.rows| == if |store| < 8 then |store| else 8
    ensures a.raised ==> |a.rows| < |Recent(store, 8)| && !ValidScore(Recent(store, 8)[|a.rows|].score)
    ensures forall k :: 0 <= k < |a.rows| ==>
              ValidScore(Recent(store, 8)[k].score) && a.rows[k] == ActivityRowOf(Recent(store, 8)[k])
    ensures forall j, k :: 0 <= j < k < |a.rows| ==> a.rows[j].date >= a.rows[k].date
    ensures forall k :: 0 <= k < |a.rows| ==> a.rows[k].preview.Some? ==> |a.rows[k].preview.value| <= 48
  {
    var recent := Recent(store, 8);
    var p := ValidPrefix(recent);
    ActivityList(seq(p, k requires 0 <= k < p => ActivityRowOf(recent[k])), p < |recent|)
  }

  /** Every activity row shows a row of the store. */
  lemma RecentActivityFromStore(store: seq<Entry>)
    ensures forall k :: 0 <= k < |RecentActivity(store).rows| ==>
              DrawnFromStore(RecentActivity(store).rows[k], store)
  {
    RecentFromStore(store, 8);
    RowsFromEntries(store, Recent(store, 8), RecentActivity(store).rows);
  }

  lemma RowsFromEntries(store: seq<Entry>, recent: seq<Entry>, rows: seq<ActivityRow>)
    requires |rows| <= |recent|
    requires forall k :: 0 <= k < |recent| ==> exists i :: 0 <= i < |store| && store[i] == recent[k]
    requires forall k :: 0 <= k < |rows| ==> ValidScore(recent[k].score) && rows[k] == ActivityRowOf(recent[k])
    ensures forall k :: 0 <= k < |rows| ==> DrawnFromStore(rows[k], store)
  {
    forall k | 0 <= k < |rows|
      ensures DrawnFromStore(rows[k], store)
    {
      var i :| 0 <= i < |store| && store[i] == recent[k];
      assert DrawnFor(rows[k], store[i]);
    }
  }

  /** No row left out of the activity list is newer than a row shown. */
  lemma RecentActivityShowsNewestRows(store: seq<Entry>)
    ensures forall e | e in multiset(store) - multiset(Recent(store, 8)) ::
              forall k | 0 <= k < |RecentActivity(store).rows| :: e.date <= RecentActivity(store).rows[k].date
  {
    RecentAreNewest(store, 8);
    NewestRows(multiset(store) - multiset(Recent(store, 8)), Recent(store, 8), RecentActivity(store).rows);
  }

  lemma NewestRows(rest: multiset<Entry>, recent: seq<Entry>, rows: seq<ActivityRow>)
    requires NoneNewer(rest, recent)
    requires |rows| <= |recent|
    requires forall k :: 0 <= k < |rows| ==> rows[k].date == recent[k].date
    ensures forall e | e in rest :: forall k | 0 <= k < |rows| :: e.date <= rows[k].date
  {
    forall e, k | e in rest && 0 <= k < |rows|
      ensures e.date <= rows[k].date
    {
      assert e.date <= recent[k].date;
    }
  }

  /** Drawing raises exactly when one of the newest eight rows has a score
      off the scale. */
  lemma RecentActivityRaisesIff(store: seq<Entry>)
    ensures RecentActivity(store).raised <==> exists e :: e in Recent(store, 8) && !ValidScore(e.score)
  {
    var recent := Recent(store, 8);
    assert RecentActivity(store).raised == (ValidPrefix(recent) < |recent|);
    ValidPrefixStopsAtOffScale(recent);
  }

  lemma ValidPrefixStopsAtOffScale(es: seq<Entry>)
    ensures ValidPrefix(es) < |es| <==> exists e :: e in es && !ValidScore(e.score)
  {
    var p := ValidPrefix(es);
    if p < |es| {
      assert es[p] in es;
    } else {
      forall e | e in es ensures ValidScore(e.score) {
        var k :| 0 <= k < |es| && es[k] == e;
      }
    }
  }

  /** Light desktop `update_recommendations`: advice for the score of the
      LAST row in file order (not the newest date); none for an empty store.
      The score is looked up in `mood_scale` first, so it must be on the
      scale. */
  function CurrentRecommendations(store: seq<Entry>, avgMood: real): (r: Option<seq<string>>)
    requires |store| > 0 ==> ValidScore(store[|store| - 1].score)
    ensures |store| == 0 <==> r.None?
    ensures r.Some? ==> |r.value| == 4
    ensures r.Some? ==> r.value == Recommendations(store[|store| - 1].score, 0.0)
  {
    if |store| == 0 then None
    else
      RecommendationsIgnoreAverage(store[|store| - 1].score, avgMood, 0.0);
      Some(Recommendations(store[|store| - 1].score, avgMood))
  }
}
