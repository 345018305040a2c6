/** The PDF exporter's content: the text cleaning that makes notes safe for
    the PDF's Latin-1 fonts, the summary figures, the per-score breakdown
    and the "recent entries" page. Fonts, layout, charts and the file
    itself are outside the model; whether writing the file succeeds is the
    parameter `writeOk`. */
module PdfReport {
  import opened Wrappers
  import opened Entries
  import opened MoodScale
  import Text

  /** `clean_text`: drop every character whose code is 128 or more (emoji
      included), then strip whitespace at both ends. */
  function CleanText(text: string): (r: string)
    ensures Text.AllAscii(r)
    ensures Text.NoEdgeSpace(r)
    ensures Text.IsSubsequence(r, text)
    ensures text == "" ==> r == ""
    ensures var a := Text.AsciiOnly(text); var lo := Text.LeadingSpaces(a);
            lo + |r| <= |a| && r == a[lo..lo + |r|]
            && Text.IsBlank(a[..lo]) && Text.IsBlank(a[lo + |r|..])
  {
    if text == "" then ""
    else
      StrippedAsciiIsSubsequence(text);
      Text.Strip(Text.AsciiOnly(text))
  }

  lemma StrippedAsciiIsSubsequence(text: string)
    ensures Text.AllAscii(Text.Strip(Text.AsciiOnly(text)))
    ensures Text.IsSubsequence(Text.Strip(Text.AsciiOnly(text)), text)
  {
    var a := Text.AsciiOnly(text);
    StrippedIsAscii(a);
    Text.AsciiOnlyIsSubsequence(text);
    Text.StripIsSubsequence(a);
    Text.SubsequenceTransitive(Text.Strip(a), a, text);
  }

  lemma StrippedIsAscii(a: string)
    requires Text.AllAscii(a)
    ensures Text.AllAscii(Text.Strip(a))
  {
    var r := Text.Strip(a);
    var lo := Text.LeadingSpaces(a);
    assert forall i :: 0 <= i < |r| ==> r[i] == a[lo + i];
  }

  /** Nothing visible is lost: every occurrence of every ASCII character
      that is not whitespace survives cleaning. */
  lemma CleanTextKeepsVisibleAscii(text: string, c: char)
    requires Text.IsAscii(c) && !Text.IsSpace(c)
    ensures multiset(CleanText(text))[c] == multiset(text)[c]
  {
    if text != "" {
      var a := Text.AsciiOnly(text);
      assert CleanText(text) == Text.Strip(a);
      Text.StripKeepsVisible(a, c);
    }
  }

  /** Only the ends are trimmed: an ASCII text without edge whitespace is
      returned as it is, inner whitespace included. */
  lemma CleanTextOfTrimmedAscii(text: string)
    requires Text.AllAscii(text) && Text.NoEdgeSpace(text)
    ensures CleanText(text) == text
  {
    if text != "" {
      Text.AsciiOnlyOfAscii(text);
      Text.StripOfTrimmed(text);
    }
  }

  /** Cleaning twice is cleaning once. */
  lemma CleanTextIdempotent(text: string)
    ensures CleanText(CleanText(text)) == CleanText(text)
  {
    var r := CleanText(text);
    if r != "" {
      Text.AsciiOnlyOfAscii(r);
      Text.StripOfTrimmed(r);
    }
  }

  /** The note line of one recent entry: none when the note is missing or
      whitespace only, otherwise the cleaned note, cut to 80 characters
      followed by "..." when longer. A note made only of emoji still gets
      a line, with nothing after "Note: ". */
  function ReportNote(note: string): (r: Option<string>)
    ensures r.None? <==> Text.IsBlank(note)
    ensures r.Some? ==> Text.AllAscii(r.value) && |r.value| <= 83
    ensures r.Some? && |CleanText(note)| <= 80 ==> r.value == CleanText(note)
    ensures r.Some? && |CleanText(note)| > 80 ==> r.value == CleanText(note)[..80] + "..."
  {
    if Text.Strip(note) == "" then None
    else
      var c := CleanText(note);
      TruncateKeepsAscii(c, 80);
      Some(Text.Truncate(c, 80))
  }

  /** Cutting an ASCII text and appending "..." leaves it ASCII. */
  lemma TruncateKeepsAscii(c: string, n: nat)
    requires Text.AllAscii(c)
    ensures Text.AllAscii(Text.Truncate(c, n))
  {
    var t := Text.Truncate(c, n);
    if |c| > n {
      forall i | 0 <= i < |t| ensures Text.IsAscii(t[i]) {
        if i < n { assert t[i] == c[i]; } else { assert t[i] == t[n..][i - n]; }
      }
    }
  }

  /** Every score of the store is on the report's `mood_scale`; any other
      score makes the lookup raise, and the exporter returns nothing. */
  predicate AllScoresValid(store: seq<Entry>) {
    forall i :: 0 <= i < |store| ==> ValidScore(store[i].score)
  }

  /** Number of rows with mood score `s` (`value_counts`). */
  function CountScore(store: seq<Entry>, s: int): (n: nat)
    ensures n <= |store|
  {
    if |store| == 0 then 0
    else (if store[0].score == s then 1 else 0) + CountScore(store[1..], s)
  }

  /** A score is counted exactly when some row has it. */
  lemma {:induction false} CountScorePositive(store: seq<Entry>, s: int)
    ensures CountScore(store, s) > 0 <==> exists i :: 0 <= i < |store| && store[i].score == s
  {
    if |store| > 0 {
      CountScorePositive(store[1..], s);
      assert forall i :: 1 <= i < |store| ==> store[i] == store[1..][i - 1];
    }
  }

  /** Lines whose scores are counted name scores that occur in the store. */
  lemma CountedScoresOccur(store: seq<Entry>, lines: seq<BreakdownLine>)
    requires forall k :: 0 <= k < |lines| ==> CountScore(store, lines[k].score) > 0
    ensures forall k :: 0 <= k < |lines| ==> exists i :: 0 <= i < |store| && store[i].score == lines[k].score
  {
    forall k | 0 <= k < |lines|
      ensures exists i :: 0 <= i < |store| && store[i].score == lines[k].score
    {
      CountScorePositive(store, lines[k].score);
    }
  }

  /** The report's label for a score on the scale. */
  function MoodName(score: int): string
    requires ValidScore(score)
  {
    ReportScale[score]
  }

  /** One line of "MOOD BREAKDOWN": the score, its label and its count. */
  datatype BreakdownLine = BreakdownLine(score: int, name: string, count: nat)

  /** The lines for the scores `s`..5 that occur, in increasing score. */
  function BreakdownFrom(store: seq<Entry>, s: int): (lines: seq<BreakdownLine>)
    requires 1 <= s <= 6
    ensures forall k :: 0 <= k < |lines| ==>
              && s <= lines[k].score <= 5
              && lines[k].count == CountScore(store, lines[k].score) > 0
              && lines[k].name == MoodName(lines[k].score)
    ensures forall j, k :: 0 <= j < k < |lines| ==> lines[j].score < lines[k].score
    decreases 6 - s
  {
    if s == 6 then []
    else
      var rest := BreakdownFrom(store, s + 1);
      var n := CountScore(store, s);
      if n > 0 then [BreakdownLine(s, MoodName(s), n)] + rest else rest
  }

  /** Every score in `s`..5 that occurs gets a line; `k` is its position. */
  lemma {:induction false} BreakdownFromComplete(store: seq<Entry>, s: int, t: int) returns (k: nat)
    requires 1 <= s <= t <= 5 && CountScore(store, t) > 0
    ensures k < |BreakdownFrom(store, s)| && BreakdownFrom(store, s)[k].score == t
    decreases 6 - s
  {
    var rest := BreakdownFrom(store, s + 1);
    var n := CountScore(store, s);
    if s == t {
      assert BreakdownFrom(store, s) == [BreakdownLine(s, MoodName(s), n)] + rest;
      k := 0;
    } else if n > 0 {
      var j := BreakdownFromComplete(store, s + 1, t);
      assert BreakdownFrom(store, s) == [BreakdownLine(s, MoodName(s), n)] + rest;
      k := j + 1;
    } else {
      k := BreakdownFromComplete(store, s + 1, t);
    }
  }

  /** `value_counts().sort_index()` with its labels: one line per score that
      occurs, in increasing score. */
  function Breakdown(store: seq<Entry>): (lines: seq<BreakdownLine>)
    ensures forall k :: 0 <= k < |lines| ==>
              && ValidScore(lines[k].score)
              && (exists i :: 0 <= i < |store| && store[i].score == lines[k].score)
              && lines[k].count == CountScore(store, lines[k].score)
              && lines[k].name == MoodName(lines[k].score)
    ensures forall j, k :: 0 <= j < k < |lines| ==> lines[j].score < lines[k].score
  {
    var lines := BreakdownFrom(store, 1);
    CountedScoresOccur(store, lines);
    lines
  }

  /** Every score of the store that is on the scale has its line. */
  lemma BreakdownCoversStore(store: seq<Entry>, i: int)
    requires 0 <= i < |store| && ValidScore(store[i].score)
    ensures exists k :: 0 <= k < |Breakdown(store)| && Breakdown(store)[k].score == store[i].score
  {
    CountScorePositive(store, store[i].score);
    var k := BreakdownFromComplete(store, 1, store[i].score);
    assert Breakdown(store)[k] == BreakdownFrom(store, 1)[k];
  }

  function SumCounts(lines: seq<BreakdownLine>): nat {
    if |lines| == 0 then 0 else lines[0].count + SumCounts(lines[1..])
  }

  /** Rows whose score is in `lo`..5. */
  function CountRange(store: seq<Entry>, lo: int): nat
    requires 1 <= lo <= 6
    decreases 6 - lo
  {
    if lo == 6 then 0 else CountScore(store, lo) + CountRange(store, lo + 1)
  }

  lemma {:induction false} BreakdownFromSums(store: seq<Entry>, s: int)
    requires 1 <= s <= 6
    ensures SumCounts(BreakdownFrom(store, s)) == CountRange(store, s)
    decreases 6 - s
  {
    if s < 6 {
      BreakdownFromSums(store, s + 1);
      var rest := BreakdownFrom(store, s + 1);
      if CountScore(store, s) > 0 {
        var lines := [BreakdownLine(s, MoodName(s), CountScore(store, s))] + rest;
        assert lines[1..] == rest;
      }
    }
  }

  /** Taking the first row out of the count for scores `lo`..5. */
  lemma {:induction false} CountRangePeel(store: seq<Entry>, lo: int)
    requires |store| > 0 && 1 <= lo <= 6
    ensures CountRange(store, lo) ==
              (if lo <= store[0].score <= 5 then 1 else 0) + CountRange(store[1..], lo)
    decreases 6 - lo
  {
    if lo < 6 {
      CountRangePeel(store, lo + 1);
    }
  }

  lemma {:induction false} CountRangeCoversValid(store: seq<Entry>)
    requires AllScoresValid(store)
    ensures CountRange(store, 1) == |store|
  {
    if |store| > 0 {
      CountRangePeel(store, 1);
      assert forall i :: 0 <= i < |store[1..]| ==> store[1..][i] == store[i + 1];
      CountRangeCoversValid(store[1..]);
    }
  }

  /** When every score is on the scale, the breakdown accounts for every
      entry: its counts add up to the total, so the percentages add up to
      100. */
  lemma BreakdownSumsToTotal(store: seq<Entry>)
    requires AllScoresValid(store)
    ensures SumCounts(Breakdown(store)) == |store|
  {
    BreakdownFromSums(store, 1);
    CountRangeCoversValid(store);
  }

  /** One entry of the "RECENT ENTRIES" page. */
  datatype ReportRow = ReportRow(date: int, score: int, moodName: string, note: Option<string>)

  function ReportRowOf(e: Entry): ReportRow
    requires ValidScore(e.score)
  {
    ReportRow(e.date, e.score, MoodName(e.score), ReportNote(e.note))
  }

  lemma RecentScoresValid(store: seq<Entry>, n: nat)
    requires AllScoresValid(store)
    ensures forall k :: 0 <= k < |Recent(store, n)| ==> ValidScore(Recent(store, n)[k].score)
  {
    RecentFromStore(store, n);
  }

  /** The eight newest entries, newest first, with their labels and notes. */
  function ReportRows(store: seq<Entry>): (rows: seq<ReportRow>)
    requires AllScoresValid(store)
    ensures |rows| == if |store| < 8 then |store| else 8
    ensures forall j, k :: 0 <= j < k < |rows| ==> rows[j].date >= rows[k].date
    ensures forall k :: 0 <= k < |rows| ==>
              ValidScore(Recent(store, 8)[k].score) && rows[k] == ReportRowOf(Recent(store, 8)[k])
  {
    var recent := Recent(store, 8);
    RecentScoresValid(store, 8);
    seq(|recent|, k requires 0 <= k < |recent| => ReportRowOf(recent[k]))
  }

  /** What the report shows. The average mood and the percentages are
      floating point and outside the model. */
  datatype Report = Report(
    totalEntries: nat,
    firstDay: int,
    lastDay: int,
    periodDays: int,
    breakdown: seq<BreakdownLine>,
    recent: seq<ReportRow>)

  /** `create_simple_pdf_report`: nothing for an empty store; nothing when
      a score is off the scale (the lookup raises and the broad handler
      returns None) or the file cannot be written; otherwise the report. */
  function CreateReport(store: seq<Entry>, writeOk: bool): (r: Option<Report>)
    ensures r.None? <==> |store| == 0 || !AllScoresValid(store) || !writeOk
    ensures r.Some? ==> r.value.totalEntries == |store| && SumCounts(r.value.breakdown) == |store|
    ensures r.Some? ==>
              && (forall i :: 0 <= i < |store| ==> r.value.firstDay <= store[i].date <= r.value.lastDay)
              && (exists i :: 0 <= i < |store| && store[i].date == r.value.firstDay)
              && (exists i :: 0 <= i < |store| && store[i].date == r.value.lastDay)
              && r.value.periodDays == r.value.lastDay - r.value.firstDay + 1 >= 1
    ensures r.Some? ==> r.value.breakdown == Breakdown(store) && r.value.recent == ReportRows(store)
  {
    if |store| == 0 || !AllScoresValid(store) || !writeOk then None
    else
      var first := MinDate(store);
      var last := MaxDate(store);
      BreakdownSumsToTotal(store);
      Some(Report(|store|, first, last, last - first + 1, Breakdown(store), ReportRows(store)))
  }
}
