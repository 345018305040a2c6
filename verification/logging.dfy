/** Building and appending an entry, shared by the three front ends, and the
    console front end's `log_mood` with its one-entry-per-day guard. Console
    answers, the clock and the outcome of the file write are parameters. */
module Logging {
  import opened Wrappers
  import opened Entries
  import opened MoodScale
  import opened SentimentAnalysis
  import opened Streak
  import Text

  /** The row every front end writes: today's date, the score and its label,
      the stripped note, the note's sentiment and the creation time. */
  function MakeEntry(today: int, score: int, moodLabel: string, typedNote: string,
                     classifier: string -> Option<real>, timestamp: int): (e: Entry)
    ensures e.date == today && e.score == score && e.moodLabel == moodLabel
    ensures e.timestamp == timestamp
    ensures e.note == Text.Strip(typedNote)
    ensures (e.sentimentScore, e.sentimentLabel) == AnalyzeSentiment(Text.Strip(typedNote), classifier)
    ensures e.sentimentLabel == Label(e.sentimentScore)
    ensures Text.IsBlank(typedNote) ==> e.sentimentScore == 0.0 && e.sentimentLabel == Neutral
  {
    var note := Text.Strip(typedNote);
    var (polarity, sentiment) := AnalyzeSentiment(note, classifier);
    Entry(today, score, moodLabel, note, polarity, sentiment, timestamp)
  }

  /** Appending one CSV row: the row is added when the write succeeds
      (`writeOk`); a failed write is reported and the store is unchanged. */
  function AppendRow(store: seq<Entry>, e: Entry, writeOk: bool): (r: seq<Entry>)
    ensures writeOk ==> |r| == |store| + 1 && r[..|store|] == store && r[|store|] == e
    ensures !writeOk ==> r == store
  {
    if writeOk then store + [e] else store
  }

  /** One answer to "Enter your mood (1-5) or 'q' to go back". */
  datatype MoodAnswer = Quit | Number(n: int) | NotANumber

  /** `get_mood_input`: asks until an answer is 'q' or a number on the
      scale; numbers off the scale and non-numbers are asked again. Running
      out of answers is treated like 'q'. */
  function GetMoodInput(answers: seq<MoodAnswer>): (r: Option<int>)
    ensures r.Some? ==> ValidScore(r.value) && Number(r.value) in answers
    ensures r.Some? ==> Quit !in answers[..FirstDecisive(answers)]
  {
    if |answers| == 0 then None
    else match answers[0]
      case Quit => None
      case Number(n) => if n in ConsoleScale then Some(n) else GetMoodInput(answers[1..])
      case NotANumber => GetMoodInput(answers[1..])
  }

  /** Whether an answer ends the prompt loop. */
  predicate Decisive(a: MoodAnswer) {
    a.Quit? || (a.Number? && ValidScore(a.n))
  }

  /** Index of the first answer that ends the loop (or the length). */
  function FirstDecisive(answers: seq<MoodAnswer>): (k: nat)
    ensures k <= |answers|
    ensures forall j :: 0 <= j < k ==> !Decisive(answers[j])
    ensures k < |answers| ==> Decisive(answers[k])
  {
    if |answers| == 0 then 0
    else if Decisive(answers[0]) then 0
    else 1 + FirstDecisive(answers[1..])
  }

  /** The loop accepts exactly the first decisive answer, if it is a number. */
  lemma {:induction false} GetMoodInputTakesFirstDecisive(answers: seq<MoodAnswer>)
    ensures var k := FirstDecisive(answers);
            GetMoodInput(answers) ==
              if k < |answers| && answers[k].Number? then Some(answers[k].n) else None
  {
    ScalesAgree();
    if |answers| > 0 && !Decisive(answers[0]) {
      GetMoodInputTakesFirstDecisive(answers[1..]);
    }
  }

  datatype LogStatus = AlreadyLogged | WentBack | Saved | SaveFailed

  /** What `log_mood` leaves behind: how it ended, the store after the
      reload, and the streak it printed ("Great job! Current streak: N
      days") when it reached that line. */
  datatype LogOutcome = LogOutcome(status: LogStatus, store: seq<Entry>, shownStreak: Option<nat>)

  /** `log_mood` as written. When today is already logged the user may ask
      to update the entry, but `update_mood_entry` does nothing, so either
      answer leaves the store as it was. Otherwise a score on the scale is
      saved as one row dated today. The streak is printed BEFORE the data
      is reloaded, i.e. computed on the store without the new row. */
  function LogMood(store: seq<Entry>, today: int, answers: seq<MoodAnswer>, typedNote: string,
                   classifier: string -> Option<real>, timestamp: int, writeOk: bool): (r: LogOutcome)
    ensures HasLoggedToday(store, today) ==> r.status == AlreadyLogged
    ensures r.status != Saved ==> r.store == store
    ensures r.status == Saved ==>
              && |r.store| == |store| + 1
              && r.store[..|store|] == store
              && r.store[|store|].date == today
              && ValidScore(r.store[|store|].score)
              && r.store[|store|].moodLabel == ConsoleScale[r.store[|store|].score]
              && r.store[|store|].note == Text.Strip(typedNote)
    ensures r.status == Saved <==>
              !HasLoggedToday(store, today) && GetMoodInput(answers).Some? && writeOk
    ensures r.status == Saved ==>
              var score := GetMoodInput(answers).value;
              r.store[|store|] == MakeEntry(today, score, ConsoleScale[score], typedNote, classifier, timestamp)
  {
    if HasLoggedToday(store, today) then LogOutcome(AlreadyLogged, store, None)
    else match GetMoodInput(answers)
      case None => LogOutcome(WentBack, store, None)
      case Some(score) =>
        var e := MakeEntry(today, score, ConsoleScale[score], typedNote, classifier, timestamp);
        var shown := CalculateStreak(store, today);
        LogOutcome(if writeOk then Saved else SaveFailed, AppendRow(store, e, writeOk), Some(shown))
  }

  /** The console guard keeps at most one row per date. */
  lemma LogMoodKeepsOnePerDay(store: seq<Entry>, today: int, answers: seq<MoodAnswer>, typedNote: string,
                              classifier: string -> Option<real>, timestamp: int, writeOk: bool)
    requires OnePerDay(store)
    ensures OnePerDay(LogMood(store, today, answers, typedNote, classifier, timestamp, writeOk).store)
  {
    var r := LogMood(store, today, answers, typedNote, classifier, timestamp, writeOk);
    if r.status == Saved {
      assert forall i :: 0 <= i < |store| ==> r.store[i] == store[i];
    }
  }

  /** After a save, today counts as logged, so a second attempt the same
      day is refused and changes nothing. */
  lemma SecondLogSameDayIsRefused(store: seq<Entry>, today: int, answers: seq<MoodAnswer>, typedNote: string,
                                  classifier: string -> Option<real>, timestamp: int,
                                  answers2: seq<MoodAnswer>, typedNote2: string, timestamp2: int, writeOk2: bool)
    requires !HasLoggedToday(store, today) && GetMoodInput(answers).Some?
    ensures var first := LogMood(store, today, answers, typedNote, classifier, timestamp, true);
            var second := LogMood(first.store, today, answers2, typedNote2, classifier, timestamp2, writeOk2);
            first.status == Saved && second.status == AlreadyLogged && second.store == first.store
  {
    var first := LogMood(store, today, answers, typedNote, classifier, timestamp, true);
    assert first.store[|store|].date == today;
  }

  /** As written, the streak `log_mood` prints after a save is always 0:
      it is computed on the store that has no row dated today. */
  lemma LogMoodAlwaysShowsZero(store: seq<Entry>, today: int, answers: seq<MoodAnswer>, typedNote: string,
                               classifier: string -> Option<real>, timestamp: int, writeOk: bool)
    ensures var r := LogMood(store, today, answers, typedNote, classifier, timestamp, writeOk);
            r.shownStreak.Some? ==> r.shownStreak.value == 0
  {
    var r := LogMood(store, today, answers, typedNote, classifier, timestamp, writeOk);
    if r.shownStreak.Some? {
      StreakPositiveIffLatestIsToday(store, today);
    }
  }

  /** `log_mood` with the streak computed after the reload, as the message
      evidently intends. Store and status are those of `LogMood`. */
  function LogMoodIntended(store: seq<Entry>, today: int, answers: seq<MoodAnswer>, typedNote: string,
                           classifier: string -> Option<real>, timestamp: int, writeOk: bool): (r: LogOutcome)
    ensures var w := LogMood(store, today, answers, typedNote, classifier, timestamp, writeOk);
            r.status == w.status && r.store == w.store && r.shownStreak.Some? == w.shownStreak.Some?
    ensures r.shownStreak.Some? ==> r.shownStreak.value == CalculateStreak(r.store, today)
  {
    var w := LogMood(store, today, answers, typedNote, classifier, timestamp, writeOk);
    if w.shownStreak.Some? then w.(shownStreak := Some(CalculateStreak(w.store, today))) else w
  }

  /** With the streak taken after the reload, saving on a day after every
      row of the journal shows a streak of at least 1. */
  lemma LogMoodIntendedShowsNewEntry(store: seq<Entry>, today: int, answers: seq<MoodAnswer>, typedNote: string,
                                     classifier: string -> Option<real>, timestamp: int)
    requires forall i :: 0 <= i < |store| ==> store[i].date < today
    requires GetMoodInput(answers).Some?
    ensures var r := LogMoodIntended(store, today, answers, typedNote, classifier, timestamp, true);
            r.status == Saved && r.shownStreak.Some? && r.shownStreak.value >= 1
  {
    var w := LogMood(store, today, answers, typedNote, classifier, timestamp, true);
    assert !HasLoggedToday(store, today);
    AddingTodayStartsStreak(store, w.store, today);
  }

  /** A store extended by a row dated today, with no row after today, has a
      streak of at least 1. */
  lemma AddingTodayStartsStreak(store: seq<Entry>, s: seq<Entry>, today: int)
    requires forall i :: 0 <= i < |store| ==> store[i].date <= today
    requires |s| == |store| + 1 && s[..|store|] == store && s[|store|].date == today
    ensures CalculateStreak(s, today) >= 1
  {
    forall i | 0 <= i < |s|
      ensures s[i].date <= today
    {
      if i < |store| {
        assert s[i] == s[..|store|][i];
      }
    }
    var last := |store|;
    assert 0 <= last < |s| && s[last].date == today;
    StreakPositiveIffLatestIsToday(s, today);
  }
}
