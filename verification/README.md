# Mood tracker core in Dafny

This project models the pure logic beneath the mood-journal application `adaptive-mood-tracker`. The application has three front ends: a console app, a light Tkinter desktop and a dark Tkinter desktop. It also has a PDF exporter. They share one core:

- a journal of entries, one CSV row each, held in file order;
- the "already logged today" check and the streak counter;
- the once-a-day reminder decision and its settings;
- the sentiment label derived from a note;
- the fixed tables keyed by mood score: labels, emojis and recommendations;
- the text helpers behind the note previews and the report's ASCII cleaning;
- the "newest N entries" lists.

Dates are whole day numbers. An entry is the record `Entries.Entry`, with date, score, label, note, sentiment score, sentiment label and timestamp. The journal is a `seq<Entry>` in file order. A missing (NaN) note is the empty string. The things a front end only receives from outside become parameters:
- today's day number;
- the user's typed answers;
- whether a file write succeeds;
- the sentiment classifier, as `string -> Option<real>`, where `None` means it raised;
- the `strptime` check, as `string -> bool`;
- whether the reminder's time of day has come, as `due`.

Modules, one per file:

| module | file | models |
|---|---|---|
| `Wrappers` | wrappers.dfy | `Option` |
| `Text` | text.dfy | Python `str.strip()`, the ASCII filter, "..." previews, subsequences |
| `Entries` | entries.dfy | the entry record, `has_logged_today`, sorting newest first, the newest-N lists, first and last date |
| `Streak` | streak.dfy | `calculate_streak` (three identical copies) |
| `SentimentAnalysis` | sentiment.dfy | `analyze_sentiment` (three copies that return the same results and differ only in how they report a failing classifier) |
| `MoodScale` | moodscale.dfy | the three `mood_scale` tables, `get_mood_emoji`, `generate_mood_based_recommendations` |
| `Reminders` | reminders.dfy | settings, `send_daily_reminder`, the scheduler gate, `toggle_reminders`, `set_reminder_time`, `set_reminder_message` |
| `Logging` | logging.dfy | building and appending a row, `get_mood_input`, console `log_mood` |
| `Desktop` | desktop.dfy | the two desktop saves, dashboard and recent-activity lists, note preview, current recommendations |
| `PdfReport` | report.dfy | `clean_text`, the report's figures, breakdown and recent-entries page |

**The streak follows the code.** The application describes its streak as the number of consecutive days, ending today, that have an entry, so a week of daily entries would give 7. The code behaves differently:
- It walks the rows newest first.
- It counts a row only when `current_date - row_date == streak`.
- It then moves `current_date` to that row's date.

So the i-th counted row lies i days before the previous one, i.e. 0 + 1 + … + i days before today. The consequences:
- Rows on today, today-1 and today-2 give 2.
- A journal of one row on each of the n >= 2 consecutive days ending today gives 2, whatever the file order.
- Rows on today, today-1, today-3 and today-6 give 4.
- Two rows dated today give 1.

The model follows the code, and `Streak` proves each of these outcomes.

## Model

| member | source | states |
|---|---|---|
| Text.Strip | src/mood_tracker.py:437 | the result is the slice of the input between its leading and its trailing whitespace: no edge whitespace, only whitespace removed, empty exactly when the input is blank |
| Text.StripIdempotent | src/mood_tracker.py:287 | stripping an already stripped text changes nothing |
| Text.StripOfTrimmed | src/mood_tracker_pdf.py:32 | a text without edge whitespace is its own strip |
| Text.StripIsSubsequence | src/mood_tracker_pdf.py:32 | stripping only deletes characters |
| Text.StripKeepsVisible | src/mood_tracker_pdf.py:32 | every non-whitespace character keeps its number of occurrences through stripping |
| Text.AsciiOnly | src/mood_tracker_pdf.py:31 | the result is all ASCII and holds every ASCII character of the input exactly as often as the input does, and no other character |
| Text.AsciiOnlyIsSubsequence | src/mood_tracker_pdf.py:31 | the ASCII filter keeps the remaining characters in order |
| Text.AsciiOnlyOfAscii | src/mood_tracker_pdf.py:31 | an all-ASCII text passes the filter unchanged |
| Text.Truncate | src/mood_tracker_professional.py:820-821 | a text of at most n characters is unchanged; a longer one becomes its first n characters plus "...", n + 3 long |
| Text.TruncateIdempotent | src/mood_tracker_pdf.py:185-186 | cutting a preview again changes nothing |
| Entries.HasLoggedToday | src/mood_tracker.py:186-193 | true exactly when some row is dated today, so false on an empty journal |
| Entries.Insert | src/mood_tracker.py:200 | inserting into a newest-first list keeps it newest first and adds exactly that row |
| Entries.SortByDateDesc | src/mood_tracker.py:200 | the result is newest first and a permutation of the journal |
| Entries.Recent | src/mood_tracker_professional.py:779 | the newest-N list has min(N, size) rows, newest first |
| Entries.RecentAreNewest | src/mood_tracker_gui.py:630 | the list is drawn from the journal, and no row left out is newer than a row shown |
| Entries.RecentFromStore | src/mood_tracker_pdf.py:172 | every row of a newest-N list is a row of the journal |
| Entries.MinDate | src/mood_tracker_pdf.py:121 | the earliest date: no row is earlier, and some row has it |
| Entries.MaxDate | src/mood_tracker_pdf.py:121 | the latest date: no row is later, and some row has it |
| Streak.Walk | src/mood_tracker.py:204-210 | the loop counts at least the rows already counted and never more than there are |
| Streak.CalculateStreak | src/mood_tracker.py:195-212 | the streak never exceeds the number of rows and is 0 on an empty journal; identical copies at src/mood_tracker_gui.py:156-174 and src/mood_tracker_professional.py:735-751 |
| Streak.WalkFindsLongestChain | src/mood_tracker.py:204-210 | the loop stops exactly after the longest prefix whose i-th date is today minus 0+1+…+i |
| Streak.StreakIsLongestChain | src/mood_tracker_gui.py:156-174 | the streak is the length of that longest prefix of the newest-first dates |
| Streak.LongestChainIsUnique | src/mood_tracker_professional.py:735-751 | that prefix length is unique, so it characterises the streak |
| Streak.StreakPositiveIffLatestIsToday | src/mood_tracker.py:200-210 | the streak is at least 1 exactly when some row is dated today and none is dated later |
| Streak.FutureRowGivesZero | src/mood_tracker.py:204-210 | one row dated after today makes the streak 0 |
| Streak.StreakIgnoresRowOrder | src/mood_tracker.py:200 | journals with the same multiset of dates have the same streak, whatever their file order |
| Streak.StreakOfSwappedHalves | src/mood_tracker.py:200 | concatenating two journals in either order gives the same streak |
| Streak.ThreeConsecutiveDaysGiveTwo | src/mood_tracker.py:204-210 | rows on today, today-1 and today-2 give a streak of 2 |
| Streak.TwoRowsTodayGiveOne | src/mood_tracker.py:204-210 | two rows dated today give a streak of 1 |
| Streak.ConsecutiveDaysGiveTwo | src/mood_tracker_gui.py:164-172 | a journal whose dates are the n >= 2 consecutive days ending today, one row each, in any file order, gives 2 |
| Streak.TriangularGapsGiveFour | src/mood_tracker_professional.py:743-749 | rows on today, today-1, today-3 and today-6 are all counted |
| SentimentAnalysis.Label | src/mood_tracker.py:350-355 | Positive iff polarity > 0.1, Negative iff polarity < -0.1, Neutral iff within [-0.1, 0.1] |
| SentimentAnalysis.LabelMonotone | src/mood_tracker_gui.py:733-738 | a higher polarity never gets a lower label |
| SentimentAnalysis.AnalyzeSentiment | src/mood_tracker.py:342-362 | the label is the label of the returned score; blank text and a raising classifier give (0.0, Neutral); otherwise the classifier's polarity is returned; copies with the same results at src/mood_tracker_gui.py:725-744 and src/mood_tracker_professional.py:1076-1094, which differ only in how the failure is reported: the console copy prints a warning, the other two stay silent |
| SentimentAnalysis.BlankTextSkipsClassifier | src/mood_tracker_professional.py:1078-1079 | for blank text the result does not depend on the classifier |
| SentimentAnalysis.LabelDependsOnPolarityOnly | src/mood_tracker_professional.py:1085-1090 | equal scores get equal labels |
| MoodScale.ScalesAgree | src/mood_tracker.py:29-35 | the console, dark-desktop and report scales are defined on exactly 1..5; the console label is the report label, a space, then the dark desktop's emoji; the scales are at src/mood_tracker_professional.py:19-25 and src/mood_tracker_pdf.py:16-22 |
| MoodScale.ScalesAreInjective | src/mood_tracker_gui.py:25-31 | different scores carry different labels in every scale |
| MoodScale.MoodEmoji | src/mood_tracker_gui.py:788-799 | the result is one of the five scale emojis; for any real average it is the very happy emoji exactly from 4.5 up, happy exactly on [3.5, 4.5), neutral on [2.5, 3.5), sad on [1.5, 2.5) and very sad below 1.5 |
| MoodScale.MoodEmojiMonotone | src/mood_tracker_gui.py:788-799 | a higher average never shows a sadder emoji |
| MoodScale.MoodEmojiMatchesScale | src/mood_tracker_gui.py:788-799 | on each whole score 1..5 the thresholds pick that score's own `mood_scale` emoji |
| MoodScale.Recommendations | src/mood_tracker_gui.py:746-786 | always four items, one of the five fixed lists; score 5 gets the Very Happy list, 4 Happy, 3 Neutral, 2 Sad and 1 Very Sad, and any score outside {2,3,4,5} gets the "Very Sad" list |
| MoodScale.RecommendationsIgnoreAverage | src/mood_tracker_gui.py:746 | the average mood has no influence on the advice |
| MoodScale.RecommendationsDistinguishScores | src/mood_tracker_gui.py:750-784 | the five scores get five different lists |
| Reminders.SendDailyReminder | src/mood_tracker.py:139-158 | fires exactly when no row is dated today and today is not already the last reminder date; when silent the settings are unchanged; when it fires only `last_reminder_date` changes, to today |
| Reminders.SecondTickSameDayIsSilent | src/mood_tracker.py:147-151 | a second tick on the same day never fires and changes nothing |
| Reminders.SchedulerTick | src/mood_tracker.py:115-137 | when reminders are enabled and the time is due, the tick is exactly the daily-reminder step; otherwise nothing fires and the state is unchanged; a reminder fires only when enabled, due and today is not logged |
| Reminders.SchedulerTickFiresIff | src/mood_tracker.py:115-158 | a wake-up fires exactly when reminders are enabled, the time is due, today is not logged and today was not reminded yet; it changes no setting but the last reminder date; after the job has run on a day, any later wake-up that day is silent |
| Reminders.RunWakes | src/mood_tracker.py:133-137 | a run of wake-ups fires at most once per wake-up |
| Reminders.FiresAfterLastReminder | src/mood_tracker.py:147-155 | once reminded on day d, later wake-ups fire only on days after d, in strictly increasing order |
| Reminders.AtMostOneReminderPerDay | src/mood_tracker.py:147-155 | while the clock does not go back, the reminder fires at most once per calendar day |
| Reminders.ToggleReminders | src/mood_tracker.py:243-255 | flips `reminder_enabled` and nothing else |
| Reminders.ToggleTwiceRestores | src/mood_tracker.py:245 | toggling twice restores the settings |
| Reminders.SetReminderMessage | src/mood_tracker.py:282-294 | a non-blank typed message replaces the message, stripped; a blank one changes nothing |
| Reminders.MessageStaysNonBlank | src/mood_tracker.py:289-294 | a non-blank message can never become blank |
| Reminders.SetReminderTime | src/mood_tracker.py:257-280 | succeeds exactly when the stripped text parses, and then changes only `reminder_time` |
| Reminders.DefaultsAreUsable | src/mood_tracker.py:37-44 | defaults are enabled, never reminded, with a non-blank message |
| Logging.MakeEntry | src/mood_tracker.py:440-446 | the row carries today, the score, its label, the stripped note, the sentiment that the analysis gives for the stripped note, and the timestamp |
| Logging.AppendRow | src/mood_tracker.py:448-458 | a successful write appends exactly that row; a failed one changes nothing |
| Logging.GetMoodInput | src/mood_tracker.py:413-432 | an accepted score is on the scale, was typed, and no 'q' came before it |
| Logging.GetMoodInputTakesFirstDecisive | src/mood_tracker.py:418-429 | the loop returns the first answer that is 'q' or a score on the scale: the score, or nothing for 'q' |
| Logging.LogMood | src/mood_tracker.py:364-402 | a day already logged is refused; only a save changes the journal, by one row dated today with a scale score, its label and the stripped note; a save happens exactly when today is not logged, a score is given and the write succeeds; the saved row is the row built from the typed score, its console label and the typed note |
| Logging.LogMoodKeepsOnePerDay | src/mood_tracker.py:368-382 | the console keeps at most one row per date |
| Logging.SecondLogSameDayIsRefused | src/mood_tracker.py:368-382 | when today is not yet logged and a score is given, a successful save is followed by a refusal of any second attempt that day, which changes nothing (`update_mood_entry` at src/mood_tracker.py:460-463 is empty) |
| Logging.LogMoodAlwaysShowsZero | src/mood_tracker.py:396-402 | as written, the streak printed after a save is always 0 |
| Logging.LogMoodIntended | src/mood_tracker.py:396-402 | same status and journal as `LogMood`; the streak shown is the streak of the reloaded journal |
| Logging.LogMoodIntendedShowsNewEntry | src/mood_tracker.py:396-402 | when every row is older than today and a score is given, a successful write is saved and shows a streak of at least 1 |
| Desktop.SaveMoodEntry | src/mood_tracker_gui.py:510-528 | a successful save appends one row dated today with the score and its label, whatever is already there; that row is the full row built from the score, the stripped note, the note's sentiment and the timestamp; the count of rows dated today grows by one |
| Desktop.TwoSavesBreakOnePerDay | src/mood_tracker_gui.py:519-528 | two saves on one day leave two rows dated today |
| Desktop.SaveQuickMood | src/mood_tracker_professional.py:664-674 | a successful save appends one row dated today with the dark scale's label, the stripped note and a consistent sentiment label; that row is the full row built from the score, the stripped note, the note's sentiment and the timestamp |
| Desktop.DashboardRows | src/mood_tracker_gui.py:629-638 | at most five rows, newest first, each with the date, score, mood label and note of one of the five newest rows, "No note" for a missing note |
| Desktop.NotePreview | src/mood_tracker_professional.py:817-821 | nothing for a missing note; a note of at most 45 characters unchanged; a longer one its first 45 characters plus "..." |
| Desktop.RecentActivity | src/mood_tracker_professional.py:756-821 | none for an empty journal; the newest eight rows are drawn in order, each with its date, score, professional-scale mood and note preview, up to the first score missing from the scale, where the drawing raises; without a raise, all of them are drawn |
| Desktop.RecentActivityFromStore | src/mood_tracker_professional.py:779-781 | every activity row is drawn for some row of the journal |
| Desktop.RecentActivityShowsNewestRows | src/mood_tracker_professional.py:779 | no journal row left out of the activity list is newer than one drawn |
| Desktop.RecentActivityRaisesIff | src/mood_tracker_professional.py:779-806 | drawing raises exactly when one of the newest eight rows has a score missing from the professional scale |
| Desktop.CurrentRecommendations | src/mood_tracker_gui.py:661-680 | nothing for an empty journal; otherwise the four items for the last row in file order, whatever the average |
| PdfReport.CleanText | src/mood_tracker_pdf.py:24-32 | the result is all ASCII, has no edge whitespace, is a subsequence of the input, and is "" for ""; it is the contiguous run of the ASCII-filtered text that starts at its first non-whitespace character and leaves only whitespace after it, so inner whitespace is kept |
| PdfReport.CleanTextOfTrimmedAscii | src/mood_tracker_pdf.py:24-32 | an ASCII text without edge whitespace comes back unchanged, inner whitespace included |
| PdfReport.StrippedAsciiIsSubsequence | src/mood_tracker_pdf.py:31-32 | filtering then stripping yields ASCII characters of the input, in order |
| PdfReport.CleanTextKeepsVisibleAscii | src/mood_tracker_pdf.py:31-32 | every visible ASCII character of the input occurs in the cleaned text exactly as often as in the input |
| PdfReport.CleanTextIdempotent | src/mood_tracker_pdf.py:24-32 | cleaning twice is cleaning once |
| PdfReport.ReportNote | src/mood_tracker_pdf.py:183-187 | no note line exactly for a blank note; otherwise the cleaned note, or its first 80 characters plus "...", all ASCII, at most 83 long |
| PdfReport.CountScorePositive | src/mood_tracker_pdf.py:140 | a score is counted (positive count) exactly when some row has that score |
| PdfReport.Breakdown | src/mood_tracker_pdf.py:140-144 | one line per occurring score in 1..5, increasing, with its report label and its count |
| PdfReport.BreakdownCoversStore | src/mood_tracker_pdf.py:140-141 | every score of the journal that is on the scale has its line |
| PdfReport.BreakdownSumsToTotal | src/mood_tracker_pdf.py:141-143 | when all scores are on the scale the counts add up to the number of entries |
| PdfReport.ReportRows | src/mood_tracker_pdf.py:172-187 | at most eight rows, newest first, each a newest-eight row with its report label and note line |
| PdfReport.CreateReport | src/mood_tracker_pdf.py:90-203 | no report exactly for an empty journal, an off-scale score or a failed write; otherwise total = number of rows, first and last day are the earliest and latest dates, the period is last - first + 1 >= 1, and the breakdown sums to the total |

## Left out

- Widgets, colours, fonts and view switching of both desktops, and the console menus: user interface only.
- Charts (matplotlib) and the PDF's page layout (FPDF): rendering through foreign libraries.
- CSV and JSON reading and writing, `load_settings`' fallback to the defaults, directory creation: the journal is an in-memory sequence and the settings a record. A write's outcome is the parameter `writeOk`.
- The scheduler thread, the `schedule` library, `run_scheduler`'s sleep loop and the clock: only the per-tick decision is modelled. The time of day is the flag `due`, and the day is a parameter.
- The exact set of times `datetime.strptime(_, '%H:%M')` accepts: a library parser, given as a parameter.
- The classifier (TextBlob): a parameter.
- SentimentAnalysis.AnalyzeSentiment: returns the polarity unrounded, while the source returns `round(polarity, 3)` with the label taken from the unrounded value. So the source can store a rounded score of 0.1 labelled Positive (for polarities just above 0.1), which `Label` would call Neutral. Float rounding is not modelled.
- Means, percentages, weekday averages, the ±0.5 and ±0.2 trend thresholds and the report's average: floating-point aggregates.
- `generate_sample_data`: random data generation that deletes the data file.
- winsound, the terminal bell, `display_reminder_notification`, `test_reminder`, `configure_reminders`' menu loop and `main`: I/O and sound.
- Console input ending (EOF) during `get_mood_input`: modelled as 'q'.
- The order among rows sharing a date in the newest-N lists: pandas' `sort_values` does not promise a stable order. The model sorts stably, so rows of the same day stay in file order. The streak depends only on the dates and is exact.
- Desktop.CurrentRecommendations: requires the last row's score to be on the scale. The source looks it up in `mood_scale` first and raises on any other score.
- Desktop.RecentActivity: when the scale lookup raises, the failing row's date label is already on screen; the model keeps only the rows drawn in full before it, plus the raised flag.
- Desktop.SaveMoodEntry, Desktop.SaveQuickMood: require a score on the scale. The radio buttons only offer 1..5, and any other score would raise in the lookup before the write.
- The timestamp's format and the dates' string form: dates are day numbers and timestamps integers.

## Findings

| source | as written | input that shows it | evidently intended | confidence | as-written member | corrected member |
|---|---|---|---|---|---|---|
| src/mood_tracker.py:396-402 | `log_mood` computes the streak it announces ("Great job! Current streak: N days") before `load_data` reloads the journal, so the new row is missing from that calculation | any successful save, e.g. an empty journal and answer 3: it prints a streak of 0 | the streak including the entry just saved, which is at least 1 | high, not executed | Logging.LogMood, Logging.LogMoodAlwaysShowsZero | Logging.LogMoodIntended, Logging.LogMoodIntendedShowsNewEntry |
