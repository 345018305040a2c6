/** The console front end's settings record and its daily reminder: the
    per-tick decision of `send_daily_reminder` and the three configuration
    actions. The scheduler thread, the `schedule` library and the clock are
    outside the model; a tick is given the store and today's day number. */
module Reminders {
  import opened Wrappers
  import opened Entries
  import Text

  /** `settings.json`. `lastReminder` stands for `last_reminder_date`, which
      the program stores as `str(date)`; distinct dates give distinct
      strings, so comparing day numbers is comparing those strings. */
  datatype Settings = Settings(
    enabled: bool,
    time: string,
    message: string,
    lastReminder: Option<int>,
    consecutiveDays: int)

  /** `default_settings`: enabled, 20:00, never reminded. */
  const DefaultSettings: Settings :=
    Settings(true, "20:00", "Time to log your daily mood! \U{1F4DD}", None, 0)

  /** One run of `send_daily_reminder`: the settings afterwards and whether
      the notification was shown. */
  datatype Tick = Tick(settings: Settings, fired: bool)

  /** `send_daily_reminder` on day `today`. It stays silent when today is
      logged or was already reminded; otherwise it records today as the last
      reminder date and fires. */
  function SendDailyReminder(store: seq<Entry>, s: Settings, today: int): (r: Tick)
    ensures r.fired <==>
              (forall i :: 0 <= i < |store| ==> store[i].date != today)
              && s.lastReminder != Some(today)
    ensures !r.fired ==> r.settings == s
    ensures r.fired ==> r.settings.lastReminder == Some(today)
                        && r.settings.(lastReminder := s.lastReminder) == s
  {
    if HasLoggedToday(store, today) then Tick(s, false)
    else if s.lastReminder == Some(today) then Tick(s, false)
    else Tick(s.(lastReminder := Some(today)), true)
  }

  /** After any tick on day `today`, a second tick the same day stays silent
      and changes nothing. */
  lemma SecondTickSameDayIsSilent(store: seq<Entry>, s: Settings, today: int)
    ensures var first := SendDailyReminder(store, s, today);
            var second := SendDailyReminder(store, first.settings, today);
            !second.fired && second.settings == first.settings
  {
  }

  /** One scheduler wake-up: the job only exists while reminders are enabled
      (enabling schedules it, disabling clears it), and it runs once the
      configured time of day is `due`. */
  function SchedulerTick(store: seq<Entry>, s: Settings, today: int, due: bool): (r: Tick)
    ensures s.enabled && due ==> r == SendDailyReminder(store, s, today)
    ensures !(s.enabled && due) ==> r == Tick(s, false)
    ensures r.fired ==> s.enabled && due && !HasLoggedToday(store, today)
  {
    if s.enabled && due then SendDailyReminder(store, s, today) else Tick(s, false)
  }

  /** A scheduler wake-up fires exactly when reminders are on, the time is
      due, today is not logged and today was not reminded yet; it never
      touches a setting other than the last reminder date; and once the job
      has run on a day, any later wake-up that day is silent. */
  lemma SchedulerTickFiresIff(store: seq<Entry>, s: Settings, today: int, due: bool, due2: bool)
    ensures var r := SchedulerTick(store, s, today, due);
            r.fired <==> s.enabled && due && !HasLoggedToday(store, today)
                         && s.lastReminder != Some(today)
    ensures var r := SchedulerTick(store, s, today, due);
            r.settings.(lastReminder := s.lastReminder) == s
    ensures var r := SchedulerTick(store, s, today, due);
            s.enabled && due ==> !SchedulerTick(store, r.settings, today, due2).fired
  {
  }

  /** A wake-up of the scheduler: the store as it then is, and the day. */
  datatype Wake = Wake(store: seq<Entry>, today: int)

  /** Days on which the reminder fired over a run of wake-ups, in order, with
      the settings after the last one. */
  datatype Run = Run(settings: Settings, firedOn: seq<int>)

  function RunWakes(s: Settings, wakes: seq<Wake>): (r: Run)
    ensures |r.firedOn| <= |wakes|
    decreases |wakes|
  {
    if |wakes| == 0 then Run(s, [])
    else
      var t := SendDailyReminder(wakes[0].store, s, wakes[0].today);
      var rest := RunWakes(t.settings, wakes[1..]);
      Run(rest.settings, (if t.fired then [wakes[0].today] else []) + rest.firedOn)
  }

  predicate NonDecreasingDays(wakes: seq<Wake>) {
    forall i, j :: 0 <= i < j < |wakes| ==> wakes[i].today <= wakes[j].today
  }

  predicate StrictlyIncreasing(ds: seq<int>) {
    forall i, j :: 0 <= i < j < |ds| ==> ds[i] < ds[j]
  }

  /** Once reminded on day d, wake-ups on day d or later fire only on later
      days, each at most once. */
  lemma {:induction false} FiresAfterLastReminder(s: Settings, wakes: seq<Wake>, d: int)
    requires s.lastReminder == Some(d)
    requires NonDecreasingDays(wakes)
    requires forall i :: 0 <= i < |wakes| ==> wakes[i].today >= d
    ensures StrictlyIncreasing(RunWakes(s, wakes).firedOn)
    ensures forall k :: 0 <= k < |RunWakes(s, wakes).firedOn| ==> RunWakes(s, wakes).firedOn[k] > d
    decreases |wakes|
  {
    if |wakes| > 0 {
      var w := wakes[0];
      var t := SendDailyReminder(w.store, s, w.today);
      assert forall i :: 0 <= i < |wakes[1..]| ==> wakes[1..][i] == wakes[i + 1];
      if t.fired {
        FiresAfterLastReminder(t.settings, wakes[1..], w.today);
      } else {
        FiresAfterLastReminder(t.settings, wakes[1..], d);
      }
    }
  }

  /** At most one reminder per calendar day: as long as the clock does not
      go backwards, the days on which a reminder fires strictly increase, so
      no day appears twice. */
  lemma {:induction false} AtMostOneReminderPerDay(s: Settings, wakes: seq<Wake>)
    requires NonDecreasingDays(wakes)
    ensures StrictlyIncreasing(RunWakes(s, wakes).firedOn)
    decreases |wakes|
  {
    if |wakes| > 0 {
      var w := wakes[0];
      var t := SendDailyReminder(w.store, s, w.today);
      assert forall i :: 0 <= i < |wakes[1..]| ==> wakes[1..][i] == wakes[i + 1];
      if t.fired {
        FiresAfterLastReminder(t.settings, wakes[1..], w.today);
      } else {
        AtMostOneReminderPerDay(t.settings, wakes[1..]);
      }
    }
  }

  /** `toggle_reminders`: flips `enabled` and nothing else. */
  function ToggleReminders(s: Settings): (r: Settings)
    ensures r.enabled == !s.enabled
    ensures r.(enabled := s.enabled) == s
  {
    s.(enabled := !s.enabled)
  }

  lemma ToggleTwiceRestores(s: Settings)
    ensures ToggleReminders(ToggleReminders(s)) == s
  {
  }

  /** `set_reminder_message`: the typed text is stripped; a non-empty result
      replaces the message, an empty one is refused and nothing changes. */
  function SetReminderMessage(s: Settings, typed: string): (r: Settings)
    ensures r.(message := s.message) == s
    ensures Text.IsBlank(typed) ==> r == s
    ensures !Text.IsBlank(typed) ==> r.message == Text.Strip(typed)
    ensures r.message == s.message || (r.message != [] && Text.NoEdgeSpace(r.message))
  {
    var m := Text.Strip(typed);
    if m != "" then s.(message := m) else s
  }

  /** A message that is not blank never becomes blank. */
  lemma MessageStaysNonBlank(s: Settings, typed: string)
    requires !Text.IsBlank(s.message)
    ensures !Text.IsBlank(SetReminderMessage(s, typed).message)
  {
    var r := SetReminderMessage(s, typed);
    if r.message != s.message {
      assert !Text.IsSpace(r.message[0]);
    }
  }

  /** `set_reminder_time`, one attempt: the typed text is stripped and
      checked by `datetime.strptime(text, '%H:%M')`, given here as `parses`.
      An accepted time replaces `reminder_time` and nothing else; a rejected
      one leaves the settings as they were (the program asks again). */
  function SetReminderTime(s: Settings, typed: string, parses: string -> bool): (r: Option<Settings>)
    ensures r.Some? <==> parses(Text.Strip(typed))
    ensures r.Some? ==> r.value.time == Text.Strip(typed) && r.value.(time := s.time) == s
  {
    var t := Text.Strip(typed);
    if parses(t) then Some(s.(time := t)) else None
  }

  /** The defaults start enabled, at 20:00, never reminded, with a message
      that is not blank. */
  lemma DefaultsAreUsable()
    ensures DefaultSettings.enabled && DefaultSettings.lastReminder.None?
    ensures !Text.IsBlank(DefaultSettings.message)
  {
    assert !Text.IsSpace(DefaultSettings.message[0]);
  }
}
