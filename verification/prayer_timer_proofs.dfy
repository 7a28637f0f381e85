/**
  Properties of the timer resolver that relate several of its outcomes or
  explain what its fields mean.
 */
module TimerProofs {
  import opened Wrappers
  import opened PrayerTypes
  import opened Timer

  /**
    The resolver's contract pins the record down completely: a record meets
    the priority list, the hint rule and the derived-field equations exactly
    when it is the one the resolver returns.
   */
  lemma ResolveIsDetermined(q: TimerInput, t: PrayerTimer)
    requires q.current.start < q.current.end
    ensures SelectionRule(q, t) && LocalizeAtRule(q, t) && DerivedFields(q, t) <==> t == Resolve(q)
  {
  }

  /**
    On a weekday the stopwatch wins whenever its window is open, iqama comes
    next, and otherwise the timer counts down to the end of the current
    window under the next prayer's name; the hint is always the date.
   */
  lemma WeekdayModes(q: TimerInput)
    requires q.current.start < q.current.end
    requires !q.isFriday
    ensures var t := Resolve(q);
      && (StopwatchEligible(q) ==>
            t.timerType == Stopwatch && t.countdownDate == q.current.start && t.prayer == q.current.prayer)
      && (!StopwatchEligible(q) && IqamaEligible(q) ==>
            t.timerType == Iqama && t.countdownDate == q.iqamaTimes[q.current] && t.prayer == q.current.prayer)
      && (!StopwatchEligible(q) && !IqamaEligible(q) ==>
            t.timerType == Countdown && t.countdownDate == q.current.end && t.prayer == q.next.prayer)
      && t.localizeAt == Some(q.date)
      && !t.isJumuah
  {
  }

  /** Iqama mode on a weekday needs the iqama timer enabled and an iqama for the current prayer. */
  lemma WeekdayIqamaNeedsEntry(q: TimerInput)
    requires q.current.start < q.current.end
    requires !q.isFriday
    ensures Resolve(q).timerType == Iqama ==> q.isIqamaTimerEnabled && q.current in q.iqamaTimes
  {
  }

  /** A non-positive stopwatch length never yields stopwatch mode, on any day. */
  lemma NoStopwatchWhenDisabled(q: TimerInput)
    requires q.current.start < q.current.end
    requires q.stopwatchMinutes <= 0
    ensures Resolve(q).timerType != Stopwatch
    ensures Resolve(q).localizeAt == Some(q.date)
  {
  }

  /**
    On a Friday before a dhuhr that has an iqama, the timer counts down to
    that khutba iqama, whether or not the iqama timer is enabled.
   */
  lemma KhutbaIqamaOverride(q: TimerInput)
    requires q.current.start < q.current.end
    requires q.isFriday && q.next.prayer == Dhuhr && q.next in q.iqamaTimes
    ensures var t := Resolve(q);
      && t.timerType == Iqama
      && t.countdownDate == q.iqamaTimes[q.next]
      && t.prayer == Dhuhr
      && t.isJumuah
      && t.localizeAt == Some(q.date)
    ensures Resolve(q) == Resolve(q.(isIqamaTimerEnabled := !q.isIqamaTimerEnabled))
  {
  }

  /**
    On a Friday during dhuhr (no khutba countdown): an open stopwatch is kept
    and loses its hint; otherwise an open stopwatch since the khutba iqama
    takes over; otherwise the hint is the date.
   */
  lemma FridayDhuhrOutcomes(q: TimerInput)
    requires q.current.start < q.current.end
    requires FridayDhuhr(q)
    ensures var t := Resolve(q);
      && (StopwatchEligible(q) ==>
            t.timerType == Stopwatch && t.countdownDate == q.current.start && t.localizeAt.None?)
      && (!StopwatchEligible(q) && q.current in q.iqamaTimes
            && IsStopwatchTimer(q.iqamaTimes[q.current], q.date, q.stopwatchMinutes) ==>
            t.timerType == Stopwatch && t.countdownDate == q.iqamaTimes[q.current] && t.prayer == Dhuhr)
      && (!StopwatchEligible(q) ==> t.localizeAt == Some(q.date))
  {
  }

  /**
    The Friday rewrite only touches dhuhr: on a Friday where neither the
    current nor the next prayer is dhuhr, the record is the weekday one.
   */
  lemma FridayWithoutDhuhrIsWeekday(q: TimerInput)
    requires q.current.start < q.current.end
    requires q.isFriday && q.current.prayer != Dhuhr && q.next.prayer != Dhuhr
    ensures Resolve(q) == Resolve(q.(isFriday := false))
  {
  }

  /**
    Mode and prayer agree: a countdown is to the next prayer, ending the
    current window; stopwatch is for the current prayer; iqama is for the
    current prayer except for the Friday khutba countdown.
   */
  lemma ModeMatchesPrayer(q: TimerInput)
    requires q.current.start < q.current.end
    ensures var t := Resolve(q);
      && (t.timerType == Countdown ==> t.prayer == q.next.prayer && t.countdownDate == q.current.end)
      && (t.timerType == Stopwatch ==> t.prayer == q.current.prayer)
      && (t.timerType == Iqama ==>
            t.prayer == q.current.prayer || (q.isFriday && t.prayer == Dhuhr && q.next.prayer == Dhuhr))
  {
  }

  /** `isJumuah` holds exactly on a Friday whose resolved prayer is dhuhr. */
  lemma JumuahOnlyOnFridayDhuhr(q: TimerInput)
    requires q.current.start < q.current.end
    ensures Resolve(q).isJumuah <==> q.isFriday && Resolve(q).prayer == Dhuhr
    ensures Resolve(q).isJumuah ==> q.current.prayer == Dhuhr || q.next.prayer == Dhuhr
  {
  }

  // ---------------------------------------------------------------------------
  // What the danger threshold means in absolute time

  lemma QuotientLe(duration: real, a: real, b: real)
    requires duration > 0.0
    ensures a / duration <= b / duration <==> a <= b
  {
  }

  /** The danger comparison on reals: `left` seconds remain of a window of `duration`. */
  lemma DangerComparison(duration: real, left: real, lead: real)
    requires duration > 0.0
    ensures 1.0 - (duration - left) / duration <= Max(lead / duration, DangerFloor) <==>
      left <= lead || 4.0 * left <= duration
  {
    RemainderIsLead(duration, left);
    QuotientLe(duration, left, lead);
    QuotientLe(duration, left, duration / 4.0);
    assert (duration / 4.0) / duration == DangerFloor;
  }

  /**
    When the elapsed fraction is the plain linear one, the danger flag is on
    exactly in the last `preAdhanMinutes` before the current window ends, or
    in its last quarter when that is longer.
   */
  lemma DangerZoneIsFinalStretch(q: TimerInput)
    requires q.current.start <= q.date <= q.current.end
    requires q.current.start < q.current.end
    requires q.progress == (q.date - q.current.start) as real / q.current.Duration() as real
    ensures Resolve(q).isDangerThreshold <==>
      || q.current.end - q.date <= q.preAdhanMinutes * SecondsPerMinute
      || 4 * (q.current.end - q.date) <= q.current.Duration()
  {
    var duration := q.current.Duration() as real;
    var left := (q.current.end - q.date) as real;
    var lead := (q.preAdhanMinutes * SecondsPerMinute) as real;
    assert (q.date - q.current.start) as real == duration - left;
    DangerComparison(duration, left, lead);
  }

  // ---------------------------------------------------------------------------
  // Worked scenarios (instants in seconds; the current window is 12:00 to 15:00)

  function Window(p: Prayer): PrayerTime {
    PrayerTime(p, 43200, 54000)
  }

  /** Iqama off, no stopwatch, at the adhan, a weekday: count down to the next prayer. */
  lemma ScenarioPlainCountdown()
    ensures var t := Resolve(TimerInput(43200, Window(Asr), PrayerTime(Maghrib, 54000, 60000),
                                        map[], false, 0, 15, false, 0.0));
      t.timerType == Countdown && t.prayer == Maghrib && t.countdownDate == 54000
      && t.timeRemaining == 10800
  {
    var q := TimerInput(43200, Window(Asr), PrayerTime(Maghrib, 54000, 60000),
                        map[], false, 0, 15, false, 0.0);
    assert !StopwatchEligible(q) && !IqamaEligible(q);
    WeekdayModes(q);
  }

  /** A 15-minute stopwatch five minutes after the adhan shows five minutes elapsed. */
  lemma ScenarioStopwatch()
    ensures var t := Resolve(TimerInput(43500, Window(Asr), PrayerTime(Maghrib, 54000, 60000),
                                        map[], false, 15, 15, false, 0.0));
      t.timerType == Stopwatch && t.countdownDate == 43200 && t.timeRemaining == -300
      && t.timeRange == TimeRange(43200, 43500)
  {
    var q := TimerInput(43500, Window(Asr), PrayerTime(Maghrib, 54000, 60000),
                        map[], false, 15, 15, false, 0.0);
    assert StopwatchEligible(q);
    WeekdayModes(q);
  }

  /** Iqama twenty minutes after the adhan, ten minutes in: count down to the iqama. */
  lemma ScenarioIqama()
    ensures var t := Resolve(TimerInput(43800, Window(Asr), PrayerTime(Maghrib, 54000, 60000),
                                        map[Window(Asr) := 44400], true, 0, 15, false, 0.0));
      t.timerType == Iqama && t.countdownDate == 44400 && t.prayer == Asr
  {
    var q := TimerInput(43800, Window(Asr), PrayerTime(Maghrib, 54000, 60000),
                        map[Window(Asr) := 44400], true, 0, 15, false, 0.0);
    assert !StopwatchEligible(q) && IqamaEligible(q);
    WeekdayModes(q);
  }

  /** Friday morning with a khutba iqama for dhuhr: iqama countdown flagged as Jumuah. */
  lemma ScenarioKhutbaCountdown()
    ensures var dhuhr := PrayerTime(Dhuhr, 43200, 54000);
      var t := Resolve(TimerInput(30000, PrayerTime(Sunrise, 25000, 43200), dhuhr,
                                  map[dhuhr := 45000], false, 0, 15, true, 0.5));
      t.timerType == Iqama && t.prayer == Dhuhr && t.countdownDate == 45000 && t.isJumuah
  {
    var dhuhr := PrayerTime(Dhuhr, 43200, 54000);
    KhutbaIqamaOverride(TimerInput(30000, PrayerTime(Sunrise, 25000, 43200), dhuhr,
                                   map[dhuhr := 45000], false, 0, 15, true, 0.5));
  }

  /** Friday during the dhuhr stopwatch: the relative-time hint is withheld. */
  lemma ScenarioFridayStopwatch()
    ensures var t := Resolve(TimerInput(43500, Window(Dhuhr), PrayerTime(Asr, 54000, 60000),
                                        map[], false, 15, 15, true, 0.0));
      t.timerType == Stopwatch && t.localizeAt.None? && t.isJumuah
  {
    var q := TimerInput(43500, Window(Dhuhr), PrayerTime(Asr, 54000, 60000),
                        map[], false, 15, 15, true, 0.0);
    assert FridayDhuhr(q) && StopwatchEligible(q);
    FridayDhuhrOutcomes(q);
  }
}
