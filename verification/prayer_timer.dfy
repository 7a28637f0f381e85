/**
  The timer state a prayer-times app shows at one instant: a countdown to the
  next adhan, a stopwatch since the current adhan, or a countdown to iqama,
  with the Friday (Jumuah) override for the khutba.
 */
module Timer {
  import opened Wrappers
  import opened PrayerTypes

  /** Seconds of jitter allowed before a window opens. */
  const StartBuffer: int := 2
  /** Seconds before a window's nominal end at which it already closes. */
  const EndBuffer: int := 10
  const SecondsPerMinute: int := 60
  /** The danger threshold never drops below a quarter of the window. */
  const DangerFloor: real := 0.25

  datatype TimerType = Countdown | Stopwatch | Iqama

  /** A closed range of instants, `lower...upper`. */
  datatype TimeRange = TimeRange(lower: int, upper: int)

  /** The resolved timer record. */
  datatype PrayerTimer = PrayerTimer(
    date: int,
    prayer: Prayer,
    timerType: TimerType,
    countdownDate: int,
    timeRange: TimeRange,
    timeRemaining: int,
    progressRemaining: real,
    dangerThreshold: real,
    isDangerThreshold: bool,
    isJumuah: bool,
    localizeAt: Option<int>)

  /**
    The arguments of the main initialiser. `isFriday` stands for
    `date.isJumuah(using: calendar)` and `progress` for the fraction of the
    current prayer window elapsed at `date`, as the date-interval library
    reports it.
   */
  datatype TimerInput = TimerInput(
    date: int,
    current: PrayerTime,
    next: PrayerTime,
    iqamaTimes: IqamaTimes,
    isIqamaTimerEnabled: bool,
    stopwatchMinutes: int,
    preAdhanMinutes: int,
    isFriday: bool,
    progress: real)

  /** The tentative choice the resolver rewrites: mode, prayer, target and hint. */
  datatype Choice = Choice(
    timerType: TimerType,
    prayer: Prayer,
    countdownDate: int,
    localizeAt: Option<int>)

  // ---------------------------------------------------------------------------
  // Window predicates

  /**
    Whether `x` lies between `lo` and `hi`. The date library's own test is not
    part of this model; this one is the ordered half-open window. Its contract
    holds for any choice of inclusivity at the two ends.
   */
  function Between(x: int, lo: int, hi: int): (b: bool)
    ensures lo < x < hi ==> b
    ensures b ==> lo <= x <= hi
  {
    lo <= x < hi
  }

  /**
    Whether `date` falls in the stopwatch window that opens at `anchor` and
    lasts `minutes`, with the jitter buffers. A non-positive length disables it.
   */
  function IsStopwatchTimer(anchor: int, date: int, minutes: int): (b: bool)
    ensures minutes <= 0 ==> !b
    ensures b ==> anchor - StartBuffer <= date <= anchor + minutes * SecondsPerMinute - EndBuffer
    ensures 0 < minutes && anchor - StartBuffer < date < anchor + minutes * SecondsPerMinute - EndBuffer ==> b
  {
    if minutes <= 0 then false
    else Between(date, anchor - StartBuffer, anchor + minutes * SecondsPerMinute - EndBuffer)
  }

  /**
    Whether `date` falls in the iqama window: from just before the adhan at
    `start` until shortly before `iqamaTime`.
   */
  function IsIqamaTimer(start: int, date: int, iqamaTime: int): (b: bool)
    ensures b ==> start - StartBuffer <= date <= iqamaTime - EndBuffer
    ensures start - StartBuffer < date < iqamaTime - EndBuffer ==> b
  {
    Between(date, start - StartBuffer, iqamaTime - EndBuffer)
  }

  function Max(a: real, b: real): real {
    if b >= a then b else a
  }

  /**
    The fraction of the window still remaining at which the warning
    preceding the next adhan starts, floored at a quarter.
   */
  function DangerThreshold(window: PrayerTime, minutes: int): (r: real)
    requires window.start < window.end
    ensures r >= DangerFloor
    ensures r == Max((minutes * SecondsPerMinute) as real / window.Duration() as real, DangerFloor)
    ensures r <= 1.0 <==> minutes * SecondsPerMinute <= window.Duration()
  {
    var duration := window.Duration() as real;
    var lead := (minutes * SecondsPerMinute) as real;
    RemainderIsLead(duration, lead);
    QuotientAtMostOne(duration, lead);
    Max(1.0 - (duration - lead) / duration, DangerFloor)
  }

  lemma RemainderIsLead(duration: real, lead: real)
    requires duration > 0.0
    ensures 1.0 - (duration - lead) / duration == lead / duration
  {
    var share := lead / duration;
    var rest := (duration - lead) / duration;
    assert share * duration == lead;
    assert rest * duration == duration - lead;
    assert (rest + share - 1.0) * duration == 0.0;
    ProductZero(rest + share - 1.0, duration);
  }

  lemma ProductZero(x: real, y: real)
    requires y > 0.0 && x * y == 0.0
    ensures x == 0.0
  {
  }

  lemma QuotientAtMostOne(duration: real, lead: real)
    requires duration > 0.0
    ensures lead / duration <= 1.0 <==> lead <= duration
  {
  }

  // ---------------------------------------------------------------------------
  // The conditions the resolver branches on

  /** The stopwatch window since the current adhan is open. */
  predicate StopwatchEligible(q: TimerInput) {
    IsStopwatchTimer(q.current.start, q.date, q.stopwatchMinutes)
  }

  /** The iqama timer is on, the current prayer has an iqama, and `date` is before it. */
  predicate IqamaEligible(q: TimerInput) {
    && q.isIqamaTimerEnabled
    && q.current in q.iqamaTimes
    && IsIqamaTimer(q.current.start, q.date, q.iqamaTimes[q.current])
  }

  /** Friday, the next prayer is dhuhr and it has an iqama: count down to the khutba. */
  predicate KhutbaCountdown(q: TimerInput) {
    q.isFriday && q.next.prayer == Dhuhr && q.next in q.iqamaTimes
  }

  /** Friday, no khutba countdown, and dhuhr is the current prayer. */
  predicate FridayDhuhr(q: TimerInput) {
    q.isFriday && !KhutbaCountdown(q) && q.current.prayer == Dhuhr
  }

  /** Friday dhuhr, no stopwatch since the adhan, but one since the khutba iqama is open. */
  predicate KhutbaStopwatch(q: TimerInput) {
    && FridayDhuhr(q)
    && !StopwatchEligible(q)
    && q.current in q.iqamaTimes
    && IsStopwatchTimer(q.iqamaTimes[q.current], q.date, q.stopwatchMinutes)
  }

  // ---------------------------------------------------------------------------
  // The resolver, in the order the source applies its steps

  function IqamaTime(q: TimerInput): Option<int> {
    if IqamaEligible(q) then Some(q.iqamaTimes[q.current]) else None
  }

  /** The tentative choice: stopwatch, else iqama, else countdown to the next adhan. */
  function BaseChoice(q: TimerInput, isStopwatch: bool, iqamaTime: Option<int>): Choice {
    var countdownDate :=
      if isStopwatch then q.current.start
      else if iqamaTime.Some? then iqamaTime.value
      else q.current.end;
    var timerType :=
      if isStopwatch then Stopwatch
      else if iqamaTime.Some? then Iqama
      else Countdown;
    var prayer := if timerType == Countdown then q.next.prayer else q.current.prayer;
    Choice(timerType, prayer, countdownDate, Some(q.date))
  }

  /** The Friday rewrite of the tentative choice. */
  function ApplyJumuah(q: TimerInput, base: Choice, isStopwatch: bool): Choice {
    if q.next.prayer == Dhuhr && q.next in q.iqamaTimes then
      base.(countdownDate := q.iqamaTimes[q.next], timerType := Iqama, prayer := q.next.prayer)
    else if q.current.prayer == Dhuhr then
      if isStopwatch then
        base.(localizeAt := None)
      else if q.current in q.iqamaTimes && IsStopwatchTimer(q.iqamaTimes[q.current], q.date, q.stopwatchMinutes) then
        base.(countdownDate := q.iqamaTimes[q.current], timerType := Stopwatch, prayer := q.current.prayer)
      else
        base
    else
      base
  }

  /**
    The mode, prayer and target as a single priority list, independent of the
    tentative-then-rewrite order: khutba countdown, khutba stopwatch,
    stopwatch since the adhan, iqama countdown, countdown to the next adhan.
   */
  ghost predicate SelectionRule(q: TimerInput, t: PrayerTimer) {
    if KhutbaCountdown(q) then
      t.timerType == Iqama && t.prayer == Dhuhr && t.countdownDate == q.iqamaTimes[q.next]
    else if KhutbaStopwatch(q) then
      t.timerType == Stopwatch && t.prayer == Dhuhr && t.countdownDate == q.iqamaTimes[q.current]
    else if StopwatchEligible(q) then
      t.timerType == Stopwatch && t.prayer == q.current.prayer && t.countdownDate == q.current.start
    else if IqamaEligible(q) then
      t.timerType == Iqama && t.prayer == q.current.prayer && t.countdownDate == q.iqamaTimes[q.current]
    else
      t.timerType == Countdown && t.prayer == q.next.prayer && t.countdownDate == q.current.end
  }

  /** The relative-time hint is withheld only mid-khutba on a Friday stopwatch. */
  ghost predicate LocalizeAtRule(q: TimerInput, t: PrayerTimer) {
    t.localizeAt == if FridayDhuhr(q) && StopwatchEligible(q) then None else Some(q.date)
  }

  /** The fields derived from the resolved target and from the current window. */
  ghost predicate DerivedFields(q: TimerInput, t: PrayerTimer)
    requires q.current.start < q.current.end
  {
    && t.date == q.date
    && t.timeRange.lower <= t.timeRange.upper
    && t.timeRange.lower <= t.date <= t.timeRange.upper
    && t.timeRange.lower <= t.countdownDate <= t.timeRange.upper
    && (t.timeRange.lower == t.date || t.timeRange.lower == t.countdownDate)
    && (t.timeRange.upper == t.date || t.timeRange.upper == t.countdownDate)
    && t.timeRemaining == t.countdownDate - t.date
    && t.progressRemaining == 1.0 - q.progress
    && t.dangerThreshold == Max((q.preAdhanMinutes * SecondsPerMinute) as real / q.current.Duration() as real, DangerFloor)
    && (t.isDangerThreshold <==> t.progressRemaining <= t.dangerThreshold)
    && (t.isJumuah <==> q.isFriday && t.prayer == Dhuhr)
  }

  /**
    The main initialiser: resolve the tentative choice, apply the Friday
    rewrite, then derive the record's fields from the resolved target.
   */
  function Resolve(q: TimerInput): (t: PrayerTimer)
    requires q.current.start < q.current.end
    ensures SelectionRule(q, t)
    ensures LocalizeAtRule(q, t)
    ensures DerivedFields(q, t)
  {
    var isStopwatch := IsStopwatchTimer(q.current.start, q.date, q.stopwatchMinutes);
    var base := BaseChoice(q, isStopwatch, IqamaTime(q));
    var choice := if q.isFriday then ApplyJumuah(q, base, isStopwatch) else base;
    var progressRemaining := 1.0 - q.progress;
    var dangerThreshold := DangerThreshold(q.current, q.preAdhanMinutes);
    PrayerTimer(
      q.date,
      choice.prayer,
      choice.timerType,
      choice.countdownDate,
      if q.date <= choice.countdownDate then TimeRange(q.date, choice.countdownDate)
      else TimeRange(choice.countdownDate, q.date),
      choice.countdownDate - q.date,
      progressRemaining,
      dangerThreshold,
      progressRemaining <= dangerThreshold,
      q.isFriday && choice.prayer == Dhuhr,
      choice.localizeAt)
  }

  // ---------------------------------------------------------------------------
  // The failable entry points

  /** A schedule whose current window, when there is one, has positive length. */
  predicate CurrentWindowProper(day: PrayerDay, date: int) {
    day.current(date).Some? ==> day.current(date).value.start < day.current(date).value.end
  }

  /**
    The initialiser from a prayer day: absent when the day has no current or
    no next prayer at `date`; otherwise the main initialiser with the
    pre-adhan minutes of the current prayer.
   */
  function TimerAt(
    date: int,
    day: PrayerDay,
    iqamaTimes: IqamaTimes,
    isIqamaTimerEnabled: bool,
    stopwatchMinutes: int,
    preAdhanMinutes: PreAdhanMinutes,
    sunriseAfterIsha: bool,
    isFriday: bool,
    progressAt: (PrayerTime, int) -> real): (r: Option<PrayerTimer>)
    requires CurrentWindowProper(day, date)
    ensures r.None? <==> day.current(date).None? || day.next(date, sunriseAfterIsha).None?
    ensures r.Some? ==>
      var current := day.current(date).value;
      var next := day.next(date, sunriseAfterIsha).value;
      r.value == Resolve(TimerInput(date, current, next, iqamaTimes, isIqamaTimerEnabled,
                                    stopwatchMinutes, preAdhanMinutes(current.prayer), isFriday,
                                    progressAt(current, date)))
  {
    match (day.current(date), day.next(date, sunriseAfterIsha))
    case (Some(current), Some(next)) =>
      Some(Resolve(TimerInput(date, current, next, iqamaTimes, isIqamaTimerEnabled,
                              stopwatchMinutes, preAdhanMinutes(current.prayer), isFriday,
                              progressAt(current, date))))
    case _ => None
  }

  /** The initialiser from an optional prayer day and the user's preferences. */
  function TimerFromPreferences(
    date: int,
    day: Option<PrayerDay>,
    preferences: Preferences,
    isFriday: bool,
    progressAt: (PrayerTime, int) -> real): (r: Option<PrayerTimer>)
    requires day.Some? ==> CurrentWindowProper(day.value, date)
    ensures r.None? <==>
      || day.None?
      || day.value.current(date).None?
      || day.value.next(date, preferences.sunriseAfterIsha).None?
    ensures r.Some? ==> r == TimerAt(date, day.value, preferences.iqamaTimes,
                                     preferences.isIqamaTimerEnabled, preferences.stopwatchMinutes,
                                     preferences.preAdhanMinutes, preferences.sunriseAfterIsha,
                                     isFriday, progressAt)
  {
    match day
    case None => None
    case Some(d) =>
      TimerAt(date, d, preferences.iqamaTimes, preferences.isIqamaTimerEnabled,
              preferences.stopwatchMinutes, preferences.preAdhanMinutes,
              preferences.sunriseAfterIsha, isFriday, progressAt)
  }
}
