/**
  The collaborators the timer consumes but does not implement: the prayer
  enumeration, prayer windows, the iqama lookup, the day schedule and the
  user's preferences. Only their observable answers are modelled.
 */
module PrayerTypes {
  import opened Wrappers

  /** The daily prayer times; only `Dhuhr` is singled out by the timer. */
  datatype Prayer = Fajr | Sunrise | Dhuhr | Asr | Maghrib | Isha

  /**
    A prayer occasion and the interval during which it is current. Instants
    are whole seconds on one time line; `start` is the adhan.
   */
  datatype PrayerTime = PrayerTime(prayer: Prayer, start: int, end: int) {

    function Duration(): int {
      end - start
    }
  }

  /**
    The iqama (congregation start) of each prayer occasion on the day the
    calendar fixes; a prayer without an entry has no iqama.
   */
  type IqamaTimes = map<PrayerTime, int>

  /** Minutes before the next adhan that count as running low, per current prayer. */
  type PreAdhanMinutes = Prayer -> int

  /**
    A computed prayer day: the prayer current at an instant, and the next one
    (which depends on whether sunrise is listed after isha). Either may be absent.
   */
  datatype PrayerDay = PrayerDay(
    current: int -> Option<PrayerTime>,
    next: (int, bool) -> Option<PrayerTime>)

  /** The preference fields the timer reads (the time zone is replaced by a Friday flag). */
  datatype Preferences = Preferences(
    iqamaTimes: IqamaTimes,
    isIqamaTimerEnabled: bool,
    stopwatchMinutes: int,
    preAdhanMinutes: PreAdhanMinutes,
    sunriseAfterIsha: bool)
}
