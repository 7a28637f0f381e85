# PrayerTimer: the prayer timer resolver

A Dafny model of the timer resolver of PrayKit's `PrayerTimer`. For one
instant it decides what a prayer-times app shows. There are three modes:

- a countdown to the next adhan;
- a stopwatch since the current adhan;
- a countdown to the current prayer's iqama.

It also applies the Friday (Jumuah) override for the khutba. It then derives
the displayed range, the time remaining, the danger (running-low) threshold
and its flag, the Jumuah flag, and the relative-time hint `localizeAt`.

Modules:

- `Wrappers` (`wrappers.dfy`): `Option`, standing in for Swift's optionals.
- `PrayerTypes` (`prayer_types.dfy`): the collaborators, reduced to their
  answers. These are the prayer enumeration, prayer windows, the iqama table
  (`map<PrayerTime, int>`, keyed by the prayer occasion as the source's
  subscript is), the prayer day's `current(at:)` / `next(at:sunriseAfterIsha:)`,
  the per-prayer pre-adhan minutes, and the preference fields the timer reads.
- `Timer` (`prayer_timer.dfy`): the window predicates, the danger threshold,
  and the resolver `Resolve`. `Resolve` is written in the source's order: a
  tentative choice (`BaseChoice`), then the Friday rewrite (`ApplyJumuah`),
  then the derived fields. It also holds the two failable initialisers.
  `SelectionRule` restates the outcome as a flat priority list:
  khutba countdown, khutba stopwatch, stopwatch, iqama, countdown.
  `Resolve` is proved against that list.
- `TimerProofs` (`prayer_timer_proofs.dfy`): lemmas relating outcomes across
  inputs, the absolute-time meaning of the danger flag, and worked scenarios.

Encoding:

- Instants are `int` seconds on one time line.
- Fractions are `real`.
- "The date is a Friday in the calendar's time zone" is a boolean input.
- The elapsed fraction of the current window (`DateInterval.progress(at:)`)
  is an input.
- The date library's `isBetween` is not part of this model. `Timer.Between`
  stands for it as the ordered half-open window `lo <= x < hi`. The contracts
  of the window predicates hold for any inclusivity at the two ends.

`dangerThreshold` is only floored at 0.25, never capped. It exceeds 1 when
the pre-adhan lead is longer than the window; `Timer.DangerThreshold` states
exactly when it stays at most 1.

## Model

| member | source | states |
|---|---|---|
| Timer.Between | Sources/PrayCore/Services/Prayer/Models/PrayerTimer.swift:150-155 | a point strictly inside the bounds is between them, and a point between them lies within the closed bounds |
| Timer.IsStopwatchTimer | Sources/PrayCore/Services/Prayer/Models/PrayerTimer.swift:147-151 | never true for a non-positive length; when true, the date is no earlier than 2 s before the anchor and no later than 10 s before the anchor plus the length; true at every interior point of that window |
| Timer.IsIqamaTimer | Sources/PrayCore/Services/Prayer/Models/PrayerTimer.swift:153-156 | when true, the date lies between 2 s before the adhan and 10 s before the iqama; true at every interior point of that window |
| Timer.DangerThreshold | Sources/PrayCore/Services/Prayer/Models/PrayerTimer.swift:159-163 | for a positive-length window the threshold equals max(preAdhanMinutes·60 / duration, 0.25); hence it is at least 0.25, and at most 1 exactly when the lead fits in the window |
| Timer.Resolve | Sources/PrayCore/Services/Prayer/Models/PrayerTimer.swift:28-81 | the result follows the flat priority list (khutba iqama countdown, khutba stopwatch, adhan stopwatch, iqama, countdown to the current window's end under the next prayer); `localizeAt` is absent exactly when, on a Friday with no khutba countdown and dhuhr current, the stopwatch since the dhuhr adhan is open, and is otherwise the date; the range is min/max of date and target and contains both; timeRemaining = target − date; progressRemaining = 1 − progress; isDangerThreshold iff progressRemaining ≤ threshold; isJumuah iff Friday and the resolved prayer is dhuhr |
| Timer.TimerAt | Sources/PrayCore/Services/Prayer/Models/PrayerTimer.swift:85-114 | absent exactly when the day has no current or no next prayer at the date; otherwise the main initialiser's record, with the pre-adhan minutes of the current prayer |
| Timer.TimerFromPreferences | Sources/PrayCore/Services/Prayer/Models/PrayerTimer.swift:117-131 | absent exactly when there is no prayer day or it lacks a current or next prayer (next looked up with the preference's sunrise-after-isha flag); otherwise the day initialiser's record with the preference fields |
| TimerProofs.ResolveIsDetermined | Sources/PrayCore/Services/Prayer/Models/PrayerTimer.swift:38-80 | a record satisfies the priority list, the hint rule and the derived-field equations if and only if it is the resolver's record |
| TimerProofs.WeekdayModes | Sources/PrayCore/Services/Prayer/Models/PrayerTimer.swift:40-50 | on a non-Friday the stopwatch wins whenever eligible (target = adhan, current prayer); else iqama when eligible (target = iqama, current prayer); else countdown (target = window end, next prayer); the hint is the date and isJumuah is false |
| TimerProofs.WeekdayIqamaNeedsEntry | Sources/PrayCore/Services/Prayer/Models/PrayerTimer.swift:40-44 | on a non-Friday, iqama mode implies the iqama timer is enabled and the current prayer has an iqama |
| TimerProofs.NoStopwatchWhenDisabled | Sources/PrayCore/Services/Prayer/Models/PrayerTimer.swift:46-66 | with stopwatchMinutes ≤ 0 the mode is never stopwatch, even on a Friday, and the hint is always the date |
| TimerProofs.KhutbaIqamaOverride | Sources/PrayCore/Services/Prayer/Models/PrayerTimer.swift:54-58 | on a Friday before a dhuhr with an iqama the result is iqama mode, target = that iqama, prayer dhuhr, isJumuah, hint = date; flipping isIqamaTimerEnabled changes nothing |
| TimerProofs.FridayDhuhrOutcomes | Sources/PrayCore/Services/Prayer/Models/PrayerTimer.swift:59-66 | on a Friday during dhuhr without khutba countdown: an eligible stopwatch keeps its target and loses the hint; otherwise a stopwatch open since the dhuhr iqama becomes the mode with the iqama as target; without the adhan stopwatch the hint is the date |
| TimerProofs.FridayWithoutDhuhrIsWeekday | Sources/PrayCore/Services/Prayer/Models/PrayerTimer.swift:54-68 | on a Friday where neither the current nor the next prayer is dhuhr the record equals the non-Friday record |
| TimerProofs.ModeMatchesPrayer | Sources/PrayCore/Services/Prayer/Models/PrayerTimer.swift:47-65 | countdown refers to the next prayer and ends the current window; stopwatch refers to the current prayer; iqama refers to the current prayer except the Friday khutba countdown for dhuhr |
| TimerProofs.JumuahOnlyOnFridayDhuhr | Sources/PrayCore/Services/Prayer/Models/PrayerTimer.swift:79 | isJumuah iff Friday and the resolved prayer is dhuhr, which needs dhuhr to be the current or the next prayer |
| TimerProofs.DangerComparison | Sources/PrayCore/Services/Prayer/Models/PrayerTimer.swift:161-162 | with `left` seconds remaining of a positive window, the remaining fraction is at most the threshold iff left ≤ lead or left ≤ a quarter of the window |
| TimerProofs.DangerZoneIsFinalStretch | Sources/PrayCore/Services/Prayer/Models/PrayerTimer.swift:51-78 | when the elapsed fraction is linear over the window, isDangerThreshold holds exactly in the last preAdhanMinutes before the window ends, or in its last quarter if that is longer |
| TimerProofs.ScenarioPlainCountdown | Sources/PrayCore/Services/Prayer/Models/PrayerTimer.swift:46-50 | iqama off, no stopwatch, at the adhan on a weekday: countdown to the next prayer at the window end |
| TimerProofs.ScenarioStopwatch | Sources/PrayCore/Services/Prayer/Models/PrayerTimer.swift:46-75 | a 15-minute stopwatch five minutes after the adhan: stopwatch mode, 300 s elapsed (timeRemaining −300), range from adhan to date |
| TimerProofs.ScenarioIqama | Sources/PrayCore/Services/Prayer/Models/PrayerTimer.swift:40-50 | iqama 20 minutes after the adhan, ten minutes in, iqama timer on: iqama mode with the iqama as target |
| TimerProofs.ScenarioKhutbaCountdown | Sources/PrayCore/Services/Prayer/Models/PrayerTimer.swift:54-79 | Friday morning with a dhuhr iqama: iqama mode for dhuhr, flagged as Jumuah |
| TimerProofs.ScenarioFridayStopwatch | Sources/PrayCore/Services/Prayer/Models/PrayerTimer.swift:59-61 | Friday during the dhuhr stopwatch: stopwatch mode, hint withheld, flagged as Jumuah |

## Left out

- Calendar and time zone handling (`Calendar.current`, the time zone assignment at lines 101-102, `Date.isJumuah(using:)`): platform APIs. They are replaced by a boolean "is Friday" input.
- `PrayerDay.current(at:)` / `next(at:sunriseAfterIsha:)`, the `IqamaTimes` subscript, the `PreAdhanMinutes` subscript and the `Preferences` storage: their source is not part of this model. Their answers are inputs (`PrayerTypes`).
- `DateInterval.progress(at:)` and `Date.isBetween`: their source is not part of this model. Progress is an input; no clamping to [0, 1] is claimed. `isBetween` is isolated in `Timer.Between`.
- Timer.Resolve: requires the current window to have positive length. For a zero-length window the source's Double division yields NaN or infinity, and floating point is not modelled.
- Timer.TimerAt: requires the same positive length of the current window, when there is one, for the same reason.
- Timer.TimerFromPreferences: requires the same, for the same reason.
- Timer.DangerThreshold: computed over exact reals, not `Double`. The source's `Int` product `minutes * 60`, which traps on overflow, is unbounded here.
- Timer.Between: assumes ordered bounds. When an iqama entry falls less than 8 s after the adhan, the iqama window's bounds are reversed and `Timer.IsIqamaTimer` is always false; an order-insensitive `isBetween` in the date library would behave differently on such entries.
- Instants are whole seconds; `Date`'s fractional seconds are not modelled.
- `Codable` / `Equatable` conformances, and the `?? .now` fallback on line 47, which cannot be reached because it follows a non-nil test.
