# Stopwatch view model in Dafny

A model of `MainViewModel`, the state behind a single-screen Android
stopwatch (`app/src/main/java/com/example/stopwatch/MainActivity.kt`).
The view model keeps a hundredths counter `time`, the seconds `sec` and
hundredths `milli` derived from it for display, a running flag, a
most-recent-first list of lap labels `lapTimes` and a lap counter `lap`.
Its operations are `start`, `pause`, `reset` and `recordLapTime`; `start`
launches a repeating 10 ms timer whose callback increments the counter
and recomputes the display.

The model is the class `Stopwatch.MainViewModel`, whose methods change
its fields in place as the Kotlin code does. The timer callback is the
explicit step `Tick`, enabled while some started timer is live.
`Valid()` is the invariant every operation keeps:

- `sec` and `milli` are Kotlin's `time / 100` and `time % 100`;
- the running flag is true exactly when the held timer is live;
- `lap == |lapTimes| + 1`;
- entry i of `lapTimes` is the label of lap `|lapTimes| - i`, showing the
  display at the moment it was recorded;
- until the counter wraps, the recorded times are ordered, most recent
  first, and none is later than the current counter.

Kotlin details are written out:

- `time` is a 32-bit `Int`. `time++` wraps from 2147483647 to
  -2147483648 after about 248 days of running (`KotlinInt.Inc`,
  `KotlinInt.AfterWraps`).
- `/` and `%` round toward zero. After a wrap the display shows negative
  seconds and hundredths (`KotlinInt.Quot`, `KotlinInt.Rem`).
- Lap labels are real strings, `"$lap LAP : $sec.$milli"`. The hundredths
  are not zero-padded, so five hundredths of a second read `0.5`.
  `LapLabel.Parse` reads a label back, and `LapLabel.ParseLabel` proves it
  recovers the lap.

`start` overwrites `timerTask` without cancelling the timer it held. The
model counts such timers in `leakedTimers`. `pause` and `reset` cancel
only the held timer, so after two `start`s in a row a timer keeps firing
(`Sessions.StartWhileRunning`). The screen calls `start` only while the
displayed running flag is false (`MainActivity.kt:42-48`). That flag is the
value read at the last redraw, so two taps before the next redraw call
`start` twice, and the first timer leaks. When `start` is called while not
running, no timer is held and `Start` leaks nothing; its contract states
this.

## Model

| member | source | states |
|---|---|---|
| `KotlinInt.Inc` | app/src/main/java/com/example/stopwatch/MainActivity.kt:85 | `time++` on an `Int` gives a value in the 32-bit range congruent to `time + 1` modulo 2^32 |
| `KotlinInt.Quot` | app/src/main/java/com/example/stopwatch/MainActivity.kt:86 | `time / 100` rounds toward zero: what it leaves over is in 0..99 for a non-negative counter and in -99..0 for a negative one |
| `KotlinInt.Rem` | app/src/main/java/com/example/stopwatch/MainActivity.kt:87 | `time % 100` completes `100 * (time / 100) + time % 100 == time`, has the sign of `time` and is below 100 in size |
| `KotlinInt.NonNegativeDivision` | app/src/main/java/com/example/stopwatch/MainActivity.kt:86-87 | for a non-negative counter, seconds and hundredths are the ordinary quotient and remainder, hundredths in 0..99 |
| `KotlinInt.After` | app/src/main/java/com/example/stopwatch/MainActivity.kt:84-88 | any number of timer firings keeps the counter in the `Int` range |
| `KotlinInt.AfterAdds` | app/src/main/java/com/example/stopwatch/MainActivity.kt:84-88 | below the top of the range, n firings add exactly n to the counter |
| `KotlinInt.AfterWraps` | app/src/main/java/com/example/stopwatch/MainActivity.kt:85 | the firing that passes 2147483647 lands the counter on -2147483648 |
| `Decimal.NatToStringDenotes` | app/src/main/java/com/example/stopwatch/MainActivity.kt:109 | the template text of a non-negative number is a non-empty run of digits, without leading zero, denoting that number |
| `Decimal.IntToString` | app/src/main/java/com/example/stopwatch/MainActivity.kt:109 | how the template writes an `Int`: a minus sign before the digits of a negative value; its properties are stated by `Decimal.NatToStringDenotes` and `Decimal.ParseIntRoundTrip` |
| `Decimal.ParseIntRoundTrip` | app/src/main/java/com/example/stopwatch/MainActivity.kt:109 | reading back the template text of any `Int`, followed by a non-digit, gives the number and the text after it |
| `LapLabel.Label` | app/src/main/java/com/example/stopwatch/MainActivity.kt:109 | the label `"$lap LAP : ${sec.value}.${milli.value}"`; its properties are stated by `LapLabel.ParseLabel` and `LapLabel.LabelInjective` |
| `LapLabel.ParseLabel` | app/src/main/java/com/example/stopwatch/MainActivity.kt:109 | every lap label reads back as the lap number, seconds and hundredths it was built from |
| `LapLabel.LabelInjective` | app/src/main/java/com/example/stopwatch/MainActivity.kt:109 | two different laps never get the same label |
| `LapLabel.LabelExamples` | app/src/main/java/com/example/stopwatch/MainActivity.kt:109 | the first lap at zero reads `1 LAP : 0.0`; unpadded hundredths make 5 read `0.5` and 50 read `0.50` |
| `Stopwatch.LapAt` | app/src/main/java/com/example/stopwatch/MainActivity.kt:86-87 | the entry for a lap recorded at counter t: seconds and hundredths recombine to t (`100 * sec + milli == t`), hundredths strictly between -100 and 100 and carrying the sign of t, as Kotlin's truncating `/` and `%` give |
| `Stopwatch.Readings` | app/src/main/java/com/example/stopwatch/MainActivity.kt:109-110 | in a list of n laps, entry i is lap n - i: numbers run consecutively down to 1, most recent first |
| `Stopwatch.LabelsReadBack` | app/src/main/java/com/example/stopwatch/MainActivity.kt:109-110 | each label in such a list reads back as its lap number and the display at the time it was recorded |
| `Stopwatch.TimeOrderedPrepend` | app/src/main/java/com/example/stopwatch/MainActivity.kt:109 | a lap recorded at the current counter keeps the recorded times ordered, most recent first |
| `Stopwatch.MainViewModel.Valid` | app/src/main/java/com/example/stopwatch/MainActivity.kt:57-79 | the invariant over the fields: display derived from the counter, running flag matches the held timer, `lap` one more than the list length, list entries are the labels of the recorded laps, times ordered until a wrap |
| `Stopwatch.MainViewModel.CanTick` | app/src/main/java/com/example/stopwatch/MainActivity.kt:81-89 | some started timer, held or leaked, is still live, so the callback can fire |
| `Stopwatch.MainViewModel.constructor` | app/src/main/java/com/example/stopwatch/MainActivity.kt:57-79 | initial state: counter and display 0, not running, no laps, lap counter 1, no timer; the invariant holds |
| `Stopwatch.MainViewModel.Start` | app/src/main/java/com/example/stopwatch/MainActivity.kt:81-89 | sets running and a live timer and leaves counter, display and laps alone; a live timer it replaced becomes a leaked timer, and nothing leaks when it was not running |
| `Stopwatch.MainViewModel.Tick` | app/src/main/java/com/example/stopwatch/MainActivity.kt:84-88 | enabled only while a timer is live; the counter takes one `Int` increment (exactly +1 below the top), the display is recomputed from it, everything else is unchanged |
| `Stopwatch.MainViewModel.Pause` | app/src/main/java/com/example/stopwatch/MainActivity.kt:91-94 | clears running and cancels the held timer; with no leaked timer nothing can fire any more; counter, display and laps unchanged |
| `Stopwatch.MainViewModel.Reset` | app/src/main/java/com/example/stopwatch/MainActivity.kt:96-106 | from any state: counter and display 0, not running, held timer cancelled, no laps, lap counter 1 |
| `Stopwatch.MainViewModel.RecordLapTime` | app/src/main/java/com/example/stopwatch/MainActivity.kt:108-111 | puts the label of the current lap number and display in front of the old list, which becomes its tail, and increments the lap counter; counter, display and running state unchanged |
| `Stopwatch.MainViewModel.DisplayMatchesTime` | app/src/main/java/com/example/stopwatch/MainActivity.kt:84-88 | hundredths stay within -99..99; for a non-negative counter the display is `time / 100` seconds and `time % 100` hundredths, in 0..99 |
| `Stopwatch.MainViewModel.LapsReadBack` | app/src/main/java/com/example/stopwatch/MainActivity.kt:108-111 | in any valid state, entry i of the lap list reads back as lap number (list length - i) with the display at its recording |
| `Sessions.RunTimer` | app/src/main/java/com/example/stopwatch/MainActivity.kt:84-88 | n firings advance the counter by n `Int` increments and change nothing else |
| `Sessions.TimeALap` | app/src/main/java/com/example/stopwatch/MainActivity.kt:81-106 | reset, start, n firings, pause: the display reads n / 100 seconds and n % 100 hundredths, and no timer can fire |
| `Sessions.PauseAndResume` | app/src/main/java/com/example/stopwatch/MainActivity.kt:81-94 | start, a firings, pause, start, b firings: the counter resumes from the paused value and ends a + b higher, not restarted from 0 |
| `Sessions.LapTwice` | app/src/main/java/com/example/stopwatch/MainActivity.kt:108-111 | two laps with no firing between them show the same time, consecutive numbers, the later one first |
| `Sessions.FirstLapAfterReset` | app/src/main/java/com/example/stopwatch/MainActivity.kt:96-111 | after a reset the first lap recorded is exactly `1 LAP : 0.0` and the lap counter is 2 |
| `Sessions.StartWhileRunning` | app/src/main/java/com/example/stopwatch/MainActivity.kt:81-106 | start twice, then pause and reset: the first timer was never cancelled and can still fire |

## Left out

- `MainActivity.onCreate` and `MainScreen` (lines 25-53 and 114-191) are layout, icons and button wiring; only the toggle's dispatch on the displayed running flag (lines 42-48) is used above.
- The timer thread and its 10 ms period are not modelled. A firing is the explicit step `Tick`; real time, jitter and the initial delay are not.
- The race between the timer thread writing `sec`/`milli` and the main thread reading them in `recordLapTime` is not modelled. Every step is atomic.
- Compose `State`/`mutableStateOf` observation is not modelled. The wrapped values are plain fields. The model also ignores that the in-place `add` and `clear` on the list give observers no notification.
- `timerTask` is modelled as "the held timer is live" plus a count of leaked timers. Timer identities are not kept.
- Stopwatch.MainViewModel.RecordLapTime: the lap counter is unbounded. Kotlin's `lap++` would wrap only after 2^31 - 1 laps, a list of that many strings that a phone cannot hold.
