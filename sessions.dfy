/**
 * Sequences of calls on one view model, and what the view model's contracts
 * let a caller conclude about each. `StartWhileRunning` is the double start
 * the screen can make when two taps land before it redraws.
 */
module Sessions {
  import opened KotlinInt
  import opened LapLabel
  import opened Stopwatch

  /** `n` firings of the live timers: the counter takes `n` Kotlin increments. */
  method RunTimer(w: MainViewModel, n: nat)
    requires w.Valid() && w.CanTick()
    modifies w
    ensures w.Valid() && w.CanTick()
    ensures w.time == After(old(w.time), n)
    ensures old(w.time) + n <= MAX_INT ==> w.time == old(w.time) + n && w.wrapped == old(w.wrapped)
    ensures w.isRunning == old(w.isRunning) && w.timerActive == old(w.timerActive)
    ensures w.leakedTimers == old(w.leakedTimers)
    ensures w.lapTimes == old(w.lapTimes) && w.lap == old(w.lap) && w.lapTicks == old(w.lapTicks)
  {
    var i := 0;
    while i < n
      invariant 0 <= i <= n
      invariant w.Valid() && w.CanTick()
      invariant w.time == After(old(w.time), i)
      invariant old(w.time) + n <= MAX_INT ==> w.wrapped == old(w.wrapped)
      invariant w.isRunning == old(w.isRunning) && w.timerActive == old(w.timerActive)
      invariant w.leakedTimers == old(w.leakedTimers)
      invariant w.lapTimes == old(w.lapTimes) && w.lap == old(w.lap) && w.lapTicks == old(w.lapTicks)
    {
      if old(w.time) + n <= MAX_INT {
        AfterAdds(old(w.time), i);
      }
      w.Tick();
      i := i + 1;
    }
    if old(w.time) + n <= MAX_INT {
      AfterAdds(old(w.time), n);
    }
  }

  /**
   * Reset, start, let the timer fire `n` times, pause: the display shows
   * `n` hundredths split into seconds and hundredths, and nothing can fire
   * any more.
   */
  method TimeALap(w: MainViewModel, n: nat)
    requires w.Valid() && w.leakedTimers == 0 && n <= MAX_INT
    modifies w
    ensures w.Valid()
    ensures w.time == n && w.sec == n / 100 && w.milli == n % 100
    ensures !w.isRunning && !w.CanTick()
  {
    w.Reset();
    w.Start();
    RunTimer(w, n);
    w.Pause();
    NonNegativeDivision(n, 100);
  }

  /** Start, `a` firings, pause, start again, `b` firings: counting resumes where it stopped. */
  method PauseAndResume(w: MainViewModel, a: nat, b: nat)
    requires w.Valid() && !w.isRunning && w.leakedTimers == 0
    requires 0 <= w.time && w.time + a + b <= MAX_INT
    modifies w
    ensures w.Valid() && w.isRunning && w.leakedTimers == 0
    ensures w.time == old(w.time) + a + b
    ensures w.lapTimes == old(w.lapTimes)
  {
    w.Start();
    RunTimer(w, a);
    w.Pause();
    w.Start();
    RunTimer(w, b);
  }

  /**
   * Two laps with no firing between them: same seconds and hundredths,
   * consecutive numbers, the later one first.
   */
  method LapTwice(w: MainViewModel)
    requires w.Valid()
    modifies w
    ensures w.Valid()
    ensures w.lapTimes ==
              [Label(Lap(old(w.lap) + 1, old(w.sec), old(w.milli))),
               Label(Lap(old(w.lap), old(w.sec), old(w.milli)))] + old(w.lapTimes)
    ensures w.lap == old(w.lap) + 2 && w.time == old(w.time)
  {
    w.RecordLapTime();
    w.RecordLapTime();
  }

  /** After a reset the first lap is numbered 1 and shows zero time. */
  method FirstLapAfterReset(w: MainViewModel)
    requires w.Valid()
    modifies w
    ensures w.Valid()
    ensures w.lapTimes == ["1 LAP : 0.0"] && w.lap == 2
  {
    w.Reset();
    w.RecordLapTime();
    LabelExamples();
  }

  /**
   * Starting while already running overwrites the timer handle without
   * cancelling the timer it held: after pause, and even after reset, that
   * timer still fires.
   */
  method StartWhileRunning(w: MainViewModel)
    requires w.Valid() && !w.isRunning && w.leakedTimers == 0
    modifies w
    ensures w.Valid()
    ensures !w.isRunning && w.leakedTimers == 1 && w.CanTick()
    ensures w.time == 0 && w.lapTimes == []
  {
    w.Start();
    w.Start();
    w.Pause();
    w.Reset();
  }
}
