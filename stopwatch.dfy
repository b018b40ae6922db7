/**
 * The stopwatch view model: a hundredths counter driven by a repeating
 * timer, the seconds and hundredths derived from it for display, a running
 * flag, and a most-recent-first list of lap labels with its lap counter.
 *
 * The timer's callback is the explicit step `Tick`, enabled while some
 * started timer has not been cancelled. `start` replaces the timer handle
 * without cancelling the timer it held, so a timer started while another
 * is live keeps firing after `pause` and `reset`; `leakedTimers` counts
 * such timers.
 */
module Stopwatch {
  import opened Wrappers
  import opened KotlinInt
  import opened LapLabel
  import opened Sequences

  /** The entry a lap records when the counter stands at `t` hundredths. */
  function LapAt(number: int, t: int): (r: Lap)
    ensures r.number == number
    ensures 100 * r.sec + r.milli == t && -100 < r.milli < 100
    ensures 0 <= t ==> 0 <= r.milli
    ensures t < 0 ==> r.milli <= 0
  {
    Lap(number, Quot(t, 100), Rem(t, 100))
  }

  /**
   * The entries of a lap list whose laps were recorded at counter values
   * `ticks`, most recent first: entry i is lap |ticks| - i, so the numbers
   * run consecutively down to 1.
   */
  function Readings(ticks: seq<int>): (r: seq<Lap>)
    ensures |r| == |ticks|
    ensures forall i :: 0 <= i < |ticks| ==> r[i] == LapAt(|ticks| - i, ticks[i])
  {
    if ticks == [] then [] else [LapAt(|ticks|, ticks[0])] + Readings(ticks[1..])
  }

  /** The recorded counter values are non-negative, at most `now`, most recent first. */
  ghost predicate TimeOrdered(ticks: seq<int>, now: int) {
    && (forall i :: 0 <= i < |ticks| ==> 0 <= ticks[i] <= now)
    && (forall i, j :: 0 <= i <= j < |ticks| ==> ticks[j] <= ticks[i])
  }

  /** A lap recorded now keeps the counter values ordered. */
  lemma TimeOrderedPrepend(ticks: seq<int>, now: int)
    requires 0 <= now && TimeOrdered(ticks, now)
    ensures TimeOrdered([now] + ticks, now)
  {
  }

  /**
   * Entry i of the labels of laps recorded at `ticks` reads back as lap
   * |ticks| - i with the display at `ticks[i]`.
   */
  lemma LabelsReadBack(ticks: seq<int>)
    ensures forall i :: 0 <= i < |ticks| ==>
              Parse(Map(Label, Readings(ticks))[i]) == Some(LapAt(|ticks| - i, ticks[i]))
  {
    forall i | 0 <= i < |ticks|
      ensures Parse(Map(Label, Readings(ticks))[i]) == Some(LapAt(|ticks| - i, ticks[i]))
    {
      ParseLabel(Readings(ticks)[i]);
    }
  }

  class MainViewModel {
    var sec: int
    var milli: int
    var isRunning: bool
    var lapTimes: seq<string>
    var lap: int
    var time: int
    /** `timerTask` holds a timer that has not been cancelled. */
    var timerActive: bool
    /** Timers still firing whose handle `start` overwrote. */
    var leakedTimers: nat
    /** The counter value at which each entry of `lapTimes` was recorded. */
    ghost var lapTicks: seq<int>
    /** Whether the counter has wrapped around since the last reset. */
    ghost var wrapped: bool

    /**
     * The display is derived from the counter; the running flag tracks the
     * held timer; entry i carries lap number |lapTimes| - i and the reading
     * at lapTicks[i]; until the counter wraps, entries are also ordered by
     * time, most recent first, and none is later than now.
     */
    ghost predicate Valid()
      reads this
    {
      && IsInt(time)
      && sec == Quot(time, 100)
      && milli == Rem(time, 100)
      && isRunning == timerActive
      && lap == |lapTimes| + 1
      && (forall i :: 0 <= i < |lapTicks| ==> IsInt(lapTicks[i]))
      && lapTimes == Map(Label, Readings(lapTicks))
      && (!wrapped ==> 0 <= time && TimeOrdered(lapTicks, time))
    }

    /** Some started timer is still live, so the callback can fire. */
    predicate CanTick()
      reads this
    {
      timerActive || leakedTimers > 0
    }

    constructor ()
      ensures Valid()
      ensures time == 0 && sec == 0 && milli == 0 && !isRunning
      ensures lapTimes == [] && lap == 1
      ensures !timerActive && leakedTimers == 0 && !CanTick()
      ensures lapTicks == [] && !wrapped
    {
      sec, milli, isRunning := 0, 0, false;
      lapTimes, lap, time := [], 1, 0;
      timerActive, leakedTimers := false, 0;
      lapTicks, wrapped := [], false;
    }

    /** `start`: mark running and start a new timer, leaving the counter as it is. */
    method Start()
      requires Valid()
      modifies this
      ensures Valid()
      ensures isRunning && timerActive && CanTick()
      ensures leakedTimers == old(leakedTimers) + (if old(timerActive) then 1 else 0)
      ensures !old(isRunning) ==> leakedTimers == old(leakedTimers)
      ensures time == old(time) && sec == old(sec) && milli == old(milli)
      ensures lapTimes == old(lapTimes) && lap == old(lap)
      ensures lapTicks == old(lapTicks) && wrapped == old(wrapped)
    {
      isRunning := true;
      if timerActive {
        leakedTimers := leakedTimers + 1;
      }
      timerActive := true;
    }

    /** One firing of a live timer: `time++`, then the display is recomputed. */
    method Tick()
      requires Valid() && CanTick()
      modifies this
      ensures Valid()
      ensures time == Inc(old(time))
      ensures old(time) < MAX_INT ==> time == old(time) + 1
      ensures sec == Quot(time, 100) && milli == Rem(time, 100)
      ensures isRunning == old(isRunning) && timerActive == old(timerActive)
      ensures leakedTimers == old(leakedTimers)
      ensures lapTimes == old(lapTimes) && lap == old(lap) && lapTicks == old(lapTicks)
      ensures wrapped == (old(wrapped) || old(time) == MAX_INT)
    {
      wrapped := wrapped || time == MAX_INT;
      time := Inc(time);
      sec := Quot(time, 100);
      milli := Rem(time, 100);
    }

    /** `pause`: clear the running flag and cancel the held timer. */
    method Pause()
      requires Valid()
      modifies this
      ensures Valid()
      ensures !isRunning && !timerActive && leakedTimers == old(leakedTimers)
      ensures old(leakedTimers) == 0 ==> !CanTick()
      ensures time == old(time) && sec == old(sec) && milli == old(milli)
      ensures lapTimes == old(lapTimes) && lap == old(lap)
      ensures lapTicks == old(lapTicks) && wrapped == old(wrapped)
    {
      isRunning := false;
      timerActive := false;
    }

    /** `reset`: cancel the held timer, zero the counter and display, drop every lap. */
    method Reset()
      requires Valid()
      modifies this
      ensures Valid()
      ensures time == 0 && sec == 0 && milli == 0
      ensures !isRunning && !timerActive && leakedTimers == old(leakedTimers)
      ensures old(leakedTimers) == 0 ==> !CanTick()
      ensures lapTimes == [] && lap == 1
      ensures lapTicks == [] && !wrapped
    {
      timerActive := false;
      time := 0;
      isRunning := false;
      sec := 0;
      milli := 0;
      lapTimes := [];
      lap := 1;
      lapTicks, wrapped := [], false;
      assert Readings([]) == [] && Map(Label, []) == [];
    }

    /** `recordLapTime`: put the label of the current lap and display first, then count the lap. */
    method RecordLapTime()
      requires Valid()
      modifies this
      ensures Valid()
      ensures lapTimes == [Label(Lap(old(lap), old(sec), old(milli)))] + old(lapTimes)
      ensures lap == old(lap) + 1
      ensures lapTicks == [old(time)] + old(lapTicks)
      ensures time == old(time) && sec == old(sec) && milli == old(milli)
      ensures isRunning == old(isRunning) && timerActive == old(timerActive)
      ensures leakedTimers == old(leakedTimers) && wrapped == old(wrapped)
    {
      assert Readings([time] + lapTicks) == [Lap(lap, sec, milli)] + Readings(lapTicks);
      MapPrepend(Label, Lap(lap, sec, milli), Readings(lapTicks));
      if !wrapped {
        TimeOrderedPrepend(lapTicks, time);
      }
      lapTimes := [Label(Lap(lap, sec, milli))] + lapTimes;
      lap := lap + 1;
      lapTicks := [time] + lapTicks;
    }

    /**
     * The display always shows a Kotlin quotient and remainder of the
     * counter; while the counter is non-negative these are the ordinary
     * seconds and hundredths, the latter in 0..99.
     */
    lemma DisplayMatchesTime()
      requires Valid()
      ensures -100 < milli < 100
      ensures 0 <= time ==> sec == time / 100 && milli == time % 100 && 0 <= milli
    {
    }

    /**
     * Read back, entry i of the lap list names lap |lapTimes| - i and the
     * display at the moment it was recorded: consecutive numbers, most recent
     * first, down to 1.
     */
    lemma LapsReadBack()
      requires Valid()
      ensures forall i :: 0 <= i < |lapTimes| ==>
                Parse(lapTimes[i]) == Some(LapAt(|lapTimes| - i, lapTicks[i]))
    {
      LabelsReadBack(lapTicks);
    }
  }
}
