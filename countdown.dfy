/** The countdown state machine of the timer screen: three counters (hours, minutes,
    seconds left), three ring angles kept in step with them, play/pause/reset and the
    blink that signals completion.

    The coroutines of the original run here as plain sequential loops: every `delay`
    becomes a `Delay` event in the object's event log, every launched job a
    `JobHandle` flag, and every callback a further event in the same log. */
module Countdown {

  const TickerIntervalMillis: nat := 1000
  const TickerStartDelayMillis: nat := 400
  const BlinkIntervalMillis: nat := 300
  const BlinkCount: nat := 4

  const MaxHours: int := 12
  const MaxMinutes: int := 60
  const MaxSeconds: int := 60
  /** A full ring: what a borrow sets the ring of the refilled unit to. */
  const FullRing: int := 360

  datatype Change = Increase | Decrease

  /** The counters and the ring angles (whole degrees) at one instant. */
  datatype ClockFace = ClockFace(hours: int, minutes: int, seconds: int,
                                 hoursAngle: int, minutesAngle: int, secondsAngle: int)

  const Zero := ClockFace(0, 0, 0, 0, 0, 0)

  /** The handle kept for a launched coroutine. */
  datatype JobHandle = NoJob | Active | Finished | Cancelled

  /** What an observer of the state machine sees happen, in order: time passing, the
      display alpha being assigned, and the four callbacks. */
  datatype Event =
    | Delay(millis: nat)
    | Alpha(value: int)
    | Started
    | Paused
    | Completed
    | WasReset

  /** `job?.cancel()`: only a running job changes; a missing or ended one stays as it is. */
  function Cancel(j: JobHandle): (r: JobHandle)
    ensures r != Active
    ensures j != Active ==> r == j
    ensures j == Active ==> r == Cancelled
  {
    if j == Active then Cancelled else j
  }

  /** Cancelling twice is the same as cancelling once. */
  lemma CancelIdempotent(j: JobHandle)
    ensures Cancel(Cancel(j)) == Cancel(j)
  {
  }

  /** Kotlin's `coerceIn(lo, hi)`. */
  function CoerceIn(x: int, lo: int, hi: int): (r: int)
    requires lo <= hi
    ensures lo <= r <= hi
    ensures lo <= x <= hi ==> r == x
    ensures x < lo ==> r == lo
    ensures hi < x ==> r == hi
  {
    if x < lo then lo else if hi < x then hi else x
  }

  /** The new value of a counter after one press of an increase/decrease control. */
  function Adjust(v: int, change: Change, hi: int): (r: int)
    requires 0 <= hi
    ensures 0 <= r <= hi
    ensures 0 <= v <= hi && change == Increase ==> r == (if v < hi then v + 1 else v)
    ensures 0 <= v <= hi && change == Decrease ==> r == (if 0 < v then v - 1 else v)
  {
    CoerceIn(match change { case Increase => v + 1 case Decrease => v - 1 }, 0, hi)
  }

  /** Below the maximum, a decrease undoes an increase; above zero, an increase undoes a
      decrease. */
  lemma AdjustUndo(v: int, hi: int)
    requires 0 <= v <= hi
    ensures v < hi ==> Adjust(Adjust(v, Increase, hi), Decrease, hi) == v
    ensures 0 < v ==> Adjust(Adjust(v, Decrease, hi), Increase, hi) == v
  {
  }

  ghost predicate InRange(f: ClockFace) {
    0 <= f.hours <= MaxHours && 0 <= f.minutes <= MaxMinutes && 0 <= f.seconds <= MaxSeconds
  }

  /** Every ring shows its counter at that unit's degrees per unit: 30 per hour, 6 per
      minute, 6 per second. */
  ghost predicate AnglesInStep(f: ClockFace) {
    f.hoursAngle == f.hours * 30
    && f.minutesAngle == f.minutes * 6
    && f.secondsAngle == f.seconds * 6
  }

  ghost predicate ValidFace(f: ClockFace) {
    InRange(f) && AnglesInStep(f)
  }

  /** `totalSecondsLeft`. */
  function TotalSeconds(f: ClockFace): (r: int)
    ensures InRange(f) ==> 0 <= r <= MaxHours * 3600 + MaxMinutes * 60 + MaxSeconds
    ensures InRange(f) ==> (r == 0 <==> f.hours == 0 && f.minutes == 0 && f.seconds == 0)
  {
    f.hours * 3600 + f.minutes * 60 + f.seconds
  }

  /** One tick of `countDown`: take a second if there is one, then refill the seconds
      from the minutes when the seconds are exhausted, then refill the minutes from the
      hours when the minutes are exhausted. A refill sets the counter to 60 and its ring
      to a full 360 degrees. */
  function Tick(f: ClockFace): (r: ClockFace)
    ensures 0 < f.seconds ==> TotalSeconds(r) == TotalSeconds(f) - 1
    ensures f.seconds <= 0 ==> TotalSeconds(r) == TotalSeconds(f)
    ensures f.hours <= 0 && f.minutes <= 0 && f.seconds <= 0 ==> r == f
    ensures ValidFace(f) ==> ValidFace(r) && TotalSeconds(r) <= TotalSeconds(f)
    ensures r.hours <= f.hours
  {
    var f1 :=
      if 0 < f.seconds then f.(seconds := f.seconds - 1, secondsAngle := f.secondsAngle - 6)
      else f;
    var f2 :=
      if f1.seconds == 0 && 0 < f1.minutes then
        f1.(minutes := f1.minutes - 1, seconds := MaxSeconds, secondsAngle := FullRing,
            minutesAngle := f1.minutesAngle - 6)
      else f1;
    var f3 :=
      if f2.minutes == 0 && 0 < f2.hours then
        f2.(hours := f2.hours - 1, minutes := MaxMinutes, minutesAngle := FullRing,
            hoursAngle := f2.hoursAngle - 30)
      else f2;
    f3
  }

  /** Ticks that are still owed to refills before the next second can be taken: a tick
      that starts with no seconds left only borrows. Together with the total this gives
      the tick loop its termination measure. */
  function BorrowsPending(f: ClockFace): nat {
    (if f.seconds == 0 then 2 else 0) + (if f.minutes == 0 then 1 else 0)
  }

  /** The number of ticks `while (totalSecondsLeft > 0) countDown()` performs. */
  ghost function TicksToFinish(f: ClockFace): nat
    requires ValidFace(f)
    decreases TotalSeconds(f), BorrowsPending(f)
  {
    if TotalSeconds(f) == 0 then 0 else 1 + TicksToFinish(Tick(f))
  }

  /** A face from which every tick takes a second: exhausted seconds mean nothing is
      left, exhausted minutes mean no hours are left. */
  ghost predicate Settled(f: ClockFace) {
    (f.seconds == 0 ==> f.minutes == 0 && f.hours == 0) && (f.minutes == 0 ==> f.hours == 0)
  }

  /** The ticks beyond the total that the borrow-only ticks at the start add. */
  function ExtraTicks(f: ClockFace): nat {
    if 0 < f.seconds then
      (if f.minutes == 0 && 0 < f.hours && f.seconds == 1 then 1 else 0)
    else if 0 < f.minutes then 1
    else if 0 < f.hours then 2
    else 0
  }

  /** How many times the tick loop runs from `f`: the total plus the borrow-only ticks
      (`TicksToFinishExact`). */
  function TickCount(f: ClockFace): nat
    requires InRange(f)
  {
    TotalSeconds(f) + ExtraTicks(f)
  }

  lemma TickKeepsSettled(f: ClockFace)
    requires ValidFace(f) && Settled(f)
    ensures Settled(Tick(f))
  {
  }

  lemma {:induction false} SettledTicks(f: ClockFace)
    requires ValidFace(f) && Settled(f)
    ensures TicksToFinish(f) == TotalSeconds(f)
    decreases TotalSeconds(f)
  {
    if TotalSeconds(f) != 0 {
      TickKeepsSettled(f);
      SettledTicks(Tick(f));
    }
  }

  /** The tick loop runs exactly `total + ExtraTicks` times, and at most two ticks more
      than the total: only a face that starts with exhausted seconds (or hours left, exhausted
      minutes and one second left) costs extra ticks that take nothing off the total. */
  lemma {:induction false} TicksToFinishExact(f: ClockFace)
    requires ValidFace(f)
    ensures TicksToFinish(f) == TickCount(f)
    ensures TotalSeconds(f) <= TicksToFinish(f) <= TotalSeconds(f) + 2
  {
    if Settled(f) {
      SettledTicks(f);
    } else {
      var g := Tick(f);
      if Settled(g) {
        SettledTicks(g);
      } else {
        var h := Tick(g);
        SettledTicks(h);
      }
    }
  }

  /** One minute set on the dial takes 61 ticks: the first tick only moves the minute
      into the seconds ring, which then shows 60. */
  lemma OneMinuteTakesSixtyOneTicks()
    ensures TicksToFinish(ClockFace(0, 1, 0, 0, 6, 0)) == 61
  {
    TicksToFinishExact(ClockFace(0, 1, 0, 0, 6, 0));
  }

  lemma AppendAssoc<T>(a: seq<T>, b: seq<T>, c: seq<T>)
    ensures (a + b) + c == a + (b + c)
  {
  }

  /** `n` ticks' worth of the same event. */
  function Repeat(e: Event, n: nat): (r: seq<Event>)
    ensures |r| == n
  {
    if n == 0 then [] else Repeat(e, n - 1) + [e]
  }

  /** The lead-in delay a start takes: only when the timer has never been paused. */
  function LeadIn(wasPaused: bool): seq<Event> {
    if wasPaused then [] else [Delay(TickerStartDelayMillis)]
  }

  /** What a timer coroutine shows, run to its end, when its tick loop runs `ticks`
      times: the lead-in, the started callback, a one-second delay per tick and the
      blink. */
  function TimerJobEvents(wasPaused: bool, ticks: nat, alpha: int): seq<Event> {
    LeadIn(wasPaused) + [Started] + Repeat(Delay(TickerIntervalMillis), ticks) + BlinkEvents(alpha)
  }

  /** The timer job's events, appended one stage at a time, make up `TimerJobEvents`. */
  lemma TimerJobLog(before: seq<Event>, wasPaused: bool, ticks: nat, alpha: int)
    ensures before + LeadIn(wasPaused) + [Started] + Repeat(Delay(TickerIntervalMillis), ticks) + BlinkEvents(alpha)
            == before + TimerJobEvents(wasPaused, ticks, alpha)
  {
    var leadIn, repeat := LeadIn(wasPaused), Repeat(Delay(TickerIntervalMillis), ticks);
    AppendAssoc(before, leadIn, [Started]);
    AppendAssoc(before, leadIn + [Started], repeat);
    AppendAssoc(before, leadIn + [Started] + repeat, BlinkEvents(alpha));
  }

  /** A fresh start waits the 400 ms lead-in before the started callback; a resume
      fires it at once. */
  lemma ResumeSkipsLeadIn(ticks: nat, alpha: int)
    ensures TimerJobEvents(false, ticks, alpha)[..2] == [Delay(400), Started]
    ensures TimerJobEvents(true, ticks, alpha)[0] == Started
  {
    var rest := Repeat(Delay(TickerIntervalMillis), ticks) + BlinkEvents(alpha);
    assert TimerJobEvents(false, ticks, alpha) == [Delay(400), Started] + rest by {
      AppendAssoc(LeadIn(false) + [Started], Repeat(Delay(TickerIntervalMillis), ticks), BlinkEvents(alpha));
    }
    assert TimerJobEvents(true, ticks, alpha) == [Started] + rest by {
      AppendAssoc(LeadIn(true) + [Started], Repeat(Delay(TickerIntervalMillis), ticks), BlinkEvents(alpha));
    }
  }

  /** The display alpha toggle of the blink loop. */
  function Toggle(alpha: int): (r: int)
    ensures alpha == 0 || alpha == 1 ==> r == 1 - alpha
  {
    if alpha == 1 then 0 else 1
  }

  /** The first `n` rounds of the blink loop from display alpha `alpha`: each waits and
      then shows the toggled alpha, so the alphas alternate starting from the toggled one. */
  function BlinkRounds(alpha: int, n: nat): (r: seq<Event>)
    ensures |r| == 2 * n
    ensures forall k :: 0 <= k < n ==>
      r[2 * k] == Delay(BlinkIntervalMillis) &&
      r[2 * k + 1] == Alpha(if k % 2 == 0 then Toggle(alpha) else alpha)
  {
    if n == 0 then []
    else BlinkRounds(alpha, n - 1)
         + [Delay(BlinkIntervalMillis), Alpha(if n % 2 == 0 then alpha else Toggle(alpha))]
  }

  /** Everything the blink coroutine does: four rounds, then alpha forced to 1 and the
      completion callback. */
  function BlinkEvents(alpha: int): seq<Event> {
    BlinkRounds(alpha, BlinkCount) + [Alpha(1), Completed]
  }

  /** From the fully visible display the blink hides, shows, hides and shows it, each
      after a 300 ms delay, and then signals completion. */
  lemma BlinkFromVisible()
    ensures BlinkEvents(1) ==
      [Delay(300), Alpha(0), Delay(300), Alpha(1), Delay(300), Alpha(0), Delay(300), Alpha(1),
       Alpha(1), Completed]
  {
  }

  class TimeState {
    var isPlaying: bool
    /** The display alpha: 1 (shown) or 0 (hidden). */
    var isTimeDisplayAlpha: int

    var hoursAngle: int
    var minutesAngle: int
    var secondsAngle: int

    var hoursLeft: int
    var minutesLeft: int
    var secondsLeft: int

    var wasPaused: bool
    var timerJob: JobHandle
    var blinkJob: JobHandle

    /** Every delay taken, every blink alpha assigned and every callback fired. */
    var events: seq<Event>

    function Face(): ClockFace
      reads this
    {
      ClockFace(hoursLeft, minutesLeft, secondsLeft, hoursAngle, minutesAngle, secondsAngle)
    }

    ghost predicate Valid()
      reads this
    {
      ValidFace(Face()) && (isTimeDisplayAlpha == 0 || isTimeDisplayAlpha == 1)
    }

    function TotalSecondsLeft(): int
      reads this
    {
      TotalSeconds(Face())
    }

    constructor ()
      ensures Valid()
      ensures Face() == Zero && !isPlaying && !wasPaused && isTimeDisplayAlpha == 1
      ensures timerJob == NoJob && blinkJob == NoJob && events == []
    {
      isPlaying := false;
      isTimeDisplayAlpha := 1;
      hoursAngle, minutesAngle, secondsAngle := 0, 0, 0;
      hoursLeft, minutesLeft, secondsLeft := 0, 0, 0;
      wasPaused := false;
      timerJob, blinkJob := NoJob, NoJob;
      events := [];
    }

    /** Pause a running countdown, or start/resume one and run it, with the blink, to
        the end. */
    method PlayPause()
      requires Valid()
      modifies this
      ensures Valid()
      ensures old(isPlaying) ==>
        && !isPlaying && wasPaused
        && Face() == old(Face()) && isTimeDisplayAlpha == old(isTimeDisplayAlpha)
        && timerJob == Cancel(old(timerJob)) && blinkJob == old(blinkJob)
        && events == old(events) + [Paused]
      ensures !old(isPlaying) && old(TotalSecondsLeft()) == 0 ==> unchanged(this)
      ensures !old(isPlaying) && old(TotalSecondsLeft()) != 0 ==>
        && Face() == Zero && !isPlaying && isTimeDisplayAlpha == 1
        && wasPaused == old(wasPaused)
        && timerJob == Finished && blinkJob == Finished
        && events == old(events) + TimerJobEvents(old(wasPaused), TickCount(old(Face())), old(isTimeDisplayAlpha))
    {
      if isPlaying {
        isPlaying := false;
        wasPaused := true;
        events := events + [Paused];
        timerJob := Cancel(timerJob);
      } else {
        if TotalSecondsLeft() == 0 {
          return;
        }
        timerJob := Cancel(timerJob);
        timerJob := Active;
        RunTimerJob();
        timerJob := Finished;
      }
    }

    /** The body of the coroutine `playPause` launches, run to its end: the lead-in delay
        on a fresh start, the started callback, the tick loop and the blink. */
    method RunTimerJob()
      requires Valid() && TotalSecondsLeft() != 0
      modifies this`hoursLeft, this`minutesLeft, this`secondsLeft,
               this`hoursAngle, this`minutesAngle, this`secondsAngle,
               this`isPlaying, this`wasPaused, this`isTimeDisplayAlpha, this`blinkJob, this`events
      ensures Valid()
      ensures Face() == Zero && !isPlaying && isTimeDisplayAlpha == 1
      ensures wasPaused == old(wasPaused) && blinkJob == Finished
      ensures events == old(events) + TimerJobEvents(old(wasPaused), TickCount(old(Face())), old(isTimeDisplayAlpha))
    {
      ghost var face, alpha, paused, before := Face(), isTimeDisplayAlpha, wasPaused, events;
      if !wasPaused {
        wasPaused := false;
        events := events + [Delay(TickerStartDelayMillis)];
      } else {
        assert before + LeadIn(paused) == before;
      }
      isPlaying := true;
      events := events + [Started];
      TickUntilDone();
      Blink();
      TimerJobLog(before, paused, TickCount(face), alpha);
    }

    /** The tick loop of the timer coroutine: wait a second and tick, until nothing is
        left. */
    method TickUntilDone()
      requires Valid() && isPlaying
      modifies this`hoursLeft, this`minutesLeft, this`secondsLeft,
               this`hoursAngle, this`minutesAngle, this`secondsAngle, this`events
      ensures Valid()
      ensures Face() == Zero
      ensures events == old(events) + Repeat(Delay(TickerIntervalMillis), TickCount(old(Face())))
    {
      ghost var face, before := Face(), events;
      ghost var ticks: nat := 0;
      while TotalSecondsLeft() > 0
        invariant Valid() && isPlaying
        invariant TicksToFinish(face) == ticks + TicksToFinish(Face())
        invariant events == before + Repeat(Delay(TickerIntervalMillis), ticks)
        decreases TotalSecondsLeft(), BorrowsPending(Face())
      {
        ghost var prev := Face();
        AppendAssoc(before, Repeat(Delay(TickerIntervalMillis), ticks), [Delay(TickerIntervalMillis)]);
        events := events + [Delay(TickerIntervalMillis)];
        CountDown();
        assert TicksToFinish(prev) == 1 + TicksToFinish(Face());
        ticks := ticks + 1;
      }
      assert TicksToFinish(Face()) == 0;
      TicksToFinishExact(face);
      assert ticks == TickCount(face);
    }

    /** One tick, `countDown`. */
    method CountDown()
      requires Valid() && isPlaying
      modifies this`hoursLeft, this`minutesLeft, this`secondsLeft,
               this`hoursAngle, this`minutesAngle, this`secondsAngle
      ensures Valid()
      ensures Face() == Tick(old(Face()))
    {
      if secondsLeft > 0 {
        secondsLeft := secondsLeft - 1;
        secondsAngle := secondsAngle - 6;
      }
      if secondsLeft == 0 {
        if minutesLeft > 0 {
          minutesLeft := minutesLeft - 1;
          secondsLeft := MaxSeconds;
          secondsAngle := FullRing;
          minutesAngle := minutesAngle - 6;
        }
      }
      if minutesLeft == 0 {
        if hoursLeft > 0 {
          hoursLeft := hoursLeft - 1;
          minutesLeft := MaxMinutes;
          minutesAngle := FullRing;
          hoursAngle := hoursAngle - 30;
        }
      }
    }

    method ChangeHours(change: Change)
      requires Valid()
      modifies this`hoursLeft, this`hoursAngle
      ensures Valid()
      ensures hoursLeft == Adjust(old(hoursLeft), change, MaxHours)
      ensures hoursAngle == hoursLeft * 30
    {
      hoursLeft := CoerceIn(match change { case Increase => hoursLeft + 1 case Decrease => hoursLeft - 1 },
                            0, MaxHours);
      hoursAngle := hoursLeft * 30;
    }

    method ChangeMinutes(change: Change)
      requires Valid()
      modifies this`minutesLeft, this`minutesAngle
      ensures Valid()
      ensures minutesLeft == Adjust(old(minutesLeft), change, MaxMinutes)
      ensures minutesAngle == minutesLeft * 6
    {
      minutesLeft := CoerceIn(match change { case Increase => minutesLeft + 1 case Decrease => minutesLeft - 1 },
                              0, MaxMinutes);
      minutesAngle := minutesLeft * 6;
    }

    method ChangeSeconds(change: Change)
      requires Valid()
      modifies this`secondsLeft, this`secondsAngle
      ensures Valid()
      ensures secondsLeft == Adjust(old(secondsLeft), change, MaxSeconds)
      ensures secondsAngle == secondsLeft * 6
    {
      secondsLeft := CoerceIn(match change { case Increase => secondsLeft + 1 case Decrease => secondsLeft - 1 },
                              0, MaxSeconds);
      secondsAngle := secondsLeft * 6;
    }

    method Reset()
      requires Valid()
      modifies this
      ensures Valid()
      ensures Face() == Zero && !isPlaying && !wasPaused
      ensures timerJob == NoJob && blinkJob == NoJob
      ensures isTimeDisplayAlpha == old(isTimeDisplayAlpha)
      ensures events == old(events) + [WasReset]
    {
      isPlaying := false;
      wasPaused := false;
      hoursAngle, minutesAngle, secondsAngle := 0, 0, 0;
      hoursLeft, minutesLeft, secondsLeft := 0, 0, 0;
      timerJob := Cancel(timerJob);
      timerJob := NoJob;
      blinkJob := Cancel(blinkJob);
      blinkJob := NoJob;
      events := events + [WasReset];
    }

    /** The completion blink, run to its end. */
    method Blink()
      requires Valid() && isPlaying
      modifies this`isTimeDisplayAlpha, this`isPlaying, this`blinkJob, this`events
      ensures Valid()
      ensures isTimeDisplayAlpha == 1 && !isPlaying && blinkJob == Finished
      ensures events == old(events) + BlinkEvents(old(isTimeDisplayAlpha))
    {
      ghost var alpha, before := isTimeDisplayAlpha, events;
      blinkJob := Cancel(blinkJob);
      blinkJob := Active;
      // the body of the launched coroutine: `repeat(4)`
      for n := 0 to BlinkCount
        invariant isTimeDisplayAlpha == (if n % 2 == 0 then alpha else Toggle(alpha))
        invariant events == before + BlinkRounds(alpha, n)
        invariant isPlaying
      {
        isTimeDisplayAlpha := Toggle(isTimeDisplayAlpha);
        AppendAssoc(before, BlinkRounds(alpha, n), [Delay(BlinkIntervalMillis), Alpha(isTimeDisplayAlpha)]);
        events := events + [Delay(BlinkIntervalMillis), Alpha(isTimeDisplayAlpha)];
      }
      isTimeDisplayAlpha := 1;
      isPlaying := false;
      AppendAssoc(before, BlinkRounds(alpha, BlinkCount), [Alpha(1), Completed]);
      events := events + [Alpha(1), Completed];
      blinkJob := Finished;
    }
  }
}
