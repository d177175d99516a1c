/**
 * The RAII Timer of include/common/Timer.h. steady_clock is not modelled: every member that
 * reads the clock takes the reading `now` as a parameter, and a ghost field remembers the
 * latest reading so that the clock can be required to be monotone. Durations are reals
 * (seconds); the printing of printTime is left out, only its effect on the state is kept.
 */
module Timing {

  class Timer {
    var startTime: real
    var timeElapsed: real
    var isRunning: bool
    /** The latest clock reading the timer has been given. */
    ghost var clock: real

    /** The start time is a past reading and no interval is ever negative. */
    ghost predicate Valid()
      reads this
    {
      startTime <= clock && timeElapsed >= 0.0
    }

    /** Timer(bool start = true): elapsed zero, start time now, running iff `start`. */
    constructor (start: bool, now: real)
      ensures Valid()
      ensures startTime == now && timeElapsed == 0.0 && isRunning == start && clock == now
    {
      startTime := now;
      timeElapsed := 0.0;
      isRunning := start;
      clock := now;
    }

    /** start(): a no-op on a running timer; otherwise restarts the interval at `now`. */
    method Start(now: real)
      requires Valid() && clock <= now
      modifies this
      ensures Valid() && clock == now
      ensures isRunning && timeElapsed == old(timeElapsed)
      ensures startTime == if old(isRunning) then old(startTime) else now
    {
      clock := now;
      if isRunning {
        return;
      }
      startTime := now;
      isRunning := true;
    }

    /** stop(): a no-op on a stopped timer; otherwise adds the interval since the start. */
    method Stop(now: real)
      requires Valid() && clock <= now
      modifies this
      ensures Valid() && clock == now
      ensures !isRunning && startTime == old(startTime)
      ensures timeElapsed == if old(isRunning) then old(timeElapsed) + (now - old(startTime)) else old(timeElapsed)
      ensures timeElapsed >= old(timeElapsed)
    {
      clock := now;
      if !isRunning {
        return;
      }
      isRunning := false;
      timeElapsed := timeElapsed + (now - startTime);
    }

    /** getTimeElapsed() */
    function GetTimeElapsed(): real
      reads this
    {
      timeElapsed
    }

    /**
     * printTime(name): a running timer is stopped (clock reading `stopAt`), printed, and
     * started again (a second reading `restartAt`), so the time spent printing is not
     * counted. A stopped timer is only printed.
     */
    method PrintTime(stopAt: real, restartAt: real)
      requires Valid() && clock <= stopAt <= restartAt
      modifies this
      ensures Valid()
      ensures isRunning == old(isRunning)
      ensures timeElapsed >= old(timeElapsed)
      ensures old(isRunning) ==> timeElapsed == old(timeElapsed) + (stopAt - old(startTime)) && startTime == restartAt
      ensures !old(isRunning) ==> timeElapsed == old(timeElapsed) && startTime == old(startTime)
    {
      var wasRunning := isRunning;
      if wasRunning {
        Stop(stopAt);
      }
      if wasRunning {
        Start(restartAt);
      }
    }

    /** reset(): whatever the state, elapsed becomes zero and the timer stops. */
    method Reset()
      requires Valid()
      modifies this
      ensures Valid()
      ensures timeElapsed == 0.0 && !isRunning
      ensures startTime == old(startTime) && clock == old(clock)
    {
      timeElapsed := 0.0;
      isRunning := false;
    }

    /** isRunning() */
    function IsRunning(): bool
      reads this
    {
      isRunning
    }

    /**
     * ~Timer(): a running timer is stopped (and printed); a stopped one is left alone.
     * The printTime after stop finds the timer stopped and changes nothing.
     */
    method Destroy(now: real)
      requires Valid() && clock <= now
      modifies this
      ensures Valid()
      ensures !isRunning
      ensures timeElapsed == if old(isRunning) then old(timeElapsed) + (now - old(startTime)) else old(timeElapsed)
    {
      if isRunning {
        Stop(now);
        PrintTime(now, now);
      }
    }
  }
}
