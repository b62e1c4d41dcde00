/** The throttle hook: a wrapped callback that runs at most once per `delay`
    milliseconds. Its only state is the time of the last call that ran
    (null before the first). The clock (`Date.now()`) is a parameter: each
    call is given its timestamp in integer milliseconds. */
module Throttle {
  import opened Wrappers

  /** Time of the last call that ran, if any. */
  datatype Gate = Gate(lastCall: Option<int>)

  const Fresh := Gate(None)

  /** The outcome of one call: the new gate and whether the callback ran. */
  datatype Outcome = Outcome(gate: Gate, ran: bool)

  /** One call at time `now`. It runs when nothing has run yet or at least
      `delay` has passed since the last run; a run records `now`, a
      suppressed call changes nothing. */
  function Call(g: Gate, now: int, delay: int): (r: Outcome)
    ensures r.ran <==> g.lastCall.None? || now - g.lastCall.value >= delay
    ensures r.ran ==> r.gate == Gate(Some(now))
    ensures !r.ran ==> r.gate == g
  {
    if g.lastCall.None? || now - g.lastCall.value >= delay then Outcome(Gate(Some(now)), true)
    else Outcome(g, false)
  }

  /** The first call through a fresh gate always runs. */
  lemma FirstCallRuns(now: int, delay: int)
    ensures Call(Fresh, now, delay).ran
  {
  }

  predicate NonDecreasing(times: seq<int>) {
    forall i, j :: 0 <= i < j < |times| ==> times[i] <= times[j]
  }

  /** The timestamps of the calls that ran, in order, when calls arrive at
      `times`. */
  function Executed(g: Gate, times: seq<int>, delay: int): seq<int>
    decreases |times|
  {
    if |times| == 0 then []
    else
      var r := Call(g, times[0], delay);
      (if r.ran then [times[0]] else []) + Executed(r.gate, times[1..], delay)
  }

  /** The gate after calls arrive at `times`. */
  function After(g: Gate, times: seq<int>, delay: int): Gate
    decreases |times|
  {
    if |times| == 0 then g else After(Call(g, times[0], delay).gate, times[1..], delay)
  }

  /** The gate remembers the last call that ran, and every call that ran is
      one of the calls made. */
  lemma {:induction false} GateRemembersLastRun(g: Gate, times: seq<int>, delay: int)
    ensures var e := Executed(g, times, delay);
      && (|e| == 0 ==> After(g, times, delay) == g)
      && (|e| > 0 ==> After(g, times, delay) == Gate(Some(e[|e| - 1])))
      && forall t :: t in e ==> t in times
    decreases |times|
  {
    if |times| > 0 {
      var r := Call(g, times[0], delay);
      GateRemembersLastRun(r.gate, times[1..], delay);
      var rest := Executed(r.gate, times[1..], delay);
      assert Executed(g, times, delay) == (if r.ran then [times[0]] else []) + rest;
      forall t | t in rest ensures t in times {
        assert t in times[1..];
      }
    }
  }

  /** Consecutive calls that ran are at least `delay` apart, and the first
      of them is at least `delay` after the run the gate remembers. Each run
      is measured against the previous run, so this holds even when the
      clock goes back. */
  lemma {:induction false} RunsAreSpaced(g: Gate, times: seq<int>, delay: int)
    ensures var e := Executed(g, times, delay);
      && (|e| > 0 && g.lastCall.Some? ==> e[0] - g.lastCall.value >= delay)
      && forall i :: 0 < i < |e| ==> e[i] - e[i - 1] >= delay
    decreases |times|
  {
    if |times| > 0 {
      var r := Call(g, times[0], delay);
      var rest := Executed(r.gate, times[1..], delay);
      RunsAreSpaced(r.gate, times[1..], delay);
      var e := Executed(g, times, delay);
      assert e == (if r.ran then [times[0]] else []) + rest;
      if r.ran {
        assert e == [times[0]] + rest;
        forall i | 0 < i < |e| ensures e[i] - e[i - 1] >= delay {
          if i == 1 {
            assert e[1] == rest[0] && e[0] == times[0];
          } else {
            assert e[i] == rest[i - 1] && e[i - 1] == rest[i - 2];
          }
        }
      }
    }
  }

  /** With a clock that never goes back and a delay of at most 0, every
      call runs (provided the remembered run is not later than the first
      call). */
  lemma {:induction false} NonPositiveDelayRunsAll(g: Gate, times: seq<int>, delay: int)
    requires NonDecreasing(times) && delay <= 0
    requires |times| > 0 && g.lastCall.Some? ==> g.lastCall.value <= times[0]
    ensures Executed(g, times, delay) == times
    decreases |times|
  {
    if |times| > 0 {
      var r := Call(g, times[0], delay);
      assert r.ran && r.gate == Gate(Some(times[0]));
      NonPositiveDelayRunsAll(r.gate, times[1..], delay);
      assert [times[0]] + times[1..] == times;
    }
  }

  /** A call with the clock set back before the last run, under a positive
      delay, never runs. */
  lemma ClockSetBackSuppresses(last: int, now: int, delay: int)
    requires now < last && delay > 0
    ensures !Call(Gate(Some(last)), now, delay).ran
  {
  }
}
