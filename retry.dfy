/**
 * The periodic-retry keep-alive machine shared by the NTP time sync
 * (`check_rtc`/`upd_rtc`) and the MQTT broker connection
 * (`check_mqtt_con`/`con_mqtt_server`).  Every tick the counter advances
 * modulo 40; when it has reached 3, the service is not yet up and the
 * Wi-Fi link is associated, the service is attempted once and the counter
 * restarts from 0.  The flag records whether the last attempt succeeded.
 *
 * `RetryState`, `Step`, `Run` and `Attempts` describe the machine on
 * values; `RetryMachine` is the object the monitor updates in place and is
 * proved to follow `Step`.
 */
module Retry {
  const Period: int := 40
  const Threshold: int := 3
  const InitialCounter: int := 5

  datatype RetryState = RetryState(counter: int, flag: bool)

  datatype StepResult = StepResult(next: RetryState, attempted: bool)

  /** The link state and the outcome the service would give if attempted on one tick. */
  datatype Input = Input(link: bool, succeeds: bool)

  const Initial: RetryState := RetryState(InitialCounter, false)

  /** The counter after one tick, before any reset. */
  function Advance(counter: int): (c: int)
    ensures 0 <= c < Period
  {
    (counter + 1) % Period
  }

  /** One tick of the machine. */
  function Step(s: RetryState, link: bool, succeeds: bool): (r: StepResult)
    ensures 0 <= r.next.counter < Period
    ensures r.attempted <==> Advance(s.counter) >= Threshold && !s.flag && link
    ensures r.attempted ==> r.next == RetryState(0, succeeds)
    ensures !r.attempted ==> r.next == RetryState(Advance(s.counter), s.flag)
  {
    var c := Advance(s.counter);
    if c >= Threshold && !s.flag && link then StepResult(RetryState(0, succeeds), true)
    else StepResult(RetryState(c, s.flag), false)
  }

  /** The state after a run of ticks. */
  function Run(s: RetryState, ins: seq<Input>): RetryState
    decreases |ins|
  {
    if ins == [] then s else Run(Step(s, ins[0].link, ins[0].succeeds).next, ins[1..])
  }

  /** Which ticks of a run attempt the service. */
  function Attempts(s: RetryState, ins: seq<Input>): (a: seq<bool>)
    ensures |a| == |ins|
    decreases |ins|
  {
    if ins == [] then []
    else
      var st := Step(s, ins[0].link, ins[0].succeeds);
      [st.attempted] + Attempts(st.next, ins[1..])
  }

  // ---------------------------------------------------------------- lemmas

  /** From the start-up counter 5, the very first tick attempts at once if the link is up. */
  lemma FirstLinkUpTickAttempts(succeeds: bool)
    ensures Step(Initial, true, succeeds).attempted
  {
  }

  /**
   * After an attempt the next two ticks never attempt, whatever the link
   * does; the third one attempts when the flag is still clear and the link is up.
   */
  lemma QuietAfterAttempt(s: RetryState, in0: Input, in1: Input, in2: Input, in3: Input)
    requires Step(s, in0.link, in0.succeeds).attempted
    ensures var s1 := Step(s, in0.link, in0.succeeds).next;
      var t1 := Step(s1, in1.link, in1.succeeds);
      var t2 := Step(t1.next, in2.link, in2.succeeds);
      var t3 := Step(t2.next, in3.link, in3.succeeds);
      && !t1.attempted && !t2.attempted
      && (t3.attempted <==> !s1.flag && in3.link)
  {
  }

  /** A set flag is never cleared: once connected, no later tick attempts, whatever the link does. */
  lemma {:induction false} FlagAbsorbing(s: RetryState, ins: seq<Input>)
    requires s.flag
    ensures Run(s, ins).flag
    ensures forall k :: 0 <= k < |ins| ==> !Attempts(s, ins)[k]
    decreases |ins|
  {
    if ins != [] {
      FlagAbsorbing(Step(s, ins[0].link, ins[0].succeeds).next, ins[1..]);
    }
  }

  predicate AlwaysFailingLinkUp(ins: seq<Input>)
  {
    forall i :: 0 <= i < |ins| ==> ins[i].link && !ins[i].succeeds
  }

  /**
   * With the link up and the service failing, a machine whose counter is
   * `c` in 0..2 attempts on exactly the ticks `k` with `(k + c) % 3 == 2`:
   * a failing service is retried every third tick.
   */
  lemma {:induction false} FailingServiceRetriedEveryThirdTick(c: int, ins: seq<Input>)
    requires 0 <= c < Threshold
    requires AlwaysFailingLinkUp(ins)
    ensures forall k :: 0 <= k < |ins| ==> (Attempts(RetryState(c, false), ins)[k] <==> (k + c) % 3 == 2)
    ensures |ins| > 0 ==> 0 <= Run(RetryState(c, false), ins).counter < Threshold
    decreases |ins|
  {
    if ins != [] {
      var c' := if c == 2 then 0 else c + 1;
      assert Step(RetryState(c, false), ins[0].link, ins[0].succeeds).next == RetryState(c', false);
      FailingServiceRetriedEveryThirdTick(c', ins[1..]);
      var a := Attempts(RetryState(c, false), ins);
      assert a == [c == 2] + Attempts(RetryState(c', false), ins[1..]);
      forall k | 1 <= k < |ins|
        ensures a[k] <==> (k + c) % 3 == 2
      {
        assert a[k] == Attempts(RetryState(c', false), ins[1..])[k - 1];
        assert (k - 1 + c') % 3 == (k + c) % 3;
      }
      if |ins| == 1 {
        assert Run(RetryState(c, false), ins) == RetryState(c', false);
      }
    }
  }

  /** From start-up, a failing service with the link up is attempted on ticks 0, 3, 6, ... */
  lemma StartupRetrySchedule(ins: seq<Input>)
    requires AlwaysFailingLinkUp(ins)
    ensures forall k :: 0 <= k < |ins| ==> (Attempts(Initial, ins)[k] <==> k % 3 == 0)
  {
    if ins != [] {
      FailingServiceRetriedEveryThirdTick(0, ins[1..]);
      var a := Attempts(Initial, ins);
      assert a == [true] + Attempts(RetryState(0, false), ins[1..]);
      forall k | 1 <= k < |ins|
        ensures a[k] <==> k % 3 == 0
      {
        assert a[k] == Attempts(RetryState(0, false), ins[1..])[k - 1];
      }
    }
  }

  /**
   * While the service is not up, four consecutive ticks with the link up
   * always include an attempt.  Four and not three: a counter at 39 wraps to
   * 0 on the first tick and reaches 3 only on the fourth.
   */
  lemma AttemptWithinFourLinkUpTicks(s: RetryState, ins: seq<Input>)
    requires !s.flag
    requires |ins| >= 4 && ins[0].link && ins[1].link && ins[2].link && ins[3].link
    ensures exists k :: 0 <= k < 4 && Attempts(s, ins)[k]
  {
    var t0 := Step(s, ins[0].link, ins[0].succeeds);
    var t1 := Step(t0.next, ins[1].link, ins[1].succeeds);
    var t2 := Step(t1.next, ins[2].link, ins[2].succeeds);
    var t3 := Step(t2.next, ins[3].link, ins[3].succeeds);
    var a := Attempts(s, ins);
    assert a[0] == t0.attempted && a[1] == t1.attempted && a[2] == t2.attempted && a[3] == t3.attempted by {
      assert a == [t0.attempted] + Attempts(t0.next, ins[1..]);
      assert Attempts(t0.next, ins[1..]) == [t1.attempted] + Attempts(t1.next, ins[2..]);
      assert Attempts(t1.next, ins[2..]) == [t2.attempted] + Attempts(t2.next, ins[3..]);
      assert Attempts(t2.next, ins[3..]) == [t3.attempted] + Attempts(t3.next, ins[4..]);
    }
    FourLinkUpSteps(s, ins[0], ins[1], ins[2], ins[3]);
    if t0.attempted {
      assert a[0];
    } else if t1.attempted {
      assert a[1];
    } else if t2.attempted {
      assert a[2];
    } else {
      assert a[3];
    }
  }

  /** The step-level core of the above: from a clear flag, one of four link-up steps attempts. */
  lemma FourLinkUpSteps(s: RetryState, in0: Input, in1: Input, in2: Input, in3: Input)
    requires !s.flag && in0.link && in1.link && in2.link && in3.link
    ensures var t0 := Step(s, in0.link, in0.succeeds);
      var t1 := Step(t0.next, in1.link, in1.succeeds);
      var t2 := Step(t1.next, in2.link, in2.succeeds);
      var t3 := Step(t2.next, in3.link, in3.succeeds);
      t0.attempted || t1.attempted || t2.attempted || t3.attempted
  {
    var c := Advance(s.counter);
    if c < Threshold {
      assert c + 3 < Period;
    }
  }

  /** Four ticks are needed: from counter 39 with the link up, the first three ticks do not attempt. */
  lemma WrappedCounterWaitsThreeTicks(ins: seq<Input>)
    requires |ins| >= 3 && ins[0].link && ins[1].link && ins[2].link
    ensures !Attempts(RetryState(Period - 1, false), ins)[0]
    ensures !Attempts(RetryState(Period - 1, false), ins)[1]
    ensures !Attempts(RetryState(Period - 1, false), ins)[2]
  {
    var s := RetryState(Period - 1, false);
    var t0 := Step(s, ins[0].link, ins[0].succeeds);
    var t1 := Step(t0.next, ins[1].link, ins[1].succeeds);
    var t2 := Step(t1.next, ins[2].link, ins[2].succeeds);
    assert Attempts(s, ins) == [t0.attempted] + Attempts(t0.next, ins[1..]);
    assert Attempts(t0.next, ins[1..]) == [t1.attempted] + Attempts(t1.next, ins[2..]);
    assert Attempts(t1.next, ins[2..]) == [t2.attempted] + Attempts(t2.next, ins[3..]);
  }

  predicate AllDown(ins: seq<Input>)
  {
    forall i :: 0 <= i < |ins| ==> !ins[i].link
  }

  /**
   * While the link is down nothing is attempted and the counter just keeps
   * advancing modulo 40, so the tick after an outage of `d` ticks sees the
   * counter `(c + d) % 40`.
   */
  lemma {:induction false} OutageRun(s: RetryState, down: seq<Input>, up: Input)
    requires AllDown(down) && 0 <= s.counter < Period
    ensures forall k :: 0 <= k < |down| ==> !Attempts(s, down + [up])[k]
    ensures Attempts(s, down + [up])[|down|]
         == Step(RetryState((s.counter + |down|) % Period, s.flag), up.link, up.succeeds).attempted
    decreases |down|
  {
    if down == [] {
      assert down + [up] == [up];
    } else {
      var s' := Step(s, down[0].link, down[0].succeeds).next;
      assert s' == RetryState(Advance(s.counter), s.flag);
      assert (down + [up])[1..] == down[1..] + [up];
      OutageRun(s', down[1..], up);
      ModAddLeft(s.counter + 1, |down| - 1);
      var a := Attempts(s, down + [up]);
      assert a == [false] + Attempts(s', down[1..] + [up]);
      forall k | 1 <= k <= |down|
        ensures a[k] == Attempts(s', down[1..] + [up])[k - 1]
      {
      }
    }
  }

  /**
   * From start-up, the first link-up tick after `d` link-down ticks attempts
   * unless `d % 40` is 34, 35 or 36: then the counter has just wrapped past 39
   * and the attempt waits until it is back at 3.  No tick of the outage attempts.
   */
  lemma FirstLinkUpAfterOutage(down: seq<Input>, up: Input)
    requires AllDown(down) && up.link
    ensures forall k :: 0 <= k < |down| ==> !Attempts(Initial, down + [up])[k]
    ensures Attempts(Initial, down + [up])[|down|] <==> !(34 <= |down| % Period <= 36)
  {
    OutageRun(Initial, down, up);
    var d := |down|;
    ModAddLeft(InitialCounter + d, 1);
    ModAddLeft(d, InitialCounter + 1);
  }

  /** Reducing a non-negative summand modulo 40 first does not change the sum modulo 40. */
  lemma ModAddLeft(x: nat, n: nat)
    ensures (x % Period + n) % Period == (x + n) % Period
  {
    var q := x / Period;
    assert x + n == (x % Period + n) + Period * q;
    ModPlusMultiple(x % Period + n, q);
  }

  lemma {:induction false} ModPlusMultiple(y: int, k: nat)
    ensures (y + Period * k) % Period == y % Period
    decreases k
  {
    if k > 0 {
      ModPlusMultiple(y, k - 1);
      assert y + Period * k == (y + Period * (k - 1)) + Period;
    }
  }

  /**
   * The machine as the monitor holds it: `counter` is `loop_rtc` or
   * `loop_mqtt`, `flag` is `ntc_flag` or `mqtt_flag`.
   */
  class RetryMachine {
    var counter: int
    var flag: bool

    predicate Valid()
      reads this
    {
      0 <= counter < Period
    }

    function State(): RetryState
      reads this
    {
      RetryState(counter, flag)
    }

    constructor ()
      ensures Valid() && State() == Initial
    {
      counter := InitialCounter;
      flag := false;
    }

    /** `upd_rtc` / `con_mqtt_server`: one attempt, whose outcome sets the flag. */
    method Attempt(succeeds: bool)
      modifies this
      ensures flag == succeeds && counter == old(counter)
    {
      flag := succeeds;
    }

    /** `check_rtc` / `check_mqtt_con`: one tick of the machine. */
    method Check(link: bool, succeeds: bool) returns (attempted: bool)
      modifies this
      ensures Valid()
      ensures StepResult(State(), attempted) == Step(old(State()), link, succeeds)
    {
      counter := (counter + 1) % Period;
      attempted := counter >= Threshold && !flag && link;
      if attempted {
        Attempt(succeeds);
        counter := 0;
      }
    }
  }
}
