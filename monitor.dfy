/**
 * The per-second core of the power monitor: the module globals of the
 * firmware (voltage, current, power, accumulated energy and time, the
 * display/publish strings and the two keep-alive machines) and the steps
 * the timer callback runs on them.
 *
 * `MonitorState` and the functions over it describe each step on values;
 * `PowerMonitor` holds the same state in fields that its methods update in
 * place, and each method is proved to follow its function.  Readings are
 * `real` numbers, not IEEE floats.
 */
module Monitor {
  import opened Optional
  import opened Format
  import Retry

  /** A published or displayed value: literal text, or a number printed with `"{:.Nf}"`. */
  datatype Payload = Text(text: string) | Fixed(value: real, places: nat)

  datatype Message = Message(topic: string, payload: Payload)

  /** The strings `tran_to_str` writes: `str_tim`, `str_vol_v`, `str_vol_ma`, `str_pwr_W`, `str_vol_mWh`. */
  datatype Snapshot = Snapshot(tim: string, vol: Payload, cur: Payload, pwr: Payload, energy: Payload)

  const InitialSnapshot: Snapshot := Snapshot("00:00:00", Text("0.0"), Text("0"), Text("0.0"), Text("0"))

  /** What the INA219 driver reports on one tick: `bus_voltage` in volts and `current` before the x10 shunt scaling. */
  datatype Sample = Sample(busVoltage: real, current: real)

  /**
   * The measurement and accumulation globals: `cur_vol_v`, `cur_cur_mA`,
   * `cur_pwr_W`, `con_pwr_mWh` and `cum_tim_s`.
   */
  datatype Meter = Meter(vol: real, cur: real, pwr: real, energy: real, elapsed: nat)

  /**
   * All the module globals the core touches: the meter, `upt_tim_str`, the
   * snapshot strings, and the time-sync and broker machines
   * (`loop_rtc`/`ntc_flag`, `loop_mqtt`/`mqtt_flag`).
   */
  datatype MonitorState = MonitorState(
    meter: Meter, stamp: string, snap: Snapshot, rtc: Retry.RetryState, broker: Retry.RetryState)

  const InitialMeter: Meter := Meter(0.0, 0.0, 0.0, 0.0, 0)

  const Initial: MonitorState :=
    MonitorState(InitialMeter, "", InitialSnapshot, Retry.Initial, Retry.Initial)

  /**
   * What the world supplies on one tick: the local calendar time, the sensor
   * reading, the Wi-Fi link state each time it is consulted, whether the NTP
   * sync and the broker connect would succeed if attempted, and `accepted(k)`,
   * whether the k-th publish of the tick returns normally rather than raising.
   */
  datatype TickInput = TickInput(
    now: DateTuple, sample: Sample,
    linkAtSync: bool, syncSucceeds: bool,
    linkAtConnect: bool, connectSucceeds: bool,
    linkAtPublish: bool, accepted: nat -> bool)

  datatype TickOutcome = TickOutcome(state: MonitorState, attempted: seq<Message>)

  function Clamp(x: real): real { if x < 0.0 then 0.0 else x }

  /**
   * `get_pwr_V_ma`: with the sensor present, take the bus voltage and the
   * current scaled x10 for the 0.01 ohm shunt; otherwise keep the held values.
   * Either way a negative current is clamped to 0 and the power is derived.
   */
  function Sampled(m: Meter, present: bool, smp: Sample): (r: Meter)
    ensures r.cur >= 0.0
    ensures r.pwr == r.vol * r.cur / 1000.0
    ensures present ==> r.vol == smp.busVoltage && r.cur == Clamp(smp.current * 10.0)
    ensures !present ==> r.vol == m.vol && r.cur == Clamp(m.cur)
    ensures r.energy == m.energy && r.elapsed == m.elapsed
  {
    var v := if present then smp.busVoltage else m.vol;
    var c := if present then smp.current * 10.0 else m.cur;
    var c' := if c < 0.0 then 0.0 else c;
    m.(vol := v, cur := c', pwr := (v * c') / 1000.0)
  }

  /** `get_pwr_mWh`: one second of the present power, in mWh, added to the energy. */
  function Integrated(m: Meter): (r: Meter)
    ensures r.energy == m.energy + m.vol * m.cur / 3600.0
    ensures r.(energy := m.energy) == m
  {
    m.(energy := m.energy + (m.vol * m.cur) / 3600.0)
  }

  /** The KEY1 branch of `key_scan`: time and energy back to zero, the reading kept. */
  function KeysScanned(m: Meter, key1Down: bool): (r: Meter)
    ensures key1Down ==> r.energy == 0.0 && r.elapsed == 0
    ensures r.(energy := m.energy, elapsed := m.elapsed) == m
    ensures !key1Down ==> r == m
  {
    if key1Down then m.(elapsed := 0, energy := 0.0) else m
  }

  /**
   * The meter part of a tick, before the final increment: sample, then
   * integrate the freshly sampled power over one second.
   */
  function MeterTick(m: Meter, present: bool, smp: Sample): (r: Meter)
    ensures r.cur >= 0.0 && r.pwr == r.vol * r.cur / 1000.0
    ensures r.energy == m.energy + r.vol * r.cur / 3600.0
    ensures present ==> r.vol == smp.busVoltage && r.cur == Clamp(smp.current * 10.0)
    ensures !present ==> r.vol == m.vol && r.cur == Clamp(m.cur)
    ensures r.elapsed == m.elapsed
  {
    Integrated(Sampled(m, present, smp))
  }

  /** `tran_to_str`: the snapshot strings of a meter. */
  function SnapshotOf(m: Meter): (snap: Snapshot)
    ensures ParseClock(snap.tim) == Some(m.elapsed)
    ensures snap.vol == Fixed(m.vol, 3) && snap.cur == Fixed(m.cur, 1) && snap.pwr == Fixed(m.pwr, 3)
    ensures snap.energy == Fixed(m.energy, 0)
  {
    SecToStrRoundTrip(m.elapsed);
    Snapshot(SecToStr(m.elapsed), Fixed(m.vol, 3), Fixed(m.cur, 1), Fixed(m.pwr, 3), Fixed(m.energy, 0))
  }

  /** The six messages of `mqtt_check_msg`, in the order it sends them. */
  function Messages(s: MonitorState): (msgs: seq<Message>)
    ensures |msgs| == 6
    ensures msgs[0].topic == "str_tim" && msgs[1].topic == "str_vol_v" && msgs[2].topic == "str_vol_ma"
    ensures msgs[3].topic == "str_pwr_W" && msgs[4].topic == "str_vol_mWh" && msgs[5].topic == "upt_tim_str"
    ensures msgs[0].payload == Text(s.snap.tim) && msgs[1].payload == s.snap.vol && msgs[2].payload == s.snap.cur
    ensures msgs[3].payload == s.snap.pwr && msgs[4].payload == s.snap.energy && msgs[5].payload == Text(s.stamp)
  {
    [ Message("str_tim", Text(s.snap.tim)),
      Message("str_vol_v", s.snap.vol),
      Message("str_vol_ma", s.snap.cur),
      Message("str_pwr_W", s.snap.pwr),
      Message("str_vol_mWh", s.snap.energy),
      Message("upt_tim_str", Text(s.stamp)) ]
  }

  /**
   * How many of the sends `k .. n-1` are attempted when one `try` wraps them
   * all: each send is attempted, and the first one that raises ends the
   * sequence.  The count is the position just past the last attempted send.
   */
  function SentCount(accepted: nat -> bool, k: nat, n: nat): (r: nat)
    requires k <= n
    ensures k <= r <= n
    ensures forall j :: k <= j < r - 1 ==> accepted(j)
    ensures r < n ==> r > k && !accepted(r - 1)
    decreases n - k
  {
    if k == n then n
    else if accepted(k) then SentCount(accepted, k + 1, n)
    else k + 1
  }

  /** `mqtt_check_msg` on a message list: nothing when the link is down, else the sends up to the first failure. */
  function Publish(link: bool, msgs: seq<Message>, accepted: nat -> bool): (attempted: seq<Message>)
    ensures !link ==> attempted == []
    ensures |attempted| <= |msgs| && attempted == msgs[..|attempted|]
    ensures forall k :: 0 <= k < |msgs| && !accepted(k) ==> |attempted| <= k + 1
    ensures link && (forall k :: 0 <= k < |msgs| ==> accepted(k)) ==> attempted == msgs
    ensures link && |attempted| < |msgs| ==> |attempted| > 0 && !accepted(|attempted| - 1)
  {
    if link then msgs[..SentCount(accepted, 0, |msgs|)] else []
  }

  /**
   * The first part of `timer_fun`, up to the publish: stamp, sample,
   * integrate, time-sync check, snapshot, broker check.  This is the state
   * that `show_msg` and `mqtt_check_msg` see.
   */
  function Published(s: MonitorState, present: bool, input: TickInput): (r: MonitorState)
    ensures r.meter == MeterTick(s.meter, present, input.sample)
    ensures r.stamp == Strftime(input.now)
    ensures r.snap == SnapshotOf(r.meter)
    ensures ParseClock(r.snap.tim) == Some(s.meter.elapsed)
    ensures r.snap.energy == Fixed(r.meter.energy, 0)
    ensures r.rtc == Retry.Step(s.rtc, input.linkAtSync, input.syncSucceeds).next
    ensures r.broker == Retry.Step(s.broker, input.linkAtConnect, input.connectSucceeds).next
  {
    var stamp := Strftime(input.now);
    var m := MeterTick(s.meter, present, input.sample);
    var rtc := Retry.Step(s.rtc, input.linkAtSync, input.syncSucceeds).next;
    var snap := SnapshotOf(m);
    var broker := Retry.Step(s.broker, input.linkAtConnect, input.connectSucceeds).next;
    MonitorState(m, stamp, snap, rtc, broker)
  }

  /**
   * `timer_fun`: everything up to the snapshot and the two checks, then the
   * publish, and last of all `cum_tim_s += 1`.
   */
  function Ticked(s: MonitorState, present: bool, input: TickInput): (r: TickOutcome)
    ensures r.state.meter.elapsed == s.meter.elapsed + 1
    ensures |r.attempted| <= 6 && (!input.linkAtPublish ==> r.attempted == [])
  {
    var pub := Published(s, present, input);
    var attempted := Publish(input.linkAtPublish, Messages(pub), input.accepted);
    TickOutcome(pub.(meter := pub.meter.(elapsed := pub.meter.elapsed + 1)), attempted)
  }

  /**
   * What one tick does to each part of the state: the meter is sampled,
   * integrated and one second older; the stamp is the current time; the
   * snapshot shows the elapsed time before the increment and the new energy;
   * each retry machine takes one step; and what was sent is the publish of
   * the messages of the new state, whose strings the increment leaves alone.
   */
  lemma TickSteps(s: MonitorState, present: bool, input: TickInput)
    ensures var r := Ticked(s, present, input);
      && r.state.meter == MeterTick(s.meter, present, input.sample).(elapsed := s.meter.elapsed + 1)
      && r.state.stamp == Strftime(input.now)
      && ParseClock(r.state.snap.tim) == Some(s.meter.elapsed)
      && r.state.snap.energy == Fixed(r.state.meter.energy, 0)
      && r.state.rtc == Retry.Step(s.rtc, input.linkAtSync, input.syncSucceeds).next
      && r.state.broker == Retry.Step(s.broker, input.linkAtConnect, input.connectSucceeds).next
      && r.attempted == Publish(input.linkAtPublish, Messages(r.state), input.accepted)
  {
    var pub := Published(s, present, input);
    var r := Ticked(s, present, input);
    assert Messages(r.state) == Messages(pub);
  }

  /** A tick is the published state, with the second counted, and what was sent from it. */
  lemma TickedAfterPublish(s: MonitorState, present: bool, input: TickInput)
    ensures var pub := Published(s, present, input);
      Ticked(s, present, input)
      == TickOutcome(pub.(meter := pub.meter.(elapsed := pub.meter.elapsed + 1)),
                     Publish(input.linkAtPublish, Messages(pub), input.accepted))
  {
  }

  // ---------------------------------------------------------------- lemmas

  /** The energy a tick adds is its power (W) held for one second, in mWh. */
  lemma EnergyIsPowerForOneSecond(m: Meter, present: bool, smp: Sample)
    ensures var r := MeterTick(m, present, smp);
      r.energy - m.energy == r.pwr * 1000.0 / 3600.0
  {
  }

  /** With a non-negative bus voltage the accumulated energy never decreases on a tick. */
  lemma EnergyNeverDecreases(m: Meter, present: bool, smp: Sample)
    requires (if present then smp.busVoltage else m.vol) >= 0.0
    ensures MeterTick(m, present, smp).energy >= m.energy
  {
    var r := MeterTick(m, present, smp);
    assert r.vol * r.cur >= 0.0;
  }

  /** A negative current reading is clamped: the current and the power both become 0. */
  lemma NegativeCurrentClamped(m: Meter, smp: Sample)
    requires smp.current < 0.0
    ensures Sampled(m, true, smp).cur == 0.0 && Sampled(m, true, smp).pwr == 0.0
  {
  }

  /** Without a sensor, sampling twice is the same as sampling once: the held reading is frozen. */
  lemma AbsentSamplingIdempotent(m: Meter, a: Sample, b: Sample)
    ensures Sampled(Sampled(m, false, a), false, b) == Sampled(m, false, a)
  {
  }

  /**
   * The meter after a run of ticks, each tick reading the next sample.  By
   * `TickSteps` the meter part of a tick depends on nothing but the
   * meter, the sensor's presence and the sample; `RunAgrees` proves that
   * this is the meter of a run of `Ticked`.
   */
  function RunMeter(m: Meter, present: bool, samples: seq<Sample>): Meter
    decreases |samples|
  {
    if samples == [] then m else RunMeter(MeterStep(m, present, samples[0]), present, samples[1..])
  }

  /** The meter after one whole tick: sampled, integrated and one second older. */
  function MeterStep(m: Meter, present: bool, smp: Sample): Meter
  {
    var r := MeterTick(m, present, smp);
    r.(elapsed := r.elapsed + 1)
  }

  /** The meter part of a whole tick is `MeterStep`. */
  lemma TickedMeter(s: MonitorState, present: bool, input: TickInput)
    ensures Ticked(s, present, input).state.meter == MeterStep(s.meter, present, input.sample)
  {
    TickSteps(s, present, input);
  }

  /** The state after a run of whole ticks, one `TickInput` per tick. */
  function RunTicked(s: MonitorState, present: bool, ins: seq<TickInput>): MonitorState
    decreases |ins|
  {
    if ins == [] then s else RunTicked(Ticked(s, present, ins[0]).state, present, ins[1..])
  }

  /** The sensor samples of a run of ticks. */
  function SamplesOf(ins: seq<TickInput>): (samples: seq<Sample>)
    ensures |samples| == |ins|
    ensures forall i :: 0 <= i < |ins| ==> samples[i] == ins[i].sample
    decreases |ins|
  {
    if ins == [] then [] else [ins[0].sample] + SamplesOf(ins[1..])
  }

  /**
   * The meter after a run of whole ticks is `RunMeter` of the run's samples,
   * so every lemma about `RunMeter` below is a fact about `timer_fun`.
   */
  lemma {:induction false} RunAgrees(s: MonitorState, present: bool, ins: seq<TickInput>)
    ensures RunTicked(s, present, ins).meter == RunMeter(s.meter, present, SamplesOf(ins))
    decreases |ins|
  {
    if ins == [] {
      assert SamplesOf(ins) == [];
    } else {
      var t := Ticked(s, present, ins[0]).state;
      TickedMeter(s, present, ins[0]);
      var samples := SamplesOf(ins);
      assert samples[0] == ins[0].sample && samples[1..] == SamplesOf(ins[1..]);
      assert RunTicked(s, present, ins) == RunTicked(t, present, ins[1..]);
      RunAgrees(t, present, ins[1..]);
    }
  }

  /** Every tick adds exactly one second, whatever else happens. */
  lemma {:induction false} TicksCountSeconds(m: Meter, present: bool, samples: seq<Sample>)
    ensures RunMeter(m, present, samples).elapsed == m.elapsed + |samples|
    decreases |samples|
  {
    if samples != [] {
      TicksCountSeconds(MeterStep(m, present, samples[0]), present, samples[1..]);
    }
  }

  /** N ticks of a present sensor giving one constant reading add N * V * I / 3600 mWh. */
  lemma {:induction false} ConstantReadingEnergy(m: Meter, samples: seq<Sample>, smp: Sample)
    requires forall i :: 0 <= i < |samples| ==> samples[i] == smp
    ensures RunMeter(m, true, samples).energy
         == m.energy + (|samples| as real) * (smp.busVoltage * Clamp(smp.current * 10.0) / 3600.0)
    decreases |samples|
  {
    if samples != [] {
      var r := MeterStep(m, true, samples[0]);
      assert RunMeter(m, true, samples) == RunMeter(r, true, samples[1..]);
      ConstantReadingEnergy(r, samples[1..], smp);
      PresentStep(m, smp);
      RepeatedEnergy(m.energy, smp.busVoltage * Clamp(smp.current * 10.0) / 3600.0, |samples| - 1);
    }
  }

  /** One whole tick of a present sensor adds that sample's one-second energy. */
  lemma PresentStep(m: Meter, smp: Sample)
    ensures MeterStep(m, true, smp).energy
         == m.energy + smp.busVoltage * Clamp(smp.current * 10.0) / 3600.0
  {
  }

  /** One whole tick without a sensor keeps the held reading and adds its one-second energy. */
  lemma AbsentStep(m: Meter, smp: Sample)
    requires m.cur >= 0.0
    ensures var r := MeterStep(m, false, smp);
      r.vol == m.vol && r.cur == m.cur && r.energy == m.energy + m.vol * m.cur / 3600.0
  {
  }

  /** One more tick's energy `e` on top of `n` of them is `n + 1` of them. */
  lemma RepeatedEnergy(start: real, e: real, n: nat)
    ensures start + e + (n as real) * e == start + ((n + 1) as real) * e
  {
    assert ((n + 1) as real) * e == (n as real) * e + e;
  }

  /**
   * Without a sensor every tick reuses the held voltage and (clamped)
   * current, so N ticks add N times the held power's one-second energy.
   */
  lemma {:induction false} AbsentSensorHoldsReading(m: Meter, samples: seq<Sample>)
    requires m.cur >= 0.0
    ensures var r := RunMeter(m, false, samples);
      && r.vol == m.vol && r.cur == m.cur
      && r.energy == m.energy + (|samples| as real) * (m.vol * m.cur / 3600.0)
    decreases |samples|
  {
    if samples != [] {
      var r := MeterStep(m, false, samples[0]);
      assert RunMeter(m, false, samples) == RunMeter(r, false, samples[1..]);
      AbsentSensorHoldsReading(r, samples[1..]);
      AbsentStep(m, samples[0]);
      RepeatedEnergy(m.energy, m.vol * m.cur / 3600.0, |samples| - 1);
    }
  }

  /**
   * Without a sensor a zero reading stays zero and no energy is added: a
   * monitor whose start-up scan found no sensor (its meter starts at
   * `InitialMeter`) shows 0 V, 0 mA and 0 mWh for ever.
   */
  lemma AbsentSensorKeepsZeroReading(m: Meter, samples: seq<Sample>)
    requires m.vol == 0.0 && m.cur == 0.0
    ensures var r := RunMeter(m, false, samples);
      r.vol == 0.0 && r.cur == 0.0 && r.energy == m.energy
  {
    AbsentSensorHoldsReading(m, samples);
    var n := |samples| as real;
    assert n * (m.vol * m.cur / 3600.0) == 0.0;
  }

  /**
   * After KEY1, N ticks of a constant reading leave the elapsed counter at N
   * and the energy at exactly those ticks' N * V * I / 3600 mWh.
   */
  lemma ResetRestartsCounters(m: Meter, samples: seq<Sample>, smp: Sample)
    requires forall i :: 0 <= i < |samples| ==> samples[i] == smp
    ensures var r := RunMeter(KeysScanned(m, true), true, samples);
      && r.elapsed == |samples|
      && r.energy == (|samples| as real) * (smp.busVoltage * Clamp(smp.current * 10.0) / 3600.0)
  {
    TicksCountSeconds(KeysScanned(m, true), true, samples);
    ConstantReadingEnergy(KeysScanned(m, true), samples, smp);
  }

  /**
   * The firmware's globals as one object.  `sensorPresent` is the start-up
   * bus scan's verdict (`len(addr_list) == 1`), fixed for the process life.
   */
  class PowerMonitor {
    const sensorPresent: bool
    const rtc: Retry.RetryMachine
    const broker: Retry.RetryMachine
    var vol: real
    var cur: real
    var pwr: real
    var energy: real
    var elapsed: nat
    var stamp: string
    var snap: Snapshot

    ghost predicate Valid()
      reads this, rtc, broker
    {
      rtc != broker && rtc.Valid() && broker.Valid()
    }

    function State(): MonitorState
      reads this, rtc, broker
    {
      MonitorState(Meter(vol, cur, pwr, energy, elapsed), stamp, snap, rtc.State(), broker.State())
    }

    /** Start-up: `devicesFound` is the number of addresses the I2C scan returned. */
    constructor (devicesFound: nat)
      ensures sensorPresent == (devicesFound == 1)
      ensures Valid() && fresh(rtc) && fresh(broker)
      ensures State() == Initial
    {
      sensorPresent := devicesFound == 1;
      rtc := new Retry.RetryMachine();
      broker := new Retry.RetryMachine();
      vol, cur, pwr, energy := 0.0, 0.0, 0.0, 0.0;
      elapsed := 0;
      stamp := "";
      snap := InitialSnapshot;
    }

    /** `get_pwr_V_ma`. */
    method ReadPower(smp: Sample)
      modifies this
      ensures State() == old(State()).(meter := Sampled(old(State()).meter, sensorPresent, smp))
    {
      if sensorPresent {
        vol := smp.busVoltage;
        cur := smp.current * 10.0;
      }
      if cur < 0.0 {
        cur := 0.0;
      }
      pwr := (vol * cur) / 1000.0;
    }

    /** `get_pwr_mWh`. */
    method IntegrateEnergy()
      modifies this
      ensures State() == old(State()).(meter := Integrated(old(State()).meter))
    {
      energy := energy + (vol * cur) / 3600.0;
    }

    /** `tran_to_str`. */
    method RefreshStrings()
      modifies this
      ensures State() == old(State()).(snap := SnapshotOf(old(State()).meter))
    {
      snap := Snapshot(SecToStr(elapsed), Fixed(vol, 3), Fixed(cur, 1), Fixed(pwr, 3), Fixed(energy, 0));
    }

    /** `key_scan`: KEY1 (active low) resets time and energy; KEY2 re-joins Wi-Fi, which touches no state here. */
    method KeyScan(key1Down: bool, key2Down: bool)
      modifies this
      ensures State() == old(State()).(meter := KeysScanned(old(State()).meter, key1Down))
    {
      if key1Down {
        elapsed := 0;
        energy := 0.0;
      }
    }

    /**
     * `mqtt_check_msg`: when the link is up, the six publishes in order
     * inside one `try`; the first that raises ends the sequence.
     */
    method PublishSnapshot(link: bool, accepted: nat -> bool) returns (attempted: seq<Message>)
      ensures attempted == Publish(link, Messages(State()), accepted)
      ensures !link ==> attempted == []
      ensures link && accepted(0) && accepted(1) && accepted(2) && accepted(3) && accepted(4)
              ==> |attempted| == 6 && attempted[0].topic == "str_tim" && attempted[5].topic == "upt_tim_str"
    {
      attempted := [];
      if link {
        attempted := attempted + [Message("str_tim", Text(snap.tim))];
        if !accepted(0) { return; }
        attempted := attempted + [Message("str_vol_v", snap.vol)];
        if !accepted(1) { return; }
        attempted := attempted + [Message("str_vol_ma", snap.cur)];
        if !accepted(2) { return; }
        attempted := attempted + [Message("str_pwr_W", snap.pwr)];
        if !accepted(3) { return; }
        attempted := attempted + [Message("str_vol_mWh", snap.energy)];
        if !accepted(4) { return; }
        attempted := attempted + [Message("upt_tim_str", Text(stamp))];
      }
    }

    /** `timer_fun`: one tick, in the firmware's order. */
    method OnTimer(input: TickInput) returns (attempted: seq<Message>)
      requires Valid()
      modifies this, rtc, broker
      ensures Valid()
      ensures TickOutcome(State(), attempted) == Ticked(old(State()), sensorPresent, input)
    {
      ghost var s0 := State();
      Prepare(input);
      attempted := PublishSnapshot(input.linkAtPublish, input.accepted);
      CountSecond();
      TickedAfterPublish(s0, sensorPresent, input);
    }

    /** `timer_fun` up to the publish: measure, sync check, strings, broker check. */
    method Prepare(input: TickInput)
      requires Valid()
      modifies this, rtc, broker
      ensures Valid()
      ensures State() == Published(old(State()), sensorPresent, input)
    {
      ghost var s0 := State();
      Measure(input.now, input.sample);
      var _ := rtc.Check(input.linkAtSync, input.syncSucceeds);
      RefreshStrings();
      var _ := broker.Check(input.linkAtConnect, input.connectSucceeds);
    }

    /** The first three steps of a tick: `get_strftime`, `get_pwr_V_ma`, `get_pwr_mWh`. */
    method Measure(now: DateTuple, smp: Sample)
      modifies this
      ensures State() == old(State()).(meter := MeterTick(old(State()).meter, sensorPresent, smp), stamp := Strftime(now))
    {
      stamp := Strftime(now);
      ReadPower(smp);
      IntegrateEnergy();
    }

    /** `cum_tim_s += 1`, the last step of a tick. */
    method CountSecond()
      modifies this
      ensures State() == old(State()).(meter := old(State()).meter.(elapsed := old(State()).meter.elapsed + 1))
    {
      elapsed := elapsed + 1;
    }
  }
}
