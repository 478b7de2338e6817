# Power monitor core

A model of the once-per-second core of a MicroPython bus-power monitor
(`main.py`): an INA219 sensor read, energy and elapsed-time counters, two
keep-alive machines (NTP time sync and MQTT broker connection), the
display/publish strings and the six MQTT publishes of each tick.

- `format.dfy` covers Python's `str()` on integers, the zero-padding helper
  `i2s_l`, `sec_to_str` and the timestamp layout of `get_strftime`. Each
  formatter has a parser beside it (`ParseClock`, `ParseStamp`), and the
  lemmas prove that parsing undoes formatting.
- `register.dfy` covers `read_ina219_register`: two bytes from the bus,
  joined big-endian.
- `retry.dfy` holds the keep-alive machine that `check_rtc`/`upd_rtc` and
  `check_mqtt_con`/`con_mqtt_server` duplicate:
  - as values: `Step` for one tick, and `Run`/`Attempts` for a run of ticks;
  - as the class `RetryMachine`, whose `Check` is proved to follow `Step`.

  The monitor holds two instances of the class.
- `monitor.dfy` covers the module globals and the steps of `timer_fun`:
  - `get_pwr_V_ma`, `get_pwr_mWh`, the KEY1 branch of `key_scan`,
    `tran_to_str`, the two checks, `mqtt_check_msg` and `cum_tim_s += 1`;
  - first as functions on a `MonitorState` value (`Ticked` is one whole
    tick);
  - then as the class `PowerMonitor`, whose fields are the globals. Each
    method is proved to follow its function, and `OnTimer` runs the steps
    in the firmware's order.

Readings are Dafny `real`s rather than IEEE floats. Whatever the world
supplies is a parameter. This covers:
- the sensor sample;
- the calendar tuple from `time.localtime`;
- the link state each time it is consulted;
- whether an NTP sync or broker connect succeeds;
- which publishes raise.

Two behaviours of the code that the model keeps exactly:
- Publishing: one `try` wraps all six publishes, so the first send that raises ends the sequence and the remaining messages of that tick are not sent.
- The schedule of the two keep-alive machines:
  - the counter starts at 5, so the very first tick attempts at once if the link is up;
  - the counter restarts at 0 after every attempt, so a failing service is retried every third tick;
  - after a start-up outage of d link-down ticks, the first link-up tick attempts unless d % 40 is 34, 35 or 36; then the counter has wrapped past 39 and the attempt waits until it is back at 3.

## Model

| member | source | states |
|---|---|---|
| Format.NatToString | main.py:143 | `str(n)` of a non-negative integer is a non-empty run of decimal digits, and it starts with '0' only for 0 |
| Format.IntToString | main.py:143 | `str(i)` is non-empty and starts with a minus sign exactly when i is negative; the rest is the digits of its magnitude (`IntToStringValue`) |
| Format.NatToStringValue | main.py:143 | the digits of `str(n)` read back as n |
| Format.IntToStringValue | main.py:143 | `str(i)` of a negative value is a minus sign followed by the digits of -i; of a non-negative value, the digits of i |
| Format.Zeros | main.py:144 | `'0' * k` is `max(k, 0)` zeros, and empty when k is not positive |
| Format.PadLeft | main.py:142-144 | `i2s_l(val, length)` is `max(length, len(str(val)))` long (its content is stated by `PadLeftShape`) |
| Format.PadLeftShape | main.py:142-144 | `i2s_l(val, length)` is a run of '0' followed by `str(val)`, `max(length, len(str(val)))` long, so it never truncates |
| Format.PadLeftValue | main.py:142-144 | for a non-negative value the padded string is all digits and reads back as the value |
| Format.NatToStringWidth | main.py:143-144 | `str(n)` has at most k digits exactly when n < 10^k, i.e. when `i2s_l(n, k)` is exactly k wide |
| Format.PadLeftField | main.py:142-144 | a field below 10^k is padded to exactly k digits that read back as the field |
| Format.PadLeftNegativeExample | main.py:142-144 | a negative value keeps its sign inside the padding: `i2s_l(-5, 3)` is `"0-5"` |
| Format.ClockFields | main.py:217-219 | the minutes and seconds are below 60, and `h*3600 + m*60 + s == sec` |
| Format.SecToStr | main.py:216-220 | `sec_to_str` gives at least 8 characters (its round trip is `SecToStrRoundTrip`) |
| Format.SecToStrRoundTrip | main.py:216-220 | parsing `sec_to_str(sec)` as `H..H:MM:SS` (minutes and seconds below 60) gives back `sec` |
| Format.SecToStrWidth | main.py:216-220 | the string is at least 8 characters, and exactly 8 iff sec < 360000 (hours are not wrapped) |
| Format.SecToStrExample | main.py:216-220 | 3661 seconds is `"01:01:01"` |
| Format.Strftime | main.py:149-150 | `get_strftime` gives at least 19 characters, exactly 19 for fields that fit (`StrftimeRoundTrip`) |
| Format.StrftimeRoundTrip | main.py:149-150 | a tuple whose fields fit the layout is formatted in 19 characters that `ParseStamp` reads back as the same tuple |
| Format.StampLayout | main.py:150 | the six padded fields sit at fixed positions `YYYY-MM-DD HH:MM:SS` between the fixed separators |
| Register.Word | main.py:118 | `(raw[0] << 8) \| raw[1]` is `raw[0]*256 + raw[1]`, in [0, 65535] |
| Register.ShiftOrIsSum | main.py:118 | on 16 bits the shift-or of two bytes equals their base-256 sum |
| Register.ReadRegister | main.py:114-121 | a value exactly when the bus returned at least two bytes: the big-endian word, in [0, 65535]; otherwise None |
| Register.WordSplits | main.py:118 | the word determines both bytes: quotient and remainder by 256 |
| Retry.Advance | main.py:175 | `(loop + 1) % 40` is in [0, 40) |
| Retry.Step | main.py:173-179 | the counter stays in [0, 40); an attempt if and only if the advanced counter is >= 3, the flag is clear and the link is up; after an attempt the counter is 0 and the flag is the outcome; otherwise the advanced counter and unchanged flag (same code at 182-188) |
| Retry.FirstLinkUpTickAttempts | main.py:46-47 | from the start-up counter 5, the very first tick attempts at once if the link is up |
| Retry.QuietAfterAttempt | main.py:173-179 | after an attempt the next two ticks never attempt; the third does iff the flag is still clear and the link is up |
| Retry.FlagAbsorbing | main.py:289-298 | once the flag is set it stays set and no later tick attempts, whatever the link does |
| Retry.FailingServiceRetriedEveryThirdTick | main.py:182-188 | with the link up and the service failing, a counter c in 0..2 attempts on exactly the ticks k with `(k + c) % 3 == 2` |
| Retry.StartupRetrySchedule | main.py:44-47 | from start-up, a failing service with the link up is attempted on ticks 0, 3, 6, ... |
| Retry.AttemptWithinFourLinkUpTicks | main.py:173-179 | while the flag is clear, any four consecutive link-up ticks include an attempt |
| Retry.FourLinkUpSteps | main.py:175-176 | the step-level form of the above |
| Retry.WrappedCounterWaitsThreeTicks | main.py:175 | four and not three: from counter 39 the first three link-up ticks do not attempt |
| Retry.OutageRun | main.py:173-179 | while the link is down nothing is attempted and the counter advances modulo 40, so the next tick sees `(c + d) % 40` after d down ticks |
| Retry.FirstLinkUpAfterOutage | main.py:173-179 | from start-up (counter 5), d link-down ticks attempt nothing, and the following link-up tick attempts if and only if d % 40 is not 34, 35 or 36 |
| Retry.RetryMachine.constructor | main.py:44-47 | a new machine has counter 5 and a clear flag |
| Retry.RetryMachine.Attempt | main.py:289-298 | `upd_rtc` (and `con_mqtt_server`, main.py:301-309, which has the same shape) sets the flag to the outcome and leaves the counter alone |
| Retry.RetryMachine.Check | main.py:173-179 | the new counter and flag and the attempt decision are exactly `Step` of the old state; the counter stays in [0, 40) |
| Monitor.Sampled | main.py:154-163 | current >= 0 and power = V*I/1000; with the sensor the bus voltage and current*10 (clamped); without it the held voltage and held current (clamped); energy and time unchanged |
| Monitor.Integrated | main.py:166-169 | the energy grows by exactly V*I/3600 mWh of the present reading (one second of power); nothing else changes |
| Monitor.EnergyIsPowerForOneSecond | main.py:163-169 | the energy a tick adds is the tick's power in W held for one second, in mWh |
| Monitor.EnergyNeverDecreases | main.py:166-169 | with a non-negative bus voltage the energy never decreases on a tick |
| Monitor.NegativeCurrentClamped | main.py:160-163 | a negative current reading gives current 0 and power 0 |
| Monitor.AbsentSamplingIdempotent | main.py:157-163 | without a sensor, sampling twice equals sampling once |
| Monitor.MeterTick | main.py:320-321 | sampling then integrating: the power relation, energy grows by V*I/3600 of the new reading, the present/absent cases, time unchanged |
| Monitor.KeysScanned | main.py:266-273 | KEY1 pressed zeroes time and energy and leaves voltage, current and power untouched; KEY1 not pressed changes nothing |
| Monitor.SnapshotOf | main.py:205-211 | the time string parses back to the elapsed seconds; voltage, current, power and energy are the readings printed with 3, 1, 3 and 0 decimals |
| Monitor.Messages | main.py:194-199 | six messages in the firmware's order, each topic carrying its own snapshot string (time, voltage, current, power, energy) and the timestamp last |
| Monitor.SentCount | main.py:193-201 | sends up to and including the first that raises: all before the last attempted one were accepted, and an early stop means the last attempted one raised |
| Monitor.Publish | main.py:191-201 | nothing when the link is down; otherwise a prefix of the six messages; a failure at send k stops after k; all accepted means all six sent; a short sequence ends with the failing send |
| Monitor.Published | main.py:319-326 | the state `mqtt_check_msg` sees: sampled and integrated meter, current stamp, the snapshot is `SnapshotOf` the new meter, its time string reading the pre-increment seconds, each machine one `Step` on |
| Monitor.TickSteps | main.py:317-328 | one tick: meter sampled, integrated and one second older; the stamp is the current time; the snapshot shows the time before the increment and the new energy; each machine takes one step; the sends are the publish of the new state's messages |
| Monitor.Ticked | main.py:317-328 | one tick makes the meter one second older and sends at most six messages, none when the link is down (each part is stated by `TickSteps`) |
| Monitor.TickedMeter | main.py:320-328 | the meter after a whole tick is `MeterStep`: sample, integrate, one second older |
| Monitor.SamplesOf | main.py:320 | the samples of a run of ticks, one per tick in order |
| Monitor.RunAgrees | main.py:317-328 | the meter after any run of whole ticks is `RunMeter` of the run's samples, so the lemmas about `RunMeter` below hold of `timer_fun` |
| Monitor.TicksCountSeconds | main.py:328 | every tick adds exactly one second |
| Monitor.ConstantReadingEnergy | main.py:320-321 | N ticks of a constant present reading add N*V*I/3600 mWh |
| Monitor.PresentStep | main.py:320-321 | one tick of a present sensor adds that sample's V*I/3600 mWh |
| Monitor.AbsentSensorHoldsReading | main.py:157-163 | without a sensor the held voltage and current persist, and N ticks add N times their one-second energy |
| Monitor.AbsentStep | main.py:157-169 | one tick without a sensor keeps the held (non-negative) reading and adds its V*I/3600 mWh |
| Monitor.AbsentSensorKeepsZeroReading | main.py:106-107 | a monitor whose start-up scan found no sensor keeps 0 V, 0 mA and adds no energy |
| Monitor.ResetRestartsCounters | main.py:269-271 | after KEY1, N constant ticks leave the time at N and the energy at exactly their N*V*I/3600 |
| Monitor.PowerMonitor.constructor | main.py:37-54 | the globals' initial values; the sensor is present iff the bus scan found exactly one device |
| Monitor.PowerMonitor.ReadPower | main.py:154-163 | updates the fields exactly as `Sampled` |
| Monitor.PowerMonitor.IntegrateEnergy | main.py:166-169 | updates the fields exactly as `Integrated` |
| Monitor.PowerMonitor.RefreshStrings | main.py:205-211 | the snapshot becomes `SnapshotOf` the meter, nothing else changes |
| Monitor.PowerMonitor.KeyScan | main.py:266-273 | updates the fields exactly as `KeysScanned` |
| Monitor.PowerMonitor.PublishSnapshot | main.py:191-201 | the sends are `Publish` of the current messages; none when the link is down; six ending with `upt_tim_str` when the first five are accepted |
| Monitor.PowerMonitor.Measure | main.py:319-321 | stamp, sample and integrate, as `MeterTick` and `Strftime` |
| Monitor.PowerMonitor.Prepare | main.py:319-326 | the state becomes `Published` of the old one |
| Monitor.PowerMonitor.CountSecond | main.py:328 | only the elapsed seconds grow by one |
| Monitor.PowerMonitor.OnTimer | main.py:317-328 | the new state and the sends are exactly `Ticked` of the old state; both machines stay valid |

## Left out

- Hardware setup is not modelled: the pins, SPI/I2C buses, the display, the LED toggle in `timer_fun` and the INA219 calibration. None of it changes the modelled state.
- The LCD functions `init_msg` and `show_msg` are not modelled. They are output only, and their field padding is screen layout.
- `con_wifi` (KEY2) is not modelled. It is network association with a sleep loop. `PowerMonitor.KeyScan` accepts the KEY2 level but nothing in the state depends on it.
- The NTP client, the MQTT client and the Wi-Fi link are not called. Their outcomes are parameters of each tick, and `accepted(k)` says whether the k-th publish returns normally.
- `time.time()` and `time.localtime(t + 3600)` are not modelled. The calendar tuple is a parameter, and only its formatting is modelled.
- The `"{:.Nf}"` float formatting in `tran_to_str` is not modelled. A formatted number is kept as `Fixed(value, places)`.
- Arithmetic is over `real`, so IEEE-754 rounding is not captured.
- The INA219 driver's own register reads are not modelled. `bus_voltage` and `current` are a `Sample` parameter.
- `real_time_register_read` (debug printing) is not modelled.
- The `main` loop and the timer's preemption of it are not modelled. Each method is one atomic step.
- The exception paths of the sensor driver inside `get_pwr_V_ma` are not modelled. The code has no handler there.
