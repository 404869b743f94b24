/** The AC command engine: the global state `ac3F` and `offDeadlineMs`, the
    `/api/ac3` handler over already-parsed arguments, the status read-out
    and the off-timer check polled by `loop()`. Each handler is specified by
    a function on the state (Api, Tick) and the properties the firmware
    relies on are lemmas about those functions. */
module Controller {
  import opened Units
  import opened IrLed
  import opened AcState
  import opened Daikin
  import opened Waveform
  import opened Status
  import Light

  const MS_PER_MINUTE: int := 60000

  /** 2^63: `(int64_t)d >= 0` holds exactly for d below it */
  const I64_LIMIT: int := 0x8000_0000_0000_0000

  /** The arguments of one `/api/ac3` request, already parsed; None when the
      argument is absent */
  datatype Args = Args(
    mode: Option<string>,
    tempStep: Option<real>,
    fan: Option<string>,
    power: Option<i32>,
    timerMin: Option<i32>,
    timerCancel: bool)

  /** Which answer the handler gave */
  datatype Ack =
    | ModeSent | TempSent | FanSent | PowerOffSent
    | TimerSet | TimerRejected | TimerCancelled | BadRequest

  function StatusCode(a: Ack): (code: int)
    ensures code == 400 <==> a == TimerRejected || a == BadRequest
    ensures code == 200 || code == 400
  {
    if a == TimerRejected || a == BadRequest then 400 else 200
  }

  /** `ac3F` and `offDeadlineMs`; a deadline of 0 means disarmed */
  datatype Globals = Globals(ac: ACState, deadline: u64)

  /** The state after an operation and the AC frames it transmitted, in order */
  datatype Step = Step(after: Globals, frames: seq<Frame>)

  datatype Reply = Reply(step: Step, ack: Ack)

  const BOOT: Globals := Globals(INITIAL, 0)

  /** The transmissions of a list of frames: each as its waveform at 38 kHz */
  function AcSends(frames: seq<Frame>): (t: seq<Event>)
    ensures |t| == |frames|
    ensures forall i :: 0 <= i < |frames| ==> t[i] == Send(Wave(frames[i]), AC_KHZ)
  {
    if frames == [] then [] else [Send(Wave(frames[0]), AC_KHZ)] + AcSends(frames[1..])
  }

  // ---------------------------------------------------------------------------
  // The specification of the handlers

  /** `buildAndSendRun`: no frame when the unit is off */
  function RunSends(st: ACState): seq<Frame> {
    if st.powerOn then [RunFrame(st)] else []
  }

  /** `sendOffNow`: the OFF template as it is, then off and disarmed */
  function OffNow(g: Globals): (r: Step)
    ensures !r.after.ac.powerOn && r.after.deadline == 0
    ensures r.after.ac.mode == g.ac.mode && r.after.ac.tempX2 == g.ac.tempX2 && r.after.ac.fanHex == g.ac.fanHex
    ensures |r.frames| == 1 && ChecksumsValid(r.frames[0])
    ensures AcInv(g.ac) ==> AcInv(r.after.ac)
  {
    OffTemplateChecksums();
    Step(Globals(g.ac.(powerOn := false), 0), [OFF_TEMPLATE])
  }

  /** The mode branch: a known token sets the mode and its default
      temperature; any token, known or not, powers on and transmits */
  function ModeCommand(st: ACState, m: string): ACState {
    var chosen :=
      if m == "heat" then st.(mode := Heat, tempX2 := HEAT_DEFAULT_X2)
      else if m == "cool" then st.(mode := Cool, tempX2 := COOL_DEFAULT_X2)
      else st;
    var on := chosen.(powerOn := true, fanHex := if chosen.fanHex == 0 then FAN_AUTO else chosen.fanHex);
    on.(tempX2 := ClampTempX2(on.tempX2))
  }

  /** The tempStep branch: one half-degree up for a positive step, down
      otherwise, then clamped */
  function TempCommand(st: ACState, step: real): ACState {
    st.(tempX2 := ClampTempX2(st.tempX2 + if step > 0.0 then 1 else -1))
  }

  /** The fan branch: a known token sets the code, any other keeps it */
  function FanCommand(st: ACState, tok: string): ACState {
    var code := FanToken(tok);
    if code.Some? then st.(fanHex := code.value) else st
  }

  /** The deadline `timerMin` arms: now plus the minutes, in wrapping 64-bit
      arithmetic */
  function ArmedDeadline(now: u64, mins: int): (r: u64)
    requires mins > 0
    ensures (r - now) % U64_MOD == (mins * MS_PER_MINUTE) % U64_MOD
  {
    ModSubCongruent(now + mins * MS_PER_MINUTE, now);
    (now + mins * MS_PER_MINUTE) % U64_MOD
  }

  /** A branch that changes the AC settings and then retransmits them */
  function Settle(g: Globals, st: ACState, ack: Ack): Reply {
    Reply(Step(g.(ac := st), RunSends(st)), ack)
  }

  /** The timerMin branch */
  function TimerCommand(g: Globals, mins: int, now: u64): Reply {
    if mins <= 0 then Reply(Step(g, []), TimerRejected)
    else Reply(Step(g.(deadline := ArmedDeadline(now, mins)), []), TimerSet)
  }

  /** `handleAC3Api`: the first argument present decides, in the order mode,
      tempStep, fan, power (only when it is 0), timerMin, timerCancel */
  function Api(g: Globals, a: Args, now: u64): (r: Reply)
    ensures r.ack == BadRequest <==>
      a.mode.None? && a.tempStep.None? && a.fan.None? && a.power != Some(0) && a.timerMin.None? && !a.timerCancel
    ensures r.step.frames != [] <==>
      a.mode.Some? || (if a.tempStep.Some? || a.fan.Some? then g.ac.powerOn else a.power == Some(0))
    ensures r.step.after.deadline != g.deadline ==> r.ack in {PowerOffSent, TimerSet, TimerCancelled}
  {
    if a.mode.Some? then Settle(g, ModeCommand(g.ac, a.mode.value), ModeSent)
    else if a.tempStep.Some? then Settle(g, TempCommand(g.ac, a.tempStep.value), TempSent)
    else if a.fan.Some? then Settle(g, FanCommand(g.ac, a.fan.value), FanSent)
    else if a.power == Some(0) then Reply(OffNow(g), PowerOffSent)
    else if a.timerMin.Some? then TimerCommand(g, a.timerMin.value as int, now)
    else if a.timerCancel then Reply(Step(g.(deadline := 0), []), TimerCancelled)
    else Reply(Step(g, []), BadRequest)
  }

  /** `(int64_t)(now - deadline)`: the 64-bit difference read as signed */
  function SignedDiff(now: u64, deadline: u64): (d: int)
    ensures -I64_LIMIT <= d < I64_LIMIT
    ensures (d - (now - deadline)) % U64_MOD == 0
  {
    var w := (now - deadline) % U64_MOD;
    if w < I64_LIMIT then w else w - U64_MOD
  }

  /** Whether the polled tick fires */
  predicate Due(deadline: u64, now: u64)
    ensures Due(deadline, now) <==> deadline != 0 && (now - deadline) % U64_MOD < I64_LIMIT
  {
    deadline != 0 && SignedDiff(now, deadline) >= 0
  }

  /** The timer check of `loop()` */
  function Tick(g: Globals, now: u64): (r: Step)
    ensures r.frames != [] <==> Due(g.deadline, now)
    ensures r.frames == [] || r.frames == [OFF_TEMPLATE]
    ensures r.after.ac == g.ac.(powerOn := r.after.ac.powerOn)
    ensures !Due(g.deadline, now) ==> r == Step(g, [])
  {
    if Due(g.deadline, now) then OffNow(g) else Step(g, [])
  }

  // ---------------------------------------------------------------------------
  // The firmware's globals and the handlers that change them

  class Firmware {
    var ac: ACState
    var offDeadlineMs: u64
    const raw: RawBuffer
    const led: Led

    ghost predicate Valid()
      reads this, raw
    {
      raw.Valid() && AcInv(ac)
    }

    ghost function State(): Globals
      reads this
    {
      Globals(ac, offDeadlineMs)
    }

    /** Start-up: `ac3F = { false, 55, MODE_HEAT, 0xA0 }`, timer disarmed */
    constructor ()
      ensures Valid() && State() == BOOT
      ensures fresh(raw) && fresh(raw.buf) && fresh(led) && led.log == []
    {
      ac := INITIAL;
      offDeadlineMs := 0;
      raw := new RawBuffer();
      led := new Led();
    }

    /** `send39BytesRawOnce`: encode into the buffer and send it at 38 kHz */
    method Send39BytesRawOnce(data: Frame)
      requires raw.Valid()
      modifies raw, raw.buf, led
      ensures raw.Valid()
      ensures led.log == old(led.log) + [Send(Wave(data), AC_KHZ)]
    {
      raw.Encode(data);
      led.SendRaw(raw.buf[..raw.idx], AC_KHZ);
    }

    /** `clampTemp(ac3F)` */
    method ClampTemp()
      modifies this
      ensures ac == old(ac).(tempX2 := ClampTempX2(old(ac.tempX2)))
      ensures offDeadlineMs == old(offDeadlineMs)
    {
      if ac.tempX2 < TEMP_X2_MIN { ac := ac.(tempX2 := TEMP_X2_MIN); }
      if ac.tempX2 > TEMP_X2_MAX { ac := ac.(tempX2 := TEMP_X2_MAX); }
    }

    /** `buildAndSendRun(ac3F)` */
    method BuildAndSendRun()
      requires raw.Valid()
      modifies raw, raw.buf, led
      ensures raw.Valid()
      ensures led.log == old(led.log) + AcSends(RunSends(ac))
    {
      if !ac.powerOn {
        return;
      }
      var frame := BuildRunFrame(ac);
      Send39BytesRawOnce(frame);
    }

    /** `sendOffNow` */
    method SendOffNow()
      requires raw.Valid()
      modifies this, raw, raw.buf, led
      ensures raw.Valid()
      ensures State() == OffNow(old(State())).after
      ensures led.log == old(led.log) + AcSends(OffNow(old(State())).frames)
    {
      Send39BytesRawOnce(OFF_TEMPLATE);
      ac := ac.(powerOn := false);
      offDeadlineMs := 0;
    }

    /** The mode branch of `handleAC3Api` */
    method ApplyMode(m: string)
      requires Valid()
      modifies this, raw, raw.buf, led
      ensures Valid()
      ensures State() == Settle(old(State()), ModeCommand(old(ac), m), ModeSent).step.after
      ensures led.log == old(led.log) + AcSends(RunSends(ModeCommand(old(ac), m)))
    {
      if m == "heat" {
        ac := ac.(mode := Heat, tempX2 := HEAT_DEFAULT_X2);
      } else if m == "cool" {
        ac := ac.(mode := Cool, tempX2 := COOL_DEFAULT_X2);
      }
      ac := ac.(powerOn := true);
      if ac.fanHex == 0 {
        ac := ac.(fanHex := FAN_AUTO);
      }
      ClampTemp();
      ModeCommandValid(old(ac), m);
      BuildAndSendRun();
    }

    /** The tempStep branch of `handleAC3Api` */
    method ApplyTempStep(step: real)
      requires Valid()
      modifies this, raw, raw.buf, led
      ensures Valid()
      ensures State() == Settle(old(State()), TempCommand(old(ac), step), TempSent).step.after
      ensures led.log == old(led.log) + AcSends(RunSends(TempCommand(old(ac), step)))
    {
      ac := ac.(tempX2 := ac.tempX2 + if step > 0.0 then 1 else -1);
      ClampTemp();
      if ac.powerOn {
        BuildAndSendRun();
      }
    }

    /** The fan branch of `handleAC3Api` */
    method ApplyFan(f: string)
      requires Valid()
      modifies this, raw, raw.buf, led
      ensures Valid()
      ensures State() == Settle(old(State()), FanCommand(old(ac), f), FanSent).step.after
      ensures led.log == old(led.log) + AcSends(RunSends(FanCommand(old(ac), f)))
    {
      SetFan(f);
      if ac.powerOn {
        BuildAndSendRun();
      }
    }

    /** The token-to-code chain of the fan branch */
    method SetFan(f: string)
      modifies this
      ensures ac == FanCommand(old(ac), f)
      ensures offDeadlineMs == old(offDeadlineMs)
    {
      if f == "auto" { ac := ac.(fanHex := FAN_AUTO); }
      else if f == "quiet" { ac := ac.(fanHex := FAN_QUIET); }
      else if f == "1" { ac := ac.(fanHex := FAN_LV1); }
      else if f == "2" { ac := ac.(fanHex := FAN_LV2); }
      else if f == "3" { ac := ac.(fanHex := FAN_LV3); }
      else if f == "4" { ac := ac.(fanHex := FAN_LV4); }
      else if f == "5" { ac := ac.(fanHex := FAN_LV5); }
    }

    /** The timerMin branch of `handleAC3Api` */
    method ApplyTimer(mins: i32, now: u64) returns (ack: Ack)
      modifies this
      ensures State() == TimerCommand(old(State()), mins as int, now).step.after
      ensures ack == TimerCommand(old(State()), mins as int, now).ack
      ensures ac == old(ac)
    {
      if mins <= 0 {
        return TimerRejected;
      }
      offDeadlineMs := (now + mins as int * MS_PER_MINUTE) % U64_MOD;
      return TimerSet;
    }

    /** `handleAC3Api`, returning which answer it sent */
    method HandleAc3Api(a: Args, now: u64) returns (ack: Ack)
      requires Valid()
      modifies this, raw, raw.buf, led
      ensures Valid()
      ensures State() == Api(old(State()), a, now).step.after
      ensures ack == Api(old(State()), a, now).ack
      ensures led.log == old(led.log) + AcSends(Api(old(State()), a, now).step.frames)
    {
      if a.mode.Some? {
        ApplyMode(a.mode.value);
        return ModeSent;
      }

      if a.tempStep.Some? {
        ApplyTempStep(a.tempStep.value);
        return TempSent;
      }

      if a.fan.Some? {
        ApplyFan(a.fan.value);
        return FanSent;
      }

      if a.power.Some? {
        var p := a.power.value;
        if p == 0 {
          SendOffNow();
          return PowerOffSent;
        }
      }

      if a.timerMin.Some? {
        ack := ApplyTimer(a.timerMin.value, now);
        return;
      }

      if a.timerCancel {
        offDeadlineMs := 0;
        return TimerCancelled;
      }

      return BadRequest;
    }

    /** `handleLightApi`: the light frames go out through the same LED, so
        they land in the same log as the AC frames */
    method LightApi(cmd: Option<string>) returns (status: int)
      modifies led
      ensures status == (if Light.SceneOf(cmd).Some? then 200 else 400)
      ensures led.log == old(led.log) + (if Light.SceneOf(cmd).Some? then Light.SceneTrace(Light.SceneOf(cmd).value) else [])
    {
      status := Light.HandleLightApi(led, cmd);
    }

    /** `handleAC3State`, without the JSON text */
    method Ac3State(now: u64) returns (r: AcStatus)
      ensures r == StatusOf(ac, offDeadlineMs, now)
    {
      var left := "--";
      if offDeadlineMs != 0 {
        left := if offDeadlineMs > now then NatToString((offDeadlineMs - now) / 1000) + "s" else "0s";
      }
      r := AcStatus(ac.powerOn, if ac.mode == Heat then "heat" else "cool", TempString(ac.tempX2),
                    FanName(ac.fanHex), left);
    }

    /** The timer check of `loop()` */
    method Loop(now: u64)
      requires Valid()
      modifies this, raw, raw.buf, led
      ensures Valid()
      ensures State() == Tick(old(State()), now).after
      ensures led.log == old(led.log) + AcSends(Tick(old(State()), now).frames)
    {
      if offDeadlineMs != 0 {
        var d := (now - offDeadlineMs) % U64_MOD;
        var signed := if d < I64_LIMIT then d else d - U64_MOD;
        if signed >= 0 {
          SendOffNow();
        }
      }
    }
  }

  // ---------------------------------------------------------------------------
  // Properties of the handlers

  /** Every handler keeps the temperature in [36, 64] and the fan code one of
      the seven known codes */
  lemma ApiKeepsInvariant(g: Globals, a: Args, now: u64)
    requires AcInv(g.ac)
    ensures AcInv(Api(g, a, now).step.after.ac)
  {
  }

  lemma ModeCommandValid(st: ACState, m: string)
    requires AcInv(st)
    ensures AcInv(ModeCommand(st, m))
  {
  }

  lemma TickKeepsInvariant(g: Globals, now: u64)
    requires AcInv(g.ac)
    ensures AcInv(Tick(g, now).after.ac)
  {
  }

  /** The fan code is never 0 in a valid state, so the mode branch's
      `if (fanHex == 0)` repair never fires after start-up */
  lemma ValidFanNonZero(st: ACState)
    requires AcInv(st)
    ensures st.fanHex != 0
  {
  }

  /** A mode request always powers the unit on and transmits one run frame;
      heat and cool reset the temperature to 27.5 and 24.0 degrees, any other
      token leaves mode, temperature and fan as they were */
  lemma ModeRequest(g: Globals, a: Args, now: u64)
    requires AcInv(g.ac) && a.mode.Some?
    ensures var r := Api(g, a, now);
      && r.ack == ModeSent
      && r.step.after.ac.powerOn
      && r.step.after.deadline == g.deadline
      && r.step.frames == [RunFrame(r.step.after.ac)]
      && r.step.after.ac.fanHex == g.ac.fanHex
      && (a.mode.value == "heat" ==> r.step.after.ac.mode == Heat && r.step.after.ac.tempX2 == HEAT_DEFAULT_X2)
      && (a.mode.value == "cool" ==> r.step.after.ac.mode == Cool && r.step.after.ac.tempX2 == COOL_DEFAULT_X2)
      && (a.mode.value != "heat" && a.mode.value != "cool" ==>
            r.step.after.ac == g.ac.(powerOn := true))
  {
    ValidFanNonZero(g.ac);
  }

  /** A tempStep request moves the temperature half a degree towards the
      step's sign, stays in [18.0, 32.0], and transmits only when the unit is
      on; nothing else changes */
  lemma TempStepRequest(g: Globals, a: Args, now: u64)
    requires AcInv(g.ac) && a.mode.None? && a.tempStep.Some?
    ensures var r := Api(g, a, now);
      var t := r.step.after.ac.tempX2;
      && r.ack == TempSent
      && r.step.after == g.(ac := g.ac.(tempX2 := t))
      && TEMP_X2_MIN <= t <= TEMP_X2_MAX
      && (a.tempStep.value > 0.0 ==> t == if g.ac.tempX2 < TEMP_X2_MAX then g.ac.tempX2 + 1 else TEMP_X2_MAX)
      && (a.tempStep.value <= 0.0 ==> t == if g.ac.tempX2 > TEMP_X2_MIN then g.ac.tempX2 - 1 else TEMP_X2_MIN)
      && (r.step.frames != [] <==> g.ac.powerOn)
      && r.step.frames == (if g.ac.powerOn then [RunFrame(r.step.after.ac)] else [])
  {
  }

  /** A fan request with a known token sets that code; an unknown token keeps
      the state; either way the settings are retransmitted when the unit is on */
  lemma FanRequest(g: Globals, a: Args, now: u64)
    requires a.mode.None? && a.tempStep.None? && a.fan.Some?
    ensures var r := Api(g, a, now);
      && r.ack == FanSent
      && (FanToken(a.fan.value).Some? ==> r.step.after == g.(ac := g.ac.(fanHex := FanToken(a.fan.value).value)))
      && (FanToken(a.fan.value).None? ==> r.step.after == g)
      && r.step.frames == (if g.ac.powerOn then [RunFrame(r.step.after.ac)] else [])
  {
  }

  /** power=0 sends the OFF template, turns the unit off and disarms the
      timer; any other power value is ignored and the later arguments decide */
  lemma PowerRequest(g: Globals, a: Args, now: u64)
    requires a.mode.None? && a.tempStep.None? && a.fan.None?
    ensures a.power == Some(0) ==>
      Api(g, a, now) == Reply(Step(Globals(g.ac.(powerOn := false), 0), [OFF_TEMPLATE]), PowerOffSent)
    ensures a.power != Some(0) ==> Api(g, a, now) == Api(g, a.(power := None), now)
  {
  }

  /** timerMin <= 0 is refused with the state untouched; a positive value
      arms the deadline; timerCancel disarms; no timer request transmits */
  lemma TimerRequest(g: Globals, a: Args, now: u64)
    requires a.mode.None? && a.tempStep.None? && a.fan.None? && a.power != Some(0)
    ensures var r := Api(g, a, now);
      && r.step.frames == []
      && r.step.after.ac == g.ac
      && (a.timerMin.Some? && a.timerMin.value <= 0 ==> r.step.after == g && StatusCode(r.ack) == 400)
      && (a.timerMin.Some? && a.timerMin.value > 0 ==>
            r.step.after.deadline == ArmedDeadline(now, a.timerMin.value as int) && r.ack == TimerSet)
      && (a.timerMin.None? && a.timerCancel ==> r.step.after.deadline == 0 && r.ack == TimerCancelled)
      && (a.timerMin.None? && !a.timerCancel ==> r.step.after == g && r.ack == BadRequest)
  {
  }

  /** With a 32-bit millisecond clock the armed deadline does not wrap: it
      is exactly now plus the minutes, and never the disarmed value 0 */
  lemma ArmedDeadlineExact(now: u64, mins: i32)
    requires now < 0x1_0000_0000 && mins > 0
    ensures ArmedDeadline(now, mins as int) == now + mins as int * MS_PER_MINUTE
    ensures ArmedDeadline(now, mins as int) != 0
  {
    assert mins as int * MS_PER_MINUTE < 0x8000_0000 * MS_PER_MINUTE;
  }

  // ---------------------------------------------------------------------------
  // The off-timer

  /** Subtracting residues is subtracting the numbers, modulo 2^64 */
  lemma ModSubCongruent(a: int, b: int)
    ensures ((a % U64_MOD) - (b % U64_MOD)) % U64_MOD == (a - b) % U64_MOD
  {
    var qa, qb := a / U64_MOD, b / U64_MOD;
    var q, r := (a - b) / U64_MOD, (a - b) % U64_MOD;
    assert a - b == q * U64_MOD + r;
    assert (a % U64_MOD) - (b % U64_MOD) == (a - b) - (qa - qb) * U64_MOD;
    assert (q - (qa - qb)) * U64_MOD == q * U64_MOD - (qa - qb) * U64_MOD;
    DivModUnique((a % U64_MOD) - (b % U64_MOD), U64_MOD, q - (qa - qb), r);
  }

  /** A deadline armed `dur` milliseconds after t is due at t + e exactly
      when e >= dur, across wrap-around of the 64-bit clock, for any
      durations below 2^63 */
  lemma DueAfter(t: u64, dur: nat, e: nat)
    requires dur < I64_LIMIT && e < I64_LIMIT
    requires (t + dur) % U64_MOD != 0
    ensures Due((t + dur) % U64_MOD, (t + e) % U64_MOD) <==> e >= dur
  {
    var d, now := (t + dur) % U64_MOD, (t + e) % U64_MOD;
    ModSubCongruent(t + e, t + dur);
    assert (now - d) % U64_MOD == (e - dur) % U64_MOD;
    if e >= dur {
      DivModUnique(e - dur, U64_MOD, 0, e - dur);
      assert SignedDiff(now, d) == e - dur;
    } else {
      DivModUnique(e - dur, U64_MOD, -1, e - dur + U64_MOD);
      assert SignedDiff(now, d) == e - dur;
    }
  }

  /** A timer armed for `mins` minutes at t fires on the first poll at least
      that many milliseconds later, and not before */
  lemma TimerFiresAfterMinutes(g: Globals, t: u64, mins: i32, e: nat)
    requires mins > 0 && e < I64_LIMIT
    requires ArmedDeadline(t, mins as int) != 0
    ensures var armed := g.(deadline := ArmedDeadline(t, mins as int));
      Tick(armed, (t + e) % U64_MOD).frames != [] <==> e >= mins as int * MS_PER_MINUTE
  {
    var dur := mins as int * MS_PER_MINUTE;
    assert dur < 0x8000_0000 * MS_PER_MINUTE;
    DueAfter(t, dur, e);
  }

  /** A deadline one millisecond ahead is due a millisecond later, and not
      yet */
  lemma DueNextMillisecond()
    ensures !Due(1001, 1000) && Due(1001, 1001) && Due(1001, 1002)
  {
    DueAfter(1000, 1, 0);
    DueAfter(1000, 1, 1);
    DueAfter(1000, 1, 2);
  }

  /** When the timer fires it sends the OFF template and disarms itself, so
      later polls send nothing until it is armed again; a disarmed timer
      never fires */
  lemma TickFiresOnce(g: Globals, now: u64, later: u64)
    ensures g.deadline == 0 ==> Tick(g, now) == Step(g, [])
    ensures Due(g.deadline, now) ==>
      && Tick(g, now).frames == [OFF_TEMPLATE]
      && !Tick(g, now).after.ac.powerOn
      && Tick(Tick(g, now).after, later) == Step(Tick(g, now).after, [])
  {
  }

  // ---------------------------------------------------------------------------
  // Any run of the firmware

  /** One event the firmware reacts to: a `/api/ac3` request or a pass of
      `loop()` that checks the timer, each at some clock value */
  datatype Input = Request(args: Args, at: u64) | Poll(at: u64)

  function Feed(g: Globals, i: Input): Step {
    match i
    case Request(a, at) => Api(g, a, at).step
    case Poll(at) => Tick(g, at)
  }

  /** The state after a sequence of inputs and every AC frame sent on the way */
  function Run(g: Globals, inputs: seq<Input>): Step
    decreases |inputs|
  {
    if inputs == [] then Step(g, [])
    else
      var first := Feed(g, inputs[0]);
      var rest := Run(first.after, inputs[1..]);
      Step(rest.after, first.frames + rest.frames)
  }

  /** What an AC frame on the air can be: the OFF template, or a run frame
      whose temperature and fan bytes are in range; checksums always hold */
  predicate WellFormed(f: Frame) {
    && ChecksumsValid(f)
    && (f == OFF_TEMPLATE || (TEMP_X2_MIN <= f[TEMP_OFFSET] <= TEMP_X2_MAX && f[FAN_OFFSET] in FAN_CODES))
  }

  lemma FeedSendsWellFormed(g: Globals, i: Input)
    requires AcInv(g.ac)
    ensures AcInv(Feed(g, i).after.ac)
    ensures forall k :: 0 <= k < |Feed(g, i).frames| ==> WellFormed(Feed(g, i).frames[k])
  {
    OffTemplateChecksums();
    match i
    case Request(a, at) => ApiKeepsInvariant(g, a, at);
    case Poll(at) => TickKeepsInvariant(g, at);
  }

  /** From any valid state — in particular from start-up — every sequence of
      requests and polls keeps the settings valid and sends only well-formed
      frames */
  lemma {:induction false} RunKeepsInvariant(g: Globals, inputs: seq<Input>)
    requires AcInv(g.ac)
    ensures AcInv(Run(g, inputs).after.ac)
    ensures forall k :: 0 <= k < |Run(g, inputs).frames| ==> WellFormed(Run(g, inputs).frames[k])
    decreases |inputs|
  {
    if inputs != [] {
      var first := Feed(g, inputs[0]);
      FeedSendsWellFormed(g, inputs[0]);
      RunKeepsInvariant(first.after, inputs[1..]);
      var rest := Run(first.after, inputs[1..]);
      assert Run(g, inputs).frames == first.frames + rest.frames;
    }
  }

  lemma BootRunsWellFormed(inputs: seq<Input>)
    ensures AcInv(Run(BOOT, inputs).after.ac)
    ensures forall k :: 0 <= k < |Run(BOOT, inputs).frames| ==> WellFormed(Run(BOOT, inputs).frames[k])
  {
    InitialStateValid();
    RunKeepsInvariant(BOOT, inputs);
  }

  /** Polls of `loop()` at which the timer is not due change nothing and
      send nothing: a run that starts with them goes on as if they had not
      happened */
  lemma {:induction false} QuietPollsSkip(g: Globals, early: seq<Input>, rest: seq<Input>)
    requires forall k :: 0 <= k < |early| ==> early[k].Poll? && !Due(g.deadline, early[k].at)
    ensures Run(g, early + rest) == Run(g, rest)
    decreases |early|
  {
    if early != [] {
      var inputs := early + rest;
      assert inputs[0] == early[0];
      assert inputs[1..] == early[1..] + rest;
      assert Feed(g, inputs[0]) == Step(g, []);
      assert forall k :: 0 <= k < |early[1..]| ==> early[1..][k] == early[k + 1];
      QuietPollsSkip(g, early[1..], rest);
      var tail := Run(g, rest);
      assert Run(g, inputs) == Step(tail.after, [] + tail.frames);
      assert [] + tail.frames == tail.frames;
    } else {
      assert early + rest == rest;
    }
  }

  /** Polls made less than `dur` milliseconds after t are not due for the
      deadline `dur` milliseconds after t */
  lemma EarlyPollsNotDue(t: u64, dur: nat, early: seq<Input>, elapsed: seq<nat>)
    requires dur < I64_LIMIT && (t + dur) % U64_MOD != 0
    requires |early| == |elapsed|
    requires forall k :: 0 <= k < |early| ==> elapsed[k] < dur && early[k] == Poll((t + elapsed[k]) % U64_MOD)
    ensures forall k :: 0 <= k < |early| ==> early[k].Poll? && !Due((t + dur) % U64_MOD, early[k].at)
  {
    forall k | 0 <= k < |early|
      ensures early[k].Poll? && !Due((t + dur) % U64_MOD, early[k].at)
    {
      DueAfter(t, dur, elapsed[k]);
    }
  }

  /** A single poll at which the timer is due is the firing of `sendOffNow` */
  lemma DuePollFires(g: Globals, now: u64)
    requires Due(g.deadline, now)
    ensures Run(g, [Poll(now)]) == OffNow(g)
  {
    var last := [Poll(now)];
    assert last[1..] == [];
    assert Run(g, last).frames == OffNow(g).frames + [];
  }

  /** A timer armed for `mins` minutes at t survives every poll made less
      than that long after arming, and the first poll at least that long
      after arming turns the unit off: `loop()` polling all the time still
      fires the timer once its minutes have passed */
  lemma TimerFiresInRun(g: Globals, t: u64, mins: i32, early: seq<Input>, elapsed: seq<nat>, e: nat)
    requires mins > 0 && ArmedDeadline(t, mins as int) != 0
    requires |early| == |elapsed|
    requires forall k :: 0 <= k < |early| ==>
               elapsed[k] < mins as int * MS_PER_MINUTE && early[k] == Poll((t + elapsed[k]) % U64_MOD)
    requires mins as int * MS_PER_MINUTE <= e < I64_LIMIT
    ensures var armed := g.(deadline := ArmedDeadline(t, mins as int));
            Run(armed, early + [Poll((t + e) % U64_MOD)]) == OffNow(armed)
  {
    var dur := mins as int * MS_PER_MINUTE;
    assert dur < 0x8000_0000 * MS_PER_MINUTE;
    var armed := g.(deadline := ArmedDeadline(t, mins as int));
    assert armed.deadline == (t + dur) % U64_MOD;
    EarlyPollsNotDue(t, dur, early, elapsed);
    QuietPollsSkip(armed, early, [Poll((t + e) % U64_MOD)]);
    DueAfter(t, dur, e);
    DuePollFires(armed, (t + e) % U64_MOD);
  }
}
