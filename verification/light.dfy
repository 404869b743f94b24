/** The Panasonic ceiling-light player: three scenes of pre-recorded pulse
    tables, each played six times in a row, with fixed settle, inter-frame
    and inter-round delays, and the scene dispatch of the light API. */
module Light {
  import opened Units
  import opened IrLed

  const LIGHT_KHZ: nat := 38
  const INTER_FRAME_DELAY_MS: nat := 40
  const REPEAT_COUNT: int := 6
  const REPEAT_GAP_MS: nat := 100

  /** The delays before the first round and after the last */
  const SETTLE_MS: nat := 30
  const TAIL_MS: nat := 50

  // Pulse tables recorded from the light's remote (microseconds, mark first)

  const ON_F1: seq<u16> := [
    3522, 1718, 446, 418, 448, 418, 448, 1288, 448, 1288, 446, 420, 448, 1288, 446, 418,
    448, 418, 448, 418, 448, 1288, 446, 418, 446, 420, 448, 1290, 446, 418, 448, 1288,
    448, 418, 448, 1288, 448, 418, 448, 418, 448, 1288, 446, 420, 446, 418, 448, 418,
    448, 418, 448, 418, 446, 420, 448, 1288, 448, 1290, 448, 418, 448, 1288, 448, 418,
    448, 418, 448, 1288, 446, 420, 448, 1288, 448, 418, 448, 418, 448, 1290, 448, 418,
    446, 420, 448
  ]

  const ON_F2: seq<u16> := [
    444, 420, 446, 420, 446, 420, 446, 418, 446, 1290, 446, 1292, 446, 420, 446, 1290,
    446, 420, 446, 420, 446, 1292, 446, 420, 446, 1290, 446, 420, 446, 420, 446, 1290,
    446, 420, 446, 422, 446
  ]

  const ON_F3: seq<u16> := [
    444, 420, 446, 1292, 446, 420, 446, 420, 446, 420, 446, 1292, 446, 420, 446, 420,
    446, 1292, 446, 420, 446, 1290, 446, 420, 444, 1292, 446, 420, 446, 420, 446, 1292,
    446, 420, 446, 420, 446, 420, 446, 420, 446, 420, 446, 420, 446, 420, 446, 1292,
    446, 1290, 446, 422, 446, 1292, 446, 420, 446, 420, 446, 1292, 446, 420, 444, 1292,
    446, 422, 446, 420, 446, 1292, 446, 422, 444, 422, 446
  ]

  const NIGHT_F1: seq<u16> := [
    3526, 1716, 448, 418, 448, 418, 448, 1290, 446, 1290, 446, 418, 448, 1290, 446, 418,
    448, 418, 446, 420, 446, 1290, 448, 418, 446, 420, 448, 1288, 448, 418, 448, 1290,
    446, 418, 448, 1290, 448, 418, 446, 420, 446, 1290, 446, 418, 448, 418, 448, 418,
    448, 418, 446, 420, 446, 1290, 446, 1290, 446, 1290, 448, 418, 448, 1290, 446, 420,
    448, 420, 446, 1290, 446, 1290, 446, 1290, 446, 420, 446, 420, 448, 1290, 446, 420,
    446, 420, 448
  ]

  const NIGHT_F2: seq<u16> := [
    420, 446, 420, 446, 420, 446, 420, 444, 1292, 446, 1292, 446, 1290, 446, 420, 444,
    1292, 446, 420, 446, 420, 446, 1290, 446, 1292, 446, 1290, 446, 420, 446, 420, 444,
    1292, 444, 422, 446, 422, 444
  ]

  const OFF_F1: seq<u16> := [
    3526, 1716, 448, 418, 446, 418, 448, 1290, 446, 1290, 448, 418, 448, 1290, 446, 418,
    448, 418, 448, 418, 448, 1288, 448, 418, 446, 420, 446, 1290, 446, 418, 448, 1288,
    448, 418, 446, 1290, 446, 420, 446, 420, 446, 1290, 446, 418, 446, 418, 448, 418,
    448, 418, 448, 1288, 448, 1288, 448, 1290, 446, 1288, 448, 418, 446, 1290, 446, 420,
    446, 420, 446, 418, 448, 1288, 446, 1290, 448, 418, 446, 420, 446, 1290, 446, 418,
    448, 420, 448
  ]

  const OFF_F2: seq<u16> := [
    418, 446, 420, 446, 420, 446, 1290, 446, 1292, 446, 1290, 446, 1292, 446, 420, 446,
    1292, 446, 420, 446, 420, 446, 420, 446, 1290, 446, 1290, 444, 420, 446, 420, 446,
    1290, 446, 420, 446, 422, 446
  ]

  // ---------------------------------------------------------------------------
  // sendFrames

  /** A pointer-and-length frame argument: None is a null pointer */
  predicate Present(f: Option<seq<u16>>) {
    f.Some? && |f.value| > 0
  }

  /** Delay and send for an optional second or third frame */
  function Extra(f: Option<seq<u16>>): seq<Event> {
    if Present(f) then [Wait(INTER_FRAME_DELAY_MS), Send(f.value, LIGHT_KHZ)] else []
  }

  /** One repetition */
  function Round(f1: seq<u16>, f2: Option<seq<u16>>, f3: Option<seq<u16>>): seq<Event> {
    [Send(f1, LIGHT_KHZ)] + Extra(f2) + Extra(f3) + [Wait(REPEAT_GAP_MS)]
  }

  function Rounds(f1: seq<u16>, f2: Option<seq<u16>>, f3: Option<seq<u16>>, n: nat): seq<Event> {
    if n == 0 then [] else Rounds(f1, f2, f3, n - 1) + Round(f1, f2, f3)
  }

  /** Everything `sendFrames` emits; a non-positive repeat count gives no round */
  function PlayTrace(f1: seq<u16>, f2: Option<seq<u16>>, f3: Option<seq<u16>>, repeats: int): (r: seq<Event>)
    ensures |r| == 2 + (if repeats > 0 then repeats else 0) * |Round(f1, f2, f3)|
    ensures r[0] == Wait(SETTLE_MS) && r[|r| - 1] == Wait(TAIL_MS)
    ensures repeats > 0 ==> r[1] == Send(f1, LIGHT_KHZ)
  {
    var n := if repeats > 0 then repeats else 0;
    RoundsLength(f1, f2, f3, n);
    var t := [Wait(SETTLE_MS)] + Rounds(f1, f2, f3, n) + [Wait(TAIL_MS)];
    if n == 0 then t else EveryRoundSendsFirstFrame(f1, f2, f3, n, 0); t
  }

  /** `if (f && n) { delay(kInterFrameDelayMs); sendRawArr(f, n); }` */
  method SendIfPresent(led: Led, f: Option<seq<u16>>)
    modifies led
    ensures led.log == old(led.log) + Extra(f)
  {
    if f.Some? && |f.value| != 0 {
      led.Delay(INTER_FRAME_DELAY_MS);
      led.SendRaw(f.value, LIGHT_KHZ);
    }
  }

  /** The body of the repeat loop of `sendFrames` */
  method PlayRound(led: Led, f1: seq<u16>, f2: Option<seq<u16>>, f3: Option<seq<u16>>)
    modifies led
    ensures led.log == old(led.log) + Round(f1, f2, f3)
  {
    led.SendRaw(f1, LIGHT_KHZ);
    SendIfPresent(led, f2);
    SendIfPresent(led, f3);
    led.Delay(REPEAT_GAP_MS);
  }

  /** `sendFrames` */
  method SendFrames(led: Led, f1: seq<u16>, f2: Option<seq<u16>>, f3: Option<seq<u16>>, repeats: int)
    modifies led
    ensures led.log == old(led.log) + PlayTrace(f1, f2, f3, repeats)
  {
    led.Delay(SETTLE_MS);
    ghost var settled := led.log;
    var r := 0;
    while r < repeats
      invariant r == 0 || r <= repeats
      invariant led.log == settled + Rounds(f1, f2, f3, r)
    {
      PlayRound(led, f1, f2, f3);
      RoundsSnoc(settled, f1, f2, f3, r);
      r := r + 1;
    }
    led.Delay(TAIL_MS);
    PlayTraceShape(old(led.log), f1, f2, f3, repeats);
  }

  lemma RoundsSnoc(pre: seq<Event>, f1: seq<u16>, f2: Option<seq<u16>>, f3: Option<seq<u16>>, r: nat)
    ensures pre + Rounds(f1, f2, f3, r) + Round(f1, f2, f3) == pre + Rounds(f1, f2, f3, r + 1)
  {
  }

  lemma PlayTraceShape(pre: seq<Event>, f1: seq<u16>, f2: Option<seq<u16>>, f3: Option<seq<u16>>, repeats: int)
    ensures pre + [Wait(SETTLE_MS)] + Rounds(f1, f2, f3, if repeats > 0 then repeats else 0) + [Wait(TAIL_MS)]
         == pre + PlayTrace(f1, f2, f3, repeats)
  {
  }

  // ---------------------------------------------------------------------------
  // What a play emits

  /** Number of transmissions in a trace */
  function SendCount(t: seq<Event>): nat {
    if t == [] then 0 else SendCount(t[..|t| - 1]) + (if t[|t| - 1].Send? then 1 else 0)
  }

  /** Total blocking delay in a trace, in milliseconds */
  function TotalDelay(t: seq<Event>): nat {
    if t == [] then 0 else TotalDelay(t[..|t| - 1]) + (if t[|t| - 1].Wait? then t[|t| - 1].ms else 0)
  }

  lemma {:induction false} CountsAppend(a: seq<Event>, b: seq<Event>)
    ensures SendCount(a + b) == SendCount(a) + SendCount(b)
    ensures TotalDelay(a + b) == TotalDelay(a) + TotalDelay(b)
  {
    if b == [] {
      assert a + b == a;
    } else {
      assert (a + b)[..|a + b| - 1] == a + b[..|b| - 1];
      CountsAppend(a, b[..|b| - 1]);
    }
  }

  /** How many of the optional frames are sent in each round */
  function ExtraFrames(f2: Option<seq<u16>>, f3: Option<seq<u16>>): nat {
    (if Present(f2) then 1 else 0) + (if Present(f3) then 1 else 0)
  }

  lemma RoundCounts(f1: seq<u16>, f2: Option<seq<u16>>, f3: Option<seq<u16>>)
    ensures SendCount(Round(f1, f2, f3)) == 1 + ExtraFrames(f2, f3)
    ensures TotalDelay(Round(f1, f2, f3)) == INTER_FRAME_DELAY_MS * ExtraFrames(f2, f3) + REPEAT_GAP_MS
  {
    var e1: seq<Event> := [Send(f1, LIGHT_KHZ)];
    var w: seq<Event> := [Wait(REPEAT_GAP_MS)];
    CountsAppend(e1, Extra(f2));
    CountsAppend(e1 + Extra(f2), Extra(f3));
    CountsAppend(e1 + Extra(f2) + Extra(f3), w);
    assert Extra(f2) == [] || Extra(f2) == [Wait(INTER_FRAME_DELAY_MS)] + [Send(f2.value, LIGHT_KHZ)];
    assert Extra(f3) == [] || Extra(f3) == [Wait(INTER_FRAME_DELAY_MS)] + [Send(f3.value, LIGHT_KHZ)];
    if Present(f2) {
      CountsAppend([Wait(INTER_FRAME_DELAY_MS)], [Send(f2.value, LIGHT_KHZ)]);
    }
    if Present(f3) {
      CountsAppend([Wait(INTER_FRAME_DELAY_MS)], [Send(f3.value, LIGHT_KHZ)]);
    }
  }

  lemma {:induction false} RoundsCounts(f1: seq<u16>, f2: Option<seq<u16>>, f3: Option<seq<u16>>, n: nat)
    ensures SendCount(Rounds(f1, f2, f3, n)) == n * (1 + ExtraFrames(f2, f3))
    ensures TotalDelay(Rounds(f1, f2, f3, n)) == n * (INTER_FRAME_DELAY_MS * ExtraFrames(f2, f3) + REPEAT_GAP_MS)
  {
    if n > 0 {
      var k := ExtraFrames(f2, f3);
      var sends, ms := 1 + k, INTER_FRAME_DELAY_MS * k + REPEAT_GAP_MS;
      RoundsCounts(f1, f2, f3, n - 1);
      RoundCounts(f1, f2, f3);
      CountsAppend(Rounds(f1, f2, f3, n - 1), Round(f1, f2, f3));
      assert (n - 1) * sends + sends == n * sends;
      assert (n - 1) * ms + ms == n * ms;
    }
  }

  /** A play of n rounds with k optional frames present sends n(1+k) frames
      and blocks for 30 + n(40k + 100) + 50 ms */
  lemma PlayTraceCounts(f1: seq<u16>, f2: Option<seq<u16>>, f3: Option<seq<u16>>, repeats: int)
    ensures var n := if repeats > 0 then repeats else 0;
            var k := ExtraFrames(f2, f3);
            SendCount(PlayTrace(f1, f2, f3, repeats)) == n * (1 + k)
            && TotalDelay(PlayTrace(f1, f2, f3, repeats)) == SETTLE_MS + n * (INTER_FRAME_DELAY_MS * k + REPEAT_GAP_MS) + TAIL_MS
  {
    var n := if repeats > 0 then repeats else 0;
    var rounds := Rounds(f1, f2, f3, n);
    RoundsCounts(f1, f2, f3, n);
    CountsAppend([Wait(SETTLE_MS)], rounds);
    CountsAppend([Wait(SETTLE_MS)] + rounds, [Wait(TAIL_MS)]);
    assert SendCount([Wait(SETTLE_MS)]) == 0 && TotalDelay([Wait(SETTLE_MS)]) == SETTLE_MS;
    assert SendCount([Wait(TAIL_MS)]) == 0 && TotalDelay([Wait(TAIL_MS)]) == TAIL_MS;
  }

  /** Round r of a play occupies its own slice of the trace and starts with
      the first frame */
  lemma {:induction false} RoundsAt(f1: seq<u16>, f2: Option<seq<u16>>, f3: Option<seq<u16>>, n: nat, r: nat)
    requires r < n
    ensures var len := |Round(f1, f2, f3)|;
            (r + 1) * len <= |Rounds(f1, f2, f3, n)|
            && Rounds(f1, f2, f3, n)[r * len .. (r + 1) * len] == Round(f1, f2, f3)
  {
    var round := Round(f1, f2, f3);
    var len := |round|;
    var prev := Rounds(f1, f2, f3, n - 1);
    RoundsLength(f1, f2, f3, n - 1);
    assert |prev| == (n - 1) * len;
    assert (r + 1) * len == r * len + len;
    if r < n - 1 {
      RoundsAt(f1, f2, f3, n - 1, r);
      assert (r + 1) * len <= |prev|;
      assert (prev + round)[r * len .. (r + 1) * len] == prev[r * len .. (r + 1) * len];
    } else {
      assert r * len == |prev|;
      assert (prev + round)[|prev| .. |prev| + len] == round;
    }
  }

  /** Every round starts by sending the first frame */
  lemma EveryRoundSendsFirstFrame(f1: seq<u16>, f2: Option<seq<u16>>, f3: Option<seq<u16>>, n: nat, r: nat)
    requires r < n
    ensures r * |Round(f1, f2, f3)| < |Rounds(f1, f2, f3, n)|
    ensures Rounds(f1, f2, f3, n)[r * |Round(f1, f2, f3)|] == Send(f1, LIGHT_KHZ)
  {
    var len := |Round(f1, f2, f3)|;
    RoundsAt(f1, f2, f3, n, r);
    assert Rounds(f1, f2, f3, n)[r * len] == Rounds(f1, f2, f3, n)[r * len .. (r + 1) * len][0];
  }

  lemma {:induction false} RoundsLength(f1: seq<u16>, f2: Option<seq<u16>>, f3: Option<seq<u16>>, n: nat)
    ensures |Rounds(f1, f2, f3, n)| == n * |Round(f1, f2, f3)|
  {
    if n > 0 {
      RoundsLength(f1, f2, f3, n - 1);
    }
  }

  /** Only the given frames are ever sent, and an absent or empty one never */
  lemma {:induction false} RoundsSendOnly(f1: seq<u16>, f2: Option<seq<u16>>, f3: Option<seq<u16>>, n: nat)
    ensures forall e :: e in Rounds(f1, f2, f3, n) && e.Send? ==>
              e == Send(f1, LIGHT_KHZ)
              || (Present(f2) && e == Send(f2.value, LIGHT_KHZ))
              || (Present(f3) && e == Send(f3.value, LIGHT_KHZ))
  {
    if n > 0 {
      RoundsSendOnly(f1, f2, f3, n - 1);
    }
  }

  // ---------------------------------------------------------------------------
  // Scenes and the light API

  datatype Scene = On | Night | Off

  function SceneName(s: Scene): string {
    match s
    case On => "on"
    case Night => "night"
    case Off => "off"
  }

  /** The `cmd` argument of the light API; None when it is missing */
  function SceneOf(cmd: Option<string>): (r: Option<Scene>)
    ensures r.Some? <==> cmd.Some? && cmd.value in {"on", "night", "off"}
    ensures r.Some? ==> cmd == Some(SceneName(r.value))
  {
    if cmd.None? then None
    else if cmd.value == "on" then Some(On)
    else if cmd.value == "night" then Some(Night)
    else if cmd.value == "off" then Some(Off)
    else None
  }

  /** Every scene is selected by its own name */
  lemma SceneOfName(s: Scene)
    ensures SceneOf(Some(SceneName(s))) == Some(s)
  {
  }

  /** The frames of a scene; NIGHT and OFF pass a null third frame */
  function SceneFrame1(s: Scene): seq<u16> {
    match s
    case On => ON_F1
    case Night => NIGHT_F1
    case Off => OFF_F1
  }

  function SceneFrame2(s: Scene): Option<seq<u16>> {
    match s
    case On => Some(ON_F2)
    case Night => Some(NIGHT_F2)
    case Off => Some(OFF_F2)
  }

  function SceneFrame3(s: Scene): Option<seq<u16>> {
    match s
    case On => Some(ON_F3)
    case Night => None
    case Off => None
  }

  function SceneTrace(s: Scene): (r: seq<Event>)
    ensures |r| == if s == On then 38 else 26
    ensures r[0] == Wait(SETTLE_MS) && r[1] == Send(SceneFrame1(s), LIGHT_KHZ) && r[|r| - 1] == Wait(TAIL_MS)
  {
    PlayTrace(SceneFrame1(s), SceneFrame2(s), SceneFrame3(s), REPEAT_COUNT)
  }

  /** ON sends 18 frames over 1160 ms of delays; NIGHT and OFF send 12 over
      920 ms */
  lemma SceneCounts(s: Scene)
    ensures SendCount(SceneTrace(s)) == if s == On then 18 else 12
    ensures TotalDelay(SceneTrace(s)) == if s == On then 1160 else 920
  {
    PlayTraceCounts(SceneFrame1(s), SceneFrame2(s), SceneFrame3(s), REPEAT_COUNT);
    assert ExtraFrames(SceneFrame2(s), SceneFrame3(s)) == if s == On then 2 else 1;
  }

  /** NIGHT and OFF never send a third frame: every transmission is one of
      their two tables */
  lemma TwoFrameScenesSendOnlyTheirFrames(s: Scene)
    requires s != On
    ensures forall e :: e in SceneTrace(s) && e.Send? ==>
              e.pulses == SceneFrame1(s) || e.pulses == SceneFrame2(s).value
  {
    RoundsSendOnly(SceneFrame1(s), SceneFrame2(s), SceneFrame3(s), REPEAT_COUNT);
  }

  /** `light_on`, `light_night` and `light_off` */
  method PlayScene(led: Led, s: Scene)
    modifies led
    ensures led.log == old(led.log) + SceneTrace(s)
  {
    match s
    case On => SendFrames(led, ON_F1, Some(ON_F2), Some(ON_F3), REPEAT_COUNT);
    case Night => SendFrames(led, NIGHT_F1, Some(NIGHT_F2), None, REPEAT_COUNT);
    case Off => SendFrames(led, OFF_F1, Some(OFF_F2), None, REPEAT_COUNT);
  }

  /** `handleLightApi`: plays the named scene and answers 200, or sends
      nothing and answers 400 for a missing or unknown `cmd` */
  method HandleLightApi(led: Led, cmd: Option<string>) returns (status: int)
    modifies led
    ensures status == (if SceneOf(cmd).Some? then 200 else 400)
    ensures led.log == old(led.log) + (if SceneOf(cmd).Some? then SceneTrace(SceneOf(cmd).value) else [])
  {
    if cmd.None? {
      return 400;
    }
    var c := cmd.value;
    if c == "on" {
      PlayScene(led, On);
      status := 200;
    } else if c == "night" {
      PlayScene(led, Night);
      status := 200;
    } else if c == "off" {
      PlayScene(led, Off);
      status := 200;
    } else {
      status := 400;
    }
  }
}
