/** The single air-conditioner state `ac3F` and its domain rules: the
    half-degree temperature range, the fan codes (byte 28 of the frame) and
    the tokens the web API accepts for them. */
module AcState {
  import opened Units

  datatype Mode = Heat | Cool

  /** `struct ACState`: tempX2 is the temperature in half degrees Celsius */
  datatype ACState = ACState(powerOn: bool, tempX2: int, mode: Mode, fanHex: byte)

  /** 18.0 and 32.0 degrees */
  const TEMP_X2_MIN: int := 36
  const TEMP_X2_MAX: int := 64

  /** Default temperatures set by the mode command: 27.5 and 24.0 degrees */
  const HEAT_DEFAULT_X2: int := 55
  const COOL_DEFAULT_X2: int := 48

  const FAN_AUTO: byte := 0xA0
  const FAN_QUIET: byte := 0xB0
  const FAN_LV1: byte := 0x30
  const FAN_LV2: byte := 0x40
  const FAN_LV3: byte := 0x50
  const FAN_LV4: byte := 0x60
  const FAN_LV5: byte := 0x70

  const FAN_CODES: set<byte> := {FAN_AUTO, FAN_QUIET, FAN_LV1, FAN_LV2, FAN_LV3, FAN_LV4, FAN_LV5}

  /** The state at start-up: off, 27.5 degrees, heating, automatic fan */
  const INITIAL: ACState := ACState(false, HEAT_DEFAULT_X2, Heat, FAN_AUTO)

  /** The domain invariant every handler keeps */
  predicate AcInv(st: ACState) {
    TEMP_X2_MIN <= st.tempX2 <= TEMP_X2_MAX && st.fanHex in FAN_CODES
  }

  function Distance(a: int, b: int): nat {
    if a <= b then b - a else a - b
  }

  /** `clampTemp` and the local clamp in `buildAndSendRun`: the in-range value
      nearest to t */
  function ClampTempX2(t: int): (r: int)
    ensures TEMP_X2_MIN <= r <= TEMP_X2_MAX
    ensures TEMP_X2_MIN <= t <= TEMP_X2_MAX ==> r == t
    ensures forall v :: TEMP_X2_MIN <= v <= TEMP_X2_MAX ==> Distance(r, t) <= Distance(v, t)
  {
    if t < TEMP_X2_MIN then TEMP_X2_MIN
    else if t > TEMP_X2_MAX then TEMP_X2_MAX
    else t
  }

  /** The `fan` argument of the AC API: the code for a recognised token */
  function FanToken(tok: string): (r: Option<byte>)
    ensures r.Some? <==> tok in {"auto", "quiet", "1", "2", "3", "4", "5"}
    ensures r.Some? ==> r.value in FAN_CODES
  {
    if tok == "auto" then Some(FAN_AUTO)
    else if tok == "quiet" then Some(FAN_QUIET)
    else if tok == "1" then Some(FAN_LV1)
    else if tok == "2" then Some(FAN_LV2)
    else if tok == "3" then Some(FAN_LV3)
    else if tok == "4" then Some(FAN_LV4)
    else if tok == "5" then Some(FAN_LV5)
    else None
  }

  lemma InitialStateValid()
    ensures AcInv(INITIAL) && !INITIAL.powerOn
  {
  }
}
