/** The Daikin frame builder: three 39-byte templates, the two modulo-256
    checksums (byte 19 over bytes 0..18, byte 38 over bytes 20..37) and the
    run frame patched from the current state. */
module Daikin {
  import opened Units
  import opened AcState

  const FRAME_LEN: int := 39

  /** A complete two-part Daikin message */
  type Frame = s: seq<byte> | |s| == 39 witness OFF_TEMPLATE

  /** Offsets patched by the builder */
  const TEMP_OFFSET: int := 26
  const FAN_OFFSET: int := 28
  const SUM1_OFFSET: int := 19
  const SUM2_OFFSET: int := 38

  const COOL_TEMPLATE: seq<byte> := [
    0x11, 0xDA, 0x27, 0x00, 0x02, 0x00, 0x00, 0x00, 0x00, 0x07, 0x00, 0x00, 0x10, 0x00, 0x80, 0x00, 0x00, 0x00, 0x00, 0xAB,
    0x11, 0xDA, 0x27, 0x00, 0x00, 0x39, 0x30, 0x00, 0xA0, 0x00, 0x00, 0x06, 0x60, 0x00, 0x00, 0xC3, 0x00, 0x00, 0x44
  ]

  const HEAT_TEMPLATE: seq<byte> := [
    0x11, 0xDA, 0x27, 0x00, 0x02, 0x00, 0x00, 0x00, 0x00, 0x03, 0x00, 0x00, 0x30, 0x00, 0x80, 0x00, 0x00, 0x00, 0x00, 0xC7,
    0x11, 0xDA, 0x27, 0x00, 0x00, 0x49, 0x35, 0x00, 0xA0, 0x00, 0x00, 0x06, 0x60, 0x00, 0x00, 0xC3, 0x00, 0x00, 0x59
  ]

  const OFF_TEMPLATE: seq<byte> := [
    0x11, 0xDA, 0x27, 0x00, 0x02, 0x00, 0x00, 0x00, 0x00, 0x02, 0x00, 0x80, 0x10, 0x00, 0x80, 0x00, 0x00, 0x00, 0x00, 0x26,
    0x11, 0xDA, 0x27, 0x00, 0x00, 0x38, 0x30, 0x00, 0x50, 0x00, 0x00, 0x06, 0x60, 0x00, 0x00, 0xC3, 0x00, 0x00, 0xF3
  ]

  // ---------------------------------------------------------------------------
  // sum8

  /** The exact (unbounded) sum of the bytes */
  function Sum(s: seq<byte>): nat {
    if s == [] then 0 else Sum(s[..|s| - 1]) + s[|s| - 1]
  }

  /** The `uint16_t` accumulator of `sum8` after adding the bytes of s in
      order, wrapping at 2^16 */
  function Acc16(s: seq<byte>): (r: nat)
    ensures r < 0x1_0000
  {
    if s == [] then 0 else (Acc16(s[..|s| - 1]) + s[|s| - 1]) % 0x1_0000
  }

  /** `sum8`: the low byte of the accumulator, which is the byte sum
      modulo 256 however often the accumulator wrapped */
  function Sum8(s: seq<byte>): (r: byte)
    ensures r == Sum(s) % 0x100
  {
    Sum8IsSumMod256(s);
    Acc16(s) % 0x100
  }

  lemma {:induction false} SumBound(s: seq<byte>)
    ensures Sum(s) <= 0xFF * |s|
  {
    if s != [] {
      SumBound(s[..|s| - 1]);
    }
  }

  /** The 16-bit accumulator of `sum8` never wraps for fewer than 258 bytes,
      so for the 19- and 18-byte ranges it holds the exact sum */
  lemma {:induction false} Acc16Exact(s: seq<byte>)
    requires |s| <= 257
    ensures Acc16(s) == Sum(s)
  {
    if s != [] {
      Acc16Exact(s[..|s| - 1]);
      SumBound(s[..|s| - 1]);
    }
  }

  /** Reducing modulo 2^16 first does not change the low byte */
  lemma LowByteOfWrapped(y: int)
    ensures (y % 0x1_0000) % 0x100 == y % 0x100
  {
    var q := y / 0x1_0000;
    var r := y % 0x1_0000;
    assert y == 0x100 * (0x100 * q) + r;
    AddMultipleOf256(r, 0x100 * q);
  }

  lemma AddMultipleOf256(r: int, k: int)
    ensures (r + 0x100 * k) % 0x100 == r % 0x100
  {
    var q := r / 0x100;
    assert r == 0x100 * q + r % 0x100;
    assert r + 0x100 * k == 0x100 * (q + k) + r % 0x100;
  }

  /** Two values with the same low byte keep the same low byte after the
      same byte is added to both */
  lemma AddKeepsLowByte(a: int, b: int, x: int)
    requires a % 0x100 == b % 0x100
    ensures (a + x) % 0x100 == (b + x) % 0x100
  {
    var qa, qb := a / 0x100, b / 0x100;
    assert a + x == (b + x) + 0x100 * (qa - qb);
    AddMultipleOf256(b + x, qa - qb);
  }

  /** Whatever the length, the low byte of the wrapping accumulator of
      `sum8` is the byte sum modulo 256 */
  lemma {:induction false} Sum8IsSumMod256(s: seq<byte>)
    ensures Acc16(s) % 0x100 == Sum(s) % 0x100
  {
    if s != [] {
      var init, last := s[..|s| - 1], s[|s| - 1];
      Sum8IsSumMod256(init);
      LowByteOfWrapped(Acc16(init) + last);
      AddKeepsLowByte(Acc16(init), Sum(init), last);
    }
  }

  /** One step of the left-to-right sum over a prefix */
  lemma SumPrefixStep(s: seq<byte>, k: nat)
    requires 0 < k <= |s|
    ensures Sum(s[..k]) == Sum(s[..k - 1]) + s[k - 1]
  {
    assert s[..k][..k - 1] == s[..k - 1];
  }

  /** The sum of 19 bytes written out term by term */
  lemma SumOf19(s: seq<byte>)
    requires |s| == 19
    ensures Sum(s) == s[0] as int + s[1] + s[2] + s[3] + s[4] + s[5] + s[6] + s[7] + s[8] + s[9]
                      + s[10] + s[11] + s[12] + s[13] + s[14] + s[15] + s[16] + s[17] + s[18]
  {
    assert s[..19] == s;
    assert s[..0] == [];
    var k := 1;
    while k <= 19
      invariant 1 <= k <= 20
      invariant forall j :: 1 <= j < k ==> Sum(s[..j]) == Sum(s[..j - 1]) + s[j - 1]
    {
      SumPrefixStep(s, k);
      k := k + 1;
    }
  }

  /** The sum of 18 bytes written out term by term */
  lemma SumOf18(s: seq<byte>)
    requires |s| == 18
    ensures Sum(s) == s[0] as int + s[1] + s[2] + s[3] + s[4] + s[5] + s[6] + s[7] + s[8] + s[9]
                      + s[10] + s[11] + s[12] + s[13] + s[14] + s[15] + s[16] + s[17]
  {
    SumOf19(s + [0]);
    SumPrefixStep(s + [0], 19);
    assert (s + [0])[..18] == s;
    assert (s + [0])[..19] == s + [0];
  }

  // ---------------------------------------------------------------------------
  // fixDaikinChecksums

  /** Both checksum bytes agree with the bytes they cover */
  predicate ChecksumsValid(f: Frame) {
    f[SUM1_OFFSET] == Sum8(f[..19]) && f[SUM2_OFFSET] == Sum8(f[20..38])
  }

  /** The frame `fixDaikinChecksums` leaves behind */
  function WithChecksums(f: Frame): (r: Frame)
    ensures ChecksumsValid(r)
    ensures forall i :: 0 <= i < FRAME_LEN && i != SUM1_OFFSET && i != SUM2_OFFSET ==> r[i] == f[i]
  {
    var r := f[SUM1_OFFSET := Sum8(f[..19])][SUM2_OFFSET := Sum8(f[20..38])];
    assert r[..19] == f[..19] && r[20..38] == f[20..38];
    r
  }

  /** Neither checksum byte lies in either summed range, so fixing twice is
      fixing once */
  lemma WithChecksumsIdempotent(f: Frame)
    ensures WithChecksums(WithChecksums(f)) == WithChecksums(f)
  {
    ChecksumsValidIsFixedPoint(WithChecksums(f));
  }

  /** A frame is left unchanged by the fix exactly when its checksums are
      already right */
  lemma ChecksumsValidIsFixedPoint(f: Frame)
    ensures ChecksumsValid(f) <==> WithChecksums(f) == f
  {
    if ChecksumsValid(f) {
      var r := WithChecksums(f);
      forall i | 0 <= i < FRAME_LEN
        ensures r[i] == f[i]
      {
      }
    }
  }

  /** Each constant template already carries correct checksums, so the OFF
      frame can be sent as it is */
  lemma CoolTemplateChecksums()
    ensures ChecksumsValid(COOL_TEMPLATE) && COOL_TEMPLATE[19] == 0xAB && COOL_TEMPLATE[38] == 0x44
  {
    TemplateChecksums(COOL_TEMPLATE);
  }

  lemma HeatTemplateChecksums()
    ensures ChecksumsValid(HEAT_TEMPLATE) && HEAT_TEMPLATE[19] == 0xC7 && HEAT_TEMPLATE[38] == 0x59
  {
    TemplateChecksums(HEAT_TEMPLATE);
  }

  lemma OffTemplateChecksums()
    ensures ChecksumsValid(OFF_TEMPLATE) && OFF_TEMPLATE[19] == 0x26 && OFF_TEMPLATE[38] == 0xF3
  {
    TemplateChecksums(OFF_TEMPLATE);
  }

  lemma TemplateChecksums(t: Frame)
    ensures Sum8(t[..19]) == (t[0] as int + t[1] + t[2] + t[3] + t[4] + t[5] + t[6] + t[7] + t[8] + t[9]
                      + t[10] + t[11] + t[12] + t[13] + t[14] + t[15] + t[16] + t[17] + t[18]) % 0x100
    ensures Sum8(t[20..38]) == (t[20] as int + t[21] + t[22] + t[23] + t[24] + t[25] + t[26] + t[27] + t[28]
                      + t[29] + t[30] + t[31] + t[32] + t[33] + t[34] + t[35] + t[36] + t[37]) % 0x100
  {
    SumOf19(t[..19]);
    Sum8IsSumMod256(t[..19]);
    SumOf18(t[20..38]);
    Sum8IsSumMod256(t[20..38]);
  }

  /** `fixDaikinChecksums`, in place on the 39-byte buffer */
  method FixChecksums(data: array<byte>)
    requires data.Length == FRAME_LEN
    modifies data
    ensures data[..] == WithChecksums(old(data[..]))
  {
    data[SUM1_OFFSET] := Sum8(data[..19]);
    data[SUM2_OFFSET] := Sum8(data[20..38]);
  }

  // ---------------------------------------------------------------------------
  // buildAndSendRun: the frame it sends

  /** The offsets `buildAndSendRun` overwrites */
  predicate Patched(i: int) {
    i == SUM1_OFFSET || i == TEMP_OFFSET || i == FAN_OFFSET || i == SUM2_OFFSET
  }

  function Template(m: Mode): Frame {
    if m == Cool then COOL_TEMPLATE else HEAT_TEMPLATE
  }

  /** The run frame for a state: the mode's template with the clamped
      temperature at byte 26, the fan code at byte 28 and both checksums
      recomputed; every other byte is the template's */
  function RunFrame(st: ACState): (f: Frame)
    ensures ChecksumsValid(f)
    ensures f[TEMP_OFFSET] == ClampTempX2(st.tempX2) && f[FAN_OFFSET] == st.fanHex
    ensures forall i :: 0 <= i < FRAME_LEN && !Patched(i) ==> f[i] == Template(st.mode)[i]
  {
    WithChecksums(Template(st.mode)[TEMP_OFFSET := ClampTempX2(st.tempX2)][FAN_OFFSET := st.fanHex])
  }

  /** The part of `buildAndSendRun` that copies the template into a local
      buffer, patches it and fixes the checksums */
  method BuildRunFrame(st: ACState) returns (frame: Frame)
    ensures frame == RunFrame(st)
  {
    var tmpl := if st.mode == Cool then COOL_TEMPLATE else HEAT_TEMPLATE;
    var data := new byte[FRAME_LEN](i requires 0 <= i < FRAME_LEN => tmpl[i]);
    assert data[..] == tmpl;
    var tX2 := st.tempX2;
    if tX2 < TEMP_X2_MIN { tX2 := TEMP_X2_MIN; }
    if tX2 > TEMP_X2_MAX { tX2 := TEMP_X2_MAX; }
    data[TEMP_OFFSET] := tX2;
    data[FAN_OFFSET] := st.fanHex;
    FixChecksums(data);
    frame := data[..];
  }

  /** Cool at 24.0 degrees with the automatic fan reproduces the cool
      template byte for byte (byte 26 is 0x30) */
  lemma CoolDefaultRunFrame()
    ensures RunFrame(ACState(true, COOL_DEFAULT_X2, Cool, FAN_AUTO)) == COOL_TEMPLATE
    ensures COOL_TEMPLATE[TEMP_OFFSET] == 0x30 && COOL_TEMPLATE[FAN_OFFSET] == 0xA0
  {
    var t := COOL_TEMPLATE;
    assert t[TEMP_OFFSET := 0x30][FAN_OFFSET := 0xA0] == t;
    CoolTemplateChecksums();
    ChecksumsValidIsFixedPoint(t);
  }

  /** The run frame depends on the state only through the mode, the clamped
      temperature and the fan code; in particular not on powerOn */
  lemma RunFrameDependsOnSettings(a: ACState, b: ACState)
    requires a.mode == b.mode && a.fanHex == b.fanHex
    requires ClampTempX2(a.tempX2) == ClampTempX2(b.tempX2)
    ensures RunFrame(a) == RunFrame(b)
  {
  }
}
