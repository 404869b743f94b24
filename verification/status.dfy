/** The read-only status projection of the AC API: mode name, temperature
    text, fan display name and the time left on the off-timer. */
module Status {
  import opened Units
  import opened AcState

  // ---------------------------------------------------------------------------
  // Decimal text (`String(n)`)

  function DigitChar(d: nat): char
    requires d < 10
  {
    "0123456789"[d]
  }

  predicate IsDigit(c: char) {
    '0' <= c <= '9'
  }

  function DigitValue(c: char): nat
    requires IsDigit(c)
  {
    c as int - '0' as int
  }

  /** The decimal text of n, without leading zeros */
  function NatToString(n: nat): (s: string)
    ensures |s| > 0 && forall i :: 0 <= i < |s| ==> IsDigit(s[i])
    ensures n > 0 ==> s[0] != '0'
    ensures |s| > 1 ==> s[0] != '0'
  {
    if n < 10 then
      assert n > 0 ==> "0123456789"[n] != '0';
      [DigitChar(n)]
    else NatToString(n / 10) + [DigitChar(n % 10)]
  }

  /** `String(i)` for a signed value */
  function IntToString(i: int): (s: string)
    ensures |s| > 0
  {
    if i < 0 then "-" + NatToString(-i) else NatToString(i)
  }

  /** The value of a run of decimal digits */
  function ParseNat(s: string): nat
    requires forall i :: 0 <= i < |s| ==> IsDigit(s[i])
  {
    if s == [] then 0 else 10 * ParseNat(s[..|s| - 1]) + DigitValue(s[|s| - 1])
  }

  lemma {:induction false} ParseNatToString(n: nat)
    ensures ParseNat(NatToString(n)) == n
  {
    var s := NatToString(n);
    if n >= 10 {
      ParseNatToString(n / 10);
      assert s[..|s| - 1] == NatToString(n / 10);
    }
  }

  // ---------------------------------------------------------------------------
  // The fields of the status answer

  function ModeName(m: Mode): (r: string)
    ensures r == "heat" <==> m == Heat
    ensures r == "cool" <==> m == Cool
  {
    assert "heat"[0] != "cool"[0];
    match m
    case Heat => "heat"
    case Cool => "cool"
  }

  /** C++ integer division and remainder truncate toward zero */
  function TruncDiv(a: int, b: int): int
    requires b > 0
  {
    if a >= 0 then a / b else -((-a) / b)
  }

  function TruncRem(a: int, b: int): int
    requires b > 0
  {
    a - b * TruncDiv(a, b)
  }

  /** `String(tempX2 / 2) + ((tempX2 % 2) ? ".5" : ".0")`: whole degrees,
      then ".5" exactly for an odd number of half degrees */
  function TempString(tempX2: int): (r: string)
    ensures |r| >= 3 && r[|r| - 2] == '.'
    ensures r[|r| - 1] == (if tempX2 % 2 != 0 then '5' else '0')
  {
    IntToString(TruncDiv(tempX2, 2)) + (if TruncRem(tempX2, 2) != 0 then ".5" else ".0")
  }

  /** Reads a non-negative temperature text back into half degrees */
  function ParseTempX2(s: string): int {
    if |s| >= 3 && s[|s| - 2] == '.' && (s[|s| - 1] == '5' || s[|s| - 1] == '0')
       && forall i :: 0 <= i < |s| - 2 ==> IsDigit(s[i])
    then 2 * ParseNat(s[..|s| - 2]) + (if s[|s| - 1] == '5' then 1 else 0)
    else -1
  }

  /** The temperature text of any non-negative setting reads back exactly:
      whole degrees, then ".5" or ".0" */
  lemma TempStringRoundTrip(tempX2: int)
    requires tempX2 >= 0
    ensures ParseTempX2(TempString(tempX2)) == tempX2
  {
    var s := TempString(tempX2);
    var whole := NatToString(tempX2 / 2);
    assert s[..|s| - 2] == whole;
    ParseNatToString(tempX2 / 2);
  }

  /** `fanName`: the display name of a fan code */
  function FanName(h: byte): (r: string)
    ensures r == "不明" <==> h !in FAN_CODES
  {
    if h == FAN_AUTO then "自動"
    else if h == FAN_QUIET then "静音"
    else if h == FAN_LV1 then "1"
    else if h == FAN_LV2 then "2"
    else if h == FAN_LV3 then "3"
    else if h == FAN_LV4 then "4"
    else if h == FAN_LV5 then "5"
    else "不明"
  }

  /** The fan set by a recognised token shows under the name the token
      stands for: the level digits as themselves */
  lemma FanNameOfToken(tok: string)
    requires FanToken(tok).Some?
    ensures FanName(FanToken(tok).value) == (if tok == "auto" then "自動" else if tok == "quiet" then "静音" else tok)
  {
  }

  /** Different fan codes show under different names */
  lemma FanNameInjective(a: byte, b: byte)
    requires a in FAN_CODES && b in FAN_CODES && a != b
    ensures FanName(a) != FanName(b)
  {
  }

  /** `timer_left`: "--" when disarmed; otherwise the whole seconds to the
      deadline, or "0s" once it is not in the future (a plain magnitude
      comparison, unlike the tick) */
  function TimerLeft(deadline: u64, now: u64): (r: string)
    ensures r == "--" <==> deadline == 0
    ensures deadline != 0 && deadline <= now ==> r == "0s"
    ensures deadline > now ==> |r| > 1 && r[|r| - 1] == 's'
                               && (forall i :: 0 <= i < |r| - 1 ==> IsDigit(r[i]))
                               && ParseNat(r[..|r| - 1]) == (deadline - now) / 1000
    ensures deadline > now && |r| > 2 ==> r[0] != '0'
  {
    if deadline == 0 then "--"
    else if deadline > now then
      var digits := NatToString((deadline - now) / 1000);
      ParseNatToString((deadline - now) / 1000);
      assert (digits + "s")[..|digits|] == digits;
      digits + "s"
    else "0s"
  }

  /** The answer of `handleAC3State` */
  datatype AcStatus = AcStatus(power: bool, mode: string, temp: string, fan: string, timerLeft: string)

  function StatusOf(st: ACState, deadline: u64, now: u64): (r: AcStatus)
    ensures r.power == st.powerOn
    ensures r.mode == "heat" <==> st.mode == Heat
    ensures r.mode == "cool" <==> st.mode == Cool
    ensures r.timerLeft == "--" <==> deadline == 0
  {
    AcStatus(st.powerOn, ModeName(st.mode), TempString(st.tempX2), FanName(st.fanHex), TimerLeft(deadline, now))
  }

  /** For every state the handlers can reach, the status shows the exact
      temperature setting and a known fan name */
  lemma StatusReadsBack(st: ACState, deadline: u64, now: u64)
    requires AcInv(st)
    ensures ParseTempX2(StatusOf(st, deadline, now).temp) == st.tempX2
    ensures StatusOf(st, deadline, now).fan != "不明"
  {
    TempStringRoundTrip(st.tempX2);
  }
}
