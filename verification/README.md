# ESP32 smart-home controller: verified model of the IR engine

This project is a Dafny model of the control engine in
`firmware/src/main.cpp` of an ESP32 smart-home controller. The engine drives
a Daikin air conditioner and a Panasonic ceiling light over an infrared LED.

- **Daikin frame builder** (`daikin.dfy`). It covers the three 39-byte
  templates (COOL, HEAT, OFF). It covers `sum8` with its 16-bit accumulator
  and `fixDaikinChecksums`, which sets byte 19 over bytes 0..18 and byte 38
  over bytes 20..37. It also covers the run frame `buildAndSendRun` builds:
  the template patched at byte 26 with the clamped temperature and at byte 28
  with the fan code.
- **Raw waveform encoder** (`waveform.dfy`). `RawBuffer` is the static
  800-entry `rawBuffer` with its `rawIdx` cursor. `addByteToBuffer` and
  `send39BytesRawOnce` fill it in place, least-significant bit first, as two
  IR frames. A decoder shows that the bytes can be read back from the
  waveform.
- **AC state and handlers** (`ac_state.dfy`, `controller.dfy`). The global
  `ac3F` and `offDeadlineMs` are the fields of the `Firmware` class.
  - The `/api/ac3` handler works over arguments that are already parsed.
  - The first argument present decides: mode, tempStep, fan, power = 0,
    timerMin, timerCancel, otherwise "Bad Request".
  - `HandleAc3Api` is proved against the Dafny function `Api`. The mode,
    tempStep, fan and timerMin branches are separate methods, and the power
    branch is `SendOffNow`, proved against `OffNow`.
  - The off-timer check of `loop()` is a method proved against `Tick`. It
    uses the signed 64-bit difference of the wrapping clock.
- **Status projection** (`status.dfy`). This is what `handleAC3State`
  reports: the mode name, the temperature text, the fan display name and the
  time left on the timer.
- **Panasonic light player** (`light.dfy`). It covers `sendFrames`,
  `light_on`, `light_night`, `light_off` and the `cmd` dispatch of
  `handleLightApi`.
- **The LED and `delay()`** (`ir_led.dfy`). Both are foreign calls. They are
  recorded, in order, in a ghost log of `Send(pulses, kHz)` and `Wait(ms)`
  events, and every emitting method states exactly what it appends.

Machine widths are written out explicitly:

- `uint8_t` bytes, `uint16_t` durations, `int` arguments and `uint64_t`
  timestamps are the subset types of `units.dfy`.
- The `uint16_t` checksum accumulator, which wraps at 2^16, is
  `Daikin.Acc16`.
- The `uint64_t` deadline sum, which wraps at 2^64, is
  `Controller.ArmedDeadline`.
- The `(int64_t)` reinterpretation in the timer check is
  `Controller.SignedDiff`.
- C++ integer division, which truncates toward zero, is `Status.TruncDiv`
  and `Status.TruncRem`.

Three behaviours of the code are easy to miss:

- The encoded message has 324 + 308 = 632 entries (main.cpp:113-120).
- An unrecognised `mode` token still powers the unit on and transmits the
  current settings (main.cpp:259-266).
- An unrecognised `fan` token leaves the fan code unchanged, but the
  settings are still retransmitted when the unit is on (main.cpp:282-290).

## Model

| member | source | states |
|---|---|---|
| IrLed.Led.constructor | firmware/src/main.cpp:23-24 | the transmitter starts with an empty log |
| IrLed.Led.SendRaw | firmware/src/main.cpp:189-191 | one `sendRaw` call appends exactly one Send event with the pulses and carrier |
| IrLed.Led.Delay | firmware/src/main.cpp:197-204 | one `delay` call appends exactly one Wait event |
| AcState.ClampTempX2 | firmware/src/main.cpp:138-141 | the result is in [36, 64], equals the input when that is in range, and is the in-range value nearest to the input |
| AcState.FanToken | firmware/src/main.cpp:282-288 | a code is produced exactly for auto, quiet and 1..5, and it is one of the seven fan codes |
| AcState.InitialStateValid | firmware/src/main.cpp:70 | the start-up state {off, 55, heat, 0xA0} satisfies the domain invariant |
| Daikin.Acc16 | firmware/src/main.cpp:97-101 | the `uint16_t` accumulator always stays below 2^16 |
| Daikin.Sum8 | firmware/src/main.cpp:97-101 | `sum8` is the exact byte sum modulo 256, whatever the length |
| Daikin.SumBound | firmware/src/main.cpp:97-101 | n bytes sum to at most 255·n |
| Daikin.Acc16Exact | firmware/src/main.cpp:97-101 | for up to 257 bytes the 16-bit accumulator never wraps and equals the exact sum |
| Daikin.Sum8IsSumMod256 | firmware/src/main.cpp:97-101 | the low byte of the wrapping 16-bit accumulator is the exact sum of the bytes modulo 256, for any length, wrap or not |
| Daikin.WithChecksums | firmware/src/main.cpp:103-106 | after the fix both checksums are valid and every other byte is unchanged |
| Daikin.ChecksumsValidIsFixedPoint | firmware/src/main.cpp:103-106 | the fix leaves a frame unchanged exactly when its checksums are already valid |
| Daikin.WithChecksumsIdempotent | firmware/src/main.cpp:103-106 | fixing twice is fixing once |
| Daikin.FixChecksums | firmware/src/main.cpp:103-106 | the in-place fix leaves the buffer equal to WithChecksums of its old contents |
| Daikin.CoolTemplateChecksums | firmware/src/main.cpp:43-46 | COOL_TEMPLATE carries valid checksums 0xAB and 0x44 |
| Daikin.HeatTemplateChecksums | firmware/src/main.cpp:48-51 | HEAT_TEMPLATE carries valid checksums 0xC7 and 0x59 |
| Daikin.OffTemplateChecksums | firmware/src/main.cpp:53-56 | OFF_TEMPLATE carries valid checksums 0x26 and 0xF3, so it can be sent unpatched |
| Daikin.RunFrame | firmware/src/main.cpp:144-158 | the run frame has valid checksums, the clamped temperature at byte 26 and the fan code at byte 28; every other byte is the mode's template byte |
| Daikin.BuildRunFrame | firmware/src/main.cpp:147-155 | copying the template into an array, clamping, patching and fixing in place yields RunFrame |
| Daikin.CoolDefaultRunFrame | firmware/src/main.cpp:144-158 | cool at tempX2 48 with the automatic fan gives COOL_TEMPLATE byte for byte, with 0x30 at byte 26 |
| Daikin.RunFrameDependsOnSettings | firmware/src/main.cpp:144-158 | the run frame depends only on the mode, the clamped temperature and the fan code |
| Waveform.Bit | firmware/src/main.cpp:92 | `(b >> i) & 1` is 0 or 1 |
| Waveform.BitPairs | firmware/src/main.cpp:90-93 | after i iterations the loop has written 2i entries |
| Waveform.ByteWave | firmware/src/main.cpp:89-94 | one byte takes 16 entries |
| Waveform.BytesWave | firmware/src/main.cpp:114 | n bytes take 16·n entries |
| Waveform.Wave | firmware/src/main.cpp:109-121 | the encoded message has 632 entries, fits the 800-entry buffer, and the first frame ends with the 35000 gap and the second with a 0 space |
| Waveform.BitPairsAt | firmware/src/main.cpp:90-93 | pair i of the loop is the bit mark, then the space for bit i |
| Waveform.ByteWaveAt | firmware/src/main.cpp:89-94 | entry 2i of a byte is 430, and entry 2i+1 is 1300 exactly when bit i is set (else 430) |
| Waveform.BytesWaveAt | firmware/src/main.cpp:114 | byte j of a run occupies entries 16j..16j+15 |
| Waveform.WaveLayout | firmware/src/main.cpp:109-121 | 632 = 324 + 308 entries, within the 800-entry buffer; headers at 0-1 and 324-325, trailers 430/35000 at 322-323 and 430/0 at 630-631; bytes 0..19 fill 2..321 and bytes 20..38 fill 326..629 |
| Waveform.FrameWaveBitAt | firmware/src/main.cpp:112-115 | where each bit of each byte lands within one IR frame |
| Waveform.WaveBitAt | firmware/src/main.cpp:109-121 | where each bit of each of the 39 bytes lands in the whole waveform |
| Waveform.DecodeBitPairs | firmware/src/main.cpp:89-94 | reading the first n spaces back gives the low n bits of the byte |
| Waveform.DecodeByteWave | firmware/src/main.cpp:89-94 | a byte is recovered from the 16 entries appended for it |
| Waveform.DecodeBytesWave | firmware/src/main.cpp:114-119 | a run of bytes is recovered from its entries |
| Waveform.DecodeWaveRoundTrip | firmware/src/main.cpp:109-121 | the whole 39-byte frame is recovered from the 632-entry waveform |
| Waveform.RawBuffer.constructor | firmware/src/main.cpp:36-37 | the buffer has 800 entries and the cursor starts at 0 |
| Waveform.RawBuffer.PutPair | firmware/src/main.cpp:91-92 | two `rawBuffer[rawIdx++]` writes append the mark and the space |
| Waveform.RawBuffer.AddByte | firmware/src/main.cpp:89-94 | `addByteToBuffer` advances the cursor by 16 and appends exactly ByteWave(b) |
| Waveform.RawBuffer.AddBytes | firmware/src/main.cpp:114 | the byte loop appends the bytes' entries in order |
| Waveform.RawBuffer.AddFrame | firmware/src/main.cpp:112-115 | one frame appends header, bytes, trailing mark and the given space |
| Waveform.RawBuffer.Encode | firmware/src/main.cpp:109-121 | after the cursor reset the buffer holds exactly Wave(data) and the cursor is 632 |
| Light.SendIfPresent | firmware/src/main.cpp:200-201 | an optional frame is delayed 40 ms and sent only when non-null and non-empty |
| Light.PlayRound | firmware/src/main.cpp:199-202 | one round appends f1, the present extra frames and the 100 ms gap |
| Light.PlayTrace | firmware/src/main.cpp:193-205 | a play has 2 + n·(round length) events for n = max(repeats, 0): the 30 ms settle first, the 50 ms tail last, and frame 1 right after the settle when there is a round |
| Light.SendFrames | firmware/src/main.cpp:193-205 | the log grows by PlayTrace: 30 ms, max(repeats, 0) rounds, then 50 ms |
| Light.RoundCounts | firmware/src/main.cpp:198-203 | one round sends 1 + k frames and waits 40·k + 100 ms, k being the present extra frames |
| Light.RoundsCounts | firmware/src/main.cpp:198-203 | n rounds send n(1 + k) frames and wait n(40k + 100) ms |
| Light.PlayTraceCounts | firmware/src/main.cpp:193-205 | a play sends n(1 + k) frames and waits 30 + n(40k + 100) + 50 ms |
| Light.RoundsAt | firmware/src/main.cpp:198-203 | round r occupies its own slice of the trace and is exactly one round |
| Light.EveryRoundSendsFirstFrame | firmware/src/main.cpp:198-199 | every round starts by sending f1 |
| Light.RoundsSendOnly | firmware/src/main.cpp:198-203 | only f1 and the present extra frames are ever sent |
| Light.SceneOf | firmware/src/main.cpp:326-341 | a scene is chosen exactly for the commands on, night and off, and that scene's name is the command |
| Light.SceneOfName | firmware/src/main.cpp:330-339 | each scene is selected by its own name |
| Light.SceneTrace | firmware/src/main.cpp:207-209 | the ON play has 38 events and NIGHT and OFF 26; each starts with the settle delay and then the scene's first frame, and ends with the tail delay |
| Light.SceneCounts | firmware/src/main.cpp:207-209 | ON sends 18 frames with 1160 ms of delays; NIGHT and OFF send 12 with 920 ms |
| Light.TwoFrameScenesSendOnlyTheirFrames | firmware/src/main.cpp:208-209 | NIGHT and OFF never send a third frame |
| Light.PlayScene | firmware/src/main.cpp:207-209 | each scene appends its trace with repeat count 6 |
| Light.HandleLightApi | firmware/src/main.cpp:325-343 | a known command plays its scene with status 200; a missing or unknown one sends nothing with status 400 |
| Status.NatToString | firmware/src/main.cpp:236 | the decimal text is non-empty, all digits, and has no leading zero |
| Status.ParseNatToString | firmware/src/main.cpp:242 | the decimal text reads back as the number |
| Status.ModeName | firmware/src/main.cpp:235 | the mode reads "heat" exactly for heating and "cool" exactly for cooling |
| Status.TempString | firmware/src/main.cpp:236 | the text ends in a '.' followed by '5' exactly when the setting is an odd number of half degrees and by '0' otherwise; that the prefix is the whole degrees is TempStringRoundTrip, for non-negative settings |
| Status.TempStringRoundTrip | firmware/src/main.cpp:236 | the temperature text of any non-negative setting reads back as that setting |
| Status.FanName | firmware/src/main.cpp:126-135 | the name is "不明" exactly for a byte that is not one of the seven codes |
| Status.FanNameOfToken | firmware/src/main.cpp:126-135 | a fan set by token shows under that token's name |
| Status.FanNameInjective | firmware/src/main.cpp:126-135 | different fan codes show different names |
| Status.TimerLeft | firmware/src/main.cpp:239-243 | "--" exactly when disarmed, "0s" when the deadline is not after now, else digits reading back as (deadline − now)/1000 with no leading zero, then "s" |
| Status.StatusOf | firmware/src/main.cpp:234-243 | the power flag is reported as is, the mode reads "heat" exactly for heating and "cool" exactly for cooling, and the timer reads "--" exactly when disarmed |
| Status.StatusReadsBack | firmware/src/main.cpp:234-243 | in any valid state the temperature text reads back exactly and the fan name is a known one |
| Controller.StatusCode | firmware/src/main.cpp:256-322 | only a rejected timer and a bad request answer 400; every other branch answers 200 |
| Controller.AcSends | firmware/src/main.cpp:122 | each AC frame goes out as its waveform at 38 kHz, one Send per frame |
| Controller.SignedDiff | firmware/src/main.cpp:398 | the signed reading lies in [−2^63, 2^63) and is congruent to now − deadline modulo 2^64 |
| Controller.OffNow | firmware/src/main.cpp:161-165 | one frame goes out and its checksums are valid; afterwards the unit is off and disarmed, its mode, temperature and fan code are kept, and the domain invariant still holds |
| Controller.ArmedDeadline | firmware/src/main.cpp:310 | the deadline lies mins·60000 ms after now, modulo 2^64 |
| Controller.Api | firmware/src/main.cpp:256-322 | the answer is Bad Request exactly when no branch's argument is present; a frame goes out exactly for a mode request, for a tempStep or fan request while on, or for power=0; only the power, timerMin and timerCancel branches change the deadline |
| Controller.Due | firmware/src/main.cpp:396-400 | the tick is due exactly when armed and the wrapped difference now − deadline is below 2^63 |
| Controller.Tick | firmware/src/main.cpp:396-400 | a poll transmits exactly when the deadline is due, and then only OFF_TEMPLATE; it changes no AC setting other than the power flag, and a poll that is not due changes nothing at all |
| Controller.Firmware.constructor | firmware/src/main.cpp:63-86 | start-up state: off, 27.5 degrees, heat, automatic fan, timer disarmed |
| Controller.Firmware.Send39BytesRawOnce | firmware/src/main.cpp:109-123 | sends exactly the frame's waveform at 38 kHz |
| Controller.Firmware.ClampTemp | firmware/src/main.cpp:138-141 | only the temperature changes, to its clamp |
| Controller.Firmware.BuildAndSendRun | firmware/src/main.cpp:144-158 | nothing is sent when off; otherwise exactly the run frame of the state |
| Controller.Firmware.SendOffNow | firmware/src/main.cpp:161-165 | sends OFF_TEMPLATE, then the unit is off and the timer disarmed |
| Controller.Firmware.ApplyMode | firmware/src/main.cpp:257-268 | the mode branch leaves the state and the log as `Settle` of `ModeCommand` gives, which is Api's mode branch; ModeRequest states what that is: power on, heat 55 or cool 48 for a known token, one run frame sent |
| Controller.Firmware.ApplyTempStep | firmware/src/main.cpp:271-277 | the tempStep branch leaves the state and the log as `Settle` of `TempCommand` gives, which is Api's tempStep branch; TempStepRequest states what that is: ±1 half-degree clamped to [36, 64], the run frame sent exactly when on |
| Controller.Firmware.ApplyFan | firmware/src/main.cpp:280-292 | the fan branch leaves the state and the log as `Settle` of `FanCommand` gives, which is Api's fan branch; FanRequest states what that is: a known token sets its code, an unknown one keeps it, the run frame sent exactly when on |
| Controller.Firmware.SetFan | firmware/src/main.cpp:282-288 | the token chain sets the fan code of a known token and otherwise changes nothing |
| Controller.Firmware.ApplyTimer | firmware/src/main.cpp:304-313 | the timerMin branch rejects a non-positive value and otherwise arms the deadline; the settings are untouched |
| Controller.Firmware.HandleAc3Api | firmware/src/main.cpp:256-322 | the handler's new state, answer and transmissions are those of Api |
| Controller.Firmware.LightApi | firmware/src/main.cpp:325-343 | the light API emits through the same LED log as the AC frames: a known command appends its scene trace with status 200, otherwise nothing with status 400 |
| Controller.Firmware.Ac3State | firmware/src/main.cpp:234-243 | the status answer is StatusOf the current state and clock |
| Controller.Firmware.Loop | firmware/src/main.cpp:395-401 | the polled check's new state and transmissions are those of Tick |
| Controller.ApiKeepsInvariant | firmware/src/main.cpp:256-322 | every request keeps the temperature in [36, 64] and the fan code among the seven codes |
| Controller.ModeCommandValid | firmware/src/main.cpp:257-266 | the mode command keeps the domain invariant |
| Controller.TickKeepsInvariant | firmware/src/main.cpp:395-401 | the timer check keeps the domain invariant |
| Controller.ValidFanNonZero | firmware/src/main.cpp:263 | in a valid state the fan code is never 0, so the default repair never fires |
| Controller.ModeRequest | firmware/src/main.cpp:257-268 | a mode request always powers on and sends one run frame; heat sets 55 and cool sets 48; any other token changes only powerOn |
| Controller.TempStepRequest | firmware/src/main.cpp:271-277 | tempStep moves the setting by +1 for a positive step and by −1 otherwise, clamped to [36, 64]; nothing else changes; it transmits the run frame of the new settings exactly when on |
| Controller.FanRequest | firmware/src/main.cpp:280-292 | a known token sets its code, an unknown token keeps the state; either retransmits exactly when on |
| Controller.PowerRequest | firmware/src/main.cpp:295-302 | power=0 sends OFF_TEMPLATE, turns off and disarms; any other power value behaves as if absent |
| Controller.TimerRequest | firmware/src/main.cpp:304-321 | timerMin ≤ 0 answers 400 with the state unchanged; a positive value arms the deadline; timerCancel disarms; no arguments answer Bad Request unchanged; none transmits |
| Controller.ArmedDeadlineExact | firmware/src/main.cpp:310 | with a 32-bit clock the deadline is exactly now + mins·60000 and never 0 |
| Controller.DueAfter | firmware/src/main.cpp:398 | a deadline dur ms after t is due at t + e exactly when e ≥ dur, across 64-bit wrap-around |
| Controller.TimerFiresAfterMinutes | firmware/src/main.cpp:395-401 | a timer armed for m minutes fires on a poll at least m·60000 ms later and not before |
| Controller.DueNextMillisecond | firmware/src/main.cpp:398 | a deadline at 1001 is not due at 1000 but is due at 1001 and 1002 |
| Controller.TickFiresOnce | firmware/src/main.cpp:395-401 | a disarmed timer never fires; a firing sends OFF_TEMPLATE, turns off and disarms, so later polls send nothing |
| Controller.QuietPollsSkip | firmware/src/main.cpp:395-401 | polls at which the timer is not due change no state and send nothing, so a run that starts with them continues exactly as without them |
| Controller.TimerFiresInRun | firmware/src/main.cpp:395-401 | a timer armed for m minutes survives any number of polls made less than m·60000 ms after arming, and the first poll at least m·60000 ms after arming sends OFF_TEMPLATE, turns off and disarms |
| Controller.FeedSendsWellFormed | firmware/src/main.cpp:256-322 | one request or poll keeps the invariant and sends only well-formed frames |
| Controller.RunKeepsInvariant | firmware/src/main.cpp:256-322 | any sequence of requests and polls from a valid state keeps the invariant; every frame sent has valid checksums and is OFF_TEMPLATE or carries an in-range temperature and a known fan code |
| Controller.BootRunsWellFormed | firmware/src/main.cpp:70 | the same holds for every run from start-up |

## Left out

- WiFi, static IP and `setup()`: network I/O.
- The HTTP layer: routing, `server.send`, the text of answers and the JSON
  text. Handlers return an answer kind (`Ack`) or a status code, and the
  status record holds the JSON field values.
- LittleFS static files (`serveFile`, `contentType`): file I/O.
- `String::toInt` and `toFloat`. Arguments arrive already parsed: tokens as
  strings, `tempStep` as a real number, and `power`/`timerMin` as 32-bit
  integers.
- `irsend.sendRaw` and `delay()` are foreign calls. They are recorded as log
  events; hardware timing is not modelled.
- `millis()` is a `uint64_t` parameter. The width of the real clock and the
  `volatile` qualifier are not modelled. `ArmedDeadlineExact` assumes a
  32-bit clock.
- The light pulse tables are constant sequences. Only whether each frame is
  present and non-empty matters to the logic.
- `web/app.js`: browser UI only.
- Controller.ApplyTimer and Controller.HandleAc3Api: `timerMin` is
  multiplied by 60000 in unbounded arithmetic and then reduced modulo 2^64.
  This agrees with the C++ for every 32-bit positive value.
- Status.TempStringRoundTrip: round-trip only for non-negative settings.
  Reachable settings are 36..64.
