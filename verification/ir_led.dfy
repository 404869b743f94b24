/** The infrared LED driver (`irsend.sendRaw`) and the blocking `delay()`.
    Both are foreign calls; the model records each one, in order, in a ghost
    log so that what was emitted can be specified exactly. */
module IrLed {
  import opened Units

  datatype Event =
    | Send(pulses: seq<u16>, khz: nat)  // one `sendRaw(buf, len, khz)` call
    | Wait(ms: nat)                     // one `delay(ms)` call

  class Led {
    ghost var log: seq<Event>

    constructor ()
      ensures log == []
    {
      log := [];
    }

    /** `irsend.sendRaw(pulses, |pulses|, khz)` */
    method SendRaw(pulses: seq<u16>, khz: nat)
      modifies this
      ensures log == old(log) + [Send(pulses, khz)]
    {
      log := log + [Send(pulses, khz)];
    }

    /** `delay(ms)` */
    method Delay(ms: nat)
      modifies this
      ensures log == old(log) + [Wait(ms)]
    {
      log := log + [Wait(ms)];
    }
  }
}
