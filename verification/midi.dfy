/** The BCM2708 serial MIDI output path: a 128-byte kfifo filled by the
    rawmidi trigger callback and drained, up to eight bytes per interrupt,
    into UART1 by the transmit-interrupt handler.

    Every handler is one atomic transition of a `Midi` state.  Register
    writes become state changes: writing UART1IER arms or disarms the
    transmit interrupt, writing UART1IO appends a byte to `uart`. */
module Bcm2708Midi {
  import opened Common

  /** Capacity of the kfifo. */
  const FifoSize: nat := 128
  /** Bytes moved per transmit interrupt (size of the handler's `data[8]`). */
  const TxChunk: nat := 8
  const MidiBaudRate: nat := 31250
  const Uart1Clock: nat := 250000000

  /** Driver state.
      - `fifo`: the kfifo contents, oldest byte first;
      - `armed`: whether the UART1 transmit interrupt is enabled;
      - `uart`: every byte ever written to the UART1 data register;
      - `enqueued`, `drained`: history since the last `open` of the bytes
        put into and taken out of the fifo (bookkeeping for the FIFO law,
        not driver memory). */
  datatype Midi = Midi(fifo: seq<byte>, armed: bool, uart: seq<byte>,
                       enqueued: seq<byte>, drained: seq<byte>)

  /** What trigger reports through `dev_err`. */
  datatype Report = Quiet | Dropout | Lost(count: nat)

  /** Result of one trigger call: the new state, the report, and how many
      bytes the rawmidi layer was asked for (`None`: it was not asked). */
  datatype TriggerOutcome = TriggerOutcome(after: Midi, report: Report, request: Option<nat>)

  /** The invariant of every reachable state: the kfifo never holds more
      than its capacity; a non-empty fifo has the transmit interrupt armed,
      so no queued byte is stranded; since the last open, what was drained
      followed by what is still queued is exactly what was enqueued; and
      what was drained is the tail of the UART output. */
  predicate Inv(m: Midi) {
    && |m.fifo| <= FifoSize
    && (m.fifo != [] ==> m.armed)
    && m.drained + m.fifo == m.enqueued
    && |m.drained| <= |m.uart|
    && m.uart[|m.uart| - |m.drained|..] == m.drained
  }

  /** The state right after probe: empty fifo, nothing sent yet.  The
      interrupt-enable register is not written by probe, so its state is a
      parameter. */
  function Loaded(armed: bool): (m: Midi)
    ensures Inv(m) && m.fifo == [] && m.armed == armed && m.uart == []
  {
    Midi([], armed, [], [], [])
  }

  /** `kfifo_avail`: free space left in the fifo. */
  function Avail(m: Midi): (n: nat)
    requires |m.fifo| <= FifoSize
    ensures n + |m.fifo| == FifoSize
    ensures n == 0 <==> |m.fifo| == FifoSize
  {
    FifoSize - |m.fifo|
  }

  /** `bcm2708_midi_activate_irq`: enable the transmit interrupt. */
  function ActivateIrq(m: Midi): (r: Midi)
    ensures r.armed
    ensures r.(armed := m.armed) == m
  {
    m.(armed := true)
  }

  /** `bcm2708_midi_deactivate_irq`: disable the transmit interrupt. */
  function DeactivateIrq(m: Midi): (r: Midi)
    ensures !r.armed
    ensures r.(armed := m.armed) == m
  {
    m.(armed := false)
  }

  /** Arming and disarming are idempotent, and each undoes the other's
      effect on the flag without touching anything else. */
  lemma IrqGateIdempotent(m: Midi)
    ensures ActivateIrq(ActivateIrq(m)) == ActivateIrq(m)
    ensures DeactivateIrq(DeactivateIrq(m)) == DeactivateIrq(m)
    ensures ActivateIrq(DeactivateIrq(m)) == ActivateIrq(m)
    ensures m.armed ==> ActivateIrq(m) == m
  {
  }

  /** `bcm2708_midi_transmit`: write the first `num` bytes of `data` to the
      UART data register, one at a time. */
  method Transmit(uart: seq<byte>, data: seq<byte>, num: nat) returns (out: seq<byte>)
    requires num <= |data|
    ensures out == uart + data[..num]
  {
    out := uart;
    var i := 0;
    while i < num
      invariant i <= num
      invariant out == uart + data[..i]
    {
      out := out + [data[i]];
      i := i + 1;
    }
  }

  /** `bcm2708_midi_interrupt`: on a non-empty fifo move up to eight bytes
      to the UART, otherwise disable the transmit interrupt.  The bytes
      reach the UART as `Transmit` sends them: appended in order. */
  function Interrupt(m: Midi): (r: Midi)
    // nothing is lost or reordered on the way from fifo to UART
    ensures r.uart + r.fifo == m.uart + m.fifo
    ensures r.drained + r.fifo == m.drained + m.fifo
    ensures r.enqueued == m.enqueued
    // a non-empty fifo loses exactly min(8, occupancy) bytes, the flag stays
    ensures m.fifo != [] ==> |m.fifo| - |r.fifo| == Min(TxChunk, |m.fifo|) && r.armed == m.armed
    // an empty fifo sends nothing and disarms
    ensures m.fifo == [] ==> r.uart == m.uart && r.fifo == [] && !r.armed
  {
    if m.fifo != [] then
      var get := Min(TxChunk, |m.fifo|);
      m.(fifo := m.fifo[get..], uart := m.uart + m.fifo[..get],
         drained := m.drained + m.fifo[..get])
    else
      DeactivateIrq(m)
  }

  /** `bcm2708_midi_trigger`: ask the rawmidi layer for as many bytes as
      fit, queue them and enable the transmit interrupt.  `provide(n)` is
      what the rawmidi layer hands over when asked for `n` bytes; it is not
      bounded by `n`, because the driver checks for a longer answer and
      reports the excess as lost.  A full fifo is reported as a dropout and
      nothing else happens. */
  function Trigger(m: Midi, provide: nat -> seq<byte>): (o: TriggerOutcome)
    requires |m.fifo| <= FifoSize
    ensures Avail(m) == 0 ==> o == TriggerOutcome(m, Dropout, None)
    ensures Avail(m) > 0 ==>
      var got := provide(Avail(m));
      && o.request == Some(Avail(m))
      && o.after.armed
      && o.after.uart == m.uart
      && |o.after.fifo| == |m.fifo| + Min(|got|, Avail(m))
      && o.after.fifo == m.fifo + got[..|o.after.fifo| - |m.fifo|]
      && o.after.enqueued == m.enqueued + got[..|o.after.fifo| - |m.fifo|]
      && o.after.drained == m.drained
      && (o.report == Quiet <==> |got| <= Avail(m))
      && (o.report != Quiet ==> o.report == Lost(|got| - Avail(m)))
    ensures |o.after.fifo| <= FifoSize
  {
    var av := Avail(m);
    if av == 0 then
      TriggerOutcome(m, Dropout, None)
    else
      var data := provide(av);
      var report := if av < |data| then Lost(|data| - av) else Quiet;
      var accepted := data[..Min(|data|, av)];
      var queued := m.(fifo := m.fifo + accepted, enqueued := m.enqueued + accepted);
      TriggerOutcome(ActivateIrq(queued), report, Some(av))
  }

  /** `bcm2708_midi_open`: `kfifo_reset` empties the fifo; the interrupt
      flag and the UART output are left as they were. */
  function Open(m: Midi): (r: Midi)
    ensures r.fifo == [] && r.enqueued == [] && r.drained == []
    ensures r.armed == m.armed && r.uart == m.uart
    ensures Inv(r)
  {
    m.(fifo := [], enqueued := [], drained := [])
  }

  /** `bcm2708_midi_close`: does nothing; queued bytes stay queued and
      the interrupt keeps draining them. */
  function Close(m: Midi): (r: Midi)
    ensures r.fifo == m.fifo && r.armed == m.armed && r.uart == m.uart
    ensures Inv(m) ==> Inv(r)
  {
    m
  }

  /** The four entry points of the driver. */
  datatype Step = OpenStep | CloseStep | TriggerStep(provide: nat -> seq<byte>) | InterruptStep

  function Apply(m: Midi, s: Step): Midi
    requires |m.fifo| <= FifoSize
  {
    match s
    case OpenStep => Open(m)
    case CloseStep => Close(m)
    case TriggerStep(provide) => Trigger(m, provide).after
    case InterruptStep => Interrupt(m)
  }

  /** Every handler keeps the invariant. */
  lemma ApplyKeepsInv(m: Midi, s: Step)
    requires Inv(m)
    ensures Inv(Apply(m, s))
  {
    match s
    case OpenStep =>
    case CloseStep =>
    case TriggerStep(provide) =>
      var r := Trigger(m, provide).after;
      if Avail(m) > 0 {
        var k := |r.fifo| - |m.fifo|;
        var got := provide(Avail(m));
        assert r.fifo == m.fifo + got[..k];
        assert r.drained + r.fifo == m.drained + m.fifo + got[..k];
      }
    case InterruptStep =>
      var r := Interrupt(m);
      if m.fifo != [] {
        var k := Min(TxChunk, |m.fifo|);
        assert r.drained == m.drained + m.fifo[..k];
        assert r.uart == m.uart + m.fifo[..k];
        assert r.uart[|r.uart| - |r.drained|..] == m.uart[|m.uart| - |m.drained|..] + m.fifo[..k];
      }
  }

  /** Run a sequence of handler invocations, first to last. */
  function Run(m: Midi, steps: seq<Step>): (r: Midi)
    requires Inv(m)
    ensures Inv(r)
    decreases |steps|
  {
    if steps == [] then m
    else
      ApplyKeepsInv(m, steps[0]);
      Run(Apply(m, steps[0]), steps[1..])
  }

  /** Across any sequence of open, close, trigger and interrupt calls the
      fifo never exceeds 128 bytes, and the bytes transmitted since the
      last open are a prefix of the bytes enqueued since then, in order. */
  lemma {:induction false} FifoLaw(m: Midi, steps: seq<Step>)
    requires Inv(m)
    ensures |Run(m, steps).fifo| <= FifoSize
    ensures Run(m, steps).drained <= Run(m, steps).enqueued
    ensures |Run(m, steps).enqueued| - |Run(m, steps).drained| == |Run(m, steps).fifo|
    decreases |steps|
  {
    if steps != [] {
      ApplyKeepsInv(m, steps[0]);
      FifoLaw(Apply(m, steps[0]), steps[1..]);
    }
  }

  /** Interrupts keep arriving while the gate is armed: from any state
      whose queued bytes have the interrupt armed they send the whole fifo
      to the UART in order, in chunks of eight, and the one interrupt that
      finds the fifo empty disarms.  A disarmed state has nothing queued
      and takes no interrupt. */
  method DrainUntilIdle(m: Midi) returns (r: Midi, irqs: nat)
    requires m.fifo != [] ==> m.armed
    ensures !r.armed && r.fifo == []
    ensures r.uart == m.uart + m.fifo
    ensures m.armed ==> irqs == (|m.fifo| + TxChunk - 1) / TxChunk + 1
    ensures !m.armed ==> irqs == 0
  {
    r := m;
    irqs := 0;
    while r.armed
      invariant r.uart + r.fifo == m.uart + m.fifo
      invariant !m.armed ==> r == m && irqs == 0
      invariant r.armed && r.fifo != [] ==> |m.fifo| - |r.fifo| == TxChunk * irqs
      invariant r.armed && r.fifo == [] ==> irqs == (|m.fifo| + TxChunk - 1) / TxChunk
      invariant m.armed && !r.armed ==> r.fifo == [] && irqs == (|m.fifo| + TxChunk - 1) / TxChunk + 1
      decreases |r.fifo|, r.armed
    {
      r := Interrupt(r);
      irqs := irqs + 1;
    }
  }

  /** No queued byte is ever stranded: after any sequence of handler
      calls, interrupts send everything still queued, and the UART output
      then ends with every byte enqueued since the last open, in order. */
  method DrainReachable(m: Midi, steps: seq<Step>) returns (r: Midi, irqs: nat)
    requires Inv(m)
    ensures !r.armed && r.fifo == []
    ensures r.uart == Run(m, steps).uart + Run(m, steps).fifo
    ensures |Run(m, steps).enqueued| <= |r.uart|
    ensures r.uart[|r.uart| - |Run(m, steps).enqueued|..] == Run(m, steps).enqueued
  {
    var s := Run(m, steps);
    r, irqs := DrainUntilIdle(s);
    TailAppend(s.uart, s.drained, s.fifo);
  }

  /** A tail of `u` followed by `f` is a tail of `u + f`. */
  lemma TailAppend(u: seq<byte>, d: seq<byte>, f: seq<byte>)
    requires |d| <= |u| && u[|u| - |d|..] == d
    ensures (u + f)[|u + f| - |d + f|..] == d + f
  {
    assert (u + f)[|u + f| - |d + f|..] == u[|u| - |d|..] + f;
  }

  /** An interrupt that removes the last queued bytes does not itself
      disarm; only the following one, which finds the fifo empty, does. */
  lemma LastChunkKeepsArmed(m: Midi)
    requires m.armed && 0 < |m.fifo| <= TxChunk
    ensures Interrupt(m).fifo == [] && Interrupt(m).armed
    ensures !Interrupt(Interrupt(m)).armed
    ensures Interrupt(Interrupt(m)).uart == m.uart + m.fifo
  {
  }

  /** An overrun followed by one interrupt: 200 bytes handed over to an
      empty fifo queue 128, report 72 lost and arm; one interrupt then
      sends the first eight in order and leaves 120 queued with the
      interrupt still armed. */
  lemma OverrunThenDrain(m: Midi, provide: nat -> seq<byte>)
    requires Inv(m) && m.fifo == []
    requires |provide(FifoSize)| == 200
    ensures var o := Trigger(m, provide);
      && o.report == Lost(72)
      && o.after.fifo == provide(FifoSize)[..128]
      && o.after.armed
      && Interrupt(o.after).uart == m.uart + provide(FifoSize)[..8]
      && |Interrupt(o.after).fifo| == 120
      && Interrupt(o.after).armed
  {
  }

  /** The value written to UART1BAUD in `bcm2708_midi_init`.  The mini
      UART runs at clock / (8 * (divisor + 1)) baud; this divisor gives the
      MIDI rate of 31250 baud exactly. */
  function BaudDivisor(): (d: nat)
    ensures Uart1Clock % (8 * (d + 1)) == 0
    ensures Uart1Clock / (8 * (d + 1)) == MidiBaudRate
    ensures d == 999
  {
    Uart1Clock / (MidiBaudRate * 8) - 1
  }
}
