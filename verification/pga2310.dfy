/** The PGA2310 family of SPI volume controls, seen through the IIO
    hardware-gain attribute.  A gain is written as dB in integer and
    micro units, kept per channel as an 8-bit code (0 is mute, each step
    is 0.5 dB, 192 is 0 dB), and sent to the chip as one byte per channel
    in a single SPI transfer. */
module Pga2310 {
  import opened Common

  /** Gain in tenths of a dB of code 0 (mute) and of the largest code. */
  const MuteTenths: int := -960
  const MaxTenths: int := 315

  /** `enum pga2310_supported_devices`: the two register layouts. */
  datatype Chip = Pga2310 | Pga4311

  /** IIO info masks the handlers tell apart. */
  datatype InfoMask = HardwareGain | OtherInfo

  /** Value formats handed back to the IIO core. */
  datatype ValFormat = IntMinusMicro | IntMinusMicroDb

  /** One device: its chip, the stored code of every channel, and the SPI
      transmit buffer.  The source keeps four-byte arrays of which only the
      first `num_channels` entries are ever read; the model keeps exactly
      those. */
  datatype Amp = Amp(chip: Chip, volume: seq<byte>, txBuf: seq<byte>)

  datatype WriteOutcome = WriteOutcome(after: Amp, ret: int, frame: Option<seq<byte>>)

  datatype ReadOutcome = ReadOk(format: ValFormat, integer: int, fractional: int) | ReadErr(ret: int)

  /** `pga2310_chip_infos`: channel count of each layout. */
  function NumChannels(chip: Chip): nat {
    match chip
    case Pga2310 => 2
    case Pga4311 => 4
  }

  /** `pga2310_id`: SPI device names and the layout each one uses. */
  const IdTable: seq<(string, Chip)> :=
    [("pga2310", Pga2310), ("pga2311", Pga2310), ("pga2320", Pga2310), ("pga4311", Pga4311)]

  /** The layout of a device name, if the name is in the id table. */
  function LookupId(name: string): (c: Option<Chip>)
    ensures c.Some? <==> exists i :: 0 <= i < |IdTable| && IdTable[i].0 == name
    ensures c.Some? ==> exists i :: 0 <= i < |IdTable| && IdTable[i] == (name, c.value)
  {
    LookupFrom(name, 0)
  }

  function LookupFrom(name: string, i: nat): (c: Option<Chip>)
    requires i <= |IdTable|
    ensures c.Some? <==> exists j :: i <= j < |IdTable| && IdTable[j].0 == name
    ensures c.Some? ==> exists j :: i <= j < |IdTable| && IdTable[j] == (name, c.value)
    decreases |IdTable| - i
  {
    if i == |IdTable| then None
    else if IdTable[i].0 == name then Some(IdTable[i].1)
    else LookupFrom(name, i + 1)
  }

  predicate Valid(a: Amp) {
    |a.volume| == NumChannels(a.chip) && |a.txBuf| == NumChannels(a.chip)
  }

  /** The device state probe leaves behind: every channel muted. */
  function Probed(chip: Chip): (a: Amp)
    ensures Valid(a) && a.chip == chip
    ensures forall i :: 0 <= i < |a.volume| ==> a.volume[i] == 0
  {
    Amp(chip, seq(NumChannels(chip), _ => 0), seq(NumChannels(chip), _ => 0))
  }

  /** pga2310, pga2311 and pga2320 get two channels, pga4311 four, and a
      freshly probed device of any of them is muted on every channel. */
  lemma ProbeTable(name: string)
    requires LookupId(name).Some?
    ensures var a := Probed(LookupId(name).value);
      && (name == "pga4311" ==> |a.volume| == 4)
      && (name in {"pga2310", "pga2311", "pga2320"} ==> |a.volume| == 2)
      && (forall i :: 0 <= i < |a.volume| ==> a.volume[i] == 0)
  {
    var c := LookupId(name).value;
    var i :| 0 <= i < |IdTable| && IdTable[i] == (name, c);
    assert IdTable[3].0 == "pga4311";
    assert IdTable[0].0 == "pga2310" && IdTable[1].0 == "pga2311" && IdTable[2].0 == "pga2320";
  }

  /** `pga2310_write`: copy every channel's code into the transmit buffer
      and send that buffer, one byte per channel, in channel order. */
  method SpiWrite(a: Amp) returns (after: Amp, frame: seq<byte>)
    requires Valid(a)
    ensures Valid(after)
    ensures after.chip == a.chip && after.volume == a.volume
    ensures frame == a.volume && after.txBuf == frame
  {
    var tx := a.txBuf;
    var i := 0;
    while i < NumChannels(a.chip)
      invariant i <= NumChannels(a.chip) && |tx| == NumChannels(a.chip)
      invariant tx[..i] == a.volume[..i]
    {
      tx := tx[i := a.volume[i]];
      i := i + 1;
    }
    after := a.(txBuf := tx);
    frame := tx[..NumChannels(a.chip)];
  }

  /** `write_raw`'s conversion of dB (integer, micro) to tenths of a dB,
      with C's truncating division. */
  function GainTenths(integer: int, fractional: int): (code: int)
    // the micro part contributes whole tenths, truncated toward zero
    ensures fractional >= 0 ==> 0 <= fractional - (code - integer * 10) * 100000 < 100000
    ensures fractional < 0 ==> -100000 < fractional - (code - integer * 10) * 100000 <= 0
  {
    integer * 10 + CDiv(fractional, 100000)
  }

  predicate InRange(code: int) {
    MuteTenths <= code <= MaxTenths
  }

  /** The 8-bit code for an accepted gain: half-dB steps up from mute.
      A gain between two steps is rounded down. */
  function CodeOf(code: int): (v: byte)
    requires InRange(code)
    ensures 5 * v <= code - MuteTenths < 5 * v + 5
    ensures code == MaxTenths ==> v == 255
    ensures code == MuteTenths ==> v == 0
  {
    (code - MuteTenths) / 5
  }

  /** `pga2310_write_raw`.  `spiStatus` is what the SPI transfer returns.
      C int overflow is outside the model: `integer * 10`, `fractional` and
      `integer * 10 + fractional / 100000` must each fit a 32-bit `int`. */
  method WriteRaw(a: Amp, channel: nat, integer: int, fractional: int, mask: InfoMask, spiStatus: int)
    returns (o: WriteOutcome)
    requires Valid(a) && channel < NumChannels(a.chip)
    requires IsInt32(integer * 10) && IsInt32(fractional) && IsInt32(GainTenths(integer, fractional))
    ensures Valid(o.after) && o.after.chip == a.chip
    // out of the gain range, or not a gain: rejected, nothing changes, nothing sent
    ensures !InRange(GainTenths(integer, fractional)) || mask != HardwareGain ==>
      o == WriteOutcome(a, -EINVAL, None)
    // an accepted gain changes only its own channel and sends every channel
    ensures InRange(GainTenths(integer, fractional)) && mask == HardwareGain ==>
      && o.after.volume[channel] == CodeOf(GainTenths(integer, fractional))
      && (forall i :: 0 <= i < |a.volume| && i != channel ==> o.after.volume[i] == a.volume[i])
      && o.frame == Some(o.after.volume)
      && o.ret == spiStatus
  {
    var code := GainTenths(integer, fractional);
    if code < MuteTenths || code > MaxTenths {
      return WriteOutcome(a, -EINVAL, None);
    }
    var v := CodeOf(code);
    match mask
    case HardwareGain =>
      var stored := a.(volume := a.volume[channel := v]);
      var after, frame := SpiWrite(stored);
      o := WriteOutcome(after, spiStatus, Some(frame));
    case OtherInfo =>
      o := WriteOutcome(a, -EINVAL, None);
  }

  /** `pga2310_to_frac`: a code as dB in integer and micro units.  The
      integer part is truncated toward zero and the micro part is reported
      without sign, so a negative gain reads as integer minus micro. */
  function ToFrac(v: byte): (r: (int, int))
    ensures r.1 == 0 || r.1 == 500000
    ensures r.1 == 0 <==> v % 2 == 0
    ensures 5 * v + MuteTenths >= 0 ==> r.0 * 10 + r.1 / 100000 == 5 * v + MuteTenths
    ensures 5 * v + MuteTenths < 0 ==> r.0 * 10 - r.1 / 100000 == 5 * v + MuteTenths
  {
    var code := 5 * v - 960;
    var integer := CDiv(code, 10);
    var diff := (code - integer * 10) * 100000;
    (integer, if diff < 0 then -diff else diff)
  }

  /** The two ends of the code range: mute reads as -96 dB, code 255 as
      +31.5 dB (the top of the accepted range, not the 35.5 dB of the
      comment beside the range check). */
  lemma ToFracEnds()
    ensures ToFrac(0) == (-96, 0)
    ensures ToFrac(192) == (0, 0)
    ensures ToFrac(255) == (31, 500000)
  {
  }

  /** `pga2310_read_raw`: the stored gain of one channel; any other info
      mask is rejected.  Reading changes nothing (there is no state in the
      result). */
  function ReadRaw(a: Amp, channel: nat, mask: InfoMask): (r: ReadOutcome)
    requires Valid(a) && channel < NumChannels(a.chip)
    ensures mask == HardwareGain <==> r.ReadOk?
    ensures r.ReadErr? ==> r.ret == -EINVAL
    ensures r.ReadOk? ==> r.format == IntMinusMicroDb && (r.integer, r.fractional) == ToFrac(a.volume[channel])
  {
    match mask
    case HardwareGain =>
      var (integer, fractional) := ToFrac(a.volume[channel]);
      ReadOk(IntMinusMicroDb, integer, fractional)
    case OtherInfo => ReadErr(-EINVAL)
  }

  /** `pga2310_write_raw_get_fmt`: written values are parsed as integer
      and micro parts, for every channel and mask. */
  function WriteRawFormat(channel: nat, mask: InfoMask): (f: ValFormat)
    ensures f == IntMinusMicro
  {
    IntMinusMicro
  }

  /** Any gain that is a whole number of half-dB steps inside the range,
      once stored, reads back as exactly that gain (for a negative gain the
      micro part is subtracted). */
  lemma {:induction false} StoredGainReadsBack(code: int)
    requires InRange(code) && code % 5 == 0
    ensures var (integer, fractional) := ToFrac(CodeOf(code));
      if code >= 0 then integer * 10 + fractional / 100000 == code
      else integer * 10 - fractional / 100000 == code
  {
    var v := CodeOf(code);
    assert 5 * v + MuteTenths == code;
  }

  /** Writing back what `to_frac` reports through `write_raw`'s formula
      reproduces the stored code exactly when the gain is not negative or
      falls on a whole dB.  An odd code below 192 (a negative gain ending
      in .5 dB) comes back two steps higher, because the micro part is
      reported without its sign. */
  lemma {:induction false} ReadWriteRoundTrip(v: byte)
    ensures var (integer, fractional) := ToFrac(v);
      && InRange(GainTenths(integer, fractional))
      && (CodeOf(GainTenths(integer, fractional)) == v <==> (v >= 192 || v % 2 == 0))
      && (v < 192 && v % 2 == 1 ==> CodeOf(GainTenths(integer, fractional)) == v + 2)
  {
    var (integer, fractional) := ToFrac(v);
    assert CDiv(fractional, 100000) == fractional / 100000;
    var code := GainTenths(integer, fractional);
    if v % 2 == 0 {
      assert code == 5 * v + MuteTenths;
    } else if v >= 192 {
      assert code == 5 * v + MuteTenths;
    } else {
      assert code == 5 * v + MuteTenths + 10;
    }
  }
}
