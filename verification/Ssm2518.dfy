/** The SSM2518 amplifier: gain to volume byte in 16-bit arithmetic, and the mute register. */
module Ssm2518 {
  import opened Options

  type int16 = x: int | -0x8000 <= x < 0x8000

  type byte = x: int | 0 <= x < 256

  const GAIN_SCALE_NUMERATOR := 2
  const GAIN_SCALE_DENOMINATOR := 45
  const VOLUME_INTERCEPT := 64
  const GAIN_MIN_MUTE := 255
  const GAIN_MAX := 0
  const MUTE_72DB := -4320

  // ---------------------------------------------------------------- 16-bit steps

  function ToInt16(x: int): int16 {
    var low := x % 0x1_0000;
    if low < 0x8000 then low else low - 0x1_0000
  }

  /** Division towards zero, and the remainder that goes with it. */
  function TruncDiv(x: int, d: int): int
    requires d > 0
  {
    if x >= 0 then x / d else -(-x / d)
  }

  function TruncRem(x: int, d: int): int
    requires d > 0
  {
    x - d * TruncDiv(x, d)
  }

  // ---------------------------------------------------------------- the volume a gain asks for

  /** byte n is the nearest to 64 - 2*gain/45; 45 being odd there is never a tie. */
  predicate IsNearest(gain: int, n: int) {
    -22 <= 45 * (n - 64) + 2 * gain <= 22
  }

  function Nearest(gain: int): (n: int)
    ensures IsNearest(gain, n)
  {
    64 + (22 - 2 * gain) / 45
  }

  lemma NearestUnique(gain: int, n: int)
    requires IsNearest(gain, n)
    ensures n == Nearest(gain)
  {
  }

  function Clamped(n: int): byte {
    if n < 0 then 0 else if n > 255 then 255 else n
  }

  /** No step of the conversion leaves the int16 range. */
  predicate Fits(gain: int16) {
    -16383 <= gain <= 16384
  }

  /** The byte the conversion sends. Where a step overflows, the doubled gain has wrapped and
      is no longer rounded but truncated. */
  function Volume(gain: int16): byte {
    if Fits(gain) then Clamped(Nearest(gain))
    else Clamped(VOLUME_INTERCEPT + TruncDiv(ToInt16(-2 * gain), GAIN_SCALE_DENOMINATOR))
  }

  /** Truncated quotient, corrected by the sign where the remainder is over half, is the nearest. */
  lemma RoundedIsNearest(gain: int16)
    requires Fits(gain)
    ensures
      var doubled := -2 * gain;
      var sign := if gain > 0 then -1 else 1;
      var left := TruncRem(doubled, GAIN_SCALE_DENOMINATOR);
      64 + TruncDiv(doubled, GAIN_SCALE_DENOMINATOR) + (if sign * left * 2 >= GAIN_SCALE_DENOMINATOR then sign else 0)
        == Nearest(gain)
  {
    var doubled := -2 * gain;
    var sign := if gain > 0 then -1 else 1;
    var left := TruncRem(doubled, GAIN_SCALE_DENOMINATOR);
    NearestUnique(gain, 64 + TruncDiv(doubled, GAIN_SCALE_DENOMINATOR)
                        + if sign * left * 2 >= GAIN_SCALE_DENOMINATOR then sign else 0);
  }

  lemma InRange(x: int)
    requires -0x8000 <= x < 0x8000
    ensures ToInt16(x) == x
  {
  }

  /** Doubling the inverted gain: exact where it fits, of the wrong sign where it wraps. */
  lemma Doubled(gain: int16)
    ensures ToInt16(ToInt16(0 - gain) * 2) == ToInt16(-2 * gain)
    ensures ToInt16(0 - gain) < 0 <==> gain > 0 || gain == -0x8000
    ensures Fits(gain) ==> ToInt16(-2 * gain) == -2 * gain
    ensures !Fits(gain) && gain < 0 ==> ToInt16(-2 * gain) <= 0
    ensures gain == -0x8000 ==> ToInt16(-2 * gain) == 0
    ensures !Fits(gain) && gain > 0 ==> ToInt16(-2 * gain) > 0
  {
    if gain > -0x8000 {
      InRange(0 - gain);
    }
  }

  lemma Quotient(x: int16)
    ensures -729 <= TruncDiv(x, GAIN_SCALE_DENOMINATOR) <= 729
    ensures -45 < TruncRem(x, GAIN_SCALE_DENOMINATOR) < 45
    ensures x >= 0 ==> TruncRem(x, GAIN_SCALE_DENOMINATOR) >= 0
    ensures x <= 0 ==> TruncRem(x, GAIN_SCALE_DENOMINATOR) <= 0
  {
  }

  /** The conversion of the source, gain reassigned stage by stage. */
  method VolumeByte(gain0: int16) returns (volume: byte)
    ensures volume == Volume(gain0)
  {
    Doubled(gain0);
    var gain: int16 := ToInt16(0 - gain0);
    var sign := 1;
    if gain < 0 {
      sign := -1;
    }
    gain := ToInt16(gain * GAIN_SCALE_NUMERATOR);
    Quotient(gain);
    InRange(TruncRem(gain, GAIN_SCALE_DENOMINATOR));
    InRange(TruncDiv(gain, GAIN_SCALE_DENOMINATOR));
    var left: int16 := ToInt16(TruncRem(gain, GAIN_SCALE_DENOMINATOR));
    gain := ToInt16(TruncDiv(gain, GAIN_SCALE_DENOMINATOR));
    if sign * left * 2 >= GAIN_SCALE_DENOMINATOR {
      InRange(gain + sign);
      gain := ToInt16(gain + sign);
    }
    InRange(gain + VOLUME_INTERCEPT);
    gain := ToInt16(gain + VOLUME_INTERCEPT);
    if Fits(gain0) {
      RoundedIsNearest(gain0);
    }
    if gain > GAIN_MIN_MUTE {
      gain := GAIN_MIN_MUTE;
    }
    if gain < GAIN_MAX {
      gain := GAIN_MAX;
    }
    volume := gain % 256;
  }

  /** The byte is right exactly for the gains for which no step overflows. */
  lemma VolumeExactly(gain: int16)
    ensures Volume(gain) == Clamped(Nearest(gain)) <==> Fits(gain)
  {
  }

  /** More gain, lower byte: the scale is inverted, and never turns round. */
  lemma VolumeAntitone(low: int16, high: int16)
    requires Fits(low) && Fits(high) && low <= high
    ensures Volume(high) <= Volume(low)
  {
  }

  /** The mute byte is sent from -71.45 dB down, so for every gain of -72 dB or less that does
      not overflow; among the gains that overflow upwards, all but the highest mute as well. */
  lemma MuteByteExactly(gain: int16)
    ensures Volume(gain) == GAIN_MIN_MUTE <==> -16383 <= gain <= -4287 || 16384 < gain <= 28470
  {
    Doubled(gain);
    if gain > 16384 {
      assert -2 * gain == 0x1_0000 * -1 + (0x1_0000 - 2 * gain);
      assert ToInt16(-2 * gain) == 0x1_0000 - 2 * gain;
    }
  }

  // ---------------------------------------------------------------- mute register

  const R_MUTE: bv8 := 0x04
  const L_MUTE: bv8 := 0x02
  const M_MUTE: bv8 := 0x01

  datatype AmpStatus = Standby | Active | PowerOff

  /** The mute register, and each channel's last volume byte since initialisation. */
  datatype Amp = Amp(mute: bv8, left: Option<byte>, right: Option<byte>)

  const INITIALISED := Amp(M_MUTE | L_MUTE | R_MUTE, None, None)

  datatype Channel = Out1Left | Out1Right | Out2Left | Out2Right | OtherChannel

  datatype Call = SetChannelGain(channel: Channel, gain: int16) | SetGain(gain: int16)

  predicate IsLeft(c: Channel) {
    c == Out1Left || c == Out2Left
  }

  /** The mute byte sets the channel's bit; any other clears it and the master bit. */
  function MuteAfter(mute: bv8, left: bool, volume: byte): bv8 {
    var bit := if left then L_MUTE else R_MUTE;
    if volume == GAIN_MIN_MUTE then mute | bit else mute & !M_MUTE & !bit
  }

  function VolumeSent(a: Amp, c: Channel, volume: byte): Amp {
    Amp(MuteAfter(a.mute, IsLeft(c), volume),
        if IsLeft(c) then Some(volume) else a.left,
        if IsLeft(c) then a.right else Some(volume))
  }

  function ChannelGained(a: Amp, c: Channel, gain: int16): Amp {
    if c == OtherChannel then a else VolumeSent(a, c, Volume(gain))
  }

  function Gained(a: Amp, gain: int16): Amp {
    var both := ChannelGained(ChannelGained(a, Out1Left, gain), Out1Right, gain);
    if gain <= MUTE_72DB then both.(mute := both.mute | M_MUTE) else both
  }

  function Called(a: Amp, call: Call): Amp {
    match call
    case SetChannelGain(channel, gain) => ChannelGained(a, channel, gain)
    case SetGain(gain) => Gained(a, gain)
  }

  /** A channel is silent before its first gain and after the mute byte. */
  predicate Silent(volume: Option<byte>) {
    volume == None || volume == Some(GAIN_MIN_MUTE)
  }

  /** Each channel bit says whether the channel is silent, the master bit implies both, and no
      other bit is ever set. */
  ghost predicate MuteFits(a: Amp) {
    && (a.mute & L_MUTE != 0 <==> Silent(a.left))
    && (a.mute & R_MUTE != 0 <==> Silent(a.right))
    && (a.mute & M_MUTE != 0 ==> Silent(a.left) && Silent(a.right))
    && a.mute & 0xF8 == 0
  }

  lemma ChannelKeeps(a: Amp, c: Channel, gain: int16)
    requires MuteFits(a)
    ensures MuteFits(ChannelGained(a, c, gain))
  {
  }

  /** Setting both channels keeps the register right exactly where the gain does not overflow
      downwards; below that the master bit ends up set over two channels at an audible volume. */
  lemma SetGainExactly(a: Amp, gain: int16)
    requires MuteFits(a)
    ensures MuteFits(Gained(a, gain)) <==> gain >= -16383
  {
    var left := ChannelGained(a, Out1Left, gain);
    ChannelKeeps(a, Out1Left, gain);
    ChannelKeeps(left, Out1Right, gain);
  }

  /** v is the byte nearest to 64 - 2*gain/45, or the end of the scale that is. */
  predicate IsVolumeOf(gain: int, v: int) {
    && 0 <= v <= 255
    && (v > 0 ==> 45 * (v - 64) + 2 * gain <= 22)
    && (v < 255 ==> 45 * (v - 64) + 2 * gain >= -22)
  }

  /** A gain sets its own channel only: the volume, and in the mute register bit 1 for left and
      bit 2 for right, which any byte but 255 clears together with bit 0. */
  lemma ChannelGainExactly(a: Amp, c: Channel, gain: int16) returns (v: byte)
    requires Fits(gain)
    ensures IsVolumeOf(gain, v)
    ensures c == Out1Left || c == Out2Left ==>
      ChannelGained(a, c, gain) == Amp(if v == 255 then a.mute | 0x02 else a.mute & 0xFC, Some(v), a.right)
    ensures c == Out1Right || c == Out2Right ==>
      ChannelGained(a, c, gain) == Amp(if v == 255 then a.mute | 0x04 else a.mute & 0xFA, a.left, Some(v))
    ensures c == OtherChannel ==> ChannelGained(a, c, gain) == a
  {
    v := Volume(gain);
  }

  /** Setting both: the same volume on both channels, and bit 0 for gains of -72 dB and less. */
  lemma BothGainsExactly(a: Amp, gain: int16) returns (v: byte)
    requires Fits(gain)
    ensures IsVolumeOf(gain, v)
    ensures Gained(a, gain).left == Some(v) && Gained(a, gain).right == Some(v)
    ensures Gained(a, gain).mute ==
      (if v == 255 then a.mute | 0x06 else a.mute & 0xF8) | (if gain <= -4320 then 0x01 else 0x00)
  {
    v := Volume(gain);
    MuteBits(a.mute);
  }

  lemma MuteBits(mute: bv8)
    ensures (mute | 0x02) | 0x04 == mute | 0x06
    ensures mute & 0xFC & 0xFA == mute & 0xF8
  {
  }

  function CalledAll(a: Amp, calls: seq<Call>): Amp
    decreases |calls|
  {
    if calls == [] then a else CalledAll(Called(a, calls[0]), calls[1..])
  }

  /** From initialisation on, over every sequence of calls, the mute register is right; only
      setting both channels to a gain below -16383 is excluded. */
  lemma {:induction false} MuteFitsAlways(a: Amp, calls: seq<Call>)
    requires MuteFits(a)
    requires forall i :: 0 <= i < |calls| && calls[i].SetGain? ==> calls[i].gain >= -16383
    ensures MuteFits(CalledAll(a, calls))
    decreases |calls|
  {
    if calls == [] {
    } else {
      match calls[0] {
        case SetChannelGain(channel, gain) => ChannelKeeps(a, channel, gain);
        case SetGain(gain) => SetGainExactly(a, gain);
      }
      MuteFitsAlways(Called(a, calls[0]), calls[1..]);
    }
  }

  lemma InitialisedFits()
    ensures MuteFits(INITIALISED)
  {
  }

  // ---------------------------------------------------------------- the chip

  const RESET_POWER_CONTROL := 0
  const EDGE_CLOCK_CONTROL := 1
  const SAMPLE_RATE_CONTROL := 2
  const SERIAL_INTERFACE_CONTROL := 3
  const LEFT_VOLUME_CONTROL := 5
  const RIGHT_VOLUME_CONTROL := 6
  const VOLUME_MUTE_CONTROL := 7
  const POWER_FAULT_CONTROL := 9
  const REGISTERS := 19
  const S_RST: byte := 128
  const NO_BCLK: byte := 32
  const SPWDN: byte := 1

  /** The sample rate band: up to 12, 24, 48 kHz, and above. */
  function Band(rate: nat): nat {
    if rate <= 12000 then 0 else if rate <= 24000 then 1 else if rate <= 48000 then 2 else 3
  }

  function ClockSetting(band: nat): byte {
    if band == 0 then 0 else if band == 1 then 2 else if band == 2 then 4 else 8
  }

  function RateSetting(band: nat): byte {
    if band == 0 then 0 else if band == 1 then 1 else if band == 2 then 2 else 3
  }

  /** The bit clocks, in kHz, that a clock setting is for, and the rates, in Hz, of a rate setting. */
  predicate ClockRange(setting: byte, low: nat, high: nat) {
    (setting, low, high) in {(0, 2048, 3072), (2, 4096, 6144), (4, 8192, 12288), (8, 16384, 24576)}
  }

  predicate RateRange(setting: byte, low: nat, high: nat) {
    (setting, low, high) in {(0, 8000, 12000), (1, 16000, 24000), (2, 32000, 48000), (3, 64000, 96000)}
  }

  /** The bit clock is 256 times the rate. */
  ghost predicate ClockFits(setting: byte, rate: nat) {
    exists low: nat, high: nat :: ClockRange(setting, low, high) && 1000 * low <= 256 * rate <= 1000 * high
  }

  ghost predicate RateFits(setting: byte, rate: nat) {
    exists low: nat, high: nat :: RateRange(setting, low, high) && low <= rate <= high
  }

  /** Both settings are for the rate exactly for the rates of the four bands that the chip supports. */
  lemma SettingsFitExactly(rate: nat)
    ensures
      && ClockFits(ClockSetting(Band(rate)), rate) && RateFits(RateSetting(Band(rate)), rate)
      <==> 8000 <= rate <= 12000 || 16000 <= rate <= 24000 || 32000 <= rate <= 48000 || 64000 <= rate <= 96000
  {
    var scale := if Band(rate) == 3 then 8 else if Band(rate) == 2 then 4 else if Band(rate) == 1 then 2 else 1;
    assert ClockRange(ClockSetting(Band(rate)), 2048 * scale, 3072 * scale);
    assert RateRange(RateSetting(Band(rate)), 8000 * scale, 12000 * scale);
  }

  /** The register file; the mute register, the only one read back, is kept apart as bits. */
  class Amplifier {
    var regs: seq<byte>
    var muteReg: bv8
    var status: AmpStatus
    ghost var view: Amp

    /** view describes the registers. */
    ghost predicate Valid()
      reads this
    {
      && |regs| == REGISTERS
      && view.mute == muteReg
      && (view.left.Some? ==> view.left.value == regs[LEFT_VOLUME_CONTROL])
      && (view.right.Some? ==> view.right.value == regs[RIGHT_VOLUME_CONTROL])
    }

    method WriteRegister(r: nat, value: byte)
      requires |regs| == REGISTERS && r < REGISTERS && r != VOLUME_MUTE_CONTROL
      modifies this`regs
      ensures regs == old(regs)[r := value]
    {
      regs := regs[r := value];
    }

    method SetAmpState(requested: AmpStatus)
      modifies this`status
      ensures status == if requested == Standby then old(status) else requested
    {
      if status != requested {
        match requested
        case Active => status := Active;
        case Standby =>
        case PowerOff => status := PowerOff;
      }
    }

    /** The clock and sample-rate settings are for the same band of the sample rate. */
    method Initialise(rate: nat)
      requires |regs| == REGISTERS
      modifies this
      ensures Valid() && view == INITIALISED && status == Active
      ensures regs ==
        old(regs)[0 := 0x20 + ClockSetting(Band(rate))][1 := 1][2 := RateSetting(Band(rate))][3 := 0][9 := 0x81]
      ensures muteReg == 0x07
    {
      SetAmpState(Active);
      WriteRegister(RESET_POWER_CONTROL, S_RST + SPWDN);
      var power := NO_BCLK;
      if rate <= 12000 {
        power := power + 0;
      } else if rate <= 24000 {
        power := power + 2;
      } else if rate <= 48000 {
        power := power + 4;
      } else {
        power := power + 8;
      }
      WriteRegister(RESET_POWER_CONTROL, power);
      WriteRegister(EDGE_CLOCK_CONTROL, 1);
      var serial: byte := 0;
      if rate <= 12000 {
        serial := 0;
      } else if rate <= 24000 {
        serial := 1;
      } else if rate <= 48000 {
        serial := 2;
      } else {
        serial := 3;
      }
      WriteRegister(SAMPLE_RATE_CONTROL, serial);
      WriteRegister(SERIAL_INTERFACE_CONTROL, 0);
      muteReg := M_MUTE | L_MUTE | R_MUTE;
      WriteRegister(POWER_FAULT_CONTROL, 0x81);
      view := INITIALISED;
    }

    method Shutdown()
      requires Valid()
      modifies this
      ensures Valid() && view == old(view).(mute := M_MUTE) && status == PowerOff
      ensures regs == old(regs)[0 := 1] && muteReg == 0x01
    {
      muteReg := M_MUTE;
      WriteRegister(RESET_POWER_CONTROL, SPWDN);
      SetAmpState(PowerOff);
      view := view.(mute := M_MUTE);
    }

    static method UpdateMute(mute0: bv8, r: nat, volume: byte) returns (mute: bv8)
      requires r == LEFT_VOLUME_CONTROL || r == RIGHT_VOLUME_CONTROL
      ensures mute == MuteAfter(mute0, r == LEFT_VOLUME_CONTROL, volume)
    {
      mute := mute0;
      if volume == GAIN_MIN_MUTE {
        if r == LEFT_VOLUME_CONTROL {
          mute := mute | L_MUTE;
        } else if r == RIGHT_VOLUME_CONTROL {
          mute := mute | R_MUTE;
        }
      } else {
        mute := mute & !M_MUTE;
        if r == LEFT_VOLUME_CONTROL {
          mute := mute & !L_MUTE;
        } else if r == RIGHT_VOLUME_CONTROL {
          mute := mute & !R_MUTE;
        }
      }
    }

    /** The volume register of the channel, then the mute register read before. */
    method SendVolume(channel: Channel, volume: byte)
      requires Valid() && channel != OtherChannel
      modifies this`regs, this`muteReg, this`view
      ensures Valid() && view == VolumeSent(old(view), channel, volume)
      ensures regs == old(regs)[(if channel == Out1Left || channel == Out2Left then 5 else 6) := volume]
    {
      var mute := muteReg;
      var r := RIGHT_VOLUME_CONTROL;
      if channel == Out1Left || channel == Out2Left {
        r := LEFT_VOLUME_CONTROL;
      }
      WriteRegister(r, volume);
      muteReg := UpdateMute(mute, r, volume);
      view := VolumeSent(view, channel, volume);
    }

    method SetOneGain(channel: Channel, gain: int16) returns (ok: bool)
      requires Valid()
      modifies this`regs, this`muteReg, this`view
      ensures Valid() && view == ChannelGained(old(view), channel, gain)
      ensures ok <==> channel != OtherChannel
      ensures regs ==
        if channel == OtherChannel then old(regs)
        else old(regs)[(if channel == Out1Left || channel == Out2Left then 5 else 6) := Volume(gain)]
    {
      if channel == OtherChannel {
        return false;
      }
      var volume := VolumeByte(gain);
      SendVolume(channel, volume);
      return true;
    }

    method SetBothGains(gain: int16) returns (ok: bool)
      requires Valid()
      modifies this`regs, this`muteReg, this`view
      ensures Valid() && view == Gained(old(view), gain) && ok
      ensures regs == old(regs)[5 := Volume(gain)][6 := Volume(gain)]
    {
      var leftOk := SetOneGain(Out1Left, gain);
      var rightOk := SetOneGain(Out1Right, gain);
      var mute := muteReg;
      if gain <= MUTE_72DB {
        muteReg := mute | M_MUTE;
        view := view.(mute := mute | M_MUTE);
      }
      return leftOk && rightOk;
    }
  }
}
