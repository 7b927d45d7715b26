/**
  The CAN telemetry codec (bare_metal_foc/src/can_frame.c): torque in Q8.8, state of charge
  and speed, big-endian in the eight data bytes of a CANopen TPDO1 frame.
 */
module CanFrame {
  import opened Words

  const CAN_ID_TPDO1 := 0x181

  /** A frame as a value: what `*out = bus->frames[i]` copies. */
  datatype FrameValue = FrameValue(id: uint32, dlc: byte, data: seq<byte>)

  datatype Telemetry = Telemetry(torque: real, soc: byte, rpm: uint16)

  /** The storage a `CanFrame_t *` points to. */
  class FrameCell {
    var id: uint32
    var dlc: byte
    const data: array<byte>

    constructor ()
      ensures fresh(data) && data.Length == 8
    {
      id, dlc := 0, 0;
      data := new byte[8](i => 0);
    }

    ghost function Value(): FrameValue
      reads this, data
    {
      FrameValue(id, dlc, data[..])
    }
  }

  function Clamp(torque: real): real {
    if torque > 127.0 then 127.0 else if torque < -127.0 then -127.0 else torque
  }

  /** C's conversion from floating point to integer: the fraction is discarded. */
  function TruncToInt(r: real): int {
    if r >= 0.0 then r.Floor else -((-r).Floor)
  }

  /** The 16-bit value two big-endian bytes stand for, unsigned and as two's complement. */
  function Word(hi: byte, lo: byte): uint16 {
    256 * hi + lo
  }

  function Signed16(w: uint16): int16 {
    if w < 32768 then w else w - 65536
  }

  function RawTorque(torque: real): (raw: int16)
    ensures -32512 <= raw <= 32512
  {
    TruncToInt(Clamp(torque) * 256.0)
  }

  function Hi(w: int): byte {
    w / 256 % 256
  }

  function Lo(w: int): byte {
    w % 256
  }

  function PackedFrame(t: Telemetry): FrameValue {
    var raw := RawTorque(t.torque);
    FrameValue(CAN_ID_TPDO1, 8, [Hi(raw), Lo(raw), t.soc, Hi(t.rpm), Lo(t.rpm), 0, 0, 0])
  }

  function PackStatus(torque: real): int {
    if torque > 127.0 || torque < -127.0 then -2 else 0
  }

  function Unpacked(f: FrameValue): Telemetry
    requires |f.data| == 8
  {
    Telemetry(Signed16(Word(f.data[0], f.data[1])) as real / 256.0, f.data[2], Word(f.data[3], f.data[4]))
  }

  /** `CanFrame_pack`. */
  method Pack(torque: real, soc: byte, rpm: uint16, out: FrameCell?) returns (ret: int)
    requires out != null ==> out.data.Length == 8
    modifies if out == null then {} else {out, out.data}
    ensures out == null ==> ret == -1
    ensures out != null ==> out.Value() == PackedFrame(Telemetry(torque, soc, rpm)) && ret == PackStatus(torque)
    ensures out != null ==> ret in {0, -2} && (ret == 0 <==> -127.0 <= torque <= 127.0)
  {
    if out == null { return -1; }
    ret := 0;
    var clamped := torque;
    if clamped > 127.0 { clamped := 127.0; ret := -2; }
    if clamped < -127.0 { clamped := -127.0; ret := -2; }
    var raw: int16 := TruncToInt(clamped * 256.0);
    out.id := CAN_ID_TPDO1;
    out.dlc := 8;
    out.data[0] := raw / 256 % 256;
    out.data[1] := raw % 256;
    out.data[2] := soc;
    out.data[3] := rpm / 256 % 256;
    out.data[4] := rpm % 256;
    out.data[5], out.data[6], out.data[7] := 0, 0, 0;
    assert out.data[..] == PackedFrame(Telemetry(torque, soc, rpm)).data;
  }

  /** `CanFrame_unpack`, with the three out-pointers as results; only a null frame can be refused here. */
  method Unpack(input: FrameCell?) returns (ret: int, torque: real, soc: byte, rpm: uint16)
    requires input != null ==> input.data.Length == 8
    ensures input == null ==> ret == -1
    ensures input != null ==> ret == 0 && Telemetry(torque, soc, rpm) == Unpacked(input.Value())
  {
    torque, soc, rpm := 0.0, 0, 0;
    if input == null { return -1, torque, soc, rpm; }
    var raw: int16 := Signed16(Word(input.data[0], input.data[1]));
    torque := raw as real / 256.0;
    soc := input.data[2];
    rpm := Word(input.data[3], input.data[4]);
    ret := 0;
  }

  // ---------------------------------------------------------------------------------
  // Round trips
  // ---------------------------------------------------------------------------------

  lemma BytesOfWord(w: int)
    requires -32768 <= w < 65536
    ensures Word(Hi(w), Lo(w)) == w % 65536
    ensures w < 32768 ==> Signed16(Word(Hi(w), Lo(w))) == w
  {
    assert w == 256 * (w / 256) + w % 256;
  }

  /** Truncation toward zero: the sign stays, the magnitude shrinks by less than one. */
  lemma TruncError(r: real)
    ensures r >= 0.0 ==> 0 <= TruncToInt(r) && TruncToInt(r) as real <= r < TruncToInt(r) as real + 1.0
    ensures r <= 0.0 ==> TruncToInt(r) <= 0 && TruncToInt(r) as real - 1.0 < r <= TruncToInt(r) as real
  {
  }

  lemma TruncOfInteger(k: int)
    ensures TruncToInt(k as real) == k
  {
  }

  /** The bytes of a 16-bit word, read as signed or unsigned, are the bytes it was made of. */
  lemma WordOfBytes(hi: byte, lo: byte)
    ensures var w := Word(hi, lo);
            Hi(w) == hi && Lo(w) == lo && Hi(Signed16(w)) == hi && Lo(Signed16(w)) == lo
  {
  }

  /**
    Unpacking a packed frame returns charge and speed exactly, and the clamped torque
    rounded toward zero to a multiple of 1/256.
   */
  lemma UnpackOfPack(t: Telemetry)
    ensures var u, c := Unpacked(PackedFrame(t)), Clamp(t.torque);
            && u.soc == t.soc && u.rpm == t.rpm
            && (c >= 0.0 ==> 0.0 <= u.torque <= c < u.torque + 1.0 / 256.0)
            && (c <= 0.0 ==> u.torque - 1.0 / 256.0 < c <= u.torque <= 0.0)
            && (u.torque * 256.0).Floor as real == u.torque * 256.0
  {
    hide TruncToInt, Hi, Lo, Word, Signed16;
    BytesOfWord(RawTorque(t.torque));
    BytesOfWord(t.rpm);
    TruncError(Clamp(t.torque) * 256.0);
    SixteenthBits(RawTorque(t.torque));
  }

  lemma SixteenthBits(k: int)
    ensures (k as real / 256.0 * 256.0).Floor as real == k as real / 256.0 * 256.0
  {
    assert k as real / 256.0 * 256.0 == k as real;
  }

  /**
    The layout of the header file: identifier 0x181, eight bytes, torque in bytes 0 and 1 and
    speed in bytes 3 and 4 with the high byte first, charge in byte 2, zeros behind.
   */
  lemma FrameLayout(t: Telemetry)
    ensures var f, c := PackedFrame(t), Clamp(t.torque);
            var d, w := f.data, 256 * (f.data[0] as int) + f.data[1];
            var raw := if w < 32768 then w else w - 65536;
            && f.id == 0x181 && f.dlc == 8 && |d| == 8
            && (if c >= 0.0 then raw as real <= 256.0 * c < raw as real + 1.0
                else raw as real - 1.0 < 256.0 * c <= raw as real)
            && d[2] == t.soc && 256 * (d[3] as int) + d[4] == t.rpm && d[5] == d[6] == d[7] == 0
    ensures -127.0 <= t.torque <= 127.0 ==> Clamp(t.torque) == t.torque
    ensures t.torque >= 127.0 ==> Clamp(t.torque) == 127.0
    ensures t.torque <= -127.0 ==> Clamp(t.torque) == -127.0
  {
    hide TruncToInt, Hi, Lo;
    BytesOfWord(RawTorque(t.torque));
    BytesOfWord(t.rpm);
    TruncError(Clamp(t.torque) * 256.0);
  }

  /**
    The torque comes back within one Q8.8 LSB exactly when it exceeds 127 Nm by less than
    that. The 200 Nm range that the header and the requirements announce is not met.
   */
  lemma TorqueAccuracy(t: Telemetry)
    ensures var u := Unpacked(PackedFrame(t)).torque;
            -1.0 / 256.0 < u - t.torque < 1.0 / 256.0
            <==> -127.0 - 1.0 / 256.0 < t.torque < 127.0 + 1.0 / 256.0
  {
    var raw := RawTorque(t.torque);
    BytesOfWord(raw);
    TruncError(Clamp(t.torque) * 256.0);
    assert Unpacked(PackedFrame(t)).torque == raw as real / 256.0;
    TruncOfInteger(32512);
    TruncOfInteger(-32512);
  }

  /** 150 Nm is inside the announced range but is sent as 127 Nm. */
  lemma AnnouncedRangeIsLost()
    ensures var t := Telemetry(150.0, 0, 0);
            Unpacked(PackedFrame(t)).torque == 127.0 && PackStatus(t.torque) == -2
  {
    BytesOfWord(32512);
    TruncOfInteger(32512);
    assert RawTorque(150.0) == 32512;
  }

  /** The frames that `CanFrame_pack` can produce. */
  predicate WellFormed(f: FrameValue) {
    && f.id == 0x181 && f.dlc == 8 && |f.data| == 8
    && -32512 <= Signed16(Word(f.data[0], f.data[1])) <= 32512
    && f.data[5] == f.data[6] == f.data[7] == 0
  }

  /** Re-encoding reproduces a frame byte for byte exactly when it is well formed. */
  lemma PackOfUnpack(f: FrameValue)
    requires |f.data| == 8
    ensures PackedFrame(Unpacked(f)) == f <==> WellFormed(f)
  {
    hide TruncToInt, Hi, Lo, Word, Signed16;
    var raw := Signed16(Word(f.data[0], f.data[1]));
    WordOfBytes(f.data[0], f.data[1]);
    WordOfBytes(f.data[3], f.data[4]);
    TruncOfInteger(raw);
    BytesOfWord(RawTorque(Unpacked(f).torque));
  }
}
