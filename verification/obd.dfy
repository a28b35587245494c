/** OBD-II over CAN: the bytes, the 32-bit millisecond clock, the request
    payloads the monitor sends and the decoder for the replies it accepts.
    Engine speed is PID $0C of service $01 of SAE J1979, (256*A + B) / 4 rpm;
    vehicle speed is PID $0D, A km/h. Requests go to the 11-bit functional
    id 0x7DF and the primary ECU answers on 0x7E8 (ISO 15765-4), each message
    an ISO 15765-2 single frame whose byte 0 is the payload length. */
module Obd {

  datatype Option<T> = None | Some(value: T)

  type Byte = x: int | 0 <= x < 0x100

  /** An `unsigned long` of the device: 32 bits wide. */
  type U32 = x: int | 0 <= x < 0x1_0000_0000

  const Modulus32: int := 0x1_0000_0000

  /** `now - last` on unsigned 32-bit values: the time since `last`,
      correct across one wrap-around of the millisecond counter. */
  function Elapsed(last: U32, now: U32): (d: U32)
    ensures now >= last ==> d == now - last
    ensures now < last ==> d == Modulus32 - last + now
  {
    (now - last) % Modulus32
  }

  const ServiceCurrentData: Byte := 0x01
  /** Positive response code of service $01 (the service id plus 0x40). */
  const ReplyCurrentData: Byte := 0x41
  const PidEngineRpm: Byte := 0x0C
  const PidVehicleSpeed: Byte := 0x0D

  const ReplyId: U32 := 0x7E8

  /** The eight data bytes of a classic CAN frame. */
  type Payload = s: seq<Byte> | |s| == 8 witness [0, 0, 0, 0, 0, 0, 0, 0]

  const RpmRequest: Payload := [0x02, ServiceCurrentData, PidEngineRpm, 0xCC, 0xCC, 0xCC, 0xCC, 0xCC]
  const SpeedRequest: Payload := [0x02, ServiceCurrentData, PidVehicleSpeed, 0x55, 0x55, 0x55, 0x55, 0x55]

  /** Largest value each decoded quantity can take. */
  const MaxRpm: int := 16383
  const MaxSpeed: int := 255

  /** A frame as the CAN driver hands it over: bit 31 of `id` flags an
      extended (29-bit) identifier, `len` is the data length code. */
  datatype Frame = Frame(id: U32, len: Byte, data: Payload)

  datatype Reply = RpmReply(rpm: int) | SpeedReply(speed: int) | Ignored

  /** `(id & 0x80000000) == 0`: the frame has a standard 11-bit identifier. */
  predicate IsStandard(id: U32) {
    (id / 0x8000_0000) % 2 == 0
  }

  /** The big-endian 16-bit value of two bytes, `(hi << 8) | lo` once both are
      promoted to `int` (the low byte fills exactly the eight bits the shift cleared). */
  function BigEndian16(hi: Byte, lo: Byte): int {
    hi as int * 256 + lo as int
  }

  /** The receive branch of the loop. The driver's `len` is never looked at. */
  function Decode(f: Frame): (r: Reply)
    ensures r.RpmReply? ==> 0 <= r.rpm <= MaxRpm
    ensures r.SpeedReply? ==> 0 <= r.speed <= MaxSpeed
    ensures !r.Ignored? ==> f.id == ReplyId && f.data[1] == ReplyCurrentData
  {
    if !IsStandard(f.id) then Ignored
    else if f.id == ReplyId && f.data[0] == 0x04 && f.data[1] == ReplyCurrentData && f.data[2] == PidEngineRpm then
      RpmReply(BigEndian16(f.data[3], f.data[4]) / 4)
    else if f.id == ReplyId && f.data[0] == 0x03 && f.data[1] == ReplyCurrentData && f.data[2] == PidVehicleSpeed then
      SpeedReply(f.data[3])
    else Ignored
  }

  /** A reply from any other responder, or to any other request, is dropped. */
  lemma DecodeIgnoresOtherFrames(f: Frame)
    requires f.id != ReplyId
          || !((f.data[0] == 0x04 && f.data[2] == PidEngineRpm) || (f.data[0] == 0x03 && f.data[2] == PidVehicleSpeed))
          || f.data[1] != ReplyCurrentData
    ensures Decode(f) == Ignored
  {
  }

  /** What an ECU sends for an engine speed of `rpm`: raw value 4 * rpm, big-endian. */
  function RpmReplyFrame(rpm: int, len: Byte, pad: seq<Byte>): (f: Frame)
    requires 0 <= rpm <= MaxRpm && |pad| == 3
    ensures f.id == ReplyId && f.data[2] == RpmRequest[2]
  {
    Frame(ReplyId, len, [0x04, ReplyCurrentData, PidEngineRpm, (4 * rpm) / 256, (4 * rpm) % 256] + pad)
  }

  /** What an ECU sends for a vehicle speed of `speed`. */
  function SpeedReplyFrame(speed: Byte, len: Byte, pad: seq<Byte>): (f: Frame)
    requires |pad| == 4
    ensures f.id == ReplyId && f.data[2] == SpeedRequest[2]
  {
    Frame(ReplyId, len, [0x03, ReplyCurrentData, PidVehicleSpeed, speed] + pad)
  }

  lemma {:induction false} DecodeRpmRoundTrip(rpm: int, len: Byte, pad: seq<Byte>)
    requires 0 <= rpm <= MaxRpm && |pad| == 3
    ensures Decode(RpmReplyFrame(rpm, len, pad)) == RpmReply(rpm)
  {
    var f := RpmReplyFrame(rpm, len, pad);
    assert IsStandard(f.id);
    assert BigEndian16(f.data[3], f.data[4]) == 4 * rpm;
  }

  lemma {:induction false} DecodeSpeedRoundTrip(speed: Byte, len: Byte, pad: seq<Byte>)
    requires |pad| == 4
    ensures Decode(SpeedReplyFrame(speed, len, pad)) == SpeedReply(speed)
  {
    var f := SpeedReplyFrame(speed, len, pad);
    assert IsStandard(f.id);
  }

  /** Every one of the four raw values 4 * rpm .. 4 * rpm + 3 decodes to the
      same engine speed: the decoder rounds the quarter-rpm resolution down. */
  lemma {:induction false} DecodeRpmFloors(f: Frame)
    requires f.id == ReplyId && f.data[0] == 0x04 && f.data[1] == ReplyCurrentData && f.data[2] == PidEngineRpm
    ensures Decode(f).RpmReply?
    ensures 4 * Decode(f).rpm <= 256 * (f.data[3] as int) + f.data[4] as int < 4 * Decode(f).rpm + 4
  {
    assert IsStandard(f.id);
  }

  /** A reply is accepted only when it answers one of the two requests the
      monitor sends: the same PID, the service code plus 0x40, and a single-frame
      length of the two header bytes plus the value's width. */
  lemma ReplyAnswersRequest(f: Frame)
    requires !Decode(f).Ignored?
    ensures Decode(f).RpmReply? ==> f.data[2] == RpmRequest[2] && f.data[1] == RpmRequest[1] + 0x40 && f.data[0] == 2 + 2
    ensures Decode(f).SpeedReply? ==> f.data[2] == SpeedRequest[2] && f.data[1] == SpeedRequest[1] + 0x40 && f.data[0] == 2 + 1
  {
  }
}
