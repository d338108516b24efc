/** The classical-CAN host frames exchanged with a gs_usb adapter. */
module HostFrames {
  import opened Wrappers
  import opened MachineInts
  import opened CanFrames

  const HOST_FRAME_LEN := 20
  const RX_ECHO_ID: u32 := 0xFFFF_FFFF
  const CAN_EFF_FLAG: u32 := 0x8000_0000
  const CAN_RTR_FLAG: u32 := 0x4000_0000
  const CAN_ERR_FLAG: u32 := 0x2000_0000
  const CAN_SFF_MASK: u32 := 0x7ff
  const CAN_EFF_MASK: u32 := 0x1fff_ffff

  datatype ProtocolError =
    | ShortBuffer(expected: nat, actual: nat)
    | InvalidDlc(dlc: u8)
    | UnsupportedChannel(channel: u8)
    | CanFdFlags(flags: u8)
    | UnsupportedFlags(flags: u8)
    | NonzeroReserved(reserved: u8)
    | ErrorFrame
    | InvalidStandardId(id: u32)
    | InvalidExtendedId(id: u32)
    | CanFdFrame
    | InvalidEchoId(id: u32)

  /** The identifier word: the frame's id with the extended and remote bits set. */
  function IdWord(frame: CanFrame): (r: Result<u32, ProtocolError>)
    ensures r.Success? <==> frame.id <= if frame.flags.extendedId then CAN_EFF_MASK else CAN_SFF_MASK
    ensures r.Success? ==>
      r.value == frame.id + (if frame.flags.extendedId then CAN_EFF_FLAG else 0)
                          + (if frame.flags.remoteRequest then CAN_RTR_FLAG else 0)
  {
    if frame.flags.extendedId && frame.id > CAN_EFF_MASK then
      Failure(InvalidExtendedId(frame.id))
    else if !frame.flags.extendedId && frame.id > CAN_SFF_MASK then
      Failure(InvalidStandardId(frame.id))
    else
      var id := if frame.flags.extendedId then SetBit(frame.id, CAN_EFF_FLAG) else frame.id;
      Success(if frame.flags.remoteRequest then SetBit(id, CAN_RTR_FLAG) else id)
  }

  function Encode(echoId: u32, frame: CanFrame): (r: Result<seq<u8>, ProtocolError>)
    ensures r.Success? ==> |r.value| == HOST_FRAME_LEN
  {
    if frame.flags.fdFormat then
      Failure(CanFdFrame)
    else if frame.len > 8 then
      Failure(InvalidDlc(frame.len))
    else match IdWord(frame)
      case Failure(e) => Failure(e)
      case Success(word) =>
        Success(ToLe(echoId) + ToLe(word) + [frame.len, 0, 0, 0] + Padded(Payload(frame), 8))
  }

  /** Reads one host frame; bytes past the first twenty are ignored. */
  function Decode(bytes: seq<u8>): (r: Result<(u32, CanFrame), ProtocolError>) {
    if |bytes| < HOST_FRAME_LEN then
      Failure(ShortBuffer(HOST_FRAME_LEN, |bytes|))
    else
      var echoId, rawId := FromLe(bytes, 0), FromLe(bytes, 4);
      var dlc, channel, flags, reserved := bytes[8], bytes[9], bytes[10], bytes[11];
      var fdFlags := flags / 2 % 8 * 2;
      if dlc > 8 then
        Failure(InvalidDlc(dlc))
      else if channel != 0 then
        Failure(UnsupportedChannel(channel))
      else if fdFlags != 0 then
        Failure(CanFdFlags(fdFlags))
      else if flags != 0 then
        Failure(UnsupportedFlags(flags))
      else if reserved != 0 then
        Failure(NonzeroReserved(reserved))
      else if HasBit(rawId, CAN_ERR_FLAG) then
        Failure(ErrorFrame)
      else
        var extended := HasBit(rawId, CAN_EFF_FLAG);
        var low := rawId % (CAN_EFF_MASK + 1);
        if !extended && low > CAN_SFF_MASK then
          Failure(InvalidStandardId(low))
        else
          var id := if extended then low else rawId % (CAN_SFF_MASK + 1);
          var frameFlags := NoFlags.(extendedId := extended, remoteRequest := HasBit(rawId, CAN_RTR_FLAG));
          // The source unwraps this result: FromParts never fails here.
          var frame := FromParts(id, frameFlags, bytes[12..12 + dlc]);
          assert frame.Success?;
          Success((echoId, frame.value))
  }

  /** Which buffers are refused, and as what: the first thing wrong with one decides. */
  lemma DecodeRefusals(bytes: seq<u8>)
    ensures |bytes| < 20 <==> Decode(bytes) == Failure(ShortBuffer(20, |bytes|))
    ensures |bytes| >= 20 ==>
      var dlc, channel, flags, reserved, top := bytes[8], bytes[9], bytes[10], bytes[11], bytes[7];
      var fd := HasBit(flags, 2) || HasBit(flags, 4) || HasBit(flags, 8);
      var shape := dlc <= 8 && channel == 0;
      && (dlc > 8 <==> Decode(bytes) == Failure(InvalidDlc(dlc)))
      && (dlc <= 8 && channel != 0 <==> Decode(bytes) == Failure(UnsupportedChannel(channel)))
      && (shape && fd <==> Decode(bytes).Failure? && Decode(bytes).error.CanFdFlags?)
      && (shape && !fd && flags != 0 <==> Decode(bytes) == Failure(UnsupportedFlags(flags)))
      && (shape && flags == 0 && reserved != 0 <==> Decode(bytes) == Failure(NonzeroReserved(reserved)))
      && (shape && flags == 0 && reserved == 0 && top / 0x20 % 2 == 1 <==> Decode(bytes) == Failure(ErrorFrame))
  {
    if |bytes| >= 20 {
      ErrorBit(bytes);
      FdBits(bytes[10]);
    }
  }

  lemma FdBits(flags: u8)
    ensures flags / 2 % 8 * 2 != 0 <==> HasBit(flags, 2) || HasBit(flags, 4) || HasBit(flags, 8)
  {
    var x: int := flags;
    var a, b, c := x / 2, x / 2 / 2, x / 2 / 2 / 2;
    FourBits(x, x % 2, a % 2, b % 2, c % 2, c / 2);
  }

  lemma FourBits(x: int, b0: int, b1: int, b2: int, b3: int, rest: int)
    requires x == b0 + 2 * (b1 + 2 * (b2 + 2 * (b3 + 2 * rest)))
    requires 0 <= b0 <= 1 && 0 <= b1 <= 1 && 0 <= b2 <= 1 && 0 <= b3 <= 1 && rest >= 0
    ensures x / 2 % 8 == b1 + 2 * b2 + 4 * b3
    ensures x / 2 % 2 == b1 && x / 4 % 2 == b2 && x / 8 % 2 == b3
  {
    Euclid(x, 2, b1 + 2 * (b2 + 2 * (b3 + 2 * rest)), b0);
    Euclid(b1 + 2 * (b2 + 2 * (b3 + 2 * rest)), 8, rest, b1 + 2 * b2 + 4 * b3);
    Euclid(b1 + 2 * (b2 + 2 * (b3 + 2 * rest)), 2, b2 + 2 * (b3 + 2 * rest), b1);
    Euclid(x, 4, b2 + 2 * (b3 + 2 * rest), b0 + 2 * b1);
    Euclid(b2 + 2 * (b3 + 2 * rest), 2, b3 + 2 * rest, b2);
    Euclid(x, 8, b3 + 2 * rest, b0 + 2 * b1 + 4 * b2);
    Euclid(b3 + 2 * rest, 2, rest, b3);
  }

  lemma Euclid(x: int, d: int, q: int, r: int)
    requires (d == 2 || d == 4 || d == 8) && x == d * q + r && 0 <= r < d
    ensures x / d == q && x % d == r
  {
  }

  lemma ErrorBit(bytes: seq<u8>)
    requires |bytes| >= 8
    ensures HasBit(FromLe(bytes, 4), CAN_ERR_FLAG) <==> bytes[7] / 0x20 % 2 == 1
  {
    var low: int, top: int := bytes[4] as int + 0x100 * bytes[5] as int + 0x1_0000 * bytes[6] as int, bytes[7];
    assert (low + 0x100_0000 * top) / 0x2000_0000 == top / 0x20;
  }

  /** What `send` checks before it accepts a frame. */
  predicate Encodable(frame: CanFrame) {
    && !frame.flags.fdFormat
    && frame.len <= 8
    && frame.id <= if frame.flags.extendedId then CAN_EFF_MASK else CAN_SFF_MASK
  }

  lemma EncodeSucceedsExactlyOn(echoId: u32, frame: CanFrame)
    ensures Encode(echoId, frame).Success? <==> Encodable(frame)
  {
  }

  /** Both identifier bits and the id itself survive the identifier word. */
  lemma IdWordBits(frame: CanFrame)
    requires Encodable(frame)
    ensures var word := IdWord(frame).value;
      && !HasBit(word, CAN_ERR_FLAG)
      && HasBit(word, CAN_EFF_FLAG) == frame.flags.extendedId
      && HasBit(word, CAN_RTR_FLAG) == frame.flags.remoteRequest
      && word % (CAN_EFF_MASK + 1) == frame.id
      && (!frame.flags.extendedId ==> word % (CAN_SFF_MASK + 1) == frame.id)
  {
  }

  /** The bytes on the wire, position by position. */
  lemma EncodeLayout(echoId: u32, frame: CanFrame)
    requires Encodable(frame)
    ensures var b: seq<int> := Encode(echoId, frame).value;
      && echoId == b[0] + 0x100 * b[1] + 0x1_0000 * b[2] + 0x100_0000 * b[3]
      && frame.id == b[4] + 0x100 * b[5] + 0x1_0000 * b[6] + 0x100_0000 * (b[7] % 0x20)
      && b[7] / 0x80 == (if frame.flags.extendedId then 1 else 0)
      && b[7] / 0x40 % 2 == (if frame.flags.remoteRequest then 1 else 0)
      && b[7] / 0x20 % 2 == 0
      && b[8] == frame.len && b[9] == b[10] == b[11] == 0
      && forall i | 0 <= i < 8 :: b[12 + i] == if i < frame.len then frame.data[i] else 0
  {
    var word := IdWord(frame).value;
    LeastFirst(echoId);
    LeastFirst(word);
    TopByte(frame.id, frame.flags.extendedId, frame.flags.remoteRequest, word);
  }

  lemma TopByte(id: int, extended: bool, remote: bool, word: u32)
    requires 0 <= id < 0x2000_0000
    requires word == id + (if extended then 0x8000_0000 else 0) + (if remote then 0x4000_0000 else 0)
    ensures var top := word / 0x100_0000;
      && word % 0x100_0000 + 0x100_0000 * (top % 0x20) == id
      && top / 0x80 == (if extended then 1 else 0)
      && top / 0x40 % 2 == (if remote then 1 else 0)
      && top / 0x20 % 2 == 0
  {
  }

  /** Equal in everything a receiver can observe through the frame's accessors. */
  predicate SameFrame(a: CanFrame, b: CanFrame) {
    a.id == b.id && a.flags == b.flags && a.len == b.len <= 64 && Payload(a) == Payload(b)
  }

  /**
   Decoding an encoded frame gives back its echo id, identifier, length and
   payload, and its flags with the bits classical CAN cannot carry cleared.
   */
  lemma DecodeEncode(echoId: u32, frame: CanFrame)
    requires Encodable(frame)
    ensures
      var decoded := Decode(Encode(echoId, frame).value);
      && decoded.Success?
      && decoded.value.0 == echoId
      && SameFrame(decoded.value.1, frame.(flags := NoFlags.(
           extendedId := frame.flags.extendedId, remoteRequest := frame.flags.remoteRequest)))
  {
    var word := IdWord(frame).value;
    var bytes := Encode(echoId, frame).value;
    assert bytes[0..4] == ToLe(echoId) && bytes[4..8] == ToLe(word);
    assert FromLe(bytes, 0) == FromLe(ToLe(echoId), 0);
    assert FromLe(bytes, 4) == FromLe(ToLe(word), 0);
    FromLeToLe(echoId);
    FromLeToLe(word);
    IdWordBits(frame);
    assert bytes[12..12 + frame.len] == Payload(frame);
  }

  /** The first twenty bytes with everything past the DLC cleared. */
  function ZeroTail(bytes: seq<u8>): (r: seq<u8>)
    requires |bytes| >= HOST_FRAME_LEN && bytes[8] <= 8
    ensures |r| == HOST_FRAME_LEN
  {
    bytes[..12] + Padded(bytes[12..12 + bytes[8]], 8)
  }

  /** Whatever decodes is the encoding of what it decodes to, up to the unused payload bytes. */
  lemma EncodeDecode(bytes: seq<u8>)
    requires Decode(bytes).Success?
    ensures
      var (echoId, frame) := Decode(bytes).value;
      && Encodable(frame)
      && frame.flags == NoFlags.(extendedId := frame.flags.extendedId, remoteRequest := frame.flags.remoteRequest)
      && Encode(echoId, frame) == Success(ZeroTail(bytes))
  {
    DecodedFields(bytes);
    ToLeFromLe(bytes, 0);
    ToLeFromLe(bytes, 4);
    assert bytes[..12] == bytes[0..4] + bytes[4..8] + [bytes[8], 0, 0, 0];
  }

  lemma DecodedFields(bytes: seq<u8>)
    requires Decode(bytes).Success?
    ensures
      var (echoId, frame) := Decode(bytes).value;
      && echoId == FromLe(bytes, 0) && IdWord(frame) == Success(FromLe(bytes, 4))
      && frame.len == bytes[8] <= 8 && bytes[9] == bytes[10] == bytes[11] == 0
      && Payload(frame) == bytes[12..12 + bytes[8]]
      && frame.flags == NoFlags.(extendedId := frame.flags.extendedId, remoteRequest := frame.flags.remoteRequest)
  {
    WordFromBits(FromLe(bytes, 4));
  }

  lemma WordFromBits(raw: u32)
    requires !HasBit(raw, CAN_ERR_FLAG)
    ensures raw == raw % (CAN_EFF_MASK + 1)
                 + (if HasBit(raw, CAN_EFF_FLAG) then CAN_EFF_FLAG else 0)
                 + (if HasBit(raw, CAN_RTR_FLAG) then CAN_RTR_FLAG else 0)
  {
  }

  /** Payload bytes past the DLC, and anything after the host frame, do not matter. */
  lemma DecodeIgnoresTail(bytes: seq<u8>)
    requires |bytes| >= HOST_FRAME_LEN && bytes[8] <= 8
    ensures Decode(bytes) == Decode(ZeroTail(bytes))
  {
    var tail := ZeroTail(bytes);
    assert forall i | 0 <= i < 12 + bytes[8] :: tail[i] == bytes[i];
    assert FromLe(bytes, 0) == FromLe(tail, 0) && FromLe(bytes, 4) == FromLe(tail, 4);
    assert bytes[12..12 + bytes[8]] == tail[12..12 + tail[8]];
  }

  /** The accepted buffers are exactly those that agree with an encoding up to the DLC. */
  lemma DecodeAcceptsExactlyEncodings(bytes: seq<u8>)
    requires |bytes| >= HOST_FRAME_LEN
    ensures Decode(bytes).Success? <==>
      bytes[8] <= 8 && exists echoId, frame :: Encode(echoId, frame) == Success(ZeroTail(bytes))
  {
    if Decode(bytes).Success? {
      EncodeDecode(bytes);
    }
    if bytes[8] <= 8 {
      DecodeIgnoresTail(bytes);
      forall echoId, frame | Encode(echoId, frame) == Success(ZeroTail(bytes))
        ensures Decode(bytes).Success?
      {
        DecodeEncode(echoId, frame);
      }
    }
  }

  /** Two encodable frames with equal encodings are the same frame under the same echo id. */
  lemma EncodeInjective(e1: u32, f1: CanFrame, e2: u32, f2: CanFrame)
    requires Encodable(f1) && Encodable(f2)
    requires Encode(e1, f1) == Encode(e2, f2)
    ensures e1 == e2 && f1.id == f2.id && f1.len == f2.len && Payload(f1) == Payload(f2)
    ensures f1.flags.extendedId == f2.flags.extendedId && f1.flags.remoteRequest == f2.flags.remoteRequest
  {
    DecodeEncode(e1, f1);
    DecodeEncode(e2, f2);
  }

  /** The encoder as the source runs it: a zeroed buffer filled field by field. */
  method EncodeHostFrame(echoId: u32, frame: CanFrame) returns (r: Result<array<u8>, ProtocolError>)
    ensures r.Success? ==> fresh(r.value) && Encode(echoId, frame) == Success(r.value[..])
    ensures r.Failure? ==> Encode(echoId, frame) == Failure(r.error)
  {
    if frame.flags.fdFormat {
      return Failure(CanFdFrame);
    }
    if frame.len > 8 {
      return Failure(InvalidDlc(frame.len));
    }
    var canId := frame.id;
    if frame.flags.extendedId {
      if canId > CAN_EFF_MASK {
        return Failure(InvalidExtendedId(canId));
      }
      canId := SetBit(canId, CAN_EFF_FLAG);
    } else if canId > CAN_SFF_MASK {
      return Failure(InvalidStandardId(canId));
    }
    if frame.flags.remoteRequest {
      canId := SetBit(canId, CAN_RTR_FLAG);
    }
    var bytes := WriteHostFrame(echoId, canId, frame.len, Payload(frame));
    r := Success(bytes);
  }

  method WriteHostFrame(echoId: u32, word: u32, len: u8, payload: seq<u8>) returns (bytes: array<u8>)
    requires |payload| <= 8
    ensures fresh(bytes) && bytes[..] == ToLe(echoId) + ToLe(word) + [len, 0, 0, 0] + Padded(payload, 8)
  {
    bytes := new u8[HOST_FRAME_LEN](_ => 0);
    ghost var blank := bytes[..];
    assert blank == seq(HOST_FRAME_LEN, _ => 0);
    PutU32(bytes, 0, echoId);
    PutU32(bytes, 4, word);
    CopySlice(bytes, 8, [len, 0, 0, 0]);
    CopySlice(bytes, 12, payload);
    Assembled(blank, ToLe(echoId), ToLe(word), [len, 0, 0, 0], payload);
  }

  /** Overwriting a blank buffer field by field lays the fields end to end. */
  lemma Assembled(blank: seq<u8>, echoId: seq<u8>, word: seq<u8>, header: seq<u8>, payload: seq<u8>)
    requires blank == seq(HOST_FRAME_LEN, _ => 0)
    requires |echoId| == |word| == |header| == 4 && |payload| <= 8
    ensures
      var three := Overwritten(Overwritten(Overwritten(blank, 0, echoId), 4, word), 8, header);
      Overwritten(three, 12, payload) == echoId + word + header + Padded(payload, 8)
  {
    var one := Overwritten(blank, 0, echoId);
    var two := Overwritten(one, 4, word);
    var three := Overwritten(two, 8, header);
    assert three[..12] == echoId + word + header;
    assert forall i | 12 <= i < 20 :: three[i] == two[i] == one[i] == blank[i] == 0;
    assert three[12 + |payload|..] == seq(8 - |payload|, _ => 0);
  }
}
