/** The unified CAN frame of the motor-codec crate. */
module CanFrames {
  import opened Wrappers
  import opened MachineInts

  datatype FrameFlags = FrameFlags(
    extendedId: bool,
    fdFormat: bool,
    bitRateSwitch: bool,
    errorState: bool,
    remoteRequest: bool)

  const NoFlags := FrameFlags(false, false, false, false, false)

  datatype FrameError =
    | PayloadTooLong(got: nat)
    | InvalidFdLength(got: nat)
    | IncompatibleFlags

  /** `len` is a public field of the source, so nothing bounds it here. */
  datatype FrameFields = FrameFields(id: u32, flags: FrameFlags, len: u8, data: seq<u8>)

  type CanFrame = f: FrameFields | |f.data| == 64
    witness FrameFields(0, NoFlags, 0, seq(64, _ => 0))

  function Payload(f: CanFrame): (p: seq<u8>)
    requires f.len <= 64
    ensures |p| == f.len
  {
    f.data[..f.len]
  }

  predicate IsValidFdDlc(len: nat) {
    len <= 8 || len in {12, 16, 20, 24, 32, 48, 64}
  }

  /** The payload length a data length code stands for in CAN FD. */
  function FdLength(dlc: nat): nat {
    if dlc <= 8 then dlc else if dlc <= 12 then 8 + 4 * (dlc - 8) else 32 + 16 * (dlc - 13)
  }

  /** The valid lengths are those of the sixteen codes. */
  lemma FdLengths(len: nat)
    ensures IsValidFdDlc(len) <==> exists dlc: nat :: dlc <= 15 && FdLength(dlc) == len
  {
    if IsValidFdDlc(len) {
      var dlc: nat := if len <= 8 then len else if len <= 24 then 8 + (len - 8) / 4 else 13 + (len - 32) / 16;
      assert FdLength(dlc) == len;
    }
  }

  function Padded(payload: seq<u8>, size: nat): (r: seq<u8>)
    requires |payload| <= size
    ensures |r| == size
  {
    payload + seq(size - |payload|, _ => 0)
  }

  function FromParts(id: u32, flags: FrameFlags, payload: seq<u8>): (r: Result<CanFrame, FrameError>)
    ensures r.Success? <==>
      && !(flags.fdFormat && flags.remoteRequest)
      && (if flags.fdFormat then IsValidFdDlc(|payload|) else |payload| <= 8)
    ensures r.Success? ==> r.value.id == id && r.value.flags == flags
    ensures r.Success? ==> r.value.len <= 64 && Payload(r.value) == payload
  {
    if flags.fdFormat && flags.remoteRequest then
      Failure(IncompatibleFlags)
    else if flags.fdFormat && !IsValidFdDlc(|payload|) then
      Failure(InvalidFdLength(|payload|))
    else if !flags.fdFormat && |payload| > 8 then
      Failure(PayloadTooLong(|payload|))
    else
      Success(FrameFields(id, flags, |payload|, Padded(payload, 64)))
  }

  function Classical(id: u32, payload: seq<u8>): (r: Result<CanFrame, FrameError>)
    ensures r.Success? <==> |payload| <= 8
    ensures r.Success? ==> r.value.id == id && r.value.flags == NoFlags == FrameFlags(false, false, false, false, false)
    ensures r.Success? ==> r.value.len <= 8 && Payload(r.value) == payload
  {
    if |payload| > 8 then
      Failure(PayloadTooLong(|payload|))
    else
      Success(FrameFields(id, NoFlags, |payload|, Padded(payload, 64)))
  }
}
