/**
  The native (JNI) half of the driver for SocketCAN on little-endian ARM
  Linux: the kernel's `struct can_frame` and its byte image, building a frame
  for transmission, the partial-write retry loop, copying the Java filters
  into `struct can_filter` records, and the sequence of system calls that
  opens a bound raw CAN socket.

  System calls are not executed: every call is represented by the result it
  returns, supplied by the caller of the model.
*/
module NativeLinux {

  import opened Wrappers
  import opened CanMessage
  import opened CanFilter

  /** sizeof(struct can_frame): identifier word, length code, three padding bytes, eight data bytes. */
  const CAN_FRAME_SIZE: nat := 16
  const CAN_MAX_DLEN: nat := 8

  /** struct can_frame as the code fills it or the kernel returns it. */
  datatype Frame = Frame(canId: bv32, canDlc: Byte, data: seq<Byte>)

  /** What the kernel guarantees of a classic CAN frame read from a raw socket. */
  predicate FromKernel(f: Frame)
  {
    |f.data| == CAN_MAX_DLEN && f.canDlc as int <= CAN_MAX_DLEN
  }

  // ---------------------------------------------------------------------------
  // The byte image of a frame (the `bytes` view of the CanFrame union)
  // ---------------------------------------------------------------------------

  function Byte0(w: bv32): Byte { (w & 0xff) as Byte }
  function Byte1(w: bv32): Byte { ((w >> 8) & 0xff) as Byte }
  function Byte2(w: bv32): Byte { ((w >> 16) & 0xff) as Byte }
  function Byte3(w: bv32): Byte { ((w >> 24) & 0xff) as Byte }

  /** The little-endian word made of four bytes. */
  function Word(b0: Byte, b1: Byte, b2: Byte, b3: Byte): bv32
  {
    (b0 as bv32) | ((b1 as bv32) << 8) | ((b2 as bv32) << 16) | ((b3 as bv32) << 24)
  }

  function EncodeFrame(f: Frame): (bytes: seq<Byte>)
    requires |f.data| == CAN_MAX_DLEN
    ensures |bytes| == CAN_FRAME_SIZE
    ensures bytes[4] == f.canDlc && bytes[8..] == f.data
  {
    [Byte0(f.canId), Byte1(f.canId), Byte2(f.canId), Byte3(f.canId), f.canDlc, 0, 0, 0] + f.data
  }

  function DecodeFrame(bytes: seq<Byte>): (f: Frame)
    requires |bytes| == CAN_FRAME_SIZE
    ensures |f.data| == CAN_MAX_DLEN
    ensures EncodeFrame(f)[..5] == bytes[..5] && EncodeFrame(f)[8..] == bytes[8..]
  {
    Frame(Word(bytes[0], bytes[1], bytes[2], bytes[3]), bytes[4], bytes[8..])
  }

  /** Reading the byte image back gives the frame that was laid out. */
  lemma DecodeEncode(f: Frame)
    requires |f.data| == CAN_MAX_DLEN
    ensures DecodeFrame(EncodeFrame(f)) == f
  {
  }

  // ---------------------------------------------------------------------------
  // Receiving: a frame read from the socket becomes a CanMessage
  // ---------------------------------------------------------------------------

  /**
    The message the receive task constructs from a frame: the identifier
    word with all its flags, and exactly the first `can_dlc` data bytes.
  */
  function ReceivedMessage(f: Frame): (m: Message)
    requires FromKernel(f)
    ensures m.RawId() == f.canId
    ensures |m.Payload()| == f.canDlc as int
    ensures forall i :: 0 <= i < |m.Payload()| ==> m.Payload()[i] == f.data[i]
    ensures m.IsExtendedId() == (f.canId & CAN_EFF_FLAG != 0)
    ensures m.IsErrorFrame() == (f.canId & CAN_ERR_FLAG != 0)
  {
    FromRaw(f.canId, f.data[..f.canDlc])
  }

  // ---------------------------------------------------------------------------
  // Transmitting: building the frame
  // ---------------------------------------------------------------------------

  /**
    As written, the identifier put into the frame is `getId()`, which has
    the EFF, RTR and ERR flags stripped.
  */
  function FrameIdAsWritten(m: Message): (id: bv32)
    ensures id & CAN_ERR_MASK == m.RawId() & CAN_ERR_MASK
    ensures id & FLAG_BITS == 0
  {
    m.Id()
  }

  /** An extended-format message is transmitted without its EFF flag, so the kernel sends a standard frame. */
  lemma FrameIdAsWrittenDropsExtendedFlag()
    ensures var m := FromFlags(true, false, 0x18da_f110, [1, 2]);
      m.IsExtendedId() && FrameIdAsWritten(m) & CAN_EFF_FLAG == 0
  {
  }

  /** The same holds for every extended or remote-request message, not just the example above. */
  lemma FrameIdAsWrittenLosesFlags(m: Message)
    requires m.IsExtendedId() || m.IsRemoteTransmissionRequest()
    ensures FrameIdAsWritten(m) != m.RawId()
  {
  }

  /**
    As written, `can_dlc` (an 8-bit field) is assigned the Java array length,
    truncated to its low 8 bits, and that many bytes are copied into the
    8-byte data field.
  */
  function DlcAsWritten(m: Message): (dlc: nat)
    ensures dlc < 256
    ensures |m.payload| < 256 ==> dlc == |m.payload|
    ensures (|m.payload| - dlc) % 256 == 0
  {
    |m.payload| % 256
  }

  /** A 9-byte payload is copied past the end of the 8-byte data field; a 256-byte one wraps to length 0. */
  lemma DlcAsWrittenOverflows()
    ensures DlcAsWritten(Message(0x200, seq(9, i => 0))) > CAN_MAX_DLEN
    ensures DlcAsWritten(Message(0x200, seq(256, i => 0))) == 0
  {
  }

  function Zeros(n: nat): (z: seq<Byte>)
    ensures |z| == n
  {
    seq(n, i => 0)
  }

  /**
    The frame built for transmission: the full identifier word (flags
    included), the payload length and the payload bytes, or nothing when the
    payload does not fit the eight data bytes of a classic CAN frame.
  */
  function BuildFrame(m: Message): (r: Option<Frame>)
    ensures r.Some? <==> |m.payload| <= CAN_MAX_DLEN
    ensures r.Some? ==> FromKernel(r.value)
    ensures r.Some? ==> r.value.canId == m.RawId() && r.value.canDlc as int == |m.payload|
    ensures r.Some? ==> r.value.data[..|m.payload|] == m.payload
  {
    if |m.payload| <= CAN_MAX_DLEN then
      Some(Frame(m.rawId, |m.payload| as Byte, m.payload + Zeros(CAN_MAX_DLEN - |m.payload|)))
    else
      None
  }

  /** A frame built for transmission and received back (loopback) is the message that was sent. */
  lemma ReceiveInvertsBuild(m: Message)
    requires |m.payload| <= CAN_MAX_DLEN
    ensures ReceivedMessage(BuildFrame(m).value) == m
  {
  }

  // ---------------------------------------------------------------------------
  // Transmitting: the write retry loop
  // ---------------------------------------------------------------------------

  const EINTR: int := 4
  const EAGAIN: int := 11
  const EWOULDBLOCK: int := 11   // the same value as EAGAIN on Linux

  predicate Retryable(errno: int)
  {
    errno == EINTR || errno == EAGAIN || errno == EWOULDBLOCK
  }

  /**
    The result of one `write` call: the kernel took up to `room` bytes of
    what was offered, or the call failed with `errno`.
  */
  datatype WriteResult = Accepted(room: nat) | WriteFailed(errno: int)

  datatype TxOutcome =
    | Sent                       // every byte of the frame was written
    | TxFailed(errno: int)       // a write failed with a non-retryable error (IOException)
    | PayloadTooLong             // the payload does not fit a classic CAN frame
    | OutOfResults               // the supplied write results ran out before the loop ended

  function Min(a: int, b: int): int { if a <= b then a else b }

  /**
    The reference behaviour of the write loop, one result at a time, with
    `remaining` bytes still to go: (outcome, bytes the kernel took, results
    consumed). A write that takes all the remaining bytes ends the loop; a
    shorter one (zero included) leaves the rest to the next write; a
    retryable error repeats the write; any other error ends the loop.
  */
  function WriteSpec(remaining: nat, writes: seq<WriteResult>): (r: (TxOutcome, nat, nat))
    requires remaining > 0
    ensures r.1 <= remaining && r.2 <= |writes|
    decreases |writes|
  {
    if |writes| == 0 then (OutOfResults, 0, 0)
    else match writes[0]
      case Accepted(room) =>
        var n: nat := if room <= remaining then room else remaining;
        if n == remaining then (Sent, n, 1)
        else
          var r := WriteSpec(remaining - n, writes[1..]);
          (r.0, n + r.1, 1 + r.2)
      case WriteFailed(e) =>
        if Retryable(e) then
          var r := WriteSpec(remaining, writes[1..]);
          (r.0, r.1, 1 + r.2)
        else (TxFailed(e), 0, 1)
  }

  /**
    How the write loop can end: with every byte sent, with the results used
    up, or on the first error that is not retryable, every earlier error
    having been retryable.
  */
  lemma {:induction false} WriteSpecOutcomes(remaining: nat, writes: seq<WriteResult>)
    requires remaining > 0
    ensures var r := WriteSpec(remaining, writes);
      (r.0.Sent? || r.0.TxFailed? || r.0.OutOfResults?) &&
      (r.0.Sent? <==> r.1 == remaining) &&
      (r.0.OutOfResults? ==> r.2 == |writes|) &&
      (r.0.TxFailed? ==> 0 < r.2 && writes[r.2 - 1] == WriteFailed(r.0.errno) && !Retryable(r.0.errno))
    ensures var r := WriteSpec(remaining, writes);
      forall k :: 0 <= k < r.2 && writes[k].WriteFailed? && !(r.0.TxFailed? && k == r.2 - 1) ==> Retryable(writes[k].errno)
    decreases |writes|
  {
    if |writes| > 0 {
      var rest := writes[1..];
      match writes[0]
      case Accepted(room) =>
        if room < remaining {
          WriteSpecOutcomes(remaining - room, rest);
        }
      case WriteFailed(e) =>
        if Retryable(e) {
          WriteSpecOutcomes(remaining, rest);
        }
    }
  }

  /** A first write that takes the whole image ends the loop at once, whatever follows. */
  lemma WholeWriteEndsLoop(remaining: nat, room: nat, rest: seq<WriteResult>)
    requires 0 < remaining <= room
    ensures WriteSpec(remaining, [Accepted(room)] + rest) == (Sent, remaining, 1)
  {
  }

  /** A retryable error only costs one result: the loop then goes on as if it had not happened. */
  lemma RetryableErrorIsRepeated(remaining: nat, errno: int, rest: seq<WriteResult>)
    requires remaining > 0 && Retryable(errno)
    ensures var r := WriteSpec(remaining, rest);
      WriteSpec(remaining, [WriteFailed(errno)] + rest) == (r.0, r.1, r.2 + 1)
  {
    assert ([WriteFailed(errno)] + rest)[1..] == rest;
  }

  /** A write that takes nothing leaves the bytes still to go unchanged. */
  lemma EmptyWriteIsRepeated(remaining: nat, rest: seq<WriteResult>)
    requires remaining > 0
    ensures var r := WriteSpec(remaining, rest);
      WriteSpec(remaining, [Accepted(0)] + rest) == (r.0, r.1, r.2 + 1)
  {
    assert ([Accepted(0)] + rest)[1..] == rest;
  }

  /** Partial writes add up: writes of 10 and then 6 bytes send the 16-byte image. */
  lemma PartialWritesAddUp(rest: seq<WriteResult>)
    ensures WriteSpec(CAN_FRAME_SIZE, [Accepted(10), Accepted(6)] + rest) == (Sent, CAN_FRAME_SIZE, 2)
  {
    var w := [Accepted(10), Accepted(6)] + rest;
    assert w[1..] == [Accepted(6)] + rest;
  }

  /**
    The loop that writes the whole byte image, one `write` per element of
    `writes`. `sent` is what the kernel took, in order: the start of the
    image, as long as WriteSpec says, with the outcome and the number of
    results consumed that WriteSpec gives.
  */
  method WriteFrame(bytes: seq<Byte>, writes: seq<WriteResult>) returns (outcome: TxOutcome, sent: seq<Byte>, used: nat)
    requires |bytes| == CAN_FRAME_SIZE
    ensures (outcome, |sent|, used) == WriteSpec(CAN_FRAME_SIZE, writes)
    ensures sent == bytes[..|sent|]
  {
    var i: nat, size: nat := 0, CAN_FRAME_SIZE;
    sent, used := [], 0;
    outcome := OutOfResults;
    while size > 0
      invariant 0 < size && i + size == CAN_FRAME_SIZE
      invariant sent == bytes[..i]
      invariant used <= |writes|
      invariant var r := WriteSpec(size, writes[used..]);
        WriteSpec(CAN_FRAME_SIZE, writes) == (r.0, i + r.1, used + r.2)
      decreases |writes| - used
    {
      if used == |writes| {
        outcome := OutOfResults;
        return;
      }
      assert writes[used..][1..] == writes[used + 1..];
      var txedBytes := match writes[used]
        case Accepted(room) => Min(room, size)
        case WriteFailed(_) => -1;
      used := used + 1;
      if txedBytes == size {
        sent := sent + bytes[i..i + size];
        outcome := Sent;
        return;
      }
      if txedBytes < 0 {
        var errno := writes[used - 1].errno;
        if Retryable(errno) {
          continue;
        }
        outcome := TxFailed(errno);
        return;
      }
      sent := sent + bytes[i..i + txedBytes];
      size := size - txedBytes;
      i := i + txedBytes;
    }
  }

  /**
    Transmitting a message: build the frame and write its byte image. What
    reaches the kernel is always a prefix of that image, and when all of it
    arrives it decodes to the message itself.
  */
  method NativeTransmit(m: Message, writes: seq<WriteResult>) returns (outcome: TxOutcome, sent: seq<Byte>)
    ensures |m.payload| > CAN_MAX_DLEN <==> outcome == PayloadTooLong
    ensures |m.payload| > CAN_MAX_DLEN ==> sent == []
    ensures |m.payload| <= CAN_MAX_DLEN ==>
      sent <= EncodeFrame(BuildFrame(m).value) && (outcome == Sent <==> sent == EncodeFrame(BuildFrame(m).value))
    ensures |m.payload| <= CAN_MAX_DLEN ==>
      var r := WriteSpec(CAN_FRAME_SIZE, writes); outcome == r.0 && |sent| == r.1
    ensures outcome == Sent ==> |sent| == CAN_FRAME_SIZE && FromKernel(DecodeFrame(sent)) && ReceivedMessage(DecodeFrame(sent)) == m
  {
    var frame := BuildFrame(m);
    if frame.None? {
      return PayloadTooLong, [];
    }
    var bytes := EncodeFrame(frame.value);
    var used;
    outcome, sent, used := WriteFrame(bytes, writes);
    WriteSpecOutcomes(CAN_FRAME_SIZE, writes);
    if outcome == Sent {
      DecodeEncode(frame.value);
      ReceiveInvertsBuild(m);
    }
  }

  // ---------------------------------------------------------------------------
  // Opening: filters and the system-call sequence
  // ---------------------------------------------------------------------------

  /** struct can_filter. */
  datatype KernelFilter = KernelFilter(canId: bv32, canMask: bv32)

  const CAN_FILTER_SIZE: nat := 8      // sizeof(struct can_filter)
  const CAN_RAW_FILTER_MAX: nat := 512

  /** The Java filters as the kernel records them. */
  function ToKernel(filters: seq<Filter>): (ks: seq<KernelFilter>)
    ensures |ks| == |filters|
    ensures forall i :: 0 <= i < |filters| ==> ks[i].canMask == filters[i].mask && ks[i].canId == filters[i].filter
  {
    seq(|filters|, i requires 0 <= i < |filters| => KernelFilter(filters[i].GetFilter(), filters[i].GetMask()))
  }

  /** Fills the `cppFilters` array: mask to `can_mask`, pattern to `can_id`, in array order. */
  method CopyFilters(filters: seq<Filter>) returns (a: array<KernelFilter>)
    ensures a.Length == |filters|
    ensures forall i :: 0 <= i < |filters| ==> a[i].canMask == filters[i].mask && a[i].canId == filters[i].filter
  {
    a := new KernelFilter[|filters|];
    for i := 0 to |filters|
      invariant forall j :: 0 <= j < i ==> a[j].canMask == filters[j].mask && a[j].canId == filters[j].filter
    {
      a[i] := KernelFilter(filters[i].GetFilter(), filters[i].GetMask());
    }
  }

  /**
    The Linux rule for the CAN_RAW_FILTER socket option: the option length
    must be a whole number of `struct can_filter` records and at most
    CAN_RAW_FILTER_MAX of them (otherwise EINVAL); that many records are
    installed from the start of the buffer.
  */
  function KernelInstall(fs: seq<KernelFilter>, optlen: nat): (r: Option<seq<KernelFilter>>)
    requires optlen <= |fs| * CAN_FILTER_SIZE
    ensures r.Some? <==> optlen % CAN_FILTER_SIZE == 0 && optlen <= CAN_RAW_FILTER_MAX * CAN_FILTER_SIZE
    ensures r.Some? ==> r.value == fs[..optlen / CAN_FILTER_SIZE]
  {
    if optlen % CAN_FILTER_SIZE != 0 || optlen > CAN_RAW_FILTER_MAX * CAN_FILTER_SIZE then None
    else Some(fs[..optlen / CAN_FILTER_SIZE])
  }

  /** As written, the option length passed is the number of filters. */
  function FilterOptLenAsWritten(count: nat): (optlen: nat)
    ensures optlen * CAN_FILTER_SIZE == FilterOptLen(count)
    ensures count > 0 ==> optlen < FilterOptLen(count)
  {
    count
  }

  /** The option length in bytes that the CAN_RAW_FILTER option expects: a whole number of records, `count` of them. */
  function FilterOptLen(count: nat): (optlen: nat)
    ensures optlen % CAN_FILTER_SIZE == 0 && optlen / CAN_FILTER_SIZE == count
  {
    count * CAN_FILTER_SIZE
  }

  /** As written, a single filter is always refused by the kernel. */
  lemma FilterOptLenAsWrittenRejectsOne(f: KernelFilter)
    ensures KernelInstall([f], FilterOptLenAsWritten(1)).None?
  {
  }

  /** As written, no non-empty filter list is ever installed as given. */
  lemma FilterOptLenAsWrittenNeverInstallsAll(fs: seq<KernelFilter>)
    requires 0 < |fs|
    ensures KernelInstall(fs, FilterOptLenAsWritten(|fs|)) != Some(fs)
  {
  }

  /** With the option length in bytes, every list of up to 512 filters is installed exactly. */
  lemma FilterOptLenInstallsAll(fs: seq<KernelFilter>)
    requires |fs| <= CAN_RAW_FILTER_MAX
    ensures KernelInstall(fs, FilterOptLen(|fs|)) == Some(fs)
  {
    assert FilterOptLen(|fs|) / CAN_FILTER_SIZE == |fs|;
    assert fs[..|fs|] == fs;
  }

  /** The error classes the socket is asked to report (CAN_RAW_ERR_FILTER). */
  const ERROR_FILTER_MASK: bv32 := CAN_ERR_CRTL | CAN_ERR_BUSOFF

  /** The kernel delivers an error frame only when one of its class bits is in the error mask. */
  predicate PassesErrorFilter(errorMask: bv32, m: Message)
  {
    m.IsErrorFrame() ==> m.rawId & (errorMask & CAN_ERR_MASK) != 0
  }

  datatype OpenStep = SocketStep | IoctlStep | BindStep | ErrorFilterStep | FilterStep

  /** The results of the system calls made by open, in the order they are made. */
  datatype OpenOracle = OpenOracle(socketFd: int, ioctlOk: bool, bindOk: bool, errorFilterOk: bool, filterOk: bool)

  /** The steps open takes when none fails: the filter step only when there is a filter. */
  function OpenSteps(filters: seq<Filter>): (steps: seq<OpenStep>)
    ensures FilterStep in steps <==> |filters| > 0
  {
    [SocketStep, IoctlStep, BindStep, ErrorFilterStep] + (if |filters| > 0 then [FilterStep] else [])
  }

  predicate StepSucceeds(step: OpenStep, filters: seq<Filter>, os: OpenOracle)
  {
    match step
    case SocketStep => os.socketFd >= 0
    case IoctlStep => os.ioctlOk
    case BindStep => os.bindOk
    case ErrorFilterStep => os.errorFilterOk
    case FilterStep =>
      os.filterOk && KernelInstall(ToKernel(filters), FilterOptLen(|filters|)).Some?
  }

  predicate OpenSucceeds(filters: seq<Filter>, os: OpenOracle)
  {
    forall i :: 0 <= i < |OpenSteps(filters)| ==> StepSucceeds(OpenSteps(filters)[i], filters, os)
  }

  /** Open succeeds exactly when every system call it makes succeeds. */
  lemma OpenSucceedsSteps(filters: seq<Filter>, os: OpenOracle)
    ensures OpenSucceeds(filters, os) <==>
      os.socketFd >= 0 && os.ioctlOk && os.bindOk && os.errorFilterOk &&
      (|filters| > 0 ==> StepSucceeds(FilterStep, filters, os))
  {
    var steps := OpenSteps(filters);
    assert steps[0] == SocketStep && steps[1] == IoctlStep && steps[2] == BindStep && steps[3] == ErrorFilterStep;
    if |filters| > 0 {
      assert steps[4] == FilterStep;
    }
  }

  /**
    nativeOpen: socket, ioctl, bind, the error-filter option and, with at
    least one filter, the filter option. The first failing step ends open
    with -1 (and an IOException); no later step is attempted. On success the
    socket descriptor is returned and the kernel holds the filters.
  */
  method NativeOpen(filters: seq<Filter>, os: OpenOracle)
    returns (fd: int, attempted: seq<OpenStep>, installed: Option<seq<KernelFilter>>)
    ensures 0 < |attempted| && attempted <= OpenSteps(filters)
    ensures forall i :: 0 <= i < |attempted| - 1 ==> StepSucceeds(attempted[i], filters, os)
    ensures fd >= 0 <==> OpenSucceeds(filters, os)
    ensures fd >= 0 ==> fd == os.socketFd && attempted == OpenSteps(filters)
    ensures fd >= 0 ==> installed == if |filters| == 0 then None else Some(ToKernel(filters))
    ensures fd < 0 ==> fd == -1 && !StepSucceeds(attempted[|attempted| - 1], filters, os)
  {
    OpenSucceedsSteps(filters, os);
    installed := None;
    attempted := [SocketStep];
    if os.socketFd < 0 {
      return -1, attempted, installed;
    }
    attempted := attempted + [IoctlStep];
    if !os.ioctlOk {
      return -1, attempted, installed;
    }
    attempted := attempted + [BindStep];
    if !os.bindOk {
      return -1, attempted, installed;
    }
    attempted := attempted + [ErrorFilterStep];
    if !os.errorFilterOk {
      return -1, attempted, installed;
    }
    var length := |filters|;
    if length > 0 {
      var cppFilters := CopyFilters(filters);
      assert cppFilters[..] == ToKernel(filters);
      attempted := attempted + [FilterStep];
      var request := KernelInstall(cppFilters[..], FilterOptLen(length));
      if !os.filterOk || request.None? {
        return -1, attempted, installed;
      }
      installed := request;
      FilterOptLenInstallsAll(cppFilters[..]);
    }
    fd := os.socketFd;
  }
}
