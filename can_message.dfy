/**
  A CAN frame as the Java side sees it: a 32-bit identifier word carrying a
  29-bit (extended) or 11-bit (standard) identifier in bits 0-28 plus three
  flag bits, and the payload bytes. The layout is that of Linux SocketCAN
  (`linux/can.h`, `linux/can/error.h`):

    bits 0-28  identifier
    bit  29    error frame flag      (CAN_ERR_FLAG)
    bit  30    remote transmission request flag (CAN_RTR_FLAG)
    bit  31    extended frame format flag       (CAN_EFF_FLAG)
*/
module CanMessage {

  type Byte = bv8

  const CAN_ERR_MASK: bv32 := 0x1fff_ffff

  const CAN_EFF_FLAG: bv32 := 0x8000_0000
  const CAN_RTR_FLAG: bv32 := 0x4000_0000
  const CAN_ERR_FLAG: bv32 := 0x2000_0000

  // error classes, tested on the masked identifier of an error frame
  const CAN_ERR_CRTL: bv32 := 0x0000_0004
  const CAN_ERR_PROT: bv32 := 0x0000_0008
  const CAN_ERR_BUSOFF: bv32 := 0x0000_0040
  const CAN_ERR_RESTARTED: bv32 := 0x0000_0100

  // controller error status codes (payload byte 1)
  const CAN_ERR_CRTL_UNSPEC: int := 0x00
  const CAN_ERR_CRTL_RX_OVERFLOW: int := 0x01
  const CAN_ERR_CRTL_TX_OVERFLOW: int := 0x02
  const CAN_ERR_CRTL_RX_WARNING: int := 0x04
  const CAN_ERR_CRTL_TX_WARNING: int := 0x08
  const CAN_ERR_CRTL_RX_PASSIVE: int := 0x10
  const CAN_ERR_CRTL_TX_PASSIVE: int := 0x20
  const CAN_ERR_CRTL_ACTIVE: int := 0x40

  // protocol error status code (payload byte 2)
  const CAN_ERR_PROT_ACTIVE: int := 0x40

  const FLAG_BITS: bv32 := CAN_EFF_FLAG | CAN_RTR_FLAG | CAN_ERR_FLAG

  /** The value of a Java `byte` when it is widened to `int` (sign extension). */
  function SignedByte(b: Byte): (r: int)
    ensures -128 <= r < 128
    ensures r % 256 == b as int
  {
    if b < 0x80 then b as int else b as int - 256
  }

  // The identifier-word arithmetic is stated on bare 32-bit words, apart from
  // the message datatype, so that each bit-vector proof stays small.

  /** Clears bits 29-31 (the EFF, RTR and ERR flags) and keeps bits 0-28 as they are. */
  function StripFlags(w: bv32): (r: bv32)
    ensures r & CAN_ERR_MASK == w & CAN_ERR_MASK
    ensures r & FLAG_BITS == 0
  {
    w & CAN_ERR_MASK
  }

  /** OR-s the EFF and RTR flags into `id` as requested; nothing is ever cleared. */
  function SetFlags(isEFF: bool, isRTR: bool, id: bv32): (w: bv32)
    ensures w & (CAN_ERR_FLAG | CAN_ERR_MASK) == id & (CAN_ERR_FLAG | CAN_ERR_MASK)
    ensures (w & CAN_EFF_FLAG != 0) == (isEFF || id & CAN_EFF_FLAG != 0)
    ensures (w & CAN_RTR_FLAG != 0) == (isRTR || id & CAN_RTR_FLAG != 0)
  {
    var eff: bv32 := if isEFF then CAN_EFF_FLAG else 0;
    var rtr: bv32 := if isRTR then CAN_RTR_FLAG else 0;
    id | eff | rtr
  }

  /** Setting flags changes neither the masked identifier nor the error flag. */
  lemma SetFlagsKeepsIdentifier(isEFF: bool, isRTR: bool, id: bv32)
    ensures StripFlags(SetFlags(isEFF, isRTR, id)) == StripFlags(id)
    ensures (SetFlags(isEFF, isRTR, id) & CAN_ERR_FLAG != 0) == (id & CAN_ERR_FLAG != 0)
  {
  }

  /** Testing one of the error-class bits (all below bit 29) after stripping the flags is testing the raw word. */
  lemma ClassBitIgnoresFlags(w: bv32, classBit: bv32)
    requires classBit in {CAN_ERR_CRTL, CAN_ERR_PROT, CAN_ERR_BUSOFF, CAN_ERR_RESTARTED}
    ensures (StripFlags(w) & classBit != 0) == (w & classBit != 0)
  {
  }

  datatype Message = Message(rawId: bv32, payload: seq<Byte>)
  {
    /** The identifier with the EFF, RTR and ERR flags stripped. */
    function Id(): (r: bv32)
      ensures r & CAN_ERR_MASK == rawId & CAN_ERR_MASK
      ensures r & FLAG_BITS == 0
    {
      StripFlags(rawId)
    }

    /** The whole word: the identifier of `Id()` in bits 0-28 and exactly the flags the `is*` tests report. */
    function RawId(): (r: bv32)
      ensures r & CAN_ERR_MASK == Id()
      ensures (r & CAN_EFF_FLAG != 0) == IsExtendedId()
      ensures (r & CAN_RTR_FLAG != 0) == IsRemoteTransmissionRequest()
      ensures (r & CAN_ERR_FLAG != 0) == IsErrorFrame()
    {
      rawId
    }

    function Payload(): (r: seq<Byte>)
      ensures r == payload
    {
      payload
    }

    /** Extended format is the top bit of the word. */
    predicate IsExtendedId()
      ensures IsExtendedId() <==> rawId >= CAN_EFF_FLAG
    {
      rawId & CAN_EFF_FLAG != 0
    }

    predicate IsStandardId()
      ensures IsStandardId() == !IsExtendedId()
    {
      rawId & CAN_EFF_FLAG == 0
    }

    predicate IsDataFrame()
      ensures IsDataFrame() == !IsErrorFrame()
    {
      rawId & CAN_ERR_FLAG == 0
    }

    /** An error frame has bit 29 set. */
    predicate IsErrorFrame()
      ensures IsErrorFrame() <==> (rawId >> 29) & 1 == 1
    {
      rawId & CAN_ERR_FLAG != 0
    }

    /** A remote transmission request has bit 30 set. */
    predicate IsRemoteTransmissionRequest()
      ensures IsRemoteTransmissionRequest() <==> (rawId >> 30) & 1 == 1
    {
      rawId & CAN_RTR_FLAG != 0
    }

    // The four error classes test bits below bit 29, so testing the masked
    // identifier gives the same answer as testing the raw identifier.

    predicate IsBusOffError()
      ensures IsBusOffError() == (rawId & CAN_ERR_BUSOFF != 0)
    {
      ClassBitIgnoresFlags(rawId, CAN_ERR_BUSOFF);
      Id() & CAN_ERR_BUSOFF != 0
    }

    predicate IsControllerError()
      ensures IsControllerError() == (rawId & CAN_ERR_CRTL != 0)
    {
      ClassBitIgnoresFlags(rawId, CAN_ERR_CRTL);
      Id() & CAN_ERR_CRTL != 0
    }

    predicate IsControllerRestarted()
      ensures IsControllerRestarted() == (rawId & CAN_ERR_RESTARTED != 0)
    {
      ClassBitIgnoresFlags(rawId, CAN_ERR_RESTARTED);
      Id() & CAN_ERR_RESTARTED != 0
    }

    predicate IsProtocolError()
      ensures IsProtocolError() == (rawId & CAN_ERR_PROT != 0)
    {
      ClassBitIgnoresFlags(rawId, CAN_ERR_PROT);
      Id() & CAN_ERR_PROT != 0
    }
  }

  /** The constructor used by the native receiver: the identifier word is kept as received. */
  function FromRaw(id: bv32, payload: seq<Byte>): (m: Message)
    ensures m.RawId() == id && m.Payload() == payload
    ensures m.Id() == id & CAN_ERR_MASK
  {
    Message(id, payload)
  }

  /** A message is rebuilt by the raw constructor from its own `getRawId` and `getPayload`. */
  lemma AccessorsRebuildMessage(m: Message)
    ensures FromRaw(m.RawId(), m.Payload()) == m
  {
  }

  /**
    The constructor meant for transmission: the EFF and RTR flags are OR-ed
    into the caller's identifier and never cleared.
  */
  function FromFlags(isEFF: bool, isRTR: bool, id: bv32, payload: seq<Byte>): (m: Message)
    ensures m.Payload() == payload
    ensures m.IsExtendedId() == (isEFF || id & CAN_EFF_FLAG != 0)
    ensures m.IsRemoteTransmissionRequest() == (isRTR || id & CAN_RTR_FLAG != 0)
    ensures m.IsErrorFrame() == (id & CAN_ERR_FLAG != 0)
    ensures m.Id() == StripFlags(id)
  {
    SetFlagsKeepsIdentifier(isEFF, isRTR, id);
    Message(SetFlags(isEFF, isRTR, id), payload)
  }

  /**
    When the caller's identifier has bits 30 and 31 clear, the flags read back
    from a message built by FromFlags are exactly the ones passed in.
  */
  lemma FromFlagsReadsBack(isEFF: bool, isRTR: bool, id: bv32, payload: seq<Byte>)
    requires id & CAN_EFF_FLAG == 0 && id & CAN_RTR_FLAG == 0
    ensures FromFlags(isEFF, isRTR, id, payload).IsExtendedId() == isEFF
    ensures FromFlags(isEFF, isRTR, id, payload).IsRemoteTransmissionRequest() == isRTR
  {
  }

  /** A word without the error flag is rebuilt by SetFlags from its own flags and stripped identifier. */
  lemma SetFlagsOfOwnFlags(w: bv32)
    requires w & CAN_ERR_FLAG == 0
    ensures SetFlags(w & CAN_EFF_FLAG != 0, w & CAN_RTR_FLAG != 0, StripFlags(w)) == w
  {
  }

  /**
    Every data-frame identifier word is produced by the semantic constructor
    from its own flags and masked identifier.
  */
  lemma FromFlagsCoversDataFrames(m: Message)
    requires m.IsDataFrame()
    ensures FromFlags(m.IsExtendedId(), m.IsRemoteTransmissionRequest(), m.Id(), m.payload) == m
  {
    SetFlagsOfOwnFlags(m.rawId);
  }

  /** The message label chosen by `controllerErrorMessage`, before hex formatting. */
  datatype ErrorText = Labelled(text: string) | Unexpected

  const CONTROLLER_ERROR_CODES: set<int> := {
    CAN_ERR_CRTL_UNSPEC, CAN_ERR_CRTL_RX_OVERFLOW, CAN_ERR_CRTL_TX_OVERFLOW,
    CAN_ERR_CRTL_RX_WARNING, CAN_ERR_CRTL_TX_WARNING, CAN_ERR_CRTL_RX_PASSIVE,
    CAN_ERR_CRTL_TX_PASSIVE, CAN_ERR_CRTL_ACTIVE }

  function ControllerErrorMessage(error: int): (r: ErrorText)
    ensures r.Labelled? <==> error in CONTROLLER_ERROR_CODES
  {
    if error == CAN_ERR_CRTL_UNSPEC then Labelled("Unspecified")
    else if error == CAN_ERR_CRTL_RX_OVERFLOW then Labelled("RX Buffer overflow")
    else if error == CAN_ERR_CRTL_TX_OVERFLOW then Labelled("TX Buffer overflow")
    else if error == CAN_ERR_CRTL_RX_WARNING then Labelled("Reached RX warning threshold")
    else if error == CAN_ERR_CRTL_TX_WARNING then Labelled("Reached TX warning threshold")
    else if error == CAN_ERR_CRTL_RX_PASSIVE then Labelled("Reached RX passive threshold")
    else if error == CAN_ERR_CRTL_TX_PASSIVE then Labelled("Reached TX passive threshold")
    else if error == CAN_ERR_CRTL_ACTIVE then Labelled("Recovered to error active state")
    else Unexpected
  }

  /** Reads a controller error code back from its text; the partner of ControllerErrorMessage. */
  function ControllerErrorCode(text: string): (r: int)
  {
    if text == "Unspecified" then CAN_ERR_CRTL_UNSPEC
    else if text == "RX Buffer overflow" then CAN_ERR_CRTL_RX_OVERFLOW
    else if text == "TX Buffer overflow" then CAN_ERR_CRTL_TX_OVERFLOW
    else if text == "Reached RX warning threshold" then CAN_ERR_CRTL_RX_WARNING
    else if text == "Reached TX warning threshold" then CAN_ERR_CRTL_TX_WARNING
    else if text == "Reached RX passive threshold" then CAN_ERR_CRTL_RX_PASSIVE
    else if text == "Reached TX passive threshold" then CAN_ERR_CRTL_TX_PASSIVE
    else if text == "Recovered to error active state" then CAN_ERR_CRTL_ACTIVE
    else -1
  }

  /** Each of the eight known controller codes has a label of its own. */
  lemma ControllerLabelsIdentifyCodes(error: int)
    requires error in CONTROLLER_ERROR_CODES
    ensures ControllerErrorMessage(error).Labelled?
    ensures ControllerErrorCode(ControllerErrorMessage(error).text) == error
  {
  }

  lemma ControllerLabelsDistinct(a: int, b: int)
    requires a in CONTROLLER_ERROR_CODES && b in CONTROLLER_ERROR_CODES && a != b
    ensures ControllerErrorMessage(a) != ControllerErrorMessage(b)
  {
  }

  function ProtocolErrorMessage(error: int): (r: ErrorText)
    ensures r.Labelled? <==> error == CAN_ERR_PROT_ACTIVE
    ensures r.Labelled? ==> r.text == "Active error state announcement"
  {
    if error == CAN_ERR_PROT_ACTIVE then Labelled("Active error state announcement") else Unexpected
  }

  /** The bracketed flag summary that ends `toString`, e.g. "[EFF, RTR]". */
  function FlagSuffix(m: Message): (s: string)
    ensures |s| >= 5 && s[0] == '[' && s[|s| - 1] == ']'
    ensures |s| == 5 + (if m.IsRemoteTransmissionRequest() then 5 else 0) + (if m.IsErrorFrame() then 5 else 0)
    ensures s[1..4] == (if m.IsStandardId() then "SFF" else "EFF")
  {
    "[" + (if m.IsStandardId() then "SFF" else "EFF")
        + (if m.IsRemoteTransmissionRequest() then ", RTR" else "")
        + (if m.IsErrorFrame() then ", ERR" else "")
        + "]"
  }

  /** The three flags a suffix announces: (extended, remote request, error); the partner of FlagSuffix. */
  function ParseFlagSuffix(s: string): (flags: (bool, bool, bool))
  {
    var extended := |s| >= 4 && s[1..4] == "EFF";
    var rest := if |s| >= 5 then s[4..|s| - 1] else "";
    var rtr := |rest| >= 5 && rest[..5] == ", RTR";
    var afterRtr := if rtr then rest[5..] else rest;
    var err := |afterRtr| >= 5 && afterRtr[..5] == ", ERR";
    (extended, rtr, err)
  }

  /** The flag suffix announces EFF, RTR and ERR exactly when the identifier has them. */
  lemma FlagSuffixRoundTrip(m: Message)
    ensures ParseFlagSuffix(FlagSuffix(m)) ==
      (m.IsExtendedId(), m.IsRemoteTransmissionRequest(), m.IsErrorFrame())
  {
    var s := FlagSuffix(m);
    var format := if m.IsStandardId() then "SFF" else "EFF";
    var rtrPart := if m.IsRemoteTransmissionRequest() then ", RTR" else "";
    var errPart := if m.IsErrorFrame() then ", ERR" else "";
    assert s == "[" + format + rtrPart + errPart + "]";
    assert s[1..4] == format;
    assert "SFF" != "EFF" by { assert "SFF"[0] != "EFF"[0]; }
    var rest := s[4..|s| - 1];
    assert rest == rtrPart + errPart;
    assert ", ERR" != ", RTR" by { assert ", ERR"[2] != ", RTR"[2]; }
    if m.IsRemoteTransmissionRequest() {
      assert rest[..5] == ", RTR";
      assert rest[5..] == errPart;
    } else {
      assert rest == errPart;
    }
  }
}
