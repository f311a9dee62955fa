# CAN bus comms handler: a Dafny model

This project models the Bit Parallel SocketCAN driver. The driver has a Java side and a native side:

- `CanMessage` decodes the 32-bit CAN identifier word.
- `CanFilter` is a mask/pattern pair.
- `CanCommsHandler` has two run flags and two tasks, a bounded receive queue, and two listener registries. It also fans messages and notifications out to listeners.
- The JNI library for little-endian ARM Linux opens the raw CAN socket, builds and writes frames, and feeds the receive queue.

Modules, one per source file:

- `Wrappers`: `Option`.
- `CanMessage` (`can_message.dfy`): the identifier layout. Ids are `bv32` and bytes are `bv8`. Bits 0-28 are the identifier, bit 29 is ERR, bit 30 is RTR and bit 31 is EFF, as in Linux `can.h`. The module also has the two constructors, every accessor and `is*` test, the controller/protocol label tables, and the flag part of `toString`.
- `CanFilter` (`can_filter.dfy`): the filter value.
- `NativeLinux` (`native_linux.dfy`): the JNI part, apart from the receive loop body and `nativeClose`:
  - `struct can_frame` and its 16-byte image.
  - The message built from a received frame.
  - The frame built for transmission, and the partial-write retry loop.
  - The filter copy into `struct can_filter`.
  - The sequence of system calls in open.
- `CanCommsHandler` (`comms_handler.dfy`): the class `Handler`. It also holds one iteration of the native receive loop (`Handler.NativeReceiveStep`), because that iteration changes the handler's queue and flags. The `close` call of `nativeClose` is only the `closeOk` input of `Stop`.

The two threads are flattened into atomic steps on `Handler`:

- `DispatchStep` is one iteration of the listener task loop.
- `NativeReceiveStep` is one iteration of the native receive loop.
- Each step starts with the loop-head test of its run flag. A task whose flag is clear at that test becomes `Terminated`.
- Joining a task runs it to its loop head with the flag cleared. A thread that was never started stays `New`.
- What listeners observe is recorded in `log`, as `Called` and `Caught` events.

The environment is supplied as inputs rather than modelled:

- Which listeners throw is the `throwing` set given to each step.
- System call results are inputs: `OpenOracle`, a sequence of `WriteResult`, a `ReadResult`, and the `closeOk` flag of `Stop`.

A full receive → queue → dispatch run is `CanCommsHandler.ReceiveThenDispatch`.

When the receive queue is full, the native task discards the frame: it uses `offer` and does not block.

## Model

| member | source | states |
|---|---|---|
| CanMessage.Message.Id | src/bitparallel/communication/CanMessage.java:79-84 | bits 0-28 of the raw word are kept and the EFF, RTR and ERR bits are always clear |
| CanMessage.FromRaw | src/bitparallel/communication/CanMessage.java:62-66 | `getRawId` returns exactly the word passed in, `getPayload` the payload passed in, and `getId` is that word masked with 0x1fffffff |
| CanMessage.FromFlags | src/bitparallel/communication/CanMessage.java:70-77 | flags are only OR-ed in: extended iff `isEFF` or bit 31 of the id, RTR iff `isRTR` or bit 30, error frame iff bit 29 of the id; `getId` is unaffected by the flags; payload kept |
| CanMessage.SetFlags | src/bitparallel/communication/CanMessage.java:72-74 | the word keeps bits 0-29 of `id` and has EFF/RTR set exactly when requested or already present |
| CanMessage.SetFlagsKeepsIdentifier | src/bitparallel/communication/CanMessage.java:70-84 | setting flags changes neither the masked identifier nor the error flag |
| CanMessage.FromFlagsReadsBack | src/bitparallel/communication/CanMessage.java:70-77 | when bits 30-31 of the caller's id are clear, `isExtendedId` and `isRemoteTransmissionRequest` return exactly `isEFF` and `isRTR` |
| CanMessage.FromFlagsCoversDataFrames | src/bitparallel/communication/CanMessage.java:70-114 | every data-frame message equals the one the semantic constructor builds from its own flags and `getId` |
| CanMessage.StripFlags | src/bitparallel/communication/CanMessage.java:79-84 | the low 29 bits are preserved and the three flag bits cleared |
| CanMessage.Message.RawId | src/bitparallel/communication/CanMessage.java:86-89 | the raw word holds `getId()` in bits 0-28 and has the EFF, RTR and ERR bits exactly when `isExtendedId`, `isRemoteTransmissionRequest` and `isErrorFrame` say so |
| CanMessage.AccessorsRebuildMessage | src/bitparallel/communication/CanMessage.java:62-94 | the raw constructor given a message's own `getRawId` and `getPayload` rebuilds that message |
| CanMessage.Message.IsExtendedId | src/bitparallel/communication/CanMessage.java:96-99 | extended format is the top bit (bit 31) of the raw word |
| CanMessage.Message.IsStandardId | src/bitparallel/communication/CanMessage.java:96-104 | `isStandardId` is the negation of `isExtendedId` for every word |
| CanMessage.Message.IsErrorFrame | src/bitparallel/communication/CanMessage.java:111-114 | an error frame is one whose raw word has bit 29 set |
| CanMessage.Message.IsDataFrame | src/bitparallel/communication/CanMessage.java:106-114 | `isDataFrame` is the negation of `isErrorFrame` for every word |
| CanMessage.Message.IsRemoteTransmissionRequest | src/bitparallel/communication/CanMessage.java:139-142 | a remote transmission request is one whose raw word has bit 30 set |
| CanMessage.ClassBitIgnoresFlags | src/bitparallel/communication/CanMessage.java:116-134 | testing any of the bits 0x04, 0x08, 0x40, 0x100 on the masked identifier gives the same answer as on the raw word |
| CanMessage.Message.IsBusOffError | src/bitparallel/communication/CanMessage.java:116-119 | true exactly when bit 0x40 of the raw word is set |
| CanMessage.Message.IsControllerError | src/bitparallel/communication/CanMessage.java:121-124 | true exactly when bit 0x04 of the raw word is set |
| CanMessage.Message.IsControllerRestarted | src/bitparallel/communication/CanMessage.java:126-129 | true exactly when bit 0x100 of the raw word is set |
| CanMessage.Message.IsProtocolError | src/bitparallel/communication/CanMessage.java:131-134 | true exactly when bit 0x08 of the raw word is set |
| CanMessage.SignedByte | src/bitparallel/communication/CanCommsHandler.java:146-151 | a payload byte passed to an `int` parameter is sign-extended: within -128..127 and congruent to the byte modulo 256 |
| CanMessage.ControllerErrorMessage | src/bitparallel/communication/CanMessage.java:144-183 | a label is chosen exactly for the eight codes 0, 1, 2, 4, 8, 0x10, 0x20, 0x40; every other value is "Unexpected error code" |
| CanMessage.ControllerLabelsIdentifyCodes | src/bitparallel/communication/CanMessage.java:144-183 | each known code's label identifies the code (reading the label back gives the code) |
| CanMessage.ControllerLabelsDistinct | src/bitparallel/communication/CanMessage.java:144-183 | two different known codes never get the same label |
| CanMessage.ProtocolErrorMessage | src/bitparallel/communication/CanMessage.java:185-196 | only 0x40 is labelled ("Active error state announcement"); every other value is unexpected |
| CanMessage.FlagSuffix | src/bitparallel/communication/CanMessage.java:209-222 | the suffix is bracketed, starts with "SFF" for a standard id, otherwise "EFF", and has 5 characters plus 5 for each of RTR and ERR, so no text beyond the flags |
| CanMessage.FlagSuffixRoundTrip | src/bitparallel/communication/CanMessage.java:209-222 | the suffix announces EFF, RTR and ERR exactly when the identifier carries them (both directions) |
| CanFilter.GettersRebuildFilter | src/bitparallel/communication/CanFilter.java:12-26 | the constructor given a filter's own `getMask` and `getFilter` rebuilds that filter |
| CanFilter.NewFilter | src/bitparallel/communication/CanFilter.java:12-16 | `getMask` returns the constructor's mask and `getFilter` its filter |
| CanFilter.FieldsIndependent | src/bitparallel/communication/CanFilter.java:9-16 | each getter is unaffected by the other constructor argument |
| NativeLinux.EncodeFrame | libcan_comms_handler_linux_arm.cpp:24-28 | the byte image has 16 bytes, with the length code at byte 4 and the data at bytes 8-15 |
| NativeLinux.DecodeFrame | libcan_comms_handler_linux_arm.cpp:24-28 | reading a 16-byte image gives a frame with 8 data bytes whose own image agrees with it everywhere except the three padding bytes |
| NativeLinux.DecodeEncode | libcan_comms_handler_linux_arm.cpp:24-28 | reading the byte image back (little-endian identifier word) gives the frame that was laid out |
| NativeLinux.ReceivedMessage | libcan_comms_handler_linux_arm.cpp:221-223 | the queued message has raw id `can_id` with its flags kept and payload exactly the first `can_dlc` data bytes |
| NativeLinux.FrameIdAsWritten | libcan_comms_handler_linux_arm.cpp:130-135 | as written, the frame's `can_id` holds the message's 29 identifier bits (`getId()`) and never a flag bit |
| NativeLinux.FrameIdAsWrittenDropsExtendedFlag | libcan_comms_handler_linux_arm.cpp:130-135 | an extended message (id 0x18DAF110) is handed to the kernel without its EFF flag |
| NativeLinux.FrameIdAsWrittenLosesFlags | libcan_comms_handler_linux_arm.cpp:130-135 | for every extended or RTR message the transmitted identifier differs from the message's raw id |
| NativeLinux.DlcAsWritten | libcan_comms_handler_linux_arm.cpp:136-137 | as written, `can_dlc` is below 256 and equals the payload length whenever that is below 256, and is always congruent to it modulo 256 |
| NativeLinux.DlcAsWrittenOverflows | libcan_comms_handler_linux_arm.cpp:136-137 | a 9-byte payload copies 9 bytes into the 8-byte data field; a 256-byte payload is sent with length 0 |
| NativeLinux.BuildFrame | libcan_comms_handler_linux_arm.cpp:134-137 | corrected build: a frame exists iff the payload has at most 8 bytes; it carries the full raw id, length code = payload length, and the payload as its first data bytes |
| NativeLinux.ReceiveInvertsBuild | libcan_comms_handler_linux_arm.cpp:134-137 | a frame built for transmission and received back is the original message |
| NativeLinux.WriteSpec | libcan_comms_handler_linux_arm.cpp:141-160 | reference behaviour of the loop, one write result at a time: never more bytes than remain, never more results than given |
| NativeLinux.WriteSpecOutcomes | libcan_comms_handler_linux_arm.cpp:141-160 | the loop ends sent (exactly when all bytes went), out of results, or on a non-retryable error that is the last result consumed, every earlier error being EINTR/EAGAIN/EWOULDBLOCK |
| NativeLinux.WholeWriteEndsLoop | libcan_comms_handler_linux_arm.cpp:142 | a write returning the remaining size ends the loop at once with everything sent |
| NativeLinux.RetryableErrorIsRepeated | libcan_comms_handler_linux_arm.cpp:144-148 | a retryable error consumes one result and changes nothing else |
| NativeLinux.EmptyWriteIsRepeated | libcan_comms_handler_linux_arm.cpp:158-159 | a write of 0 bytes leaves the bytes still to go unchanged |
| NativeLinux.PartialWritesAddUp | libcan_comms_handler_linux_arm.cpp:158-159 | partial writes of 10 and 6 bytes send the whole 16-byte image in two writes |
| NativeLinux.WriteFrame | libcan_comms_handler_linux_arm.cpp:141-160 | the loop's outcome, byte count and results consumed are exactly WriteSpec's (with `i + size == 16` kept throughout), and the bytes sent are the start of the image |
| NativeLinux.NativeTransmit | libcan_comms_handler_linux_arm.cpp:127-161 | an oversize payload is refused before any write; otherwise outcome and byte count are WriteSpec's, what is sent is a prefix of the frame's image, and a completed write delivers an image that decodes back to the message |
| NativeLinux.ToKernel | libcan_comms_handler_linux_arm.cpp:103-111 | one kernel record per filter, record i holding filter i's mask as `can_mask` and its pattern as `can_id` |
| NativeLinux.CopyFilters | libcan_comms_handler_linux_arm.cpp:103-111 | `cppFilters[i]` has `can_mask` = filter i's mask and `can_id` = filter i's pattern, for every i |
| NativeLinux.KernelInstall | libcan_comms_handler_linux_arm.cpp:113 | Linux CAN_RAW_FILTER rule: refused unless the byte length is a whole number of 8-byte records, at most 512; otherwise that many records are installed |
| NativeLinux.FilterOptLenAsWritten | libcan_comms_handler_linux_arm.cpp:113 | as written, the option length counts filter records, not bytes: it is an eighth of the length the option needs, so short of it whenever there is a filter |
| NativeLinux.FilterOptLenAsWrittenRejectsOne | libcan_comms_handler_linux_arm.cpp:113 | as written (length = number of filters), a single filter is always refused |
| NativeLinux.FilterOptLenAsWrittenNeverInstallsAll | libcan_comms_handler_linux_arm.cpp:113 | as written, no non-empty filter list is ever installed as given |
| NativeLinux.FilterOptLen | libcan_comms_handler_linux_arm.cpp:113 | corrected option length: a whole number of 8-byte `can_filter` records, one per filter |
| NativeLinux.FilterOptLenInstallsAll | libcan_comms_handler_linux_arm.cpp:98-113 | with the corrected length every list of up to 512 filters is installed exactly |
| NativeLinux.OpenSteps | libcan_comms_handler_linux_arm.cpp:98-99 | the filter step is taken iff there is at least one filter |
| NativeLinux.OpenSucceedsSteps | libcan_comms_handler_linux_arm.cpp:41-124 | open succeeds exactly when socket, ioctl, bind, the error-filter option and (with filters) the filter option all succeed |
| NativeLinux.NativeOpen | libcan_comms_handler_linux_arm.cpp:30-125 | steps run in order and stop at the first failure, which returns -1; full success returns the socket descriptor with the filters installed |
| CanCommsHandler.Invoke | src/bitparallel/communication/CanCommsHandler.java:59-72 | a listener is entered with the callback when its argument exists; a caught exception is recorded exactly when the listener throws or the argument is missing |
| CanCommsHandler.FanOut | src/bitparallel/communication/CanCommsHandler.java:59-72 | a fan-out only enters listeners and catches their exceptions, nothing else |
| CanCommsHandler.FanOutReachesAll | src/bitparallel/communication/CanCommsHandler.java:118-133 | every listener is entered exactly once, in list order, whichever listeners throw |
| CanCommsHandler.FanOutIsolatesFailures | src/bitparallel/communication/CanCommsHandler.java:59-72 | exceptions are caught for exactly the throwing listeners, in list order |
| CanCommsHandler.FanOutSameCallback | src/bitparallel/communication/CanCommsHandler.java:59-72 | every listener entered by one notification gets the same callback and is in the list |
| CanCommsHandler.FanOutUncomputable | src/bitparallel/communication/CanCommsHandler.java:146-151 | when `payload[1]`/`payload[2]` is missing no listener is entered and each one's exception is caught |
| CanCommsHandler.Among | src/bitparallel/communication/CanCommsHandler.java:59-72 | a listener is selected iff it is registered and throws |
| CanCommsHandler.RecipientsAppend | src/bitparallel/communication/CanCommsHandler.java:59-72 | recipients of consecutive notifications concatenate |
| CanCommsHandler.FailuresAppend | src/bitparallel/communication/CanCommsHandler.java:59-72 | caught exceptions of consecutive notifications concatenate |
| CanCommsHandler.RecipientsOfInvoke | src/bitparallel/communication/CanCommsHandler.java:63-70 | one listener with a computable argument is entered once, and its exception caught iff it throws |
| CanCommsHandler.IndexOf | src/bitparallel/communication/CanCommsHandler.java:251-254 | the first position holding the listener |
| CanCommsHandler.IndexOfIsFirst | src/bitparallel/communication/CanCommsHandler.java:251-254 | a position holding the listener with none before it is the first occurrence |
| CanCommsHandler.RemoveFirst | src/bitparallel/communication/CanCommsHandler.java:251-254 | remove deletes the first equal element and keeps the rest in order; a list without it is unchanged |
| CanCommsHandler.RemoveFirstMultiset | src/bitparallel/communication/CanCommsHandler.java:251-254 | remove takes away exactly one occurrence and nothing else |
| CanCommsHandler.RemoveUndoesAdd | src/bitparallel/communication/CanCommsHandler.java:246-254 | adding an unregistered listener and removing it restores the list |
| CanCommsHandler.RemoveKeepsLaterCopy | src/bitparallel/communication/CanCommsHandler.java:246-254 | removing a listener registered twice keeps the later registration |
| CanCommsHandler.ControllerErrorPassesByte1 | src/bitparallel/communication/CanCommsHandler.java:144-147 | a controller error frame without bus-off that has payload byte 1 reaches every notification listener in order, only as `notifyControllerError` of that byte sign-extended |
| CanCommsHandler.ProtocolErrorPassesByte2 | src/bitparallel/communication/CanCommsHandler.java:149-152 | a protocol error frame without bus-off or controller bits that has payload byte 2 reaches every notification listener in order, only as `notifyProtocolError` of that byte sign-extended |
| CanCommsHandler.RestartedNotifiesRestarted | src/bitparallel/communication/CanCommsHandler.java:154-157 | a restart report carrying none of the other three classes reaches every notification listener in order, only as `notifyControllerRestarted` |
| CanCommsHandler.ErrorKindOf | src/bitparallel/communication/CanCommsHandler.java:139-162 | the chosen notification is carried by the frame unless none is, and bus-off always wins |
| CanCommsHandler.ErrorKindIsFirstCarried | src/bitparallel/communication/CanCommsHandler.java:139-162 | the chosen notification is one the frame carries and has the highest priority (bus-off, controller, protocol, restarted) of those it carries |
| CanCommsHandler.ErrorKindUnrecognised | src/bitparallel/communication/CanCommsHandler.java:159-162 | no notification is chosen exactly when the frame carries none of the four classes |
| CanCommsHandler.ErrorCallback | src/bitparallel/communication/CanCommsHandler.java:141-157 | controller errors need payload byte 1, protocol errors byte 2; bus-off and restarted always have their callback (which callback and argument each class raises is stated by the four lemmas on BusOff, Controller, Protocol and Restarted frames) |
| CanCommsHandler.Dispatch | src/bitparallel/communication/CanCommsHandler.java:118-162 | a data frame enters only message listeners and an error frame only notification listeners |
| CanCommsHandler.DispatchDataFrame | src/bitparallel/communication/CanCommsHandler.java:118-133 | a data frame reaches every message listener exactly once in order, as `rxedCanMessage` of that message |
| CanCommsHandler.DispatchErrorFrame | src/bitparallel/communication/CanCommsHandler.java:139-162 | an error frame raises at most one kind of notification, to all notification listeners (none when the argument is missing or no class matches) |
| CanCommsHandler.BusOffMasksControllerError | src/bitparallel/communication/CanCommsHandler.java:139-147 | every bus-off error frame, whatever other classes it carries, reaches every notification listener in order, and only as `notifyBusOffError` |
| CanCommsHandler.ErrorFilterLimitsNotifications | libcan_comms_handler_linux_arm.cpp:84-85 | with the socket's error mask (controller and bus-off), a delivered error frame can raise only a bus-off or controller notification |
| CanCommsHandler.ErrorMaskBits | libcan_comms_handler_linux_arm.cpp:84 | a word meeting the error mask has the bus-off or the controller bit |
| CanCommsHandler.Handler.constructor | src/bitparallel/communication/CanCommsHandler.java:86-98 | both flags clear, both threads new, queue and registries empty |
| CanCommsHandler.Handler.Open | src/bitparallel/communication/CanCommsHandler.java:86-98 | there is a handler iff open succeeds; it holds the descriptor open returned, both flags are clear, both threads new, and the queue and both registries are empty |
| CanCommsHandler.Handler.Start | src/bitparallel/communication/CanCommsHandler.java:181-210 | succeeds iff neither thread is running; on failure nothing changes; on success the listener task is started before the native task and both flags are set |
| CanCommsHandler.Handler.Joined | src/bitparallel/communication/CanCommsHandler.java:217-228 | a joined thread is not running, and is new only if it was never started |
| CanCommsHandler.Handler.Stop | src/bitparallel/communication/CanCommsHandler.java:212-244 | native flag cleared and joined, then listener, then one close; returns false only when close fails; queue and registries untouched |
| CanCommsHandler.Handler.Transmit | src/bitparallel/communication/CanCommsHandler.java:176-179 | as `NativeTransmit` on the handler's socket: oversize payloads refused, outcome and byte count those of WriteSpec, a completed write decodes back to the message |
| CanCommsHandler.Handler.AddMessageListener | src/bitparallel/communication/CanCommsHandler.java:246-249 | appends; nothing else changes; the handler invariant `Valid` is kept |
| CanCommsHandler.Handler.RemoveMessageListener | src/bitparallel/communication/CanCommsHandler.java:251-254 | first equal element removed; nothing else changes; the handler invariant `Valid` is kept |
| CanCommsHandler.Handler.ClearMessageListeners | src/bitparallel/communication/CanCommsHandler.java:256-259 | empties the list whatever it held (so a second clear changes nothing); nothing else changes; the handler invariant `Valid` is kept |
| CanCommsHandler.Handler.AddNotificationListener | src/bitparallel/communication/CanCommsHandler.java:261-264 | appends; nothing else changes; the handler invariant `Valid` is kept |
| CanCommsHandler.Handler.RemoveNotificationListener | src/bitparallel/communication/CanCommsHandler.java:266-269 | first equal element removed; nothing else changes; the handler invariant `Valid` is kept |
| CanCommsHandler.Handler.ClearNotificationListeners | src/bitparallel/communication/CanCommsHandler.java:271-274 | empties the list whatever it held; nothing else changes; the handler invariant `Valid` is kept |
| CanCommsHandler.Handler.Notify | src/bitparallel/communication/CanCommsHandler.java:57-75 | the loop appends exactly the fan-out of the callback over the listeners |
| CanCommsHandler.Handler.NativeReadErrorHandler | src/bitparallel/communication/CanCommsHandler.java:278-311 | both flags cleared, then every notification listener gets `notifyNativeReadError(errorCode)` once, failures isolated |
| CanCommsHandler.Handler.DispatchStep | src/bitparallel/communication/CanCommsHandler.java:107-167 | flag clear: the task ends; empty queue: nothing delivered; otherwise the head message is removed and dispatched |
| CanCommsHandler.Handler.NativeReceiveStep | libcan_comms_handler_linux_arm.cpp:195-230 | flag clear: the task ends; failed read: error handler with the errno value at the time of the callback, nothing queued; frame: its message is queued, or dropped when 1024 are queued |
| CanCommsHandler.Handler.Offer | libcan_comms_handler_linux_arm.cpp:224-229 | accepted iff fewer than 1024 messages are queued; a refused offer leaves the queue unchanged |
| CanCommsHandler.ReceiveThenDispatch | libcan_comms_handler_linux_arm.cpp:221-224 | a data frame received into an empty queue and then polled reaches every message listener in order |

## Left out

- Library loading and OS/architecture probing (`CanCommsHandler.java:28-53,315-340`): nothing there is CAN logic.
- Real threads: creation, daemon flags, `AtomicBoolean` atomicity, interleavings inside an iteration, and the `InterruptedException` paths. The tasks are modelled as atomic loop iterations.
- The detached thread that `nativeReadErrorHandler` starts: its listener calls are made at once, as part of the handler call.
- The 100 ms timeouts of `select` and `poll`. An empty poll or a not-ready socket is one step that delivers nothing.
- Logging with log4j, the texts of IOExceptions, and the hex formatting in `toString` and the error labels. Only the choice of label is modelled.
- JNI lookups and the device-name conversion. `device` is carried as an opaque string.
- The errno passed to the fault handler: the source reads `errno` after `NewStringUTF` and the `logger.error` JNI call (cpp:210-215), and either may change it. The model passes the value `errno` holds at the time of the callback, which is the `ReadFailed` input, and does not model what those calls do to it.
- Listener exceptions: whether a listener throws is one `throwing` set per step, so a listener registered twice throws at both positions or at neither. A Java listener may behave differently on each call.
- Payload aliasing: `getPayload` returns the message's own mutable `byte[]` (CanMessage.java:58, 91-94), which every message listener shares, so a change one listener makes in place is seen by the listeners after it. A `seq<Byte>` payload is a value, so the model does not capture this sharing.
- Short reads: `read` returning fewer than 16 bytes is treated as a whole frame.
- nativeClose: the `close` system call is the `closeOk` input of `Stop`.
- NativeLinux.EncodeFrame: the three padding bytes and the unused data bytes are zero in the model. The code leaves them uninitialised.
- NativeLinux.WriteFrame: the source loops forever while `write` keeps failing with a retryable error or keeps returning 0 bytes (cpp:158-159 then leave `size` unchanged). The model ends with `OutOfResults` when the supplied write results run out, so those endless runs appear only as a finite prefix.
- NativeLinux.NativeOpen: a later failing step does not close the socket created earlier. The model does not track that leaked descriptor.
- NativeLinux.NativeTransmit, NativeLinux.NativeOpen, CanCommsHandler.Handler.Transmit and CanCommsHandler.Handler.Open: these use the corrected frame build and option length described under Findings, so they do not show that the source's constructor throws for one to seven filters (the kernel refuses the option length) or that it copies oversize payloads past the data field. The as-written behaviour is stated separately, by FrameIdAsWritten, DlcAsWritten and FilterOptLenAsWritten.
- The listener interfaces (`CanNotificationListener`, `CanErrorListener`, `CanReadErrorListener`) have no behaviour. The first only gives the `Callback` alphabet.
- The hardware test harness `CanCommsHandlerTest.java` is not part of this model.

## Findings

| source | as written | input that shows it | evidently intended | confidence | as-written member | corrected member |
|---|---|---|---|---|---|---|
| libcan_comms_handler_linux_arm.cpp:130-135 | the frame's `can_id` is taken from `getId()`, which strips the EFF, RTR and ERR flags | `new CanMessage(true, false, 0x18DAF110, ...)` is handed to the kernel with no EFF flag, so it goes out as a standard frame | send the raw identifier word (`getRawId()`), flags included | not executed | NativeLinux.FrameIdAsWrittenDropsExtendedFlag | NativeLinux.ReceiveInvertsBuild |
| libcan_comms_handler_linux_arm.cpp:136-137 | `can_dlc` is assigned the Java array length and that many bytes are copied into the 8-byte `data` field | a 9-byte payload writes past `data`; a 256-byte payload is sent with length 0 | refuse payloads longer than 8 bytes | not executed | NativeLinux.DlcAsWrittenOverflows | NativeLinux.BuildFrame |
| libcan_comms_handler_linux_arm.cpp:113 | the CAN_RAW_FILTER option length is `length`, the number of filters | one filter gives option length 1, which is not a multiple of `sizeof(struct can_filter)` = 8, so the kernel refuses it with EINVAL and open fails | option length `length * sizeof(can_filter)` | not executed | NativeLinux.FilterOptLenAsWrittenRejectsOne | NativeLinux.FilterOptLenInstallsAll |
