/**
  The Java handler that owns a SocketCAN socket: two run flags and two
  tasks (the native receive task that fills a bounded queue, and the
  listener task that drains it), the registries of message and notification
  listeners, and the fault handler called when a read fails.

  The two threads are flattened into atomic steps on one object: each call
  of `DispatchStep` or `NativeReceiveStep` is one iteration of the
  corresponding task's loop, including the test of its run flag at the loop
  head. Joining a task means running it to that loop head with its flag
  cleared. What the listeners observe is recorded in the `log` field; which
  listeners throw is an input of each step.
*/
module CanCommsHandler {

  import opened Wrappers
  import opened CanMessage
  import opened CanFilter
  import opened NativeLinux

  const RECEIVER_MESSAGE_QUEUE_SIZE: nat := 1024

  /** A registered listener object; equality of ListenerRef values stands for Java `equals` on listeners. */
  type ListenerRef = nat

  /** The part of `Thread.State` the handler tests: a thread never started, one running, one finished. */
  datatype TaskState = New | Running | Terminated

  datatype Task = ListenerTask | NativeTask

  /** The listener callbacks: `rxedCanMessage` and the five of `CanNotificationListener`. */
  datatype Callback =
    | RxedCanMessage(message: Message)
    | NotifyNativeReadError(errorCode: int)
    | NotifyBusOffError
    | NotifyControllerRestarted
    | NotifyControllerError(error: int)
    | NotifyProtocolError(error: int)

  /** What the outside world sees of the handler. */
  datatype Event =
    | Called(listener: ListenerRef, callback: Callback)  // a listener method was entered
    | Caught(listener: ListenerRef)                      // an exception from that listener was caught and logged
    | TaskStarted(task: Task)
    | TaskJoined(task: Task)
    | NativeClosed

  // ---------------------------------------------------------------------------
  // Notifying a list of listeners, each in its own try/catch
  // ---------------------------------------------------------------------------

  /**
    One listener's share of a notification. `None` stands for a callback
    whose argument cannot be computed (a payload byte that is not there):
    the index exception is raised inside the try block and caught, so the
    listener is never entered.
  */
  function Invoke(l: ListenerRef, cb: Option<Callback>, throwing: set<ListenerRef>): (es: seq<Event>)
    ensures 1 <= |es| <= 2
    ensures cb.Some? ==> es[0] == Called(l, cb.value)
    ensures es[|es| - 1] == Caught(l) <==> cb.None? || l in throwing
  {
    match cb
    case None => [Caught(l)]
    case Some(c) => [Called(l, c)] + (if l in throwing then [Caught(l)] else [])
  }

  /** Every listener of `ls`, in order, gets its share. */
  function FanOut(ls: seq<ListenerRef>, cb: Option<Callback>, throwing: set<ListenerRef>): (es: seq<Event>)
    ensures forall e :: e in es ==> e.Called? || e.Caught?
  {
    if |ls| == 0 then []
    else FanOut(ls[..|ls| - 1], cb, throwing) + Invoke(ls[|ls| - 1], cb, throwing)
  }

  /** The listeners entered, in the order they were entered. */
  function Recipients(es: seq<Event>): seq<ListenerRef>
  {
    if |es| == 0 then []
    else Recipients(es[..|es| - 1]) + (if es[|es| - 1].Called? then [es[|es| - 1].listener] else [])
  }

  /** The listeners whose exception was caught, in order. */
  function Failures(es: seq<Event>): seq<ListenerRef>
  {
    if |es| == 0 then []
    else Failures(es[..|es| - 1]) + (if es[|es| - 1].Caught? then [es[|es| - 1].listener] else [])
  }

  /** The members of `ls` that are in `t`, in order. */
  function Among(ls: seq<ListenerRef>, t: set<ListenerRef>): (r: seq<ListenerRef>)
    ensures forall x :: x in r <==> x in ls && x in t
  {
    if |ls| == 0 then []
    else Among(ls[..|ls| - 1], t) + (if ls[|ls| - 1] in t then [ls[|ls| - 1]] else [])
  }

  lemma {:induction false} RecipientsAppend(a: seq<Event>, b: seq<Event>)
    ensures Recipients(a + b) == Recipients(a) + Recipients(b)
    decreases |b|
  {
    if |b| == 0 {
      assert a + b == a;
    } else {
      assert (a + b)[..|a + b| - 1] == a + b[..|b| - 1];
      RecipientsAppend(a, b[..|b| - 1]);
    }
  }

  lemma {:induction false} FailuresAppend(a: seq<Event>, b: seq<Event>)
    ensures Failures(a + b) == Failures(a) + Failures(b)
    decreases |b|
  {
    if |b| == 0 {
      assert a + b == a;
    } else {
      assert (a + b)[..|a + b| - 1] == a + b[..|b| - 1];
      FailuresAppend(a, b[..|b| - 1]);
    }
  }

  /**
    A notification with a computable argument enters every listener exactly
    once, in list order, whichever of them throw.
  */
  lemma {:induction false} FanOutReachesAll(ls: seq<ListenerRef>, c: Callback, throwing: set<ListenerRef>)
    ensures Recipients(FanOut(ls, Some(c), throwing)) == ls
  {
    if |ls| > 0 {
      var init, l := ls[..|ls| - 1], ls[|ls| - 1];
      FanOutReachesAll(init, c, throwing);
      RecipientsAppend(FanOut(init, Some(c), throwing), Invoke(l, Some(c), throwing));
      RecipientsOfInvoke(l, c, throwing);
      assert ls == init + [l];
    }
  }

  lemma RecipientsOfInvoke(l: ListenerRef, c: Callback, throwing: set<ListenerRef>)
    ensures Recipients(Invoke(l, Some(c), throwing)) == [l]
    ensures Failures(Invoke(l, Some(c), throwing)) == if l in throwing then [l] else []
  {
    var one := [Called(l, c)];
    assert one[..0] == [];
    assert Recipients(one) == [l] && Failures(one) == [];
    var inv := Invoke(l, Some(c), throwing);
    if l in throwing {
      assert inv[..1] == one;
    } else {
      assert inv == one;
    }
  }

  /** An exception is caught for exactly the listeners that throw, in list order. */
  lemma {:induction false} FanOutIsolatesFailures(ls: seq<ListenerRef>, c: Callback, throwing: set<ListenerRef>)
    ensures Failures(FanOut(ls, Some(c), throwing)) == Among(ls, throwing)
  {
    if |ls| > 0 {
      var init, l := ls[..|ls| - 1], ls[|ls| - 1];
      FanOutIsolatesFailures(init, c, throwing);
      FailuresAppend(FanOut(init, Some(c), throwing), Invoke(l, Some(c), throwing));
      RecipientsOfInvoke(l, c, throwing);
    }
  }

  /** Every listener entered by a notification gets the same callback. */
  lemma {:induction false} FanOutSameCallback(ls: seq<ListenerRef>, cb: Option<Callback>, throwing: set<ListenerRef>)
    ensures forall e :: e in FanOut(ls, cb, throwing) && e.Called? ==> cb == Some(e.callback) && e.listener in ls
  {
    if |ls| > 0 {
      FanOutSameCallback(ls[..|ls| - 1], cb, throwing);
      assert forall x :: x in ls[..|ls| - 1] ==> x in ls;
    }
  }

  /** With an argument that cannot be computed, no listener is entered and each one's exception is caught. */
  lemma {:induction false} FanOutUncomputable(ls: seq<ListenerRef>, throwing: set<ListenerRef>)
    ensures Recipients(FanOut(ls, None, throwing)) == []
    ensures Failures(FanOut(ls, None, throwing)) == ls
  {
    if |ls| > 0 {
      var init, l := ls[..|ls| - 1], ls[|ls| - 1];
      FanOutUncomputable(init, throwing);
      RecipientsAppend(FanOut(init, None, throwing), [Caught(l)]);
      FailuresAppend(FanOut(init, None, throwing), [Caught(l)]);
      assert Recipients([Caught(l)]) == [];
      assert Failures([Caught(l)]) == [l];
      assert ls == init + [l];
    }
  }

  // ---------------------------------------------------------------------------
  // The listener registries (CopyOnWriteArrayList add / remove / clear)
  // ---------------------------------------------------------------------------

  /** The position of the first occurrence of `x`. */
  function IndexOf(s: seq<ListenerRef>, x: ListenerRef): (i: nat)
    requires x in s
    ensures i < |s| && s[i] == x && x !in s[..i]
    ensures forall k :: 0 <= k < i ==> s[k] != x
  {
    if s[0] == x then 0 else 1 + IndexOf(s[1..], x)
  }

  /** A position holding `x` with no `x` before it is the first occurrence. */
  lemma IndexOfIsFirst(s: seq<ListenerRef>, x: ListenerRef, j: nat)
    requires j < |s| && s[j] == x
    requires forall k :: 0 <= k < j ==> s[k] != x
    ensures IndexOf(s, x) == j
  {
  }

  /** `List.remove(Object)`: the first element equal to `x` is taken out; a list without `x` is unchanged. */
  function RemoveFirst(s: seq<ListenerRef>, x: ListenerRef): (r: seq<ListenerRef>)
    ensures x !in s ==> r == s
    ensures x in s ==> r == s[..IndexOf(s, x)] + s[IndexOf(s, x) + 1..]
  {
    if |s| == 0 then []
    else if s[0] == x then s[1..]
    else
      var rest := RemoveFirst(s[1..], x);
      assert x in s ==> [s[0]] + s[1..][..IndexOf(s[1..], x)] == s[..IndexOf(s, x)];
      [s[0]] + rest
  }

  /** Removal takes away one occurrence of `x` and nothing else. */
  lemma {:induction false} RemoveFirstMultiset(s: seq<ListenerRef>, x: ListenerRef)
    ensures multiset(RemoveFirst(s, x)) == multiset(s) - multiset{x}
  {
    if |s| > 0 {
      assert s == [s[0]] + s[1..];
      if s[0] != x {
        RemoveFirstMultiset(s[1..], x);
      }
    }
  }

  /** Adding a listener that is not registered and then removing it leaves the list as it was. */
  lemma RemoveUndoesAdd(s: seq<ListenerRef>, x: ListenerRef)
    requires x !in s
    ensures RemoveFirst(s + [x], x) == s
  {
  }

  /** Removing a listener registered twice keeps its later registration. */
  lemma RemoveKeepsLaterCopy(s: seq<ListenerRef>, x: ListenerRef)
    requires x in s
    ensures RemoveFirst(s + [x], x) == RemoveFirst(s, x) + [x]
  {
    var i := IndexOf(s, x);
    IndexOfIsFirst(s + [x], x, i);
    assert (s + [x])[..i] == s[..i];
    assert (s + [x])[i + 1..] == s[i + 1..] + [x];
  }

  // ---------------------------------------------------------------------------
  // Choosing the error notification
  // ---------------------------------------------------------------------------

  datatype ErrorKind = BusOff | Controller | Protocol | Restarted | Unrecognised

  /** Whether the frame carries the error class `k`. */
  predicate Carries(m: Message, k: ErrorKind)
  {
    match k
    case BusOff => m.IsBusOffError()
    case Controller => m.IsControllerError()
    case Protocol => m.IsProtocolError()
    case Restarted => m.IsControllerRestarted()
    case Unrecognised => false
  }

  /** The fixed priority of the notification kinds: bus-off first, controller restarted last. */
  function Priority(k: ErrorKind): nat
  {
    match k
    case BusOff => 0
    case Controller => 1
    case Protocol => 2
    case Restarted => 3
    case Unrecognised => 4
  }

  /** The notification kind the if/else chain of the listener task picks for an error frame. */
  function ErrorKindOf(m: Message): (k: ErrorKind)
    ensures k == Unrecognised || Carries(m, k)
    ensures m.IsBusOffError() ==> k == BusOff
  {
    if m.IsBusOffError() then BusOff
    else if m.IsControllerError() then Controller
    else if m.IsProtocolError() then Protocol
    else if m.IsControllerRestarted() then Restarted
    else Unrecognised
  }

  /** The chosen kind is carried by the frame and comes before every other kind the frame carries. */
  lemma ErrorKindIsFirstCarried(m: Message, k: ErrorKind)
    requires Carries(m, k)
    ensures Carries(m, ErrorKindOf(m))
    ensures Priority(ErrorKindOf(m)) <= Priority(k)
  {
  }

  /** No kind is chosen exactly when the frame carries none of the four classes. */
  lemma ErrorKindUnrecognised(m: Message)
    ensures ErrorKindOf(m) == Unrecognised <==> forall k :: !Carries(m, k)
  {
    if ErrorKindOf(m) != Unrecognised {
      assert Carries(m, ErrorKindOf(m));
    }
  }

  /**
    The callback for the chosen kind. A controller error passes payload
    byte 1 and a protocol error payload byte 2, each sign-extended from a
    Java `byte`; when the byte is missing the callback cannot be made.
  */
  function ErrorCallback(m: Message, k: ErrorKind): (cb: Option<Callback>)
    requires k != Unrecognised
    ensures k == Controller ==> (cb.Some? <==> |m.payload| > 1)
    ensures k == Protocol ==> (cb.Some? <==> |m.payload| > 2)
    ensures k == BusOff || k == Restarted ==> cb.Some?
  {
    match k
    case BusOff => Some(NotifyBusOffError)
    case Controller =>
      if |m.payload| > 1 then Some(NotifyControllerError(SignedByte(m.payload[1]))) else None
    case Protocol =>
      if |m.payload| > 2 then Some(NotifyProtocolError(SignedByte(m.payload[2]))) else None
    case Restarted => Some(NotifyControllerRestarted)
  }

  /** What handing one polled message to the listeners produces. */
  function Dispatch(m: Message, messageLs: seq<ListenerRef>, notificationLs: seq<ListenerRef>, throwing: set<ListenerRef>): (es: seq<Event>)
    ensures forall e :: e in es && e.Called? ==> e.listener in (if m.IsDataFrame() then messageLs else notificationLs)
  {
    if m.IsDataFrame() then
      FanOutSameCallback(messageLs, Some(RxedCanMessage(m)), throwing);
      FanOut(messageLs, Some(RxedCanMessage(m)), throwing)
    else if ErrorKindOf(m) == Unrecognised then []
    else
      FanOutSameCallback(notificationLs, ErrorCallback(m, ErrorKindOf(m)), throwing);
      FanOut(notificationLs, ErrorCallback(m, ErrorKindOf(m)), throwing)
  }

  /** A data frame is delivered to every message listener once, in order, and to no notification listener. */
  lemma DispatchDataFrame(m: Message, messageLs: seq<ListenerRef>, notificationLs: seq<ListenerRef>, throwing: set<ListenerRef>)
    requires m.IsDataFrame()
    ensures Recipients(Dispatch(m, messageLs, notificationLs, throwing)) == messageLs
    ensures forall e :: e in Dispatch(m, messageLs, notificationLs, throwing) && e.Called? ==> e.callback == RxedCanMessage(m)
  {
    FanOutReachesAll(messageLs, RxedCanMessage(m), throwing);
    FanOutSameCallback(messageLs, Some(RxedCanMessage(m)), throwing);
  }

  /**
    An error frame gives at most one kind of notification, the one of
    highest priority it carries, and only notification listeners are
    entered: all of them when the callback's argument exists, none when it
    does not or when the frame carries no known class.
  */
  lemma DispatchErrorFrame(m: Message, messageLs: seq<ListenerRef>, notificationLs: seq<ListenerRef>, throwing: set<ListenerRef>)
    requires m.IsErrorFrame()
    ensures var es := Dispatch(m, messageLs, notificationLs, throwing);
      ErrorKindOf(m) == Unrecognised ==> es == []
    ensures var es := Dispatch(m, messageLs, notificationLs, throwing);
      ErrorKindOf(m) != Unrecognised ==>
        Recipients(es) == (if ErrorCallback(m, ErrorKindOf(m)).Some? then notificationLs else []) &&
        forall e :: e in es && e.Called? ==> Some(e.callback) == ErrorCallback(m, ErrorKindOf(m))
  {
    if ErrorKindOf(m) != Unrecognised {
      var cb := ErrorCallback(m, ErrorKindOf(m));
      FanOutSameCallback(notificationLs, cb, throwing);
      if cb.Some? {
        FanOutReachesAll(notificationLs, cb.value, throwing);
      } else {
        FanOutUncomputable(notificationLs, throwing);
      }
    }
  }

  /**
    A bus-off error frame reaches every notification listener, in order, as
    the bus-off notification alone, whatever other classes it carries.
  */
  lemma BusOffMasksControllerError(m: Message, messageLs: seq<ListenerRef>, ls: seq<ListenerRef>, throwing: set<ListenerRef>)
    requires m.IsErrorFrame() && m.IsBusOffError()
    ensures Recipients(Dispatch(m, messageLs, ls, throwing)) == ls
    ensures forall e :: e in Dispatch(m, messageLs, ls, throwing) && e.Called? ==> e.callback == NotifyBusOffError
  {
    FanOutReachesAll(ls, NotifyBusOffError, throwing);
    FanOutSameCallback(ls, Some(NotifyBusOffError), throwing);
  }

  /** A controller error (not bus-off) with its status byte reaches every notification listener with payload byte 1. */
  lemma ControllerErrorPassesByte1(m: Message, messageLs: seq<ListenerRef>, ls: seq<ListenerRef>, throwing: set<ListenerRef>)
    requires m.IsErrorFrame() && !m.IsBusOffError() && m.IsControllerError() && |m.payload| > 1
    ensures Recipients(Dispatch(m, messageLs, ls, throwing)) == ls
    ensures forall e :: e in Dispatch(m, messageLs, ls, throwing) && e.Called? ==>
      e.callback == NotifyControllerError(SignedByte(m.payload[1]))
  {
    var c := NotifyControllerError(SignedByte(m.payload[1]));
    FanOutReachesAll(ls, c, throwing);
    FanOutSameCallback(ls, Some(c), throwing);
  }

  /** A protocol error (neither bus-off nor controller) with its status byte reaches every notification listener with payload byte 2. */
  lemma ProtocolErrorPassesByte2(m: Message, messageLs: seq<ListenerRef>, ls: seq<ListenerRef>, throwing: set<ListenerRef>)
    requires m.IsErrorFrame() && !m.IsBusOffError() && !m.IsControllerError() && m.IsProtocolError() && |m.payload| > 2
    ensures Recipients(Dispatch(m, messageLs, ls, throwing)) == ls
    ensures forall e :: e in Dispatch(m, messageLs, ls, throwing) && e.Called? ==>
      e.callback == NotifyProtocolError(SignedByte(m.payload[2]))
  {
    var c := NotifyProtocolError(SignedByte(m.payload[2]));
    FanOutReachesAll(ls, c, throwing);
    FanOutSameCallback(ls, Some(c), throwing);
  }

  /** A restart report that carries no other class reaches every notification listener as `notifyControllerRestarted`. */
  lemma RestartedNotifiesRestarted(m: Message, messageLs: seq<ListenerRef>, ls: seq<ListenerRef>, throwing: set<ListenerRef>)
    requires m.IsErrorFrame() && !m.IsBusOffError() && !m.IsControllerError() && !m.IsProtocolError() && m.IsControllerRestarted()
    ensures Recipients(Dispatch(m, messageLs, ls, throwing)) == ls
    ensures forall e :: e in Dispatch(m, messageLs, ls, throwing) && e.Called? ==> e.callback == NotifyControllerRestarted
  {
    FanOutReachesAll(ls, NotifyControllerRestarted, throwing);
    FanOutSameCallback(ls, Some(NotifyControllerRestarted), throwing);
  }

  /**
    The socket's error mask asks only for controller and bus-off error
    frames, so every error frame the kernel delivers leads to a bus-off or
    controller notification.
  */
  lemma ErrorFilterLimitsNotifications(m: Message)
    requires m.IsErrorFrame() && PassesErrorFilter(ERROR_FILTER_MASK, m)
    ensures ErrorKindOf(m) == BusOff || ErrorKindOf(m) == Controller
  {
    ErrorMaskBits(m.rawId);
  }

  lemma ErrorMaskBits(w: bv32)
    requires w & (ERROR_FILTER_MASK & CAN_ERR_MASK) != 0
    ensures w & CAN_ERR_BUSOFF != 0 || w & CAN_ERR_CRTL != 0
  {
  }

  // ---------------------------------------------------------------------------
  // The handler
  // ---------------------------------------------------------------------------

  /** The result of one `select` and `read` of the receive task. */
  datatype ReadResult =
    | NotReady                  // select timed out: nothing to read
    | ReadFailed(errno: int)    // read returned a negative count; errno as it stands when the fault handler is called
    | ReadFrame(frame: Frame)   // a whole can_frame was read

  class Handler {
    const device: string
    const deviceFd: int
    var nativeRunning: bool
    var listenerRunning: bool
    var nativeTask: TaskState
    var listenerTask: TaskState
    var queue: seq<Message>
    var messageListeners: seq<ListenerRef>
    var notificationListeners: seq<ListenerRef>
    var log: seq<Event>

    /** The queue is within its capacity, and a run flag is only set while its task is running. */
    predicate Valid()
      reads this
    {
      |queue| <= RECEIVER_MESSAGE_QUEUE_SIZE &&
      (nativeRunning ==> nativeTask == Running) &&
      (listenerRunning ==> listenerTask == Running)
    }

    /** A handler over an open socket: both flags clear, no task started, nothing queued or registered. */
    constructor (device: string, deviceFd: int)
      ensures Valid()
      ensures this.device == device && this.deviceFd == deviceFd
      ensures !nativeRunning && !listenerRunning && nativeTask == New && listenerTask == New
      ensures queue == [] && messageListeners == [] && notificationListeners == [] && log == []
    {
      this.device := device;
      this.deviceFd := deviceFd;
      nativeRunning, listenerRunning := false, false;
      nativeTask, listenerTask := New, New;
      queue := [];
      messageListeners, notificationListeners := [], [];
      log := [];
    }

    /** The public constructor: open the socket; when any step of open fails there is no handler. */
    static method Open(device: string, filters: seq<Filter>, os: OpenOracle) returns (h: Handler?)
      ensures h == null <==> !OpenSucceeds(filters, os)
      ensures h != null ==> fresh(h) && h.Valid() && h.deviceFd == os.socketFd && h.device == device
      ensures h != null ==> h.nativeTask == New && h.listenerTask == New && h.queue == [] && h.log == []
      ensures h != null ==> !h.nativeRunning && !h.listenerRunning
      ensures h != null ==> h.messageListeners == [] && h.notificationListeners == []
    {
      var fd, attempted, installed := NativeOpen(filters, os);
      if fd < 0 {
        return null;
      }
      h := new Handler(device, fd);
    }

    /**
      start: refused (changing nothing) while either task is running;
      otherwise the listener task is started before the native task.
    */
    method Start() returns (success: bool)
      requires Valid()
      modifies this
      ensures Valid()
      ensures success <==> old(nativeTask) != Running && old(listenerTask) != Running
      ensures !success ==> unchanged(this)
      ensures success ==> nativeRunning && listenerRunning && nativeTask == Running && listenerTask == Running
      ensures success ==> log == old(log) + [TaskStarted(ListenerTask), TaskStarted(NativeTask)]
      ensures queue == old(queue)
      ensures messageListeners == old(messageListeners) && notificationListeners == old(notificationListeners)
    {
      var nativeThreadReady := nativeTask == New || nativeTask == Terminated;
      var listenerThreadReady := listenerTask == New || listenerTask == Terminated;
      success := nativeThreadReady && listenerThreadReady;
      if success {
        listenerRunning := true;
        listenerTask := Running;
        log := log + [TaskStarted(ListenerTask)];
        nativeRunning := true;
        nativeTask := Running;
        log := log + [TaskStarted(NativeTask)];
      }
    }

    /** Joining a task: a started task runs to its loop head, sees its flag clear and ends. */
    static function Joined(t: TaskState): (r: TaskState)
      ensures r != Running
      ensures r == New <==> t == New
    {
      if t == New then New else Terminated
    }

    /**
      stop: clear the native flag and join the native task, clear the
      listener flag and join the listener task, then close the socket once.
      Only a failing close makes it return false. Queued messages stay
      queued.
    */
    method Stop(closeOk: bool) returns (success: bool)
      requires Valid()
      modifies this
      ensures Valid()
      ensures !nativeRunning && !listenerRunning
      ensures nativeTask == Joined(old(nativeTask)) && listenerTask == Joined(old(listenerTask))
      ensures log == old(log) + [TaskJoined(NativeTask), TaskJoined(ListenerTask), NativeClosed]
      ensures success == closeOk
      ensures queue == old(queue)
      ensures messageListeners == old(messageListeners) && notificationListeners == old(notificationListeners)
    {
      success := true;
      nativeRunning := false;
      nativeTask := Joined(nativeTask);
      log := log + [TaskJoined(NativeTask)];
      listenerRunning := false;
      listenerTask := Joined(listenerTask);
      log := log + [TaskJoined(ListenerTask)];
      log := log + [NativeClosed];
      if !closeOk {
        success := false;
      }
    }

    /** transmit: hand the message to the native transmit on this handler's socket. */
    method Transmit(m: Message, writes: seq<WriteResult>) returns (outcome: TxOutcome, sent: seq<Byte>)
      ensures |m.payload| > CAN_MAX_DLEN <==> outcome == PayloadTooLong
      ensures outcome == Sent ==> |sent| == CAN_FRAME_SIZE && FromKernel(DecodeFrame(sent)) && ReceivedMessage(DecodeFrame(sent)) == m
      ensures outcome != Sent && |m.payload| <= CAN_MAX_DLEN ==> sent < EncodeFrame(BuildFrame(m).value)
      ensures |m.payload| <= CAN_MAX_DLEN ==>
        var r := WriteSpec(CAN_FRAME_SIZE, writes); outcome == r.0 && |sent| == r.1
    {
      outcome, sent := NativeTransmit(m, writes);
    }

    method AddMessageListener(l: ListenerRef)
      requires Valid()
      modifies this
      ensures Valid()
      ensures messageListeners == old(messageListeners) + [l]
      ensures unchanged(this`notificationListeners) && unchanged(this`queue) && unchanged(this`log)
      ensures unchanged(this`nativeRunning, this`listenerRunning, this`nativeTask, this`listenerTask)
    {
      messageListeners := messageListeners + [l];
    }

    method RemoveMessageListener(l: ListenerRef)
      requires Valid()
      modifies this
      ensures Valid()
      ensures messageListeners == RemoveFirst(old(messageListeners), l)
      ensures unchanged(this`notificationListeners) && unchanged(this`queue) && unchanged(this`log)
      ensures unchanged(this`nativeRunning, this`listenerRunning, this`nativeTask, this`listenerTask)
    {
      messageListeners := RemoveFirst(messageListeners, l);
    }

    method ClearMessageListeners()
      requires Valid()
      modifies this
      ensures Valid()
      ensures messageListeners == []
      ensures unchanged(this`notificationListeners) && unchanged(this`queue) && unchanged(this`log)
      ensures unchanged(this`nativeRunning, this`listenerRunning, this`nativeTask, this`listenerTask)
    {
      messageListeners := [];
    }

    method AddNotificationListener(l: ListenerRef)
      requires Valid()
      modifies this
      ensures Valid()
      ensures notificationListeners == old(notificationListeners) + [l]
      ensures unchanged(this`messageListeners) && unchanged(this`queue) && unchanged(this`log)
      ensures unchanged(this`nativeRunning, this`listenerRunning, this`nativeTask, this`listenerTask)
    {
      notificationListeners := notificationListeners + [l];
    }

    method RemoveNotificationListener(l: ListenerRef)
      requires Valid()
      modifies this
      ensures Valid()
      ensures notificationListeners == RemoveFirst(old(notificationListeners), l)
      ensures unchanged(this`messageListeners) && unchanged(this`queue) && unchanged(this`log)
      ensures unchanged(this`nativeRunning, this`listenerRunning, this`nativeTask, this`listenerTask)
    {
      notificationListeners := RemoveFirst(notificationListeners, l);
    }

    method ClearNotificationListeners()
      requires Valid()
      modifies this
      ensures Valid()
      ensures notificationListeners == []
      ensures unchanged(this`messageListeners) && unchanged(this`queue) && unchanged(this`log)
      ensures unchanged(this`nativeRunning, this`listenerRunning, this`nativeTask, this`listenerTask)
    {
      notificationListeners := [];
    }

    /** NotificationWrapper.notify and the loops like it: each listener in turn, each in its own try/catch. */
    method Notify(ls: seq<ListenerRef>, cb: Option<Callback>, throwing: set<ListenerRef>)
      modifies this`log
      ensures log == old(log) + FanOut(ls, cb, throwing)
    {
      var i := 0;
      while i < |ls|
        invariant 0 <= i <= |ls|
        invariant log == old(log) + FanOut(ls[..i], cb, throwing)
      {
        var l := ls[i];
        match cb {
          case None =>
            log := log + [Caught(l)];
          case Some(c) =>
            log := log + [Called(l, c)];
            if l in throwing {
              log := log + [Caught(l)];
            }
        }
        assert ls[..i + 1][..i] == ls[..i];
        i := i + 1;
      }
      assert ls[..|ls|] == ls;
    }

    /**
      nativeReadErrorHandler: both run flags are cleared, then every
      notification listener is told the error code once.
    */
    method NativeReadErrorHandler(errorCode: int, throwing: set<ListenerRef>)
      requires Valid()
      modifies this
      ensures Valid()
      ensures !nativeRunning && !listenerRunning
      ensures log == old(log) + FanOut(old(notificationListeners), Some(NotifyNativeReadError(errorCode)), throwing)
      ensures unchanged(this`nativeTask, this`listenerTask, this`queue)
      ensures unchanged(this`messageListeners, this`notificationListeners)
    {
      nativeRunning := false;
      listenerRunning := false;
      Notify(notificationListeners, Some(NotifyNativeReadError(errorCode)), throwing);
    }

    /**
      One iteration of the listener task: with its flag clear the task ends;
      otherwise one message is polled (none when the queue is empty) and
      handed to the listeners.
    */
    method DispatchStep(throwing: set<ListenerRef>)
      requires Valid() && listenerTask == Running
      modifies this
      ensures Valid()
      ensures !old(listenerRunning) ==> listenerTask == Terminated && queue == old(queue) && log == old(log)
      ensures old(listenerRunning) ==> listenerTask == Running
      ensures old(listenerRunning) && old(queue) == [] ==> queue == [] && log == old(log)
      ensures old(listenerRunning) && old(queue) != [] ==>
        queue == old(queue)[1..] &&
        log == old(log) + Dispatch(old(queue)[0], messageListeners, notificationListeners, throwing)
      ensures unchanged(this`nativeRunning, this`listenerRunning, this`nativeTask)
      ensures unchanged(this`messageListeners, this`notificationListeners)
    {
      if !listenerRunning {
        listenerTask := Terminated;
        return;
      }
      if queue == [] {
        return;
      }
      var message := queue[0];
      queue := queue[1..];
      if message.IsDataFrame() {
        Notify(messageListeners, Some(RxedCanMessage(message)), throwing);
        return;
      }
      var kind := ErrorKindOf(message);
      if kind != Unrecognised {
        Notify(notificationListeners, ErrorCallback(message, kind), throwing);
      }
    }

    /**
      One iteration of the native receive task: with its flag clear the
      task ends; a failed read calls the fault handler; a frame becomes a
      message offered to the queue, and is dropped when the queue is full.
    */
    method NativeReceiveStep(r: ReadResult, throwing: set<ListenerRef>)
      requires Valid() && nativeTask == Running
      requires r.ReadFrame? ==> FromKernel(r.frame)
      modifies this
      ensures Valid()
      ensures !old(nativeRunning) ==> nativeTask == Terminated && unchanged(this`queue, this`log, this`listenerRunning)
      ensures old(nativeRunning) ==> nativeTask == Running
      ensures old(nativeRunning) && r.NotReady? ==> unchanged(this`queue, this`log, this`nativeRunning, this`listenerRunning)
      ensures old(nativeRunning) && r.ReadFailed? ==>
        !nativeRunning && !listenerRunning && queue == old(queue) &&
        log == old(log) + FanOut(notificationListeners, Some(NotifyNativeReadError(r.errno)), throwing)
      ensures old(nativeRunning) && r.ReadFrame? ==>
        log == old(log) && nativeRunning && listenerRunning == old(listenerRunning) &&
        queue == if |old(queue)| < RECEIVER_MESSAGE_QUEUE_SIZE then old(queue) + [ReceivedMessage(r.frame)] else old(queue)
      ensures unchanged(this`listenerTask, this`messageListeners, this`notificationListeners)
    {
      if !nativeRunning {
        nativeTask := Terminated;
        return;
      }
      match r {
        case NotReady =>
        case ReadFailed(errno) =>
          NativeReadErrorHandler(errno, throwing);
        case ReadFrame(frame) =>
          var message := ReceivedMessage(frame);
          var offered := Offer(message);
      }
    }

    /** LinkedBlockingQueue.offer: append when there is room, otherwise refuse and change nothing. */
    method Offer(m: Message) returns (accepted: bool)
      requires Valid()
      modifies this`queue
      ensures Valid()
      ensures accepted <==> |old(queue)| < RECEIVER_MESSAGE_QUEUE_SIZE
      ensures queue == if accepted then old(queue) + [m] else old(queue)
    {
      accepted := |queue| < RECEIVER_MESSAGE_QUEUE_SIZE;
      if accepted {
        queue := queue + [m];
      }
    }
  }

  /**
    Receive then dispatch: a data frame read into an empty queue by the
    native task and then polled by the listener task reaches every message
    listener, in order, as the message the frame carries.
  */
  method ReceiveThenDispatch(h: Handler, f: Frame, throwing: set<ListenerRef>)
    requires h.Valid() && h.nativeRunning && h.listenerRunning && h.queue == []
    requires FromKernel(f) && f.canId & CAN_ERR_FLAG == 0
    modifies h
    ensures h.queue == []
    ensures h.log == old(h.log) + FanOut(h.messageListeners, Some(RxedCanMessage(ReceivedMessage(f))), throwing)
    ensures Recipients(h.log[|old(h.log)|..]) == h.messageListeners
  {
    h.NativeReceiveStep(ReadFrame(f), throwing);
    assert h.queue == [ReceivedMessage(f)];
    h.DispatchStep(throwing);
    FanOutReachesAll(h.messageListeners, RxedCanMessage(ReceivedMessage(f)), throwing);
    assert h.log[|old(h.log)|..] == FanOut(h.messageListeners, Some(RxedCanMessage(ReceivedMessage(f))), throwing);
  }
}
