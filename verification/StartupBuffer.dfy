/** The socket wrapper that keeps a client's first messages until a handler is attached, and stays first-in
    first-out although handlers may cause further events while they run.

    Handlers are not code here but their effect: each call of a handler or callback takes the next entry of a finite
    tape, the events that it causes before it returns. No handler throws. */
module StartupBuffer {

  const MAX_MESSAGES := 32
  const MAX_BYTES := 65_536

  datatype Message = Message(data: seq<int>, isBinary: bool)

  datatype Event =
    | Arrive(message: Message)
    | AddMessageHandler
    | AddCloseHandler
    | AddErrorHandler
    | SocketClosed
    | SocketFailed
    | RunMicrotask

  function Bytes(messages: seq<Message>): nat {
    if messages == [] then 0 else Bytes(messages[..|messages| - 1]) + |messages[|messages| - 1].data|
  }

  lemma {:induction false} BytesOfFirst(messages: seq<Message>)
    requires messages != []
    ensures Bytes(messages) == |messages[0].data| + Bytes(messages[1..])
  {
    if |messages| > 1 {
      var front := messages[..|messages| - 1];
      BytesOfFirst(front);
      assert front[1..] == messages[1..][..|messages| - 2];
    }
  }

  lemma TakeOne(messages: seq<Message>, i: nat)
    requires i < |messages|
    ensures messages[i..] == [messages[i]] + messages[i + 1..]
    ensures Bytes(messages[i..]) == |messages[i].data| + Bytes(messages[i + 1..])
  {
    BytesOfFirst(messages[i..]);
    assert messages[i..][1..] == messages[i + 1..];
  }

  lemma IsPrefix(a: seq<Message>, b: seq<Message>, m: Message)
    ensures a <= a + b + [m]
  {
  }

  /** A message that joins the queue behind those that were handed on joins the order of arrival. */
  lemma AddOne(messages: seq<Message>, i: nat, m: Message, before: seq<Message>)
    requires i <= |messages|
    ensures (messages + [m])[i..] == messages[i..] + [m]
    ensures Bytes((messages + [m])[i..]) == Bytes(messages[i..]) + |m.data|
    ensures before + (messages + [m])[i..] == before + messages[i..] + [m]
  {
    assert (messages[i..] + [m])[..|messages[i..]|] == messages[i..];
    assert (messages + [m])[i..] == messages[i..] + [m];
  }

  /** The close handlers and who has been told of the close: `late` microtasks will each call a handler that came after
      it, `calls` have been made. While the close is being reported, `reported` handlers have been called in turn;
      `doubled` counts the handlers that were added meanwhile. */
  datatype Closes = Closes(
    handlers: nat, closed: bool, late: nat, calls: nat, reporting: bool, reported: nat, doubled: nat)
  {
    /** Once the close has been reported, every handler has been called or will be, and a second time exactly if it
        was added while the close was being reported. */
    predicate Ok() {
      && (reporting ==> closed && reported <= handlers && late <= doubled)
      && if closed then calls + late == (if reporting then reported else handlers) + doubled
         else calls == late == doubled == 0
    }

    predicate Extends(was: Closes) {
      && was.handlers <= handlers && was.calls <= calls && was.reporting == reporting
      && (was.closed ==> closed && was.reported == reported)
    }

    /** A handler that comes after the close is called by a microtask, even if its turn is still to come. */
    function Added(): (r: Closes)
      ensures Ok() ==> r.Ok() && r.Extends(this)
    {
      Closes(handlers + 1, closed, if closed then late + 1 else late, calls, reporting, reported,
             if reporting then doubled + 1 else doubled)
    }

    function LateCalled(): (r: Closes)
      requires 0 < late
      ensures Ok() ==> r.Ok() && r.Extends(this)
    {
      this.(late := late - 1, calls := calls + 1)
    }

    function Begun(): (r: Closes)
      requires !closed
      ensures Ok() ==> r.Ok()
    {
      this.(closed := true, reporting := true, reported := 0)
    }

    function Told(): (r: Closes)
      requires reporting && reported < handlers
      ensures Ok() ==> r.Ok()
    {
      this.(calls := calls + 1, reported := reported + 1)
    }

    function Ended(): (r: Closes)
      requires reporting && reported == handlers
      ensures Ok() ==> r.Ok() && r.calls >= r.handlers
    {
      this.(reporting := false)
    }
  }

  function NoCloses(): (r: Closes)
    ensures r.Ok() && !r.closed && r.handlers == 0
  {
    Closes(0, false, 0, 0, false, 0, 0)
  }

  /** When all is done every close handler has been called once, if and only if none was added while the close was
      being reported: two handlers, the second added by the first as it is told, make three calls. */
  lemma CalledOnceIff(c: Closes)
    requires c.Ok() && c.closed && !c.reporting && c.late == 0
    ensures c.calls == c.handlers <==> c.doubled == 0
    ensures NoCloses().Added().Begun().Told().Added().Told().Ended().LateCalled() ==
            Closes(2, true, 0, 3, false, 2, 1)
  {
  }

  class StartupBufferedSocket {
    var messages: seq<Message>
    var readIndex: nat
    var queuedBytes: nat
    var messageHandlers: nat
    var closes: Closes
    var errorHandlers: nat
    var flushing: bool
    var rejected: bool
    var terminalNotified: bool
    var terminalError: bool

    /** What handlers still to be called will cause. */
    var tape: seq<seq<Event>>
    /** Messages received before the end, those the first handler has been called with, calls of the terminal
        callback and closes of the socket. `closing` holds from a rejection until the socket is closed. */
    ghost var arrivals: seq<Message>
    ghost var delivered: seq<Message>
    ghost var terminalCalls: nat
    ghost var socketCloses: nat
    ghost var closing: bool

    ghost function Queued(): seq<Message>
      requires readIndex <= |messages|
      reads this
    {
      messages[readIndex..]
    }

    ghost predicate Stopped()
      reads this
    {
      rejected || closes.closed || terminalError
    }

    ghost predicate Core()
      reads this
    {
      && readIndex <= |messages|
      && queuedBytes == Bytes(Queued()) <= MAX_BYTES && |Queued()| <= MAX_MESSAGES
      && (if rejected then delivered <= arrivals && Queued() == [] else delivered + Queued() == arrivals)
      && (messageHandlers == 0 ==> delivered == [] && !flushing) && closes.Ok()
      && terminalCalls == (if terminalNotified then 1 else 0)
      && socketCloses == (if rejected && !closing then 1 else 0) && (closing ==> rejected)
    }

    /** Also holds while a flush is about to begin. */
    ghost predicate Consistent()
      reads this
    {
      Core() && (Stopped() ==> terminalNotified)
    }

    /** Holds whenever a handler is called: nothing waits while there is a handler and no flush is under way. */
    ghost predicate Valid()
      reads this
    {
      Consistent() && (messageHandlers > 0 && !flushing ==> Queued() == [])
    }

    twostate predicate Progress()
      reads this
    {
      Advances() && closes.Extends(old(closes))
    }

    /** The past is kept and the end is final. */
    twostate predicate Advances()
      reads this
    {
      && |tape| <= |old(tape)| && (tape == old(tape) || |tape| < |old(tape)|)
      && old(delivered) <= delivered && old(arrivals) <= arrivals && messageHandlers >= old(messageHandlers)
      && (old(Stopped()) ==> Stopped() && arrivals == old(arrivals))
      && (old(rejected) ==> rejected && socketCloses == old(socketCloses))
      && (old(terminalNotified) ==> terminalNotified) && closing == old(closing)
      && (old(closes).closed ==> closes.closed) && closes.handlers >= old(closes).handlers
      && errorHandlers >= old(errorHandlers)
    }

    twostate predicate Moves()
      reads this
    {
      Progress() && flushing == old(flushing)
    }

    /** Handlers that cause nothing leave everything but the calls themselves alone. */
    twostate predicate Quiet()
      reads this
    {
      old(tape) == [] ==>
        && messages == old(messages) && readIndex == old(readIndex) && queuedBytes == old(queuedBytes)
        && messageHandlers == old(messageHandlers)
        && closes == old(closes) && errorHandlers == old(errorHandlers)
        && rejected == old(rejected) && terminalError == old(terminalError)
        && terminalNotified == old(terminalNotified) && arrivals == old(arrivals)
    }

    constructor (tape: seq<seq<Event>>)
      ensures Valid() && arrivals == [] && delivered == [] && !Stopped() && !closing && messageHandlers == 0
      ensures this.tape == tape
    {
      messages, readIndex, queuedBytes := [], 0, 0;
      messageHandlers, errorHandlers, closes := 0, 0, NoCloses();
      flushing, rejected, terminalNotified, terminalError := false, false, false, false;
      this.tape := tape;
      arrivals, delivered, terminalCalls, socketCloses, closing := [], [], 0, 0, false;
    }

    /** A handler or callback runs. */
    method Invoke()
      requires Valid()
      modifies this
      ensures Valid() && Moves() && Quiet() && (old(tape) != [] ==> |tape| < |old(tape)|)
      decreases |tape|, 0
    {
      if tape != [] {
        var events := tape[0];
        tape := tape[1..];
        Play(events);
      }
    }

    /** Events one after the other, as a handler or the outside world causes them. */
    method Play(events: seq<Event>)
      requires Valid()
      modifies this
      ensures Valid() && Moves()
      decreases |tape|, 9, |events|
    {
      if events != [] {
        Handle(events[0]);
        Play(events[1..]);
      }
    }

    method Handle(event: Event)
      requires Valid()
      modifies this
      ensures Valid() && Moves()
      decreases |tape|, 8
    {
      match event {
        case Arrive(m) => ReceiveMessage(m);
        case AddMessageHandler => OnMessage();
        case AddCloseHandler => OnClose();
        case AddErrorHandler => errorHandlers := errorHandlers + 1;
        case SocketClosed => ReceiveClose();
        case SocketFailed => var _ := ReceiveError();
        case RunMicrotask => CallLateClose();
      }
    }

    method OnMessage()
      requires Valid()
      modifies this
      ensures Valid() && Moves() && messageHandlers > old(messageHandlers)
      decreases |tape|, 6
    {
      messageHandlers := messageHandlers + 1;
      FlushMessages();
    }

    method OnClose()
      requires Valid()
      modifies this`closes
      ensures Valid() && Moves() && closes == old(closes).Added()
    {
      closes := closes.Added();
    }

    method CallLateClose()
      requires Valid()
      modifies this
      ensures Valid() && Moves()
      decreases |tape|, 7
    {
      if closes.late > 0 {
        closes := closes.LateCalled();
        Invoke();
      }
    }

    /** Accepted while nothing has ended the connection: called through, queued, or one too many. */
    method ReceiveMessage(m: Message)
      requires Valid()
      modifies this
      ensures Valid() && Moves()
      ensures !old(Stopped()) ==> old(arrivals) + [m] <= arrivals
      ensures !old(Stopped()) && old(messageHandlers) > 0 && !old(flushing) ==> old(delivered) + [m] <= delivered
      ensures !old(Stopped()) && (old(messageHandlers) == 0 || old(flushing)) ==>
        if old(TooMuch(m)) then rejected
        else !rejected && Queued() == old(Queued()) + [m] && delivered == old(delivered)
      decreases |tape|, 7
    {
      if rejected || closes.closed || terminalError { return; }
      arrivals := arrivals + [m];
      if messageHandlers > 0 && !flushing && readIndex == |messages| {
        var _ := DispatchMessage(m);
        return;
      }
      Enqueue(m);
    }

    /** The message has arrived but cannot be handed on yet. */
    ghost predicate Arriving(m: Message)
      reads this
    {
      && !Stopped() && !closing && readIndex <= |messages|
      && queuedBytes == Bytes(Queued()) <= MAX_BYTES && |Queued()| <= MAX_MESSAGES
      && delivered + Queued() + [m] == arrivals && closes.Ok()
      && terminalCalls == (if terminalNotified then 1 else 0) && socketCloses == 0
      && if messageHandlers == 0 then delivered == [] && !flushing else flushing
    }

    ghost predicate TooMuch(m: Message)
      requires readIndex <= |messages|
      reads this
    {
      Bytes(Queued()) + |m.data| > 65_536 || |Queued()| + 1 > 32
    }

    method Enqueue(m: Message)
      requires Arriving(m)
      modifies this
      ensures Valid() && Moves()
      ensures if old(TooMuch(m)) then rejected
        else !rejected && Queued() == old(Queued()) + [m] && delivered == old(delivered)
      decreases |tape|, 6
    {
      var byteLength := |m.data|;
      var queuedMessages := |messages| - readIndex;
      if byteLength > MAX_BYTES - queuedBytes || queuedMessages >= MAX_MESSAGES {
        Overflow(m);
        return;
      }
      Append(m);
    }

    method Overflow(ghost m: Message)
      requires Arriving(m)
      modifies this
      ensures Valid() && Moves() && rejected
      decreases |tape|, 5
    {
      IsPrefix(delivered, Queued(), m);
      RejectStartupBuffer();
    }

    method Append(m: Message)
      requires Arriving(m) && !TooMuch(m)
      modifies this`messages, this`queuedBytes
      ensures Valid() && Queued() == old(Queued()) + [m]
    {
      Store(m);
    }

    method Store(m: Message)
      requires readIndex <= |messages| && queuedBytes == Bytes(Queued())
      modifies this`messages, this`queuedBytes
      ensures readIndex <= |messages| && Queued() == old(Queued()) + [m] && queuedBytes == Bytes(Queued())
      ensures queuedBytes == old(queuedBytes) + |m.data| && delivered + Queued() == delivered + old(Queued()) + [m]
    {
      AddOne(messages, readIndex, m, delivered);
      messages := messages + [m];
      queuedBytes := queuedBytes + |m.data|;
    }

    method FlushMessages()
      requires Consistent()
      modifies this
      ensures Valid() && Moves()
      decreases |tape|, 5, 1
    {
      if flushing || messageHandlers == 0 { return; }
      flushing := true;
      FlushAll();
      ResetQueue();
    }

    method FlushAll()
      requires Consistent() && flushing
      modifies this
      ensures Consistent() && flushing && Progress() && readIndex == |messages|
      decreases |tape|, 5, 0
    {
      while readIndex < |messages|
        invariant Consistent() && flushing && Progress()
        decreases |tape|, |messages| - readIndex
      {
        FlushOne();
      }
    }

    method ResetQueue()
      requires Consistent() && readIndex == |messages|
      modifies this`flushing, this`messages, this`readIndex, this`queuedBytes
      ensures Consistent() && Queued() == [] && !flushing
    {
      assert delivered + Queued() == delivered;
      flushing := false;
      messages := [];
      readIndex := 0;
      queuedBytes := 0;
    }

    method FlushOne()
      requires Consistent() && flushing && readIndex < |messages|
      modifies this
      ensures Consistent() && Moves()
      ensures (old(tape) == [] ==> messages == old(messages) && readIndex == old(readIndex) + 1)
      ensures old(tape) != [] ==> |tape| < |old(tape)|
      decreases |tape|, 4
    {
      var message := messages[readIndex];
      TakeOne(messages, readIndex);
      assert delivered + Queued() == delivered + [message] + messages[readIndex + 1..];
      readIndex := readIndex + 1;
      queuedBytes := queuedBytes - |message.data|;
      var _ := DispatchMessage(message);
    }

    /** The handlers in order; the first one is called before any of them can cause anything. */
    method DispatchMessage(message: Message) returns (ghost called: nat)
      requires messageHandlers > 0 && readIndex <= |messages| && !rejected
      requires queuedBytes == Bytes(Queued()) <= MAX_BYTES && |Queued()| <= MAX_MESSAGES
      requires delivered + [message] + Queued() == arrivals
      requires terminalCalls == (if terminalNotified then 1 else 0) && socketCloses == 0 && !closing
      requires (Stopped() ==> terminalNotified) && closes.Ok()
      requires !flushing ==> Queued() == []
      modifies this
      ensures Valid() && Moves() && Quiet() && old(delivered) + [message] <= delivered
      ensures called == messageHandlers
      ensures old(tape) != [] ==> |tape| < |old(tape)|
      decreases |tape|, 3
    {
      delivered := delivered + [message];
      called := 0;
      var index := 0;
      while index < messageHandlers
        invariant Valid() && Moves() && Quiet() && old(delivered) + [message] <= delivered
        invariant called == index && index <= messageHandlers
        invariant index > 0 && old(tape) != [] ==> |tape| < |old(tape)|
        decreases |tape|, messageHandlers - index
      {
        called := called + 1;
        Invoke();
        index := index + 1;
      }
    }

    /** The first close only; every handler has been called when it has been reported. */
    method ReceiveClose()
      requires Valid()
      modifies this
      ensures Valid() && Moves() && Stopped() && terminalNotified && closes.closed
      ensures !old(closes.closed) ==> closes.calls >= closes.handlers
      decreases |tape|, 6
    {
      if !closes.closed {
        closes := closes.Begun();
        NotifyTerminal();
        CallCloseHandlers();
      }
    }

    method CallCloseHandlers()
      requires Valid() && closes.reporting && closes.reported == 0 && terminalNotified
      modifies this
      ensures Valid() && Stopped() && terminalNotified && Advances() && flushing == old(flushing)
      ensures closes.calls >= closes.handlers && !closes.reporting
      decreases |tape|, 5
    {
      while closes.reported < closes.handlers
        invariant Valid() && Advances() && flushing == old(flushing) && closes.reporting && terminalNotified
        decreases |tape|, closes.handlers - closes.reported
      {
        closes := closes.Told();
        Invoke();
      }
      closes := closes.Ended();
    }

    method ReceiveError() returns (ghost called: nat)
      requires Valid()
      modifies this
      ensures Valid() && Moves() && Stopped() && terminalNotified
      ensures called == errorHandlers >= old(errorHandlers)
      decreases |tape|, 6
    {
      terminalError := true;
      called := 0;
      NotifyTerminal();
      var index := 0;
      while index < errorHandlers
        invariant Valid() && Moves() && Stopped() && terminalNotified && called == index <= errorHandlers
        decreases |tape|, errorHandlers - index
      {
        called := called + 1;
        Invoke();
        index := index + 1;
      }
    }

    /** Drops what is queued, reports the end and closes the socket, which may report its closing at once. */
    method RejectStartupBuffer()
      requires !rejected && delivered <= arrivals && closes.Ok()
      requires terminalCalls == (if terminalNotified then 1 else 0) && socketCloses == 0 && !closing
      requires messageHandlers == 0 ==> delivered == [] && !flushing
      modifies this
      ensures Valid() && Moves() && rejected && terminalNotified && socketCloses == 1 && !closing
      decreases |tape|, 4
    {
      DropQueue();
      NotifyTerminal();
      socketCloses, closing := socketCloses + 1, false;
      Invoke();
    }

    method DropQueue()
      requires !rejected && delivered <= arrivals && closes.Ok()
      requires terminalCalls == (if terminalNotified then 1 else 0) && socketCloses == 0
      requires messageHandlers == 0 ==> delivered == [] && !flushing
      modifies this`rejected, this`closing, this`messages, this`readIndex, this`queuedBytes
      ensures Core() && rejected && closing && Queued() == []
    {
      rejected, closing := true, true;
      messages := [];
      readIndex := 0;
      queuedBytes := 0;
    }

    /** The terminal callback, once. */
    method NotifyTerminal()
      requires Core() && (messageHandlers > 0 && !flushing ==> Queued() == [])
      modifies this
      ensures Valid() && Moves() && terminalNotified
      decreases |tape|, 3
    {
      if !terminalNotified {
        terminalNotified := true;
        terminalCalls := terminalCalls + 1;
        Invoke();
      }
    }
  }
}
