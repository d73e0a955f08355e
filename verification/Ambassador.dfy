/**
 The ambassador of lib/ambassador/Ambassador.cpp: a bounded message queue between two processes
 and, on the reading side, a local buffer into which the queue is drained.  Together they have
 to be one first-in-first-out queue.
 */
module Ambassadors {
  import opened Wrappers

  datatype MsgType = QUEUE_CLOSED | EMPTY | Kind(code: nat)

  datatype Response = Response(resType: MsgType, attrs: map<string, string>)

  const MSG_MAX_COUNT: nat := 100
  const CLOSED_RESPONSE := Response(QUEUE_CLOSED, map[])
  const EMPTY_RESPONSE := Response(EMPTY, map[])

  // -------------------------------------------------------------------- the link as a state machine

  /**
   The queue between the processes, the reader's buffer, and two histories: the writes the queue
   accepted and the responses taken out of the buffer.  Once `closed`, every read of the queue throws.
   */
  datatype Link = Link(transport: seq<Response>, buffer: seq<Response>, closed: bool,
                       accepted: seq<Response>, popped: seq<Response>)

  const NEW_LINK := Link([], [], false, [], [])

  /** The smallest steps of the two processes: a write, one read of the draining loop, taking the front. */
  datatype Event = Write(msg: Response) | Fetch | Pop | Close

  predicate Accepts(s: Link) { |s.transport| < MSG_MAX_COUNT }

  function OnWrite(s: Link, msg: Response): Link {
    if Accepts(s) then s.(transport := s.transport + [msg], accepted := s.accepted + [msg]) else s
  }

  function OnFetch(s: Link): Link {
    if s.closed then s.(buffer := [CLOSED_RESPONSE])
    else if s.transport == [] then s
    else s.(transport := s.transport[1..], buffer := s.buffer + [s.transport[0]])
  }

  function OnPop(s: Link): Link {
    if s.buffer == [] then s else s.(buffer := s.buffer[1..], popped := s.popped + [s.buffer[0]])
  }

  function Step(s: Link, e: Event): Link {
    match e
    case Write(msg) => OnWrite(s, msg)
    case Fetch => OnFetch(s)
    case Pop => OnPop(s)
    case Close => s.(closed := true)
  }

  function Run(s: Link, events: seq<Event>): Link
    decreases events
  {
    if events == [] then s else Run(Step(s, events[0]), events[1..])
  }

  // -------------------------------------------------------------------- calls of the reader

  /** getAllMsg: fetch until there is nothing to fetch, or the queue turns out to be closed. */
  function GetAll(s: Link): Link
    decreases |s.transport|
  {
    if s.closed || s.transport == [] then OnFetch(s) else GetAll(OnFetch(s))
  }

  /** getOneMsg: the response returned, `None` being the empty one, and the state left. */
  function GetOne(s: Link): (Option<Response>, Link) {
    var all := GetAll(s);
    if all.buffer == [] then (None, all) else (Some(all.buffer[0]), OnPop(all))
  }

  /** The responses of a number of calls of getOneMsg. */
  function GetMany(s: Link, n: nat): seq<Option<Response>>
    decreases n
  {
    if n == 0 then [] else [GetOne(s).0] + GetMany(GetOne(s).1, n - 1)
  }

  // -------------------------------------------------------------------- the objects

  datatype ReadResult = Nothing | Content(msg: Response) | Throws

  /** The queue between the processes. */
  class MsgQueue {
    var mq: seq<Response>
    var closed: bool
    const writeBool: bool
    const readBool: bool

    constructor (writeBool: bool, readBool: bool)
      ensures mq == [] && !closed && this.writeBool == writeBool && this.readBool == readBool
    {
      mq, closed := [], false;
      this.writeBool, this.readBool := writeBool, readBool;
    }

    method Read() returns (r: ReadResult)
      modifies this`mq
      ensures closed ==> r == Throws && mq == old(mq)
      ensures !closed && (!readBool || old(mq) == []) ==> r == Nothing && mq == old(mq)
      ensures !closed && readBool && old(mq) != [] ==> r == Content(old(mq)[0]) && mq == old(mq)[1..]
    {
      if closed {
        return Throws;
      }
      if !readBool || |mq| == 0 {
        return Nothing;
      }
      r := Content(mq[0]);
      mq := mq[1..];
    }

    /** Returns 0, or -1 when the queue is full or not open for writing. */
    method Write(input: Response) returns (code: int)
      modifies this`mq
      ensures code == (if writeBool && |old(mq)| < MSG_MAX_COUNT then 0 else -1)
      ensures mq == if code == 0 then old(mq) + [input] else old(mq)
    {
      if !writeBool || |mq| >= MSG_MAX_COUNT {
        return -1;
      }
      mq := mq + [input];
      code := 0;
    }
  }

  class Ambassador {
    const writeQ: MsgQueue
    const readQ: MsgQueue
    var readContentQ: seq<Response>

    /** The reader's side of the link, without histories. */
    function View(): Link
      reads this, readQ
    {
      Link(readQ.mq, readContentQ, readQ.closed, [], [])
    }

    constructor (writeQ: MsgQueue, readQ: MsgQueue)
      ensures this.writeQ == writeQ && this.readQ == readQ && readContentQ == []
    {
      this.writeQ, this.readQ := writeQ, readQ;
      readContentQ := [];
    }

    method SendMsg(input: Response) returns (code: int)
      modifies writeQ`mq
      ensures code == (if writeQ.writeBool && |old(writeQ.mq)| < MSG_MAX_COUNT then 0 else -1)
      ensures writeQ.mq == if code == 0 then old(writeQ.mq) + [input] else old(writeQ.mq)
    {
      code := writeQ.Write(input);
    }

    /** Drain the queue into the buffer; returns a copy of the buffer. */
    method GetAllMsg() returns (all: seq<Response>)
      requires readQ.readBool
      modifies this, readQ`mq
      ensures View() == GetAll(old(View())) && all == readContentQ
    {
      var content := readQ.Read();
      while content.Content?
        invariant readQ.closed == old(readQ.closed)
        invariant content == Throws <==> readQ.closed
        invariant content.Content? ==>
                    GetAll(View().(transport := [content.msg] + readQ.mq)) == GetAll(old(View()))
        invariant content == Nothing ==> readQ.mq == [] && GetAll(View()) == GetAll(old(View()))
        invariant content == Throws ==> GetAll(View()) == GetAll(old(View()))
        decreases |readQ.mq|, content.Content?
      {
        readContentQ := readContentQ + [content.msg];
        ghost var now := View();
        content := readQ.Read();
        assert content.Content? ==> [content.msg] + readQ.mq == now.transport;
      }
      if content == Throws {
        readContentQ := [CLOSED_RESPONSE];
      }
      all := readContentQ;
    }

    method GetOneMsg() returns (res: Response)
      requires readQ.readBool
      modifies this, readQ`mq
      ensures res == match GetOne(old(View())).0 case Some(r) => r case None => EMPTY_RESPONSE
      ensures View() == GetOne(old(View())).1.(popped := [])
    {
      var _ := GetAllMsg();
      if |readContentQ| == 0 {
        return EMPTY_RESPONSE;
      }
      res := readContentQ[0];
      readContentQ := readContentQ[1..];
    }
  }

  // -------------------------------------------------------------------- one queue

  /** What the reader has still to get, in order. */
  function Pending(s: Link): seq<Response> { s.buffer + s.transport }

  /** In an open link nothing is lost, repeated or reordered, and the queue stays within its bound. */
  ghost predicate Fifo(s: Link) {
    s.popped + Pending(s) == s.accepted && |s.transport| <= MSG_MAX_COUNT
  }

  lemma {:induction false} StepKeepsFifo(s: Link, e: Event)
    requires !s.closed && e != Close && Fifo(s)
    ensures Fifo(Step(s, e)) && !Step(s, e).closed
  {
    match e
    case Write(msg) =>
      assert s.popped + (s.buffer + (s.transport + [msg])) == s.popped + (s.buffer + s.transport) + [msg];
    case Fetch =>
      if s.transport != [] {
        assert s.buffer + [s.transport[0]] + s.transport[1..] == s.buffer + s.transport;
      }
    case Pop =>
      if s.buffer != [] {
        assert s.popped + [s.buffer[0]] + (s.buffer[1..] + s.transport) == s.popped + (s.buffer + s.transport);
      }
  }

  /**
   In every interleaving of the writer's and the reader's steps the responses taken, the buffer
   and the queue make up the accepted writes in order.
   */
  lemma {:induction false} LinkIsFifo(s: Link, events: seq<Event>)
    requires !s.closed && Close !in events && Fifo(s)
    ensures Fifo(Run(s, events)) && !Run(s, events).closed
    decreases events
  {
    if events != [] {
      StepKeepsFifo(s, events[0]);
      LinkIsFifo(Step(s, events[0]), events[1..]);
    }
  }

  lemma {:induction false} NewLinkIsFifo(events: seq<Event>)
    requires Close !in events
    ensures var s := Run(NEW_LINK, events);
            s.popped + s.buffer + s.transport == s.accepted && |s.transport| <= 100
  {
    LinkIsFifo(NEW_LINK, events);
    var s := Run(NEW_LINK, events);
    assert s.popped + s.buffer + s.transport == s.popped + Pending(s);
  }

  /** Draining an open link moves messages without changing what is pending. */
  lemma {:induction false} GetAllKeepsPending(s: Link)
    requires !s.closed
    ensures GetAll(s) == s.(buffer := Pending(s), transport := [])
    decreases |s.transport|
  {
    if s.transport == [] {
      assert Pending(s) == s.buffer;
    } else {
      GetAllKeepsPending(OnFetch(s));
      assert s.buffer + [s.transport[0]] + s.transport[1..] == s.buffer + s.transport;
    }
  }

  /** getOneMsg returns the oldest pending message, and the empty response only when there is none. */
  lemma {:induction false} GetOneIsDequeue(s: Link)
    requires !s.closed
    ensures var (r, s') := GetOne(s);
            && (r.None? <==> Pending(s) == [])
            && (r.Some? ==> [r.value] + Pending(s') == Pending(s) && s'.popped == s.popped + [r.value])
            && !s'.closed && s'.accepted == s.accepted
  {
    GetAllKeepsPending(s);
  }

  /** A call of getAllMsg does not change what later calls of getOneMsg return, open or closed. */
  lemma {:induction false} GetAllIsInvisible(s: Link, n: nat)
    ensures GetMany(GetAll(s), n) == GetMany(s, n)
  {
    if !s.closed {
      GetAllKeepsPending(s);
      GetAllKeepsPending(GetAll(s));
      assert Pending(GetAll(s)) == Pending(s);
    }
    assert GetAll(GetAll(s)) == GetAll(s);
  }

  /** The first `n` responses of an open link are its first pending messages, then empty ones. */
  lemma {:induction false} GetManyIsPending(s: Link, n: nat)
    requires !s.closed
    ensures |GetMany(s, n)| == n
    ensures forall i :: 0 <= i < n ==>
              GetMany(s, n)[i] == if i < |Pending(s)| then Some(Pending(s)[i]) else None
    decreases n
  {
    if n > 0 {
      GetOneIsDequeue(s);
      GetManyIsPending(GetOne(s).1, n - 1);
    }
  }

  lemma {:induction false} ClosedMany(s: Link, n: nat)
    requires s.closed
    ensures |GetMany(s, n)| == n
    ensures forall i :: 0 <= i < n ==> GetMany(s, n)[i] == Some(CLOSED_RESPONSE)
    decreases n
  {
    if n > 0 {
      ClosedMany(GetOne(s).1, n - 1);
    }
  }

  /** Once the queue is closed every getOneMsg says so, whatever was buffered or is written later. */
  lemma {:induction false} ClosedForGood(s: Link, events: seq<Event>, n: nat)
    requires s.closed
    ensures |GetMany(Run(s, events), n)| == n
    ensures forall i :: 0 <= i < n ==> GetMany(Run(s, events), n)[i] == Some(CLOSED_RESPONSE)
    decreases events
  {
    if events == [] {
      ClosedMany(s, n);
    } else {
      ClosedForGood(Step(s, events[0]), events[1..], n);
    }
  }

  /** A write is refused only by a full queue, and draining always makes room again. */
  lemma {:induction false} RefusedOnlyWhenFull(s: Link, msg: Response)
    requires !s.closed && |s.transport| <= MSG_MAX_COUNT
    ensures OnWrite(s, msg) == s <==> |s.transport| == 100
    ensures Pending(OnWrite(GetAll(s), msg)) == Pending(s) + [msg]
  {
    GetAllKeepsPending(s);
    assert |s.transport + [msg]| == |s.transport| + 1;
  }
}
