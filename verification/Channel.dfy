/**
 The write queue of a connection (Channel in lib/networking/src/Server.cpp).  Sending, the
 completion of writes, errors and disconnection arrive in any order; the queue must hand the
 transport one message at a time and lose none.
 */
module Channels {
  /** A channel and what the transport knows of it: the writes not yet completed, and two histories. */
  datatype ChannelState = ChannelState(
    disconnected: bool,
    writeBuffer: seq<string>,
    outstanding: seq<string>,
    started: seq<string>,
    delivered: seq<string>)

  const NEW_CHANNEL := ChannelState(false, [], [], [], [])

  datatype Event = Send(outgoing: string) | Written(error: bool) | Disconnect

  // -------------------------------------------------------------------- one step

  /** Hand the front of the write buffer to the transport. */
  function StartWrite(s: ChannelState): ChannelState
    requires s.writeBuffer != []
  {
    s.(outstanding := s.outstanding + [s.writeBuffer[0]], started := s.started + [s.writeBuffer[0]])
  }

  function OnSend(s: ChannelState, outgoing: string): ChannelState {
    if outgoing == "" then s
    else
      var queued := s.(writeBuffer := s.writeBuffer + [outgoing]);
      if |queued.writeBuffer| > 1 then queued else StartWrite(queued)
  }

  /** The transport reports its oldest write as done or failed; without one there is nothing to report. */
  function OnWritten(s: ChannelState, error: bool): ChannelState {
    if s.outstanding == [] || s.writeBuffer == [] then s
    else if error then s.(outstanding := s.outstanding[1..])
    else
      var done := s.(outstanding := s.outstanding[1..], delivered := s.delivered + [s.outstanding[0]],
                     writeBuffer := s.writeBuffer[1..]);
      if done.writeBuffer == [] then done else StartWrite(done)
  }

  function Step(s: ChannelState, e: Event): ChannelState {
    match e
    case Send(outgoing) => OnSend(s, outgoing)
    case Written(error) => OnWritten(s, error)
    case Disconnect => s.(disconnected := true)
  }

  function Run(s: ChannelState, events: seq<Event>): ChannelState
    decreases events
  {
    if events == [] then s else Run(Step(s, events[0]), events[1..])
  }

  /** Messages the channel has taken on: the non-empty ones sent. */
  function Accepted(events: seq<Event>): seq<string> {
    if events == [] then []
    else if events[0].Send? && events[0].outgoing != "" then [events[0].outgoing] + Accepted(events[1..])
    else Accepted(events[1..])
  }

  // -------------------------------------------------------------------- the channel itself

  class Channel {
    const connection: nat
    var disconnected: bool
    var writeBuffer: seq<string>
    var outstanding: seq<string>
    ghost var started: seq<string>
    ghost var delivered: seq<string>

    ghost function View(): ChannelState
      reads this
    {
      ChannelState(disconnected, writeBuffer, outstanding, started, delivered)
    }

    constructor (connection: nat)
      ensures this.connection == connection && View() == NEW_CHANNEL
    {
      this.connection := connection;
      disconnected, writeBuffer, outstanding := false, [], [];
      started, delivered := [], [];
    }

    method AsyncWrite()
      requires writeBuffer != []
      modifies this
      ensures View() == StartWrite(old(View()))
    {
      outstanding := outstanding + [writeBuffer[0]];
      started := started + [writeBuffer[0]];
    }

    method Send(outgoing: string)
      modifies this
      ensures View() == Step(old(View()), Event.Send(outgoing))
    {
      if |outgoing| == 0 {
        return;
      }
      writeBuffer := writeBuffer + [outgoing];
      if 1 < |writeBuffer| {
        return;
      }
      AsyncWrite();
    }

    /** The completion handler of a write; tells whether the server has to disconnect the connection. */
    method AfterWrite(error: bool) returns (lost: bool)
      requires Sound(View()) && outstanding != []
      modifies this
      ensures View() == Step(old(View()), Written(error))
      ensures lost == (error && !disconnected)
    {
      delivered := if error then delivered else delivered + [outstanding[0]];
      outstanding := outstanding[1..];
      if error {
        return !disconnected;
      }
      writeBuffer := writeBuffer[1..];
      if |writeBuffer| != 0 {
        AsyncWrite();
      }
      lost := false;
    }

    method Disconnect()
      modifies this
      ensures View() == Step(old(View()), Event.Disconnect)
    {
      disconnected := true;
    }
  }

  // -------------------------------------------------------------------- the protocol

  /**
   At most one write is under way and it is of the front of the buffer; everything handed over is
   the delivered messages and that front.  Without a write under way a non-empty buffer is stuck.
   */
  predicate Sound(s: ChannelState) {
    && (s.outstanding == [] || (s.writeBuffer != [] && s.outstanding == [s.writeBuffer[0]]))
    && s.started == if s.writeBuffer == [] then s.delivered else s.delivered + [s.writeBuffer[0]]
  }

  /** After a failed write. */
  predicate Stuck(s: ChannelState) { s.writeBuffer != [] && s.outstanding == [] }

  /** What one step keeps: soundness, the order of messages, and being stuck. */
  ghost predicate Keeps(s: ChannelState, e: Event, r: ChannelState) {
    && Sound(r) && r.delivered + r.writeBuffer == s.delivered + s.writeBuffer + Accepted([e])
    && (Stuck(s) ==> Stuck(r) && r.started == s.started && r.delivered == s.delivered)
    && (Stuck(r) && !Stuck(s) ==> e == Written(true))
  }

  lemma {:induction false} Regroup(a: seq<string>, b: seq<string>, c: seq<string>)
    ensures (a + b) + c == a + (b + c)
  {
  }

  lemma {:induction false} SendKeeps(s: ChannelState, outgoing: string)
    requires Sound(s)
    ensures Keeps(s, Send(outgoing), OnSend(s, outgoing))
  {
    assert Accepted([Send(outgoing)]) == if outgoing == "" then [] else [outgoing];
    if s.writeBuffer != [] {
      assert (s.writeBuffer + [outgoing])[0] == s.writeBuffer[0];
    }
  }

  lemma {:induction false} WrittenKeeps(s: ChannelState, error: bool)
    requires Sound(s)
    ensures Keeps(s, Written(error), OnWritten(s, error))
  {
    assert Accepted([Written(error)]) == [];
    var before := s.delivered + s.writeBuffer;
    assert before + [] == before;
    if s.outstanding != [] && !error {
      var front, rest := [s.writeBuffer[0]], s.writeBuffer[1..];
      assert s.writeBuffer == front + rest;
      Regroup(s.delivered, front, rest);
    }
  }

  lemma {:induction false} StepKeepsSound(s: ChannelState, e: Event)
    requires Sound(s)
    ensures Keeps(s, e, Step(s, e))
  {
    match e
    case Send(outgoing) => SendKeeps(s, outgoing);
    case Written(error) => WrittenKeeps(s, error);
    case Disconnect => assert Accepted([e]) == [];
  }

  lemma {:induction false} AcceptedCons(e: Event, events: seq<Event>)
    ensures Accepted([e] + events) == Accepted([e]) + Accepted(events)
  {
    assert ([e] + events)[1..] == events;
  }

  lemma {:induction false} RunIsSound(s: ChannelState, events: seq<Event>)
    requires Sound(s)
    ensures var r := Run(s, events);
            && Sound(r) && r.delivered + r.writeBuffer == s.delivered + s.writeBuffer + Accepted(events)
            && (Stuck(s) ==> Stuck(r) && r.started == s.started && r.delivered == s.delivered)
    decreases events
  {
    if events != [] {
      StepKeepsSound(s, events[0]);
      RunIsSound(Step(s, events[0]), events[1..]);
      AcceptedCons(events[0], events[1..]);
      assert [events[0]] + events[1..] == events;
      Regroup(s.delivered + s.writeBuffer, Accepted([events[0]]), Accepted(events[1..]));
    }
  }

  lemma {:induction false} RunAppend(s: ChannelState, before: seq<Event>, after: seq<Event>)
    ensures Run(s, before + after) == Run(Run(s, before), after)
    decreases before
  {
    if before == [] {
      assert before + after == after;
    } else {
      assert (before + after)[1..] == before[1..] + after;
      RunAppend(Step(s, before[0]), before[1..], after);
    }
  }

  /**
   In every interleaving the delivered messages followed by the buffer are the accepted messages
   in order, at most one write is outstanding and it is of the front, and no message is started
   twice or out of turn.
   */
  lemma {:induction false} ChannelProtocol(events: seq<Event>)
    ensures var s := Run(NEW_CHANNEL, events);
            && s.delivered + s.writeBuffer == Accepted(events)
            && |s.outstanding| <= 1
            && (s.outstanding != [] ==> s.writeBuffer != [] && s.outstanding[0] == s.writeBuffer[0])
            && s.delivered <= s.started <= Accepted(events)
            && |s.started| <= |s.delivered| + 1
  {
    RunIsSound(NEW_CHANNEL, events);
    var s := Run(NEW_CHANNEL, events);
    if s.writeBuffer != [] {
      assert s.delivered + s.writeBuffer == s.delivered + [s.writeBuffer[0]] + s.writeBuffer[1..];
    }
  }

  /** After a write has failed nothing more is ever written, whatever is sent or reported later. */
  lemma {:induction false} NoWriteAfterError(before: seq<Event>, after: seq<Event>)
    requires Run(NEW_CHANNEL, before).outstanding != []
    ensures var s, r := Run(NEW_CHANNEL, before), Run(NEW_CHANNEL, before + [Written(true)] + after);
            r.started == s.started && r.delivered == s.delivered && r.outstanding == []
            && r.writeBuffer == s.writeBuffer + Accepted(after)
  {
    var s := Run(NEW_CHANNEL, before);
    RunIsSound(NEW_CHANNEL, before);
    WrittenKeeps(s, true);
    RunAfter(NEW_CHANNEL, before, Written(true), after);
    StuckForGood(OnWritten(s, true), after);
  }

  lemma {:induction false} RunAfter(s: ChannelState, before: seq<Event>, e: Event, after: seq<Event>)
    ensures Run(s, before + [e] + after) == Run(Step(Run(s, before), e), after)
  {
    assert before + [e] + after == before + ([e] + after);
    RunAppend(s, before, [e] + after);
    assert ([e] + after)[1..] == after;
  }

  /** A stuck channel only piles up what it is sent. */
  lemma {:induction false} StuckForGood(s: ChannelState, events: seq<Event>)
    requires Sound(s) && Stuck(s)
    ensures var r := Run(s, events);
            && Stuck(r) && r.started == s.started && r.delivered == s.delivered
            && r.writeBuffer == s.writeBuffer + Accepted(events)
  {
    RunIsSound(s, events);
    var r := Run(s, events);
    Regroup(s.delivered, s.writeBuffer, Accepted(events));
    SameTail(s.delivered, r.writeBuffer, s.writeBuffer + Accepted(events));
  }

  lemma {:induction false} SameTail(front: seq<string>, a: seq<string>, b: seq<string>)
    requires front + a == front + b
    ensures a == b
  {
    assert a == (front + a)[|front|..] && b == (front + b)[|front|..];
  }

  /** As long as no write fails, the channel keeps going: it idles only when everything is delivered. */
  lemma {:induction false} NoErrorNoLoss(s: ChannelState, events: seq<Event>)
    requires Sound(s) && !Stuck(s) && Written(true) !in events
    ensures var r := Run(s, events);
            !Stuck(r) && (r.outstanding == [] ==> r.delivered == s.delivered + s.writeBuffer + Accepted(events))
    decreases events
  {
    RunIsSound(s, events);
    if events != [] {
      StepKeepsSound(s, events[0]);
      NoErrorNoLoss(Step(s, events[0]), events[1..]);
    }
  }

  /** A channel counts as disconnected exactly if it was told so, whatever else has happened to it. */
  lemma {:induction false} DisconnectedIff(s: ChannelState, events: seq<Event>)
    ensures Run(s, events).disconnected <==> s.disconnected || Disconnect in events
    decreases events
  {
    if events != [] {
      DisconnectedIff(Step(s, events[0]), events[1..]);
      assert events == [events[0]] + events[1..];
    }
  }
}
