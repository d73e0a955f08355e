/**
 The connection registry of the server (lib/networking/src/Server.cpp) together with the client
 list its callbacks keep (tools/server/gameserver.cpp), and sending through the channels.
 */
module Servers {
  import opened Wrappers
  import opened Channels

  type Connection = nat

  datatype Callback = Connected(c: Connection) | Disconnected(c: Connection)

  /** The registry: open channels, the clients list, both id maps with their counters, and the callbacks made so far. */
  datatype Registry = Registry(
    channels: set<Connection>,
    clients: seq<Connection>,
    gameIds: map<Connection, int>,
    playerIds: map<Connection, int>,
    gameCounter: int,
    playerCounter: int,
    active: Option<Connection>,
    callbacks: seq<Callback>)

  const EMPTY_REGISTRY := Registry({}, [], map[], map[], 1, 1, None, [])

  // -------------------------------------------------------------------- steps

  /** A websocket was accepted, a connection was lost or quit, a game was created or joined over HTTP. */
  datatype Step = Register(c: Connection) | Lose(c: Connection) | CreateGame | JoinGame

  /** A new channel has an address no registered channel has; games need a channel that was active. */
  predicate Enabled(s: Registry, step: Step) {
    match step
    case Register(c) => c !in s.channels
    case Lose(_) => true
    case CreateGame => s.active.Some?
    case JoinGame => s.active.Some?
  }

  function Without(clients: seq<Connection>, c: Connection): seq<Connection> {
    if clients == [] then []
    else (if clients[0] == c then [] else [clients[0]]) + Without(clients[1..], c)
  }

  function Registered(s: Registry, c: Connection): Registry {
    s.(channels := s.channels + {c}, clients := s.clients + [c], active := Some(c),
       callbacks := s.callbacks + [Connected(c)])
  }

  /** Losing a connection that is not registered does nothing. */
  function Lost(s: Registry, c: Connection): Registry {
    if c !in s.channels then s
    else s.(channels := s.channels - {c}, clients := Without(s.clients, c),
            gameIds := s.gameIds - {c}, playerIds := s.playerIds - {c},
            callbacks := s.callbacks + [Disconnected(c)])
  }

  function Next(s: Registry, step: Step): Registry
    requires Enabled(s, step)
  {
    match step
    case Register(c) => Registered(s, c)
    case Lose(c) => Lost(s, c)
    case CreateGame => s.(gameIds := s.gameIds[s.active.value := s.gameCounter], gameCounter := s.gameCounter + 1)
    case JoinGame => s.(playerIds := s.playerIds[s.active.value := s.playerCounter], playerCounter := s.playerCounter + 1)
  }

  // -------------------------------------------------------------------- what every reachable registry satisfies

  predicate NoDuplicates(clients: seq<Connection>) {
    forall i, j :: 0 <= i < j < |clients| ==> clients[i] != clients[j]
  }

  predicate IdsOk(ids: map<Connection, int>, counter: int) {
    && (forall c :: c in ids ==> 1 <= ids[c] < counter)
    && forall c, d :: c in ids && d in ids && ids[c] == ids[d] ==> c == d
  }

  /** The callbacks about one connection. */
  function About(log: seq<Callback>, c: Connection): seq<Callback> {
    if log == [] then []
    else About(log[..|log| - 1], c) + (if log[|log| - 1].c == c then [log[|log| - 1]] else [])
  }

  /** Connect and disconnect take turns, a connect being the first. */
  predicate Alternates(log: seq<Callback>) {
    forall i :: 0 <= i < |log| ==> (log[i].Connected? <==> i % 2 == 0)
  }

  ghost predicate Valid(s: Registry) {
    && NoDuplicates(s.clients) && (forall c :: c in s.clients <==> c in s.channels)
    && IdsOk(s.gameIds, s.gameCounter) && IdsOk(s.playerIds, s.playerCounter)
    && 1 <= s.gameCounter && 1 <= s.playerCounter
    && forall c :: Alternates(About(s.callbacks, c))
                   && (c in s.channels <==> |About(s.callbacks, c)| % 2 == 1)
  }

  lemma {:induction false} WithoutIsRest(clients: seq<Connection>, c: Connection)
    requires NoDuplicates(clients)
    ensures NoDuplicates(Without(clients, c))
    ensures forall d :: d in Without(clients, c) <==> d in clients && d != c
  {
    if clients != [] {
      WithoutIsRest(clients[1..], c);
      var rest := Without(clients[1..], c);
      forall d
        ensures d in Without(clients, c) <==> d in clients && d != c
      {
        assert d in clients <==> d == clients[0] || d in clients[1..];
      }
      if clients[0] != c {
        assert Without(clients, c) == [clients[0]] + rest;
        assert clients[0] !in clients[1..];
      } else {
        assert Without(clients, c) == rest;
      }
    }
  }

  /** The others stay in their order. */
  lemma {:induction false} WithoutInOrder(before: seq<Connection>, d: Connection, after: seq<Connection>, c: Connection)
    ensures Without(before + ([d] + after), c) == Without(before, c) + ((if d == c then [] else [d]) + Without(after, c))
    decreases before
  {
    var kept := (if d == c then [] else [d]) + Without(after, c);
    if before == [] {
      assert before + ([d] + after) == [d] + after && ([d] + after)[1..] == after;
      assert Without(before, c) + kept == kept;
    } else {
      var all := before + ([d] + after);
      var head := if before[0] == c then [] else [before[0]];
      assert all[0] == before[0] && all[1..] == before[1..] + ([d] + after);
      WithoutInOrder(before[1..], d, after, c);
      assert (head + Without(before[1..], c)) + kept == head + (Without(before[1..], c) + kept);
    }
  }

  lemma {:induction false} AboutAppend(log: seq<Callback>, e: Callback, c: Connection)
    ensures About(log + [e], c) == if e.c == c then About(log, c) + [e] else About(log, c)
  {
    assert (log + [e])[..|log|] == log;
  }

  lemma {:induction false} CallbackKeepsTurns(s: Registry, channels': set<Connection>, e: Callback)
    requires Valid(s)
    requires channels' == if e.Connected? then s.channels + {e.c} else s.channels - {e.c}
    requires e.Connected? <==> e.c !in s.channels
    ensures forall c :: Alternates(About(s.callbacks + [e], c))
                        && (c in channels' <==> |About(s.callbacks + [e], c)| % 2 == 1)
  {
    forall c
      ensures Alternates(About(s.callbacks + [e], c))
              && (c in channels' <==> |About(s.callbacks + [e], c)| % 2 == 1)
    {
      AboutAppend(s.callbacks, e, c);
      assert Alternates(About(s.callbacks, c)) && (c in s.channels <==> |About(s.callbacks, c)| % 2 == 1);
    }
  }

  lemma {:induction false} NextKeepsValid(s: Registry, step: Step)
    requires Valid(s) && Enabled(s, step)
    ensures Valid(Next(s, step))
  {
    match step
    case Register(c) =>
      CallbackKeepsTurns(s, s.channels + {c}, Connected(c));
    case Lose(c) =>
      if c in s.channels {
        WithoutIsRest(s.clients, c);
        CallbackKeepsTurns(s, s.channels - {c}, Disconnected(c));
      }
    case CreateGame =>
    case JoinGame =>
  }

  ghost predicate EnabledRun(s: Registry, steps: seq<Step>)
    decreases steps
  {
    steps == [] || (Enabled(s, steps[0]) && EnabledRun(Next(s, steps[0]), steps[1..]))
  }

  ghost function Run(s: Registry, steps: seq<Step>): Registry
    requires EnabledRun(s, steps)
    decreases steps
  {
    if steps == [] then s else Run(Next(s, steps[0]), steps[1..])
  }

  /** In every reachable registry clients and channels agree, ids are unique and callbacks take turns. */
  lemma {:induction false} RunKeepsValid(s: Registry, steps: seq<Step>)
    requires Valid(s) && EnabledRun(s, steps)
    ensures Valid(Run(s, steps))
    decreases steps
  {
    if steps != [] {
      NextKeepsValid(s, steps[0]);
      RunKeepsValid(Next(s, steps[0]), steps[1..]);
    }
  }

  lemma {:induction false} RegistryIsConsistent(steps: seq<Step>)
    requires EnabledRun(EMPTY_REGISTRY, steps)
    ensures Valid(Run(EMPTY_REGISTRY, steps))
  {
    assert Valid(EMPTY_REGISTRY);
    RunKeepsValid(EMPTY_REGISTRY, steps);
  }

  /** Do all ids belong to open channels? */
  predicate IdsOfChannels(s: Registry) { s.gameIds.Keys <= s.channels && s.playerIds.Keys <= s.channels }

  /** Ids stay with open channels exactly if games are created and joined while the active channel is open. */
  lemma {:induction false} IdsStayWithChannelsIff(s: Registry, step: Step)
    requires Enabled(s, step) && IdsOfChannels(s)
    ensures IdsOfChannels(Next(s, step)) <==>
            (MakesId(step) ==> s.active.value in s.channels)
  {
    if step == CreateGame {
      assert s.active.value in Next(s, step).gameIds;
    } else if step == JoinGame {
      assert s.active.value in Next(s, step).playerIds;
    }
  }

  predicate MakesId(step: Step) { step == CreateGame || step == JoinGame }

  /** Ids belong to open channels now and after every step. */
  ghost predicate AlwaysOfChannels(s: Registry, steps: seq<Step>)
    requires EnabledRun(s, steps)
    decreases steps
  {
    IdsOfChannels(s) && (steps == [] || AlwaysOfChannels(Next(s, steps[0]), steps[1..]))
  }

  /** Games are only created and joined while the channel that was active last is open. */
  ghost predicate GamesWhileOpen(s: Registry, steps: seq<Step>)
    requires EnabledRun(s, steps)
    decreases steps
  {
    steps == [] ||
    ((MakesId(steps[0]) ==> s.active.value in s.channels) && GamesWhileOpen(Next(s, steps[0]), steps[1..]))
  }

  /** Over every run: no closed connection ever has an id exactly if that is so. */
  lemma {:induction false} IdsAlwaysWithChannelsIff(s: Registry, steps: seq<Step>)
    requires EnabledRun(s, steps) && IdsOfChannels(s)
    ensures AlwaysOfChannels(s, steps) <==> GamesWhileOpen(s, steps)
    decreases steps
  {
    if steps != [] {
      IdsStayWithChannelsIff(s, steps[0]);
      if IdsOfChannels(Next(s, steps[0])) {
        IdsAlwaysWithChannelsIff(Next(s, steps[0]), steps[1..]);
      }
    }
  }

  /** The active channel is not reset when it is lost, so a closed connection can be given a game. */
  lemma {:induction false} ClosedChannelGetsGame(c: Connection)
    ensures var steps := [Register(c), Lose(c), CreateGame];
            && EnabledRun(EMPTY_REGISTRY, steps)
            && var s := Run(EMPTY_REGISTRY, steps);
               c !in s.channels && c in s.gameIds
  {
    var s1 := Next(EMPTY_REGISTRY, Register(c));
    var s2 := Next(s1, Lose(c));
    var s3 := Next(s2, CreateGame);
    assert [Register(c), Lose(c), CreateGame][1..] == [Lose(c), CreateGame];
    assert [Lose(c), CreateGame][1..] == [CreateGame] && [CreateGame][1..] == [];
    assert EnabledRun(s3, []) && EnabledRun(s2, [CreateGame]) && EnabledRun(s1, [Lose(c), CreateGame]);
    assert Run(s2, [CreateGame]) == s3 && Run(s1, [Lose(c), CreateGame]) == s3;
  }

  // -------------------------------------------------------------------- the registry told from its history

  /** The connection registered last. */
  function LastRegistered(steps: seq<Step>): Option<Connection> {
    if steps == [] then None
    else
      var last := steps[|steps| - 1];
      if last.Register? then Some(last.c) else LastRegistered(steps[..|steps| - 1])
  }

  /** Was the connection registered after it was last lost? */
  predicate IsOpen(steps: seq<Step>, c: Connection) {
    steps != []
    && var last := steps[|steps| - 1];
       if last == Register(c) then true
       else if last == Lose(c) then false
       else IsOpen(steps[..|steps| - 1], c)
  }

  function Count(steps: seq<Step>, kind: Step): nat {
    if steps == [] then 0
    else Count(steps[..|steps| - 1], kind) + (if steps[|steps| - 1] == kind then 1 else 0)
  }

  /**
   The id a connection has from steps of one kind, `CreateGame` or `JoinGame`: the number of the
   latest such step while it was registered last, unless it was open and lost since.
   */
  function IdOf(steps: seq<Step>, kind: Step, c: Connection): Option<int> {
    if steps == [] then None
    else
      var front, last := steps[..|steps| - 1], steps[|steps| - 1];
      if last == kind && LastRegistered(front) == Some(c) then Some(Count(steps, kind))
      else if last == Lose(c) && IsOpen(front, c) then None
      else IdOf(front, kind, c)
  }

  /** The registry is what its history says. */
  ghost predicate Tells(steps: seq<Step>, s: Registry) {
    && s.active == LastRegistered(steps)
    && s.gameCounter == 1 + Count(steps, CreateGame) && s.playerCounter == 1 + Count(steps, JoinGame)
    && (forall c :: c in s.channels <==> IsOpen(steps, c))
    && (forall c :: IdOf(steps, CreateGame, c) == if c in s.gameIds then Some(s.gameIds[c]) else None)
    && (forall c :: IdOf(steps, JoinGame, c) == if c in s.playerIds then Some(s.playerIds[c]) else None)
  }

  lemma {:induction false} RunSnoc(s: Registry, steps: seq<Step>, step: Step)
    requires EnabledRun(s, steps + [step])
    ensures EnabledRun(s, steps) && Enabled(Run(s, steps), step)
    ensures Run(s, steps + [step]) == Next(Run(s, steps), step)
    decreases steps
  {
    if steps == [] {
      assert [] + [step] == [step] && [step][1..] == [];
      assert Run(Next(s, step), []) == Next(s, step);
    } else {
      assert (steps + [step])[1..] == steps[1..] + [step];
      RunSnoc(Next(s, steps[0]), steps[1..], step);
    }
  }

  lemma {:induction false} NextTells(steps: seq<Step>, s: Registry, step: Step)
    requires Tells(steps, s) && Enabled(s, step)
    ensures Tells(steps + [step], Next(s, step))
  {
    var all := steps + [step];
    assert all[..|all| - 1] == steps && all[|all| - 1] == step;
    var s' := Next(s, step);
    forall c
      ensures c in s'.channels <==> IsOpen(all, c)
      ensures IdOf(all, CreateGame, c) == if c in s'.gameIds then Some(s'.gameIds[c]) else None
      ensures IdOf(all, JoinGame, c) == if c in s'.playerIds then Some(s'.playerIds[c]) else None
    {
      assert c in s.channels <==> IsOpen(steps, c);
      assert IdOf(steps, CreateGame, c) == if c in s.gameIds then Some(s.gameIds[c]) else None;
      assert IdOf(steps, JoinGame, c) == if c in s.playerIds then Some(s.playerIds[c]) else None;
    }
  }

  /**
   Over every run from the empty registry: the active channel is the connection registered last,
   the open channels are those registered and not lost since, and each connection's ids are the
   numbers of the games created and joined while it was active.
   */
  lemma {:induction false} HistoryTellsAll(steps: seq<Step>)
    requires EnabledRun(EMPTY_REGISTRY, steps)
    ensures Tells(steps, Run(EMPTY_REGISTRY, steps))
    decreases steps
  {
    if steps != [] {
      var front, last := steps[..|steps| - 1], steps[|steps| - 1];
      assert steps == front + [last];
      RunSnoc(EMPTY_REGISTRY, front, last);
      HistoryTellsAll(front);
      NextTells(front, Run(EMPTY_REGISTRY, front), last);
    }
  }

  /** A new id goes to the connection registered last, is larger than every earlier one, and changes no other. */
  lemma {:induction false} NewIdGoesToLast(steps: seq<Step>, c: Connection)
    requires EnabledRun(EMPTY_REGISTRY, steps + [CreateGame]) || EnabledRun(EMPTY_REGISTRY, steps + [JoinGame])
    ensures EnabledRun(EMPTY_REGISTRY, steps) && LastRegistered(steps).Some?
    ensures var before := Run(EMPTY_REGISTRY, steps);
            && Enabled(before, CreateGame) && Enabled(before, JoinGame)
            && var game, player := Next(before, CreateGame), Next(before, JoinGame);
               var last := LastRegistered(steps).value;
               && last in game.gameIds && last in player.playerIds
               && (forall d :: d in before.gameIds ==> before.gameIds[d] < game.gameIds[last])
               && (forall d :: d in before.playerIds ==> before.playerIds[d] < player.playerIds[last])
               && (c != last ==>
                     && (c in game.gameIds <==> c in before.gameIds) && (c in player.playerIds <==> c in before.playerIds)
                     && (c in before.gameIds ==> game.gameIds[c] == before.gameIds[c])
                     && (c in before.playerIds ==> player.playerIds[c] == before.playerIds[c]))
               && game.playerIds == before.playerIds && player.gameIds == before.gameIds
  {
    if EnabledRun(EMPTY_REGISTRY, steps + [CreateGame]) {
      RunSnoc(EMPTY_REGISTRY, steps, CreateGame);
    } else {
      RunSnoc(EMPTY_REGISTRY, steps, JoinGame);
    }
    HistoryTellsAll(steps);
    RegistryIsConsistent(steps);
  }

  // -------------------------------------------------------------------- sending

  datatype Message = Message(connection: Connection, text: string)

  /** The texts addressed to one connection, as sends to its channel. */
  function SendsTo(messages: seq<Message>, c: Connection): seq<Event> {
    if messages == [] then []
    else
      var last := messages[|messages| - 1];
      SendsTo(messages[..|messages| - 1], c) + (if last.connection == c then [Send(last.text)] else [])
  }

  lemma {:induction false} SendsToAppend(messages: seq<Message>, m: Message, c: Connection)
    ensures SendsTo(messages + [m], c)
            == if m.connection == c then SendsTo(messages, c) + [Send(m.text)] else SendsTo(messages, c)
  {
    assert (messages + [m])[..|messages|] == messages;
  }

  /** The same text for every client. */
  function ToAll(clients: seq<Connection>, log: string): seq<Message> {
    seq(|clients|, i requires 0 <= i < |clients| => Message(clients[i], log))
  }

  lemma {:induction false} ToAllSnoc(clients: seq<Connection>, c: Connection, log: string)
    ensures ToAll(clients + [c], log) == ToAll(clients, log) + [Message(c, log)]
  {
  }

  lemma {:induction false} ToAllReachesOnce(clients: seq<Connection>, log: string, c: Connection)
    requires NoDuplicates(clients)
    ensures SendsTo(ToAll(clients, log), c) == if c in clients then [Send(log)] else []
  {
    if clients != [] {
      var front, last := clients[..|clients| - 1], clients[|clients| - 1];
      ToAllReachesOnce(front, log, c);
      assert clients == front + [last];
      ToAllSnoc(front, last, log);
      SendsToAppend(ToAll(front, log), Message(last, log), c);
      if c in front {
        var i :| 0 <= i < |front| && front[i] == c;
        assert clients[i] != clients[|clients| - 1];
      }
    }
  }

  // -------------------------------------------------------------------- the server itself

  class Server {
    var channels: map<Connection, Channel>
    var clients: seq<Connection>
    var gameIds: map<Connection, int>
    var playerIds: map<Connection, int>
    var gameInstanceId: int
    var playerId: int
    var activeChannel: Channel?
    ghost var callbacks: seq<Callback>

    ghost function View(): Registry
      reads this
    {
      Registry(channels.Keys, clients, gameIds, playerIds, gameInstanceId, playerId,
               if activeChannel == null then None else Some(activeChannel.connection), callbacks)
    }

    /** Channels are filed under their own connection, so no two entries share one. */
    ghost predicate Wired()
      reads this
    {
      forall c :: c in channels ==> channels[c].connection == c
    }

    constructor ()
      ensures View() == EMPTY_REGISTRY && Wired()
    {
      channels, clients, gameIds, playerIds := map[], [], map[], map[];
      gameInstanceId, playerId, activeChannel := 1, 1, null;
      callbacks := [];
    }

    method OnConnect(c: Connection)
      modifies this`clients, this`callbacks
      ensures clients == old(clients) + [c] && callbacks == old(callbacks) + [Connected(c)]
    {
      clients := clients + [c];
      callbacks := callbacks + [Connected(c)];
    }

    method OnDisconnect(c: Connection)
      modifies this`clients, this`callbacks
      ensures clients == Without(old(clients), c) && callbacks == old(callbacks) + [Disconnected(c)]
    {
      clients := Without(clients, c);
      callbacks := callbacks + [Disconnected(c)];
    }

    method RegisterChannel(channel: Channel)
      requires Valid(View()) && Wired() && channel.connection !in channels
      modifies this
      ensures Valid(View()) && Wired() && View() == Next(old(View()), Register(channel.connection))
      ensures channels == old(channels)[channel.connection := channel]
    {
      NextKeepsValid(View(), Register(channel.connection));
      channels := channels[channel.connection := channel];
      OnConnect(channel.connection);
      activeChannel := channel;
    }

    method Disconnect(c: Connection)
      requires Valid(View()) && Wired()
      modifies this, channels.Values
      ensures Valid(View()) && Wired() && View() == Next(old(View()), Lose(c))
      ensures channels == old(channels) - {c}
      ensures forall d :: d in old(channels) ==>
                old(channels)[d].View() == if d == c then Channels.Step(old(channels[d].View()), Event.Disconnect)
                                           else old(channels[d].View())
    {
      NextKeepsValid(View(), Lose(c));
      if c in channels {
        OnDisconnect(c);
        gameIds := gameIds - {c};
        playerIds := playerIds - {c};
        channels[c].Disconnect();
        channels := channels - {c};
      }
    }

    /** The completion handler of a channel's write: an error disconnects the connection, once. */
    method ChannelWritten(channel: Channel, error: bool)
      requires Valid(View()) && Wired() && Sound(channel.View()) && channel.outstanding != []
      requires channel.connection in channels ==> channels[channel.connection] == channel
      modifies this, channel, channels.Values
      ensures Valid(View()) && Wired()
      ensures View() == if error && !old(channel.disconnected) then Next(old(View()), Lose(channel.connection))
                        else old(View())
      ensures channels == if error && !old(channel.disconnected) then old(channels) - {channel.connection} else old(channels)
      ensures var written := Channels.Step(old(channel.View()), Written(error));
              channel.View() == if old(channels) != channels then Channels.Step(written, Event.Disconnect) else written
      ensures forall d :: d in old(channels) && d != channel.connection ==>
                old(channels)[d].View() == old(channels[d].View())
    {
      var lost := channel.AfterWrite(error);
      if lost {
        Disconnect(channel.connection);
      }
    }

    method CreateGame() returns (id: int)
      requires Valid(View()) && activeChannel != null
      modifies this
      ensures Valid(View()) && View() == Next(old(View()), Step.CreateGame)
      ensures channels == old(channels) && id !in old(gameIds).Values && gameIds == old(gameIds)[activeChannel.connection := id]
    {
      NextKeepsValid(View(), Step.CreateGame);
      id := gameInstanceId;
      gameInstanceId := gameInstanceId + 1;
      gameIds := gameIds[activeChannel.connection := id];
    }

    method JoinGame() returns (id: int)
      requires Valid(View()) && activeChannel != null
      modifies this
      ensures Valid(View()) && View() == Next(old(View()), Step.JoinGame)
      ensures channels == old(channels) && id !in old(playerIds).Values && playerIds == old(playerIds)[activeChannel.connection := id]
    {
      NextKeepsValid(View(), Step.JoinGame);
      id := playerId;
      playerId := playerId + 1;
      playerIds := playerIds[activeChannel.connection := id];
    }

    /** Hand each message to its channel, if that is still open. */
    method SendMessages(messages: seq<Message>)
      requires Wired()
      modifies channels.Values
      ensures forall c :: c in channels ==>
                channels[c].View() == Channels.Run(old(channels[c].View()), SendsTo(messages, c))
    {
      for i := 0 to |messages|
        invariant forall c :: c in channels ==>
                    channels[c].View() == Channels.Run(old(channels[c].View()), SendsTo(messages[..i], c))
      {
        var m := messages[i];
        label before:
        if m.connection in channels {
          channels[m.connection].Send(m.text);
        }
        assert messages[..i + 1] == messages[..i] + [m];
        forall c | c in channels
          ensures channels[c].View() == Channels.Run(old(channels[c].View()), SendsTo(messages[..i + 1], c))
        {
          SendsToAppend(messages[..i], m, c);
          RunAppend(old(channels[c].View()), SendsTo(messages[..i], c), [Send(m.text)]);
          OneStep(Channels.Run(old(channels[c].View()), SendsTo(messages[..i], c)), Send(m.text));
        }
      }
      assert messages[..|messages|] == messages;
    }

    method BuildOutgoing(log: string) returns (outgoing: seq<Message>)
      ensures outgoing == ToAll(clients, log)
    {
      outgoing := [];
      for i := 0 to |clients|
        invariant outgoing == ToAll(clients[..i], log)
      {
        outgoing := outgoing + [Message(clients[i], log)];
      }
    }

    /** One turn of the game server's main loop: every open channel gets the log exactly once. */
    method Broadcast(log: string)
      requires Valid(View()) && Wired()
      modifies channels.Values
      ensures View() == old(View())
      ensures forall c :: c in channels ==> channels[c].View() == OnSend(old(channels[c].View()), log)
    {
      var outgoing := BuildOutgoing(log);
      SendMessages(outgoing);
      forall c | c in channels
        ensures channels[c].View() == OnSend(old(channels[c].View()), log)
      {
        ToAllReachesOnce(clients, log, c);
        OneStep(old(channels[c].View()), Send(log));
      }
    }
  }

  lemma {:induction false} OneStep(s: ChannelState, e: Event)
    ensures Channels.Run(s, [e]) == Channels.Step(s, e)
  {
    assert [e][1..] == [];
  }
}
