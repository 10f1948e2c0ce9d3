/** The coordinator (`src/server.rs`): the registry of connected players and
    the ball holder. It handles one event at a time.

    A registered player's session mailbox is modelled as an `Outbox` value:
    what the coordinator has put on that session's normal and urgent lanes.
    Accepting a TCP connection and spawning its session become
    `OnClientConnect`, which returns what the session is started with. */
module Server {
  import opened Wrappers
  import opened Game
  import opened Messages

  /** `server::Event`: what sessions and the Ctrl-C handler send the coordinator. */
  datatype Event =
    | CtrlC
    | PlayerLeft(player: Player)
    | PassBall(sender: Player, receiver: Player)

  /** The messages sent to one session's mailbox, per lane, oldest first. */
  datatype Outbox = Outbox(normal: seq<ToClient>, urgent: seq<ToClient>)

  /** The registry after `msg` is sent on every registered player's normal lane. */
  ghost function BroadcastTo(reg: map<Player, Outbox>, msg: ToClient): map<Player, Outbox> {
    map p | p in reg :: reg[p].(normal := reg[p].normal + [msg])
  }

  lemma BroadcastSingleton(p: Player, o: Outbox, msg: ToClient)
    ensures BroadcastTo(map[p := o], msg) == map[p := o.(normal := o.normal + [msg])]
  {
    assert BroadcastTo(map[p := o], msg).Keys == {p};
  }

  /** The reason tag `pass_ball` attaches, given the holder before the pass. */
  function PassTag(holder: Option<Player>, reg: map<Player, Outbox>): (who: WhoPassed)
    ensures who == PlayerStumbledUponBall <==> holder.None?
    ensures who == ByPlayer <==> holder.Some? && holder.value in reg
    ensures who == PlayerWithBallLeft <==> holder.Some? && holder.value !in reg
  {
    match holder
    case Some(p) => if p in reg then ByPlayer else PlayerWithBallLeft
    case None => PlayerStumbledUponBall
  }

  /** `on_ball_pass`'s effect, from holder and registry `g0`, `reg0` to
      `g1`, `reg1`: only the holder's pass to a registered player moves the
      ball, and then everybody hears of it; any other request changes nothing. */
  ghost predicate BallPassed(g0: GameInfo, reg0: map<Player, Outbox>, sender: Player, receiving: Player,
                             g1: GameInfo, reg1: map<Player, Outbox>)
  {
    if g0.playerWithBall == Some(sender) && receiving in reg0 then
      && g1.playerWithBall == Some(receiving)
      && reg1 == BroadcastTo(reg0, ToClient.PassBall(receiving, ByPlayer))
    else
      g1 == g0 && reg1 == reg0
  }

  /** `on_client_disconnect`'s effect: the player is forgotten; if it held
      the ball, the ball goes to another remaining player, who everybody
      hears got it, or to nobody when none remain. */
  ghost predicate Departed(g0: GameInfo, reg0: map<Player, Outbox>, leaving: Player,
                           g1: GameInfo, reg1: map<Player, Outbox>)
  {
    if leaving !in reg0 then
      g1 == g0 && reg1 == reg0
    else if g0.playerWithBall != Some(leaving) then
      g1 == g0 && reg1 == reg0 - {leaving}
    else if reg0.Keys == {leaving} then
      g1.playerWithBall == None && reg1 == map[]
    else
      && g1.playerWithBall.Some?
      && var next := g1.playerWithBall.value;
         && next in reg0 && next != leaving
         && reg1 == BroadcastTo(reg0 - {leaving}, ToClient.PassBall(next, PlayerWithBallLeft))
  }

  /** `on_client_connect`'s effect for the newcomer `player`, whose session
      starts with `initialState`: the snapshot is the game before the join;
      everybody, the newcomer included, hears of the join; a newcomer with
      nobody holding the ball gets it. */
  ghost predicate Joined(g0: GameInfo, reg0: map<Player, Outbox>, player: Player, initialState: GameState,
                         g1: GameInfo, reg1: map<Player, Outbox>)
  {
    && player !in reg0
    && initialState.info == g0
    && |initialState.players| == |reg0.Keys|
    && (forall p :: p in initialState.players <==> p in reg0)
    && reg1.Keys == reg0.Keys + {player}
    && (g0.playerWithBall.Some? ==>
          && g1 == g0
          && reg1[player] == Outbox([PlayerJoin(player)], [])
          && reg1 == BroadcastTo(reg0[player := Outbox([], [])], PlayerJoin(player)))
    && (g0.playerWithBall.None? ==>
          && g1.playerWithBall == Some(player)
          && reg1 == map[player := Outbox([PlayerJoin(player), ToClient.PassBall(player, PlayerStumbledUponBall)], [])])
  }

  /** The effect of one event from the coordinator's queue. */
  ghost predicate Handled(g0: GameInfo, reg0: map<Player, Outbox>, event: Event,
                          g1: GameInfo, reg1: map<Player, Outbox>)
  {
    match event
    case CtrlC => g1 == g0 && reg1 == reg0
    case PlayerLeft(p) => Departed(g0, reg0, p, g1, reg1)
    case PassBall(sender, receiver) => BallPassed(g0, reg0, sender, receiver, g1, reg1)
  }

  /** An input the `run` loop reacts to: a new TCP connection, or an event
      from the coordinator's own queue. */
  datatype Input = Connect | Mail(event: Event)

  /** The coordinator's state: the ball holder and the registry. */
  type ServerState = (GameInfo, map<Player, Outbox>)

  /** `states` is the run of the loop over the first `n` inputs: each input
      takes the state before it to the state after it, a connection with
      `on_client_connect`'s effect for the next greeting in `greetings`, an
      event with the effect of handling it. */
  ghost predicate Served(inputs: seq<Input>, n: nat, states: seq<ServerState>, greetings: seq<(Player, GameState)>)
    requires n <= |inputs| && |states| == n + 1
    decreases n
  {
    if n == 0 then greetings == []
    else
      var before, after := states[n - 1], states[n];
      match inputs[n - 1]
      case Connect =>
        && |greetings| >= 1
        && Joined(before.0, before.1, greetings[|greetings| - 1].0, greetings[|greetings| - 1].1, after.0, after.1)
        && Served(inputs, n - 1, states[..n], greetings[..|greetings| - 1])
      case Mail(event) =>
        && Handled(before.0, before.1, event, after.0, after.1)
        && Served(inputs, n - 1, states[..n], greetings)
  }

  /** The run grows by one input: a connection with `on_client_connect`'s
      effect and its greeting, or an event with the effect of handling it. */
  lemma ServedStep(inputs: seq<Input>, n: nat, states: seq<ServerState>, greetings: seq<(Player, GameState)>,
                   after: ServerState, greeting: Option<(Player, GameState)>)
    requires n < |inputs| && |states| == n + 1
    requires Served(inputs, n, states, greetings)
    requires inputs[n].Connect? ==>
      greeting.Some? && Joined(states[n].0, states[n].1, greeting.value.0, greeting.value.1, after.0, after.1)
    requires inputs[n].Mail? ==> greeting.None? && Handled(states[n].0, states[n].1, inputs[n].event, after.0, after.1)
    ensures Served(inputs, n + 1, states + [after], greetings + (if greeting.Some? then [greeting.value] else []))
  {
    var states' := states + [after];
    assert states'[..n + 1] == states;
    if greeting.Some? {
      assert (greetings + [greeting.value])[..|greetings|] == greetings;
    } else {
      assert greetings + [] == greetings;
    }
  }

  /** How many of `inputs` are connections. */
  function Connects(inputs: seq<Input>): (n: nat)
    ensures n <= |inputs|
  {
    if inputs == [] then 0
    else Connects(inputs[..|inputs| - 1]) + (if inputs[|inputs| - 1].Connect? then 1 else 0)
  }

  /** One greeting per connection, and none per event. */
  lemma {:induction false} ServedGreetsEachConnect(inputs: seq<Input>, n: nat, states: seq<ServerState>,
                                                   greetings: seq<(Player, GameState)>)
    requires n <= |inputs| && |states| == n + 1
    requires Served(inputs, n, states, greetings)
    ensures |greetings| == Connects(inputs[..n])
    decreases n
  {
    if n > 0 {
      assert inputs[..n][..n - 1] == inputs[..n - 1];
      if inputs[n - 1].Connect? {
        ServedGreetsEachConnect(inputs, n - 1, states[..n], greetings[..|greetings| - 1]);
      } else {
        ServedGreetsEachConnect(inputs, n - 1, states[..n], greetings);
      }
    }
  }

  /** `GameServer`. */
  class GameServer {
    var connectedPlayers: map<Player, Outbox>
    var idCounter: nat
    var game: GameInfo

    /** The holder is set exactly when somebody is registered, and is then
        registered; every registered id has been handed out already. */
    ghost predicate Valid()
      reads this
    {
      && (game.playerWithBall.None? <==> connectedPlayers.Keys == {})
      && (game.playerWithBall.Some? ==> game.playerWithBall.value in connectedPlayers)
      && forall p :: p in connectedPlayers ==> 1 <= p.id <= idCounter
    }

    /** `GameServer::default()`. */
    constructor ()
      ensures Valid()
      ensures connectedPlayers == map[] && idCounter == 0 && game == DefaultGameInfo()
    {
      connectedPlayers, idCounter, game := map[], 0, DefaultGameInfo();
    }

    /** `players`: the registered players, each once, in the registry's
        (unspecified) iteration order. */
    method Players() returns (ps: seq<Player>)
      ensures |ps| == |connectedPlayers.Keys|
      ensures forall p :: p in ps <==> p in connectedPlayers
      ensures forall i, j :: 0 <= i < j < |ps| ==> ps[i] != ps[j]
    {
      ps := [];
      var todo := connectedPlayers.Keys;
      while todo != {}
        invariant todo <= connectedPlayers.Keys
        invariant forall p :: p in ps <==> p in connectedPlayers && p !in todo
        invariant forall i, j :: 0 <= i < j < |ps| ==> ps[i] != ps[j]
        invariant |ps| + |todo| == |connectedPlayers.Keys|
        decreases |todo|
      {
        var p :| p in todo;
        ps := ps + [p];
        todo := todo - {p};
      }
    }

    /** `gen_unique_id`: bump the counter and use it. The new id is above
        every registered one, so it is not registered. */
    method GenUniqueId() returns (p: Player)
      requires Valid()
      modifies this`idCounter
      ensures Valid()
      ensures idCounter == old(idCounter) + 1 && p == Player(idCounter)
      ensures forall q :: q in connectedPlayers ==> q.id < p.id
      ensures p !in connectedPlayers
    {
      idCounter := idCounter + 1;
      p := Player(idCounter);
    }

    /** `broadcast`: `msg` on every registered player's normal lane. */
    method Broadcast(msg: ToClient)
      modifies this`connectedPlayers
      ensures connectedPlayers == BroadcastTo(old(connectedPlayers), msg)
      ensures connectedPlayers.Keys == old(connectedPlayers).Keys
    {
      var todo := connectedPlayers.Keys;
      var reg := connectedPlayers;
      while todo != {}
        invariant todo <= reg.Keys && reg.Keys == connectedPlayers.Keys
        invariant forall p :: p in reg ==>
          reg[p] == if p in todo then connectedPlayers[p]
                    else connectedPlayers[p].(normal := connectedPlayers[p].normal + [msg])
        decreases |todo|
      {
        var p :| p in todo;
        reg := reg[p := reg[p].(normal := reg[p].normal + [msg])];
        todo := todo - {p};
      }
      connectedPlayers := reg;
    }

    /** `pass_ball`: move the ball to `receiving` and tell everybody, but only
        when `receiving` is registered. */
    method PassBall(receiving: Player)
      modifies this`game, this`connectedPlayers
      ensures receiving in old(connectedPlayers) ==>
        && game.playerWithBall == Some(receiving)
        && connectedPlayers == BroadcastTo(old(connectedPlayers),
             ToClient.PassBall(receiving, PassTag(old(game.playerWithBall), old(connectedPlayers))))
      ensures receiving !in old(connectedPlayers) ==>
        game == old(game) && connectedPlayers == old(connectedPlayers)
    {
      var who := PassTag(game.playerWithBall, connectedPlayers);
      if receiving in connectedPlayers {
        game := game.(playerWithBall := Some(receiving));
        Broadcast(ToClient.PassBall(receiving, who));
      }
    }

    /** `on_ball_pass`: a pass request is honoured only from the holder, and
        only to a registered player. */
    method OnBallPass(sender: Player, receiving: Player)
      requires Valid()
      modifies this`game, this`connectedPlayers
      ensures Valid()
      ensures BallPassed(old(game), old(connectedPlayers), sender, receiving, game, connectedPlayers)
    {
      if game.playerWithBall.Some? && game.playerWithBall.value != sender {
        return;
      }
      PassBall(receiving);
    }

    /** `on_client_disconnect`: forget the player; if it held the ball, give
        the ball to some remaining player, or to nobody when none remain. A
        departure itself is never broadcast. */
    method OnClientDisconnect(leaving: Player)
      requires Valid()
      modifies this`game, this`connectedPlayers
      ensures Valid()
      ensures Departed(old(game), old(connectedPlayers), leaving, game, connectedPlayers)
    {
      if leaving in connectedPlayers {
        connectedPlayers := connectedPlayers - {leaving};
        // the `unwrap`: somebody was registered, so somebody holds the ball
        var playerWithBall := game.playerWithBall.value;
        assert leaving != playerWithBall ==> playerWithBall in connectedPlayers;
        if leaving == playerWithBall {
          if connectedPlayers.Keys != {} {
            var next :| next in connectedPlayers;
            PassBall(next);
          } else {
            game := game.(playerWithBall := None);
          }
        }
      }
    }

    /** `on_client_connect`: a fresh id; the newcomer's session starts with
        the game as it was before the newcomer joined; everybody, the
        newcomer included, hears of the join; a newcomer with nobody holding
        the ball gets it. */
    method OnClientConnect() returns (player: Player, initialState: GameState)
      requires Valid()
      modifies this`idCounter, this`connectedPlayers, this`game
      ensures Valid()
      ensures idCounter == old(idCounter) + 1 && player == Player(idCounter)
      ensures Joined(old(game), old(connectedPlayers), player, initialState, game, connectedPlayers)
    {
      player := GenUniqueId();
      var players := Players();
      initialState := GameState(game, players);
      ghost var before := connectedPlayers;
      Register(player);
      if game.playerWithBall.None? {
        assert before == map[];
        assert before[player := Outbox([], [])] == map[player := Outbox([], [])];
        BroadcastSingleton(player, Outbox([], []), PlayerJoin(player));
        assert [] + [PlayerJoin(player)] == [PlayerJoin(player)];
        HandFirstBall(player);
      }
    }

    /** Add a newcomer with an empty mailbox and announce it to everybody. */
    method Register(player: Player)
      modifies this`connectedPlayers
      ensures connectedPlayers == BroadcastTo(old(connectedPlayers)[player := Outbox([], [])], PlayerJoin(player))
      ensures connectedPlayers.Keys == old(connectedPlayers).Keys + {player}
      ensures connectedPlayers[player] == Outbox([PlayerJoin(player)], [])
    {
      connectedPlayers := connectedPlayers[player := Outbox([], [])];
      Broadcast(PlayerJoin(player));
      assert [] + [PlayerJoin(player)] == [PlayerJoin(player)];
    }

    /** The ball goes to the only player, who has just heard of its own join. */
    method HandFirstBall(player: Player)
      requires connectedPlayers == map[player := Outbox([PlayerJoin(player)], [])]
      requires game.playerWithBall.None?
      modifies this`game, this`connectedPlayers
      ensures game.playerWithBall == Some(player)
      ensures connectedPlayers ==
        map[player := Outbox([PlayerJoin(player), ToClient.PassBall(player, PlayerStumbledUponBall)], [])]
    {
      assert PassTag(game.playerWithBall, connectedPlayers) == PlayerStumbledUponBall;
      PassBall(player);
      BroadcastSingleton(player, Outbox([PlayerJoin(player)], []),
                         ToClient.PassBall(player, PlayerStumbledUponBall));
      assert [PlayerJoin(player)] + [ToClient.PassBall(player, PlayerStumbledUponBall)]
          == [PlayerJoin(player), ToClient.PassBall(player, PlayerStumbledUponBall)];
    }

    /** The end of `run`: drain the registry, sending every player
        `Disconnect("Server Shutdown")` on its urgent lane. */
    method Shutdown() returns (notified: map<Player, Outbox>)
      modifies this`connectedPlayers
      ensures connectedPlayers == map[]
      ensures notified.Keys == old(connectedPlayers).Keys
      ensures forall p :: p in notified ==>
        notified[p] == old(connectedPlayers)[p].(urgent := old(connectedPlayers)[p].urgent + [Disconnect("Server Shutdown")])
    {
      notified := connectedPlayers;
      var todo := connectedPlayers.Keys;
      while todo != {}
        invariant todo <= notified.Keys && notified.Keys == old(connectedPlayers).Keys
        invariant forall p :: p in notified ==>
          notified[p] == if p in todo then old(connectedPlayers)[p]
                         else old(connectedPlayers)[p].(urgent := old(connectedPlayers)[p].urgent + [Disconnect("Server Shutdown")])
        decreases |todo|
      {
        var p :| p in todo;
        notified := notified[p := notified[p].(urgent := notified[p].urgent + [Disconnect("Server Shutdown")])];
        todo := todo - {p};
      }
      connectedPlayers := map[];
    }

    /** One event from the coordinator's queue; `quit` for Ctrl-C. */
    method HandleEvent(event: Event) returns (quit: bool)
      requires Valid()
      modifies this`game, this`connectedPlayers
      ensures Valid()
      ensures quit <==> event.CtrlC?
      ensures Handled(old(game), old(connectedPlayers), event, game, connectedPlayers)
    {
      match event
      case CtrlC =>
        quit := true;
      case PlayerLeft(p) =>
        OnClientDisconnect(p);
        quit := false;
      case PassBall(s, r) =>
        OnBallPass(s, r);
        quit := false;
    }

    /** One turn of `run`'s loop: a connection greets a newcomer, an event
        is handled. */
    method React(input: Input) returns (quit: bool, greeting: Option<(Player, GameState)>)
      requires Valid()
      modifies this
      ensures Valid()
      ensures input.Connect? ==>
        && !quit && greeting.Some?
        && idCounter == old(idCounter) + 1 && greeting.value.0 == Player(idCounter)
        && Joined(old(game), old(connectedPlayers), greeting.value.0, greeting.value.1, game, connectedPlayers)
      ensures input.Mail? ==>
        && greeting.None? && idCounter == old(idCounter) && (quit <==> input.event.CtrlC?)
        && Handled(old(game), old(connectedPlayers), input.event, game, connectedPlayers)
    {
      if input.Connect? {
        var player, initialState := OnClientConnect();
        quit, greeting := false, Some((player, initialState));
      } else {
        quit := HandleEvent(input.event);
        greeting := None;
      }
    }

    /** `run`: react to connections and events, in order, until Ctrl-C; then
        drain the registry, telling every player that the server shuts down.
        `quit` is false when the inputs run out while the server is still
        waiting for more. Returns what each accepted session was started
        with, how many inputs were taken and the states they went through,
        the registry as the shutdown found it, and the drained mailboxes. */
    method Run(inputs: seq<Input>)
      returns (quit: bool, greetings: seq<(Player, GameState)>, handled: nat, ghost states: seq<ServerState>,
               ghost registry: map<Player, Outbox>, notified: map<Player, Outbox>)
      requires Valid()
      modifies this
      ensures quit <==> Mail(CtrlC) in inputs
      ensures !quit ==> handled == |inputs|
      ensures quit ==> 1 <= handled <= |inputs| && inputs[handled - 1] == Mail(CtrlC) && Mail(CtrlC) !in inputs[..handled - 1]
      ensures |states| == handled + 1 && states[0] == (old(game), old(connectedPlayers))
      ensures Served(inputs, handled, states, greetings)
      ensures |greetings| == Connects(inputs[..handled])
      ensures forall k :: 0 <= k < |greetings| ==> greetings[k].0 == Player(old(idCounter) + k + 1)
      ensures game == states[handled].0 && registry == states[handled].1
      ensures !quit ==> Valid() && connectedPlayers == registry && notified == map[]
      ensures quit ==>
        && connectedPlayers == map[] && notified.Keys == registry.Keys
        && (game.playerWithBall.None? <==> registry.Keys == {})
        && (game.playerWithBall.Some? ==> game.playerWithBall.value in registry)
      ensures quit ==> forall p :: p in notified ==>
        notified[p] == registry[p].(urgent := registry[p].urgent + [Disconnect("Server Shutdown")])
    {
      quit, greetings, handled, states := Serve(inputs);
      registry := connectedPlayers;
      if quit {
        notified := Shutdown();
      } else {
        notified := map[];
      }
    }

    /** One turn of `Serve`'s loop, stated against the run so far: the
        greetings so far carry the ids after `base`, in order. */
    method ServeNext(inputs: seq<Input>, i: nat, ghost base: nat, ghost states: seq<ServerState>,
                     greetings: seq<(Player, GameState)>)
      returns (quit: bool, greetings': seq<(Player, GameState)>, ghost states': seq<ServerState>)
      requires Valid()
      requires i < |inputs| && |states| == i + 1
      requires states[i] == (game, connectedPlayers)
      requires Served(inputs, i, states, greetings)
      requires idCounter == base + |greetings|
      requires forall k :: 0 <= k < |greetings| ==> greetings[k].0 == Player(base + k + 1)
      modifies this
      ensures Valid()
      ensures quit <==> inputs[i] == Mail(CtrlC)
      ensures |states'| == i + 2 && states'[0] == states[0] && states'[i + 1] == (game, connectedPlayers)
      ensures Served(inputs, i + 1, states', greetings')
      ensures idCounter == base + |greetings'|
      ensures forall k :: 0 <= k < |greetings'| ==> greetings'[k].0 == Player(base + k + 1)
    {
      var greeting;
      quit, greeting := React(inputs[i]);
      ServedStep(inputs, i, states, greetings, (game, connectedPlayers), greeting);
      states' := states + [(game, connectedPlayers)];
      greetings' := greetings + (if greeting.Some? then [greeting.value] else []);
    }

    /** The loop of `run`: the inputs in order, up to the first Ctrl-C.
        `handled` is how many it took, and `states` the state before and
        after each of them. */
    method Serve(inputs: seq<Input>)
      returns (quit: bool, greetings: seq<(Player, GameState)>, handled: nat, ghost states: seq<ServerState>)
      requires Valid()
      modifies this
      ensures Valid()
      ensures quit <==> Mail(CtrlC) in inputs
      ensures !quit ==> handled == |inputs|
      ensures quit ==> 1 <= handled <= |inputs| && inputs[handled - 1] == Mail(CtrlC) && Mail(CtrlC) !in inputs[..handled - 1]
      ensures |states| == handled + 1 && states[0] == (old(game), old(connectedPlayers))
      ensures states[handled] == (game, connectedPlayers)
      ensures Served(inputs, handled, states, greetings)
      ensures |greetings| == Connects(inputs[..handled])
      ensures idCounter == old(idCounter) + |greetings|
      ensures forall k :: 0 <= k < |greetings| ==> greetings[k].0 == Player(old(idCounter) + k + 1)
    {
      greetings := [];
      handled := 0;
      states := [(game, connectedPlayers)];
      quit := false;
      while handled < |inputs| && !quit
        invariant Valid()
        invariant handled <= |inputs|
        invariant !quit ==> Mail(CtrlC) !in inputs[..handled]
        invariant quit ==> handled >= 1 && inputs[handled - 1] == Mail(CtrlC) && Mail(CtrlC) !in inputs[..handled - 1]
        invariant |states| == handled + 1 && states[0] == (old(game), old(connectedPlayers))
        invariant states[handled] == (game, connectedPlayers)
        invariant Served(inputs, handled, states, greetings)
        invariant idCounter == old(idCounter) + |greetings|
        invariant forall k :: 0 <= k < |greetings| ==> greetings[k].0 == Player(old(idCounter) + k + 1)
        decreases |inputs| - handled
      {
        quit, greetings, states := ServeNext(inputs, handled, old(idCounter), states, greetings);
        assert inputs[..handled + 1] == inputs[..handled] + [inputs[handled]];
        handled := handled + 1;
      }
      assert !quit ==> inputs[..handled] == inputs;
      ServedGreetsEachConnect(inputs, handled, states, greetings);
    }
  }

  /** Two players join; the first, who got the ball on joining, leaves; the
      ball goes to the second, who hears of the automatic pass. */
  method HolderLeavesBallMovesOn() returns (first: Player, second: Player, holder: Option<Player>, secondHeard: seq<ToClient>)
    ensures first != second && holder == Some(second)
    ensures secondHeard == [PlayerJoin(second), ToClient.PassBall(second, PlayerWithBallLeft)]
  {
    var server := new GameServer();
    var s1, s2;
    first, s1 := server.OnClientConnect();
    second, s2 := server.OnClientConnect();
    assert server.connectedPlayers.Keys == {first, second};
    assert server.connectedPlayers[second] == Outbox([PlayerJoin(second)], []);
    server.OnClientDisconnect(first);
    assert server.game.playerWithBall == Some(second);
    holder := server.game.playerWithBall;
    secondHeard := server.connectedPlayers[second].normal;
  }

  /** A pass requested by a player without the ball is ignored: the holder
      stays and nobody is told anything. */
  method PassFromNonHolderIsIgnored() returns (holder: Option<Player>, before: map<Player, Outbox>, after: map<Player, Outbox>)
    ensures holder == Some(Player(1)) && after == before
  {
    var server := new GameServer();
    var a, b, c, s;
    a, s := server.OnClientConnect();
    assert server.game.playerWithBall == Some(a) && a == Player(1);
    b, s := server.OnClientConnect();
    assert server.game.playerWithBall == Some(a) && b in server.connectedPlayers;
    c, s := server.OnClientConnect();
    assert server.game.playerWithBall == Some(a) && b in server.connectedPlayers && c != a;
    before := server.connectedPlayers;
    server.OnBallPass(c, b);
    holder := server.game.playerWithBall;
    after := server.connectedPlayers;
  }

  /** The run of `[Connect, Mail(CtrlC)]` from an empty server: player 1
      joins, gets the ball and hears of both, and Ctrl-C changes nothing. */
  lemma ConnectThenCtrlCRun(states: seq<ServerState>, greetings: seq<(Player, GameState)>)
    requires |states| == 3 && states[0] == (GameInfo(None), map[])
    requires Served([Connect, Mail(CtrlC)], 2, states, greetings)
    requires |greetings| == 1 && greetings[0].0 == Player(1)
    ensures states[2].1 == map[Player(1) := Outbox([PlayerJoin(Player(1)), ToClient.PassBall(Player(1), PlayerStumbledUponBall)], [])]
  {
    assert Served([Connect, Mail(CtrlC)], 1, states[..2], greetings);
    assert states[1] == states[2];
  }

  /** One player connects, then Ctrl-C: the player is greeted with id 1
      and the ball, and the shutdown notice reaches it. */
  method ConnectThenCtrlC() returns (quit: bool, greetings: seq<(Player, GameState)>, notified: map<Player, Outbox>)
    ensures quit && |greetings| == 1 && greetings[0].0 == Player(1)
    ensures notified == map[Player(1) := Outbox([PlayerJoin(Player(1)), ToClient.PassBall(Player(1), PlayerStumbledUponBall)],
                                                [Disconnect("Server Shutdown")])]
  {
    var server := new GameServer();
    var inputs := [Connect, Mail(CtrlC)];
    var handled;
    ghost var states, registry;
    quit, greetings, handled, states, registry, notified := server.Run(inputs);
    assert Mail(CtrlC) in inputs;
    assert handled == 2 by {
      assert inputs[..1] == [Connect];
    }
    assert inputs[..2] == inputs;
    ConnectThenCtrlCRun(states, greetings);
    var mailbox := Outbox([PlayerJoin(Player(1)), ToClient.PassBall(Player(1), PlayerStumbledUponBall)], []);
    assert notified.Keys == {Player(1)};
    assert notified[Player(1)] == mailbox.(urgent := [] + [Disconnect("Server Shutdown")]);
    assert [] + [Disconnect("Server Shutdown")] == [Disconnect("Server Shutdown")];
  }

  /** The last player leaves with the ball: nobody holds it and nobody is
      left to tell. */
  method LastHolderLeaves() returns (holder: Option<Player>, registry: map<Player, Outbox>)
    ensures holder == None && registry == map[]
  {
    var server := new GameServer();
    var a, s := server.OnClientConnect();
    server.OnClientDisconnect(a);
    holder := server.game.playerWithBall;
    registry := server.connectedPlayers;
  }
}
