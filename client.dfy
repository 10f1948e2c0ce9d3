/** The command-line client's reactions (`src/client.rs`): the mirror of the
    game it keeps from server messages, and the `pass <id>` command. */
module Client {
  import opened Wrappers
  import opened Decimal
  import opened GameTypes = Game
  import opened Messages
  import Events

  /** What the client's event loop reacts to. */
  datatype Event =
    | Input(line: string)
    | ServerMessage(msg: ToClient)
    | ConnectionDropped
    | CtrlC

  /** The client's view of the game: who it is and the last known state. */
  datatype Game = Game(myself: Player, state: GameState)

  /** How the loop goes on after one event: keep going, `break`, or a panic
      that ends the client. */
  datatype Control = Continue | Exit | Panic

  // ---------------------------------------------------------------------
  // Splitting an input line on single spaces (`str::split(" ")`)
  // ---------------------------------------------------------------------

  /** `line.split(" ")`: the pieces between single spaces, empty pieces
      included; the empty line gives one empty piece. */
  function Split(s: string): (parts: seq<string>)
    ensures |parts| >= 1
    ensures forall i :: 0 <= i < |parts| ==> ' ' !in parts[i]
    decreases |s|
  {
    if s == [] then [""]
    else
      var rest := Split(s[1..]);
      if s[0] == ' ' then [""] + rest
      else [[s[0]] + rest[0]] + rest[1..]
  }

  /** The pieces put back together with single spaces. */
  function Join(parts: seq<string>): string
    requires |parts| >= 1
    decreases |parts|
  {
    if |parts| == 1 then parts[0] else parts[0] + " " + Join(parts[1..])
  }

  /** Splitting loses nothing: the pieces and the spaces make up the line. */
  lemma {:induction false} JoinSplit(s: string)
    ensures Join(Split(s)) == s
    decreases |s|
  {
    if s != [] {
      JoinSplit(s[1..]);
      var rest := Split(s[1..]);
      if s[0] == ' ' {
        assert ([""] + rest)[1..] == rest;
        assert s == [' '] + s[1..];
      } else {
        var parts := [[s[0]] + rest[0]] + rest[1..];
        if |rest| == 1 {
          assert s == [s[0]] + s[1..];
        } else {
          assert parts[1..] == rest[1..];
          assert Join(rest) == rest[0] + " " + Join(rest[1..]);
          assert s == [s[0]] + s[1..];
        }
      }
    }
  }

  /** A word without spaces glues onto the first piece of what follows. */
  lemma {:induction false} SplitWord(w: string, t: string)
    requires ' ' !in w
    ensures Split(w + t) == [w + Split(t)[0]] + Split(t)[1..]
    decreases |w|
  {
    var parts := Split(t);
    if w == [] {
      assert w + t == t && w + parts[0] == parts[0];
      assert parts == [parts[0]] + parts[1..];
    } else {
      SplitWord(w[1..], t);
      assert (w + t)[1..] == w[1..] + t;
      var rest := Split(w[1..] + t);
      assert rest[0] == w[1..] + parts[0] && rest[1..] == parts[1..];
      assert [w[0]] + (w[1..] + parts[0]) == w + parts[0];
    }
  }

  /** Pieces without spaces, joined, split back into the same pieces. */
  lemma {:induction false} SplitJoin(parts: seq<string>)
    requires |parts| >= 1
    requires forall i :: 0 <= i < |parts| ==> ' ' !in parts[i]
    ensures Split(Join(parts)) == parts
    decreases |parts|
  {
    SplitWord(parts[0], []);
    assert parts[0] + [] == parts[0];
    if |parts| > 1 {
      SplitJoin(parts[1..]);
      var tail := " " + Join(parts[1..]);
      SplitWord(parts[0], tail);
      assert parts[0] + " " + Join(parts[1..]) == parts[0] + tail;
      assert tail[1..] == Join(parts[1..]);
      assert [parts[0]] + parts[1..] == parts;
    }
  }

  /** The first piece is where the line starts. */
  lemma {:induction false} FirstPieceIsPrefix(s: string)
    ensures |Split(s)[0]| <= |s| && s[..|Split(s)[0]|] == Split(s)[0]
    decreases |s|
  {
    if s != [] && s[0] != ' ' {
      FirstPieceIsPrefix(s[1..]);
    }
  }

  // ---------------------------------------------------------------------
  // The `pass <id>` command
  // ---------------------------------------------------------------------

  /** What an input line asks for. `IndexOutOfRange` is the panic of
      indexing the second piece of a line that has only one. */
  datatype Command = SendPass(target: Player) | Invalid | IndexOutOfRange

  /** The input handler's decision: the first piece must be `pass` and the
      second must parse as a `usize`; further pieces are ignored. */
  function ParseInput(line: string): (c: Command)
    ensures c.SendPass? ==> c.target.id <= USIZE_MAX
    ensures c.SendPass? ==> |line| > 5 && line[..5] == "pass "
    ensures c == IndexOutOfRange ==> line == "pass"
  {
    var args := Split(line);
    if args[0] == "pass" then
      if |args| < 2 then
        JoinSplit(line);
        assert args == ["pass"];
        IndexOutOfRange
      else
        match ParseUsize(args[1])
        case Some(id) =>
          JoinSplit(line);
          assert args == [args[0]] + args[1..];
          assert line == "pass" + " " + Join(args[1..]);
          SendPass(Player(id))
        case None => Invalid
    else Invalid
  }

  /** The command the client documents: `pass` and a printed id. */
  lemma PassLineParses(n: nat)
    requires n <= USIZE_MAX
    ensures ParseInput("pass " + ToDecimal(n)) == SendPass(Player(n))
  {
    var d := ToDecimal(n);
    assert ' ' !in d by {
      forall i | 0 <= i < |d| ensures d[i] != ' ' {
        assert IsDigit(d[i]);
      }
    }
    SplitJoin(["pass", d]);
    assert Join(["pass", d]) == "pass " + d;
    ParseDisplayRoundTrip(n);
  }

  /** Only the bare word `pass` makes the handler index out of range. */
  lemma OnlyBarePassPanics(line: string)
    ensures ParseInput(line) == IndexOutOfRange <==> line == "pass"
  {
    if line == "pass" {
      SplitJoin(["pass"]);
    }
  }

  /** A line that does not begin with `pass` is rejected. */
  lemma OtherInputIsInvalid(line: string)
    requires !(|line| >= 4 && line[..4] == "pass")
    ensures ParseInput(line) == Invalid
  {
    FirstPieceIsPrefix(line);
  }

  // ---------------------------------------------------------------------
  // The mirror of the game
  // ---------------------------------------------------------------------

  /** `players.retain(|opl| opl == &pl)`: keeps the entries EQUAL to `pl`,
      in order. */
  function RetainEqual(players: seq<Player>, pl: Player): (r: seq<Player>)
    ensures forall i :: 0 <= i < |r| ==> r[i] == pl
    ensures multiset(r)[pl] == multiset(players)[pl]
    ensures |r| == multiset(players)[pl]
    decreases |players|
  {
    if players == [] then []
    else
      var rest := RetainEqual(players[1..], pl);
      assert players == [players[0]] + players[1..];
      if players[0] == pl then [pl] + rest else rest
  }

  /** The effect of one server message on the mirror. */
  function Reduce(game: Option<Game>, msg: ToClient): (r: Option<Game>)
    // a snapshot replaces whatever was known
    ensures msg.InitialState? ==> r == Some(Game(msg.player, msg.state))
    // without a snapshot, nothing else is recorded
    ensures game.None? && !msg.InitialState? ==> r.None?
    ensures msg.Disconnect? ==> r == game
    ensures game.Some? && !msg.InitialState? ==>
      && r.Some? && r.value.myself == game.value.myself
      && (msg.PlayerJoin? ==>
            r.value.state == game.value.state.(players := game.value.state.players + [msg.joined]))
      && (msg.PlayerLeave? ==>
            && r.value.state.info == game.value.state.info
            && (forall i :: 0 <= i < |r.value.state.players| ==> r.value.state.players[i] == msg.left)
            && multiset(r.value.state.players)[msg.left] == multiset(game.value.state.players)[msg.left])
      && (msg.PassBall? ==>
            && r.value.state.info.playerWithBall == Some(msg.to)
            && r.value.state.players == game.value.state.players)
  {
    match msg
    case InitialState(player, state) => Some(Game(player, state))
    case PlayerJoin(pl) =>
      if game.None? then None
      else
        var g := game.value;
        Some(g.(state := g.state.(players := g.state.players + [pl])))
    case PlayerLeave(pl) =>
      if game.None? then None
      else
        var g := game.value;
        Some(g.(state := g.state.(players := RetainEqual(g.state.players, pl))))
    case PassBall(to, _) =>
      if game.None? then None
      else
        var g := game.value;
        Some(g.(state := g.state.(info := GameInfo(Some(to)))))
    case Disconnect(_) => game
  }

  /** The printing of a pass by a player unwraps the previous holder: it
      panics when the mirror knew of none. */
  predicate PanicsOnPass(game: Option<Game>, msg: ToClient) {
    game.Some? && msg.PassBall? && msg.who == ByPlayer
    && game.value.state.info.playerWithBall.None?
  }

  /** A panic happens only while printing a player's pass that the mirror
      applies, and a player's pass applied without a panic had a holder to
      print. */
  lemma PassPanicsWithoutHolder(game: Option<Game>, msg: ToClient)
    ensures PanicsOnPass(game, msg) ==>
      && msg.PassBall? && msg.who == ByPlayer
      && Reduce(game, msg).Some? && Reduce(game, msg).value.state.info.playerWithBall == Some(msg.to)
    ensures !PanicsOnPass(game, msg) && game.Some? && msg.PassBall? && msg.who == ByPlayer ==>
      game.value.state.info.playerWithBall.Some?
  {
  }

  /** The players a run of `PlayerJoin` messages announces, in order. */
  function JoinedPlayers(msgs: seq<ToClient>): seq<Player>
    requires forall i :: 0 <= i < |msgs| ==> msgs[i].PlayerJoin?
  {
    seq(|msgs|, i requires 0 <= i < |msgs| => msgs[i].joined)
  }

  /** The effect of several server messages, in order. */
  function ReduceAll(game: Option<Game>, msgs: seq<ToClient>): Option<Game>
    decreases |msgs|
  {
    if msgs == [] then game else ReduceAll(Reduce(game, msgs[0]), msgs[1..])
  }

  /** After a snapshot, the mirror's player list grows by exactly the joins
      that follow, in arrival order. */
  lemma {:induction false} JoinsAccumulate(g: Game, msgs: seq<ToClient>)
    requires forall i :: 0 <= i < |msgs| ==> msgs[i].PlayerJoin?
    ensures ReduceAll(Some(g), msgs)
         == Some(g.(state := g.state.(players := g.state.players + JoinedPlayers(msgs))))
    decreases |msgs|
  {
    if msgs == [] {
      assert g.state.players + [] == g.state.players;
    } else {
      var g' := g.(state := g.state.(players := g.state.players + [msgs[0].joined]));
      JoinsAccumulate(g', msgs[1..]);
      assert JoinedPlayers(msgs) == [msgs[0].joined] + JoinedPlayers(msgs[1..]);
      assert g.state.players + [msgs[0].joined] + JoinedPlayers(msgs[1..])
          == g.state.players + JoinedPlayers(msgs);
    }
  }

  /** Once the mirror knows a holder, only a new snapshot can make it
      forget it: until then no pass panics. */
  lemma {:induction false} HolderStaysKnown(g: Game, msgs: seq<ToClient>)
    requires g.state.info.playerWithBall.Some?
    requires forall i :: 0 <= i < |msgs| ==> !msgs[i].InitialState?
    ensures ReduceAll(Some(g), msgs).Some?
    ensures ReduceAll(Some(g), msgs).value.state.info.playerWithBall.Some?
    ensures forall m :: !PanicsOnPass(ReduceAll(Some(g), msgs), m)
    decreases |msgs|
  {
    if msgs != [] {
      HolderStaysKnown(Reduce(Some(g), msgs[0]).value, msgs[1..]);
    }
  }

  /** Messages that arrive before the snapshot are lost. */
  lemma {:induction false} NothingBeforeSnapshot(msgs: seq<ToClient>)
    requires forall i :: 0 <= i < |msgs| ==> !msgs[i].InitialState?
    ensures ReduceAll(None, msgs) == None
    decreases |msgs|
  {
    if msgs != [] {
      NothingBeforeSnapshot(msgs[1..]);
    }
  }

  // ---------------------------------------------------------------------
  // The event loop
  // ---------------------------------------------------------------------

  /** The server messages among `events`, in order. */
  function ServerMessages(events: seq<Event>): (msgs: seq<ToClient>)
    ensures |msgs| <= |events|
  {
    if events == [] then []
    else
      (if events[0].ServerMessage? then [events[0].msg] else [])
      + ServerMessages(events[1..])
  }

  /** What one event sends on the normal lane: the pass an input line asks for. */
  function Request(ev: Event): (reqs: seq<ToServer>)
    ensures |reqs| <= 1
    ensures forall i :: 0 <= i < |reqs| ==> reqs[i].PassBall? && reqs[i].receiver.id <= USIZE_MAX
  {
    if ev.Input? && ParseInput(ev.line).SendPass? then [ToServer.PassBall(ParseInput(ev.line).target)] else []
  }

  /** What the input lines among `events` send on the normal lane. */
  function Requests(events: seq<Event>): (reqs: seq<ToServer>)
    ensures forall i :: 0 <= i < |reqs| ==> reqs[i].PassBall? && reqs[i].receiver.id <= USIZE_MAX
  {
    if events == [] then [] else Request(events[0]) + Requests(events[1..])
  }

  /** How the loop goes on after `ev` in state `game`. */
  function Outcome(game: Option<Game>, ev: Event): Control
  {
    match ev
    case ServerMessage(msg) => if PanicsOnPass(game, msg) then Panic else Continue
    case Input(line) => if ParseInput(line) == IndexOutOfRange then Panic else Continue
    case ConnectionDropped => Exit
    case CtrlC => Exit
  }

  /** The loop breaks exactly on a dropped connection and on Ctrl-C; an
      input line panics exactly when it is the bare word `pass`; a server
      message panics only on a player's pass with no holder known. */
  lemma OutcomeCases(game: Option<Game>, ev: Event)
    ensures Outcome(game, ev) == Exit <==> ev.ConnectionDropped? || ev.CtrlC?
    ensures ev.Input? ==> (Outcome(game, ev) == Panic <==> ev.line == "pass")
    ensures ev.ServerMessage? && Outcome(game, ev) == Panic ==>
      game.Some? && ev.msg.PassBall? && ev.msg.who == ByPlayer && game.value.state.info.playerWithBall.None?
  {
    if ev.Input? {
      OnlyBarePassPanics(ev.line);
    }
  }

  /** How the loop goes on after the `k`-th of `events`, the mirror having
      seen the server messages before it. */
  ghost function OutcomeAt(game0: Option<Game>, events: seq<Event>, k: nat): Control
    requires k < |events|
  {
    Outcome(ReduceAll(game0, ServerMessages(events[..k])), events[k])
  }

  /** None of the first `n` of `events` ends the loop. */
  ghost predicate ContinuesThrough(game0: Option<Game>, events: seq<Event>, n: nat)
    requires n <= |events|
    decreases n
  {
    n == 0 || (ContinuesThrough(game0, events, n - 1) && OutcomeAt(game0, events, n - 1) == Continue)
  }

  lemma {:induction false} ContinuesThroughEach(game0: Option<Game>, events: seq<Event>, n: nat)
    requires n <= |events|
    requires ContinuesThrough(game0, events, n)
    ensures forall k :: 0 <= k < n ==> OutcomeAt(game0, events, k) == Continue
    decreases n
  {
    if n > 0 {
      ContinuesThroughEach(game0, events, n - 1);
      assert OutcomeAt(game0, events, n - 1) == Continue;
    }
  }

  /** `ClientApp`: the mirror and the handle on the connection loop's
      outgoing queue (`server_tx`). */
  class ClientApp {
    var game: Option<Game>
    const serverTx: Events.EventSender<ToServer>

    constructor (tx: Events.EventSender<ToServer>)
      ensures game == None && serverTx == tx
    {
      game := None;
      serverTx := tx;
    }

    /** The `ServerMessage` arm of `run_loop`. */
    method OnServerMessage(msg: ToClient) returns (ctrl: Control)
      modifies this`game
      ensures game == Reduce(old(game), msg)
      ensures ctrl == (if PanicsOnPass(old(game), msg) then Panic else Continue)
    {
      ctrl := if PanicsOnPass(game, msg) then Panic else Continue;
      game := Reduce(game, msg);
    }

    /** The `Input` arm of `run_loop`. */
    method OnInput(line: string) returns (ctrl: Control)
      modifies serverTx.queue
      ensures serverTx.queue.urgent == old(serverTx.queue.urgent)
      ensures serverTx.queue.timerLane == old(serverTx.queue.timerLane) && serverTx.queue.timers == old(serverTx.queue.timers)
      ensures serverTx.queue.normal == old(serverTx.queue.normal)
        + (if ParseInput(line).SendPass? then [ToServer.PassBall(ParseInput(line).target)] else [])
      ensures ctrl == (if line == "pass" then Panic else Continue)
    {
      OnlyBarePassPanics(line);
      var cmd := ParseInput(line);
      match cmd {
        case SendPass(target) =>
          serverTx.Send(ToServer.PassBall(target));
          ctrl := Continue;
        case Invalid =>
          ctrl := Continue;
        case IndexOutOfRange =>
          ctrl := Panic;
      }
    }

    /** One turn of `run_loop`. */
    method Handle(ev: Event) returns (ctrl: Control)
      modifies this`game, serverTx.queue
      ensures ctrl == Outcome(old(game), ev)
      ensures game == (if ev.ServerMessage? then Reduce(old(game), ev.msg) else old(game))
      ensures serverTx.queue.normal == old(serverTx.queue.normal) + Requests([ev])
      ensures serverTx.queue.urgent == old(serverTx.queue.urgent) + (if ev.CtrlC? then [ToServer.Leave] else [])
      ensures serverTx.queue.timerLane == old(serverTx.queue.timerLane) && serverTx.queue.timers == old(serverTx.queue.timers)
    {
      match ev {
        case ServerMessage(msg) =>
          ctrl := OnServerMessage(msg);
        case Input(line) =>
          ctrl := OnInput(line);
          OnlyBarePassPanics(line);
        case ConnectionDropped =>
          ctrl := Exit;
        case CtrlC =>
          serverTx.SendWithUrgency(ToServer.Leave);
          ctrl := Exit;
      }
    }

    /** `run_loop` over the events in `events`: it handles them in order
        until one ends the loop. `handled` is how many it took. */
    method RunLoop(events: seq<Event>) returns (ctrl: Control, handled: nat)
      modifies this`game, serverTx.queue
      ensures handled <= |events|
      ensures ctrl == Continue ==> handled == |events|
      ensures ctrl != Continue ==>
        handled >= 1 && ctrl == OutcomeAt(old(game), events, handled - 1)
      ensures forall k :: 0 <= k < (if ctrl == Continue then handled else handled - 1) ==>
        OutcomeAt(old(game), events, k) == Continue
      ensures game == ReduceAll(old(game), ServerMessages(events[..handled]))
      ensures serverTx.queue.normal == old(serverTx.queue.normal) + Requests(events[..handled])
      ensures serverTx.queue.urgent
           == old(serverTx.queue.urgent) + (if handled >= 1 && events[handled - 1].CtrlC? then [ToServer.Leave] else [])
      ensures serverTx.queue.timerLane == old(serverTx.queue.timerLane) && serverTx.queue.timers == old(serverTx.queue.timers)
    {
      ctrl := Continue;
      handled := 0;
      while ctrl == Continue && handled < |events|
        invariant handled <= |events|
        invariant ctrl == Continue || handled >= 1
        invariant ContinuesThrough(old(game), events, if ctrl == Continue then handled else handled - 1)
        invariant handled == 0 ==> ctrl == Continue
        invariant handled >= 1 ==> ctrl == OutcomeAt(old(game), events, handled - 1)
        invariant ctrl == Continue && handled >= 1 ==> !events[handled - 1].CtrlC?
        invariant game == ReduceAll(old(game), ServerMessages(events[..handled]))
        invariant serverTx.queue.normal == old(serverTx.queue.normal) + Requests(events[..handled])
        invariant serverTx.queue.urgent
          == old(serverTx.queue.urgent) + (if handled >= 1 && events[handled - 1].CtrlC? then [ToServer.Leave] else [])
        invariant serverTx.queue.timerLane == old(serverTx.queue.timerLane) && serverTx.queue.timers == old(serverTx.queue.timers)
        decreases |events| - handled
      {
        ctrl := HandleNext(old(game), old(serverTx.queue.normal), events, handled);
        handled := handled + 1;
      }
      ContinuesThroughEach(old(game), events, if ctrl == Continue then handled else handled - 1);
    }

    /** One turn of `RunLoop`, stated against the whole run so far. */
    method HandleNext(ghost game0: Option<Game>, ghost normal0: seq<ToServer>, events: seq<Event>, k: nat)
      returns (ctrl: Control)
      requires k < |events|
      requires game == ReduceAll(game0, ServerMessages(events[..k]))
      requires serverTx.queue.normal == normal0 + Requests(events[..k])
      modifies this`game, serverTx.queue
      ensures game == ReduceAll(game0, ServerMessages(events[..k + 1]))
      ensures serverTx.queue.normal == normal0 + Requests(events[..k + 1])
      ensures ctrl == OutcomeAt(game0, events, k)
      ensures ctrl == Continue ==> !events[k].CtrlC?
      ensures serverTx.queue.urgent
           == old(serverTx.queue.urgent) + (if events[k].CtrlC? then [ToServer.Leave] else [])
      ensures serverTx.queue.timerLane == old(serverTx.queue.timerLane) && serverTx.queue.timers == old(serverTx.queue.timers)
    {
      ctrl := Handle(events[k]);
      MessagesStep(events, k);
      RequestsStep(events, k);
      ReduceAllStep(game0, ServerMessages(events[..k]), events[k]);
    }
  }

  lemma {:induction false} ServerMessagesAppend(a: seq<Event>, b: seq<Event>)
    ensures ServerMessages(a + b) == ServerMessages(a) + ServerMessages(b)
    decreases |a|
  {
    if a != [] {
      ServerMessagesAppend(a[1..], b);
      assert (a + b)[1..] == a[1..] + b;
    } else {
      assert a + b == b;
    }
  }

  lemma {:induction false} RequestsAppend(a: seq<Event>, b: seq<Event>)
    ensures Requests(a + b) == Requests(a) + Requests(b)
    decreases |a|
  {
    if a != [] {
      RequestsAppend(a[1..], b);
      assert (a + b)[0] == a[0] && (a + b)[1..] == a[1..] + b;
      assert Requests(a + b) == Request(a[0]) + Requests(a[1..] + b);
    } else {
      assert a + b == b;
    }
  }

  lemma MessagesStep(events: seq<Event>, k: nat)
    requires k < |events|
    ensures ServerMessages(events[..k + 1])
         == ServerMessages(events[..k]) + (if events[k].ServerMessage? then [events[k].msg] else [])
  {
    assert events[..k + 1] == events[..k] + [events[k]];
    ServerMessagesAppend(events[..k], [events[k]]);
  }

  lemma RequestsStep(events: seq<Event>, k: nat)
    requires k < |events|
    ensures Requests(events[..k + 1]) == Requests(events[..k]) + Requests([events[k]])
  {
    assert events[..k + 1] == events[..k] + [events[k]];
    RequestsAppend(events[..k], [events[k]]);
  }

  lemma {:induction false} ReduceAllStep(game: Option<Game>, msgs: seq<ToClient>, ev: Event)
    ensures ReduceAll(game, msgs + (if ev.ServerMessage? then [ev.msg] else []))
         == (var g := ReduceAll(game, msgs); if ev.ServerMessage? then Reduce(g, ev.msg) else g)
    decreases |msgs|
  {
    if msgs == [] {
      assert msgs + (if ev.ServerMessage? then [ev.msg] else []) == (if ev.ServerMessage? then [ev.msg] else []);
    } else {
      ReduceAllStep(Reduce(game, msgs[0]), msgs[1..], ev);
      assert (msgs + (if ev.ServerMessage? then [ev.msg] else []))[1..]
          == msgs[1..] + (if ev.ServerMessage? then [ev.msg] else []);
    }
  }
}
