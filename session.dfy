/** The per-connection session (`src/session.rs`): relays messages between
    one client socket and the coordinator and disconnects a client whose
    heartbeats stop.

    Writing a frame to the client either succeeds or fails; `writeOk` says
    which. Frames written are collected in `written`, and events sent to
    the coordinator's queue in `toServer`. The locals `hb_check` and
    `last_hb` of `start` are fields here, so that one turn of its loop can
    be a method, `Step`. */
module Session {
  import opened Wrappers
  import opened Game
  import opened Messages
  import opened Events
  import Server

  /** The heartbeat-check timer's payload (`CheckHeartBeat`). */
  datatype HeartbeatCheck = CheckHeartBeat

  /** `Duration::from_secs(5)`, in milliseconds. */
  const TIMEOUT: nat := 5000

  const HEARTBEAT_FAILED: string := "Heartbeat failed"

  /** `Instant::duration_since`, which saturates at zero. */
  function Elapsed(now: Instant, since: Instant): (d: nat)
    ensures since <= now ==> since + d == now
    ensures now <= since ==> d == 0
  {
    if now >= since then now - since else 0
  }

  /** What one read from the client's frame stream yields. */
  datatype ClientRead = Message(msg: ToServer) | DecodeError | EndOfStream

  /** The branch of the loop's `select!` that completed. */
  datatype Wake = HeartbeatTimer | Coordinator | Client(read: ClientRead)

  /** One turn of the loop: which branch completed, when, and whether a
      write to the client in that turn succeeds. */
  datatype Tick = Tick(wake: Wake, now: Instant, writeOk: bool)

  /** `ClientSession`. */
  class ClientSession {
    const player: Player
    var stop: bool
    /** Frames written to the client, oldest first. */
    var written: seq<ToClient>
    /** Events sent to the coordinator, oldest first. */
    var toServer: seq<Server.Event>
    /** The session's own mailbox (`event_queue`), fed by the coordinator. */
    const queue: EventQueue<ToClient>
    /** `hb_check`: only its timer lane is ever used. */
    const hbCheck: EventQueue<HeartbeatCheck>
    const hbSender: EventSender<HeartbeatCheck>
    /** `last_hb`: when the last heartbeat arrived. */
    var lastHb: Instant

    /** The coordinator never schedules on a session's mailbox, and nobody
        but the session sends to the heartbeat-check queue, with a delay. */
    ghost predicate Valid()
      reads this, queue, hbCheck
    {
      && hbSender.queue == hbCheck
      && queue.timerLane == [] && queue.timers == map[]
      && hbCheck.urgent == [] && hbCheck.normal == []
    }

    /** What the next `recv_async` on the mailbox hands out, if anything. */
    ghost function NextMail(): Option<ToClient>
      reads queue
    {
      if queue.urgent != [] then Some(queue.urgent[0])
      else if queue.normal != [] then Some(queue.normal[0])
      else None
    }

    /** `ClientSession::new`. */
    constructor (id: Player)
      ensures Valid()
      ensures player == id && !stop && written == [] && toServer == []
      ensures fresh(queue) && fresh(hbCheck)
      ensures queue.urgent == [] && queue.normal == []
      ensures hbCheck.timerLane == [] && hbCheck.timers == map[]
    {
      player := id;
      stop := false;
      written := [];
      toServer := [];
      lastHb := 0;
      queue := new EventQueue();
      var checks := new EventQueue();
      hbCheck := checks;
      hbSender := new EventSender(checks);
    }

    /** `send`: write a frame to the client; a failed write stops the session. */
    method Send(msg: ToClient, writeOk: bool)
      modifies this`written, this`stop
      ensures written == old(written) + (if writeOk then [msg] else [])
      ensures stop == (old(stop) || !writeOk)
    {
      if writeOk {
        written := written + [msg];
      } else {
        stop := true;
      }
    }

    /** `kick`: the first kick stops the session and tells the client why;
        later kicks do nothing. */
    method Kick(reason: string, writeOk: bool)
      modifies this`written, this`stop
      ensures stop
      ensures written == old(written) + (if !old(stop) && writeOk then [Disconnect(reason)] else [])
    {
      if !stop {
        stop := true;
        Send(Disconnect(reason), writeOk);
      }
    }

    /** The start of `start`: greet the client with its id and the snapshot,
        and schedule the first heartbeat check `TIMEOUT` after `now`. */
    method Begin(initialState: GameState, now: Instant, writeOk: bool)
      requires Valid()
      modifies this, hbCheck
      ensures Valid() && unchanged(queue)
      ensures lastHb == now && toServer == old(toServer)
      ensures written == old(written) + (if writeOk then [InitialState(player, initialState)] else [])
      ensures stop == (old(stop) || !writeOk)
      ensures hbCheck.timerLane == old(hbCheck.timerLane) + [(now + TIMEOUT, CheckHeartBeat)]
      ensures hbCheck.timers == old(hbCheck.timers)
    {
      lastHb := now;
      Send(InitialState(player, initialState), writeOk);
      hbSender.SendWithDelay(CheckHeartBeat, TIMEOUT, now);
    }

    /** One turn of `start`'s loop. `brk` is the loop's `break`; the loop
        also ends once `stop` is set. */
    method Step(wake: Wake, now: Instant, writeOk: bool) returns (brk: bool)
      requires Valid() && !stop
      modifies this, queue, hbCheck
      ensures Valid()
      // a heartbeat check fires once its instant is reached; it disconnects
      // the client only if the last heartbeat is more than TIMEOUT old
      ensures wake.HeartbeatTimer? ==>
        && unchanged(queue) && toServer == old(toServer) && lastHb == old(lastHb)
        && hbCheck.timerLane == []
        && if Reached(old(hbCheck.Drained()), now) then
             && hbCheck.timers == old(hbCheck.Drained()) - {Earliest(old(hbCheck.Drained())).value}
             && if Elapsed(now, old(lastHb)) > TIMEOUT then
                  && brk && stop == !writeOk
                  && written == old(written) + (if writeOk then [Disconnect(HEARTBEAT_FAILED)] else [])
                else
                  !brk && !stop && written == old(written)
           else
             hbCheck.timers == old(hbCheck.Drained()) && !brk && !stop && written == old(written)
      // a coordinator message is relayed; a disconnect directive kicks
      ensures wake.Coordinator? ==>
        && unchanged(hbCheck) && toServer == old(toServer) && lastHb == old(lastHb) && !brk
        && match old(NextMail())
           case None =>
             && queue.urgent == old(queue.urgent) && queue.normal == old(queue.normal)
             && !stop && written == old(written)
           case Some(m) =>
             && (if old(queue.urgent) != [] then
                   queue.urgent == old(queue.urgent)[1..] && queue.normal == old(queue.normal)
                 else
                   queue.urgent == [] && queue.normal == old(queue.normal)[1..])
             && stop == (m.Disconnect? || !writeOk)
             && written == old(written) + (if writeOk then [m] else [])
      // client messages: a heartbeat re-arms the check, a pass is forwarded,
      // `Leave` and a decode error end the loop, the end of the stream
      // only disables the branch
      ensures wake.Client? ==> unchanged(queue) && written == old(written) && !stop
      ensures wake.Client? ==> (brk <==> wake.read == Message(Leave) || wake.read == DecodeError)
      ensures wake.Client? && wake.read == Message(Heartbeat) ==>
        && lastHb == now && toServer == old(toServer)
        && hbCheck.timerLane == old(hbCheck.timerLane) + [(now + TIMEOUT, CheckHeartBeat)]
        && hbCheck.timers == old(hbCheck.timers)
      ensures wake.Client? && wake.read != Message(Heartbeat) ==>
        lastHb == old(lastHb) && unchanged(hbCheck)
      ensures wake.Client? && wake.read.Message? && wake.read.msg.PassBall? ==>
        toServer == old(toServer) + [Server.PassBall(player, wake.read.msg.receiver)]
      ensures wake.Client? && !(wake.read.Message? && wake.read.msg.PassBall?) ==>
        toServer == old(toServer)
    {
      brk := false;
      match wake {
        case HeartbeatTimer =>
          var fired := hbCheck.RecvAsync(now);
          if fired.Ready? && Elapsed(now, lastHb) > TIMEOUT {
            Send(Disconnect(HEARTBEAT_FAILED), writeOk);
            brk := true;
          }
        case Coordinator =>
          var mail := queue.RecvAsync(now);
          if mail.Ready? {
            match mail.event {
              case Disconnect(reason) => Kick(reason, writeOk);
              case _ => Send(mail.event, writeOk);
            }
          }
        case Client(read) =>
          match read {
            case Message(Heartbeat) =>
              lastHb := now;
              hbSender.SendWithDelay(CheckHeartBeat, TIMEOUT, now);
            case Message(Leave) =>
              brk := true;
            case Message(PassBall(receiver)) =>
              toServer := toServer + [Server.PassBall(player, receiver)];
            case DecodeError =>
              brk := true;
            case EndOfStream =>
          }
      }
    }

    /** After the loop: the session is stopped and the coordinator told
        that the player left. */
    method Finish()
      modifies this`stop, this`toServer
      ensures stop && toServer == old(toServer) + [Server.PlayerLeft(player)]
    {
      stop := true;
      toServer := toServer + [Server.PlayerLeft(player)];
    }

    /** `start`, run over the turns in `script`. `ended` is false when the
        script runs out while the loop is still waiting. */
    method Start(initialState: GameState, now: Instant, writeOk: bool, script: seq<Tick>)
      returns (ended: bool)
      requires Valid() && !stop && written == [] && toServer == []
      modifies this, queue, hbCheck
      ensures Valid()
      ensures written != [] ==> written[0] == InitialState(player, initialState)
      ensures ended ==>
        && stop && |toServer| >= 1 && toServer[|toServer| - 1] == Server.PlayerLeft(player)
        && forall k :: 0 <= k < |toServer| - 1 ==> toServer[k].PassBall?
      ensures !ended ==> !stop && forall k :: 0 <= k < |toServer| ==> toServer[k].PassBall?
      // `Leave` or a decode error anywhere in the script ends the session
      ensures (exists k :: 0 <= k < |script| && script[k].wake in {Client(Message(Leave)), Client(DecodeError)}) ==> ended
    {
      Begin(initialState, now, writeOk);
      var i := 0;
      var brk := false;
      while !stop && !brk && i < |script|
        invariant Valid()
        invariant 0 <= i <= |script|
        invariant written == [] ==> stop
        invariant written != [] ==> written[0] == InitialState(player, initialState)
        invariant forall k :: 0 <= k < |toServer| ==> toServer[k].PassBall?
        invariant !stop && !brk ==>
          forall k :: 0 <= k < i ==> script[k].wake !in {Client(Message(Leave)), Client(DecodeError)}
        decreases |script| - i
      {
        brk := Step(script[i].wake, script[i].now, script[i].writeOk);
        i := i + 1;
      }
      ended := stop || brk;
      if ended {
        Finish();
      }
    }
  }

  /** A client that never sends a heartbeat is told so and dropped at the
      first check after `TIMEOUT` has passed. */
  method SilentClientIsDropped(state: GameState) returns (written: seq<ToClient>, brk: bool)
    ensures brk
    ensures written == [InitialState(Player(1), state), Disconnect(HEARTBEAT_FAILED)]
  {
    var s := new ClientSession(Player(1));
    s.Begin(state, 0, true);
    var lane: seq<(Instant, HeartbeatCheck)> := [(TIMEOUT, CheckHeartBeat)];
    assert s.hbCheck.timers == map[] && s.hbCheck.timerLane == lane;
    assert InsertAll(map[], lane) == InsertAll(map[TIMEOUT := CheckHeartBeat], []);
    assert s.hbCheck.Drained() == map[TIMEOUT := CheckHeartBeat];
    assert map[TIMEOUT := CheckHeartBeat].Keys == {TIMEOUT};
    assert Reached(s.hbCheck.Drained(), TIMEOUT + 1);
    brk := s.Step(HeartbeatTimer, TIMEOUT + 1, true);
    written := s.written;
  }

  /** A heartbeat pushes the deadline back: the first check passes, and the
      check the heartbeat scheduled drops the client once that heartbeat
      in turn is more than `TIMEOUT` old. */
  method HeartbeatKeepsClientAlive(state: GameState)
    returns (firstCheck: bool, written: seq<ToClient>, secondCheck: bool)
    ensures !firstCheck && secondCheck
    ensures written == [InitialState(Player(1), state), Disconnect(HEARTBEAT_FAILED)]
  {
    var s := new ClientSession(Player(1));
    s.Begin(state, 0, true);
    var beat := s.Step(Client(Message(Heartbeat)), 3000, true);
    var lane: seq<(Instant, HeartbeatCheck)> := [(TIMEOUT, CheckHeartBeat), (3000 + TIMEOUT, CheckHeartBeat)];
    var both := map[TIMEOUT := CheckHeartBeat, 3000 + TIMEOUT := CheckHeartBeat];
    assert s.hbCheck.timers == map[] && s.hbCheck.timerLane == lane;
    assert InsertAll(map[], lane) == InsertAll(map[TIMEOUT := CheckHeartBeat], lane[1..]);
    assert lane[1..] == [(3000 + TIMEOUT, CheckHeartBeat)];
    assert InsertAll(map[TIMEOUT := CheckHeartBeat], lane[1..]) == InsertAll(both, []);
    assert s.hbCheck.Drained() == both;
    assert both.Keys == {TIMEOUT, 3000 + TIMEOUT};
    assert IsLeast(TIMEOUT, both.Keys);
    assert Reached(both, TIMEOUT + 1);
    firstCheck := s.Step(HeartbeatTimer, TIMEOUT + 1, true);
    var later := map[3000 + TIMEOUT := CheckHeartBeat];
    assert both - {TIMEOUT} == later;
    assert s.hbCheck.Drained() == later;
    assert later.Keys == {3000 + TIMEOUT};
    assert Reached(later, 3000 + TIMEOUT + 1);
    secondCheck := s.Step(HeartbeatTimer, 3000 + TIMEOUT + 1, true);
    written := s.written;
  }
}
