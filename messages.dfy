/** The protocol messages exchanged between client and server (`src/message.rs`).
    They carry no behaviour of their own. */
module Messages {
  import opened Game

  /** Client -> Server. */
  datatype ToServer =
    | Heartbeat
    | PassBall(receiver: Player)
    | Leave

  /** Why the ball moved. `ByPlayer` is the source's `WhoPassed::Player`. */
  datatype WhoPassed =
    | ByPlayer
    | PlayerWithBallLeft
    | PlayerStumbledUponBall

  /** Snapshot sent to a newcomer. */
  datatype GameState = GameState(info: GameInfo, players: seq<Player>)

  /** Server -> Client. */
  datatype ToClient =
    | InitialState(player: Player, state: GameState)
    | PlayerJoin(joined: Player)
    | PlayerLeave(left: Player)
    | PassBall(to: Player, who: WhoPassed)
    | Disconnect(reason: string)
}
