/** Players and the shared game information (`src/game.rs`). */
module Game {
  import opened Wrappers
  import Decimal

  /** A player's identity: a `usize` handed out by the coordinator. Equality
      is equality of the wrapped number (the derived `PartialEq`). */
  datatype Player = Player(id: nat)

  /** Who holds the ball, if anyone. */
  datatype GameInfo = GameInfo(playerWithBall: Option<Player>)

  /** `GameInfo::default()`: nobody holds the ball. */
  function DefaultGameInfo(): (g: GameInfo)
    ensures g.playerWithBall == None
  {
    GameInfo(None)
  }

  /** `Display for Player`: `player #` followed by the decimal id. */
  function Display(p: Player): (s: string)
    ensures |s| > 8 && s[..8] == "player #"
    ensures Decimal.AllDigits(s[8..]) && Decimal.ValueOf(s[8..]) == p.id
  {
    var s := "player #" + Decimal.ToDecimal(p.id);
    assert s[8..] == Decimal.ToDecimal(p.id);
    s
  }

  /** `Player::as_ref_str`: how `me` refers to `other` in a log line. */
  function AsRefStr(me: Player, other: Player): (s: string)
    ensures s == "themselves" <==> me.id == other.id
    ensures me.id != other.id ==> s == Display(other)
  {
    if me.id == other.id then "themselves" else Display(other)
  }

  /** The id printed by `Display` reads back as the same `usize`. */
  lemma DisplayReadsBack(p: Player)
    requires p.id <= Decimal.USIZE_MAX
    ensures Decimal.ParseUsize(Display(p)[8..]) == Some(p.id)
  {
    assert Display(p)[8..] == Decimal.ToDecimal(p.id);
    Decimal.ParseDisplayRoundTrip(p.id);
  }
}
