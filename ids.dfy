/** The two player identities of the game and their `!` operator. */
module Ids {

  /** A player plays either circles ("o") or crosses ("x"). */
  datatype PlayerId = Circle | Cross

  /** `impl Not for PlayerId`: the opponent of a player. */
  function Not(p: PlayerId): (q: PlayerId)
    ensures q != p
    ensures p == Circle <==> q == Cross
  {
    match p
    case Circle => Cross
    case Cross => Circle
  }

  /** `!!p == p`: taking the opponent twice gives the player back. */
  lemma NotInvolutive(p: PlayerId)
    ensures Not(Not(p)) == p
  {
  }

  /** The one-character name used in the "[o] " / "[x] " prefix. */
  function Name(p: PlayerId): (s: string)
    ensures |s| == 1
    ensures s == "o" <==> p == Circle
    ensures s == "x" <==> p == Cross
  {
    match p
    case Circle => "o"
    case Cross => "x"
  }
}
