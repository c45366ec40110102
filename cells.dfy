/**
 * A board cell (`SingleField`) and the two questions the boards ask about a
 * line of cells: is it uniformly one player's, and does it hold both symbols.
 */
module Cells {
  import opened Wrappers
  import opened Ids

  /** `SingleField { field: Option<PlayerId> }`: empty, or taken by one player. */
  type Cell = Option<PlayerId>

  /** `SingleField::used_by_user`. */
  predicate UsedByUser(cell: Cell, player: PlayerId)
    ensures UsedByUser(cell, player) <==> cell == Some(player)
  {
    match cell
    case Some(x) => x == player
    case None => false
  }

  /**
   * `are_same_some_values`: the first cell is taken and every other cell is
   * taken by the same player.
   */
  predicate AreSameSomeValues(line: seq<Cell>)
    ensures AreSameSomeValues(line) <==>
              exists p :: |line| > 0 && forall i | 0 <= i < |line| :: line[i] == Some(p)
  {
    if |line| == 0 then false
    else
      match line[0]
      case None => false
      case Some(y) => forall i | 1 <= i < |line| :: UsedByUser(line[i], y)
  }

  /** The line holds at least one circle and at least one cross, so nobody can complete it. */
  predicate HasBoth(line: seq<Cell>) {
    Some(Circle) in line && Some(Cross) in line
  }

  /** `k` empty cells. */
  function EmptyCells(k: nat): (s: seq<Cell>)
    ensures |s| == k && forall i | 0 <= i < k :: s[i] == None
  {
    seq(k, _ => None)
  }
}
