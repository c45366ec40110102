/**
 * The messages between the game loop and the players (`player_manager`):
 * what the game sends to a player, and what the player manager delivers to
 * the game.
 */
module PlayerManager {
  import opened Ids

  /**
   * `MsgToPlayer`: the notices the game sends, and `Playboard(board)`, a
   * snapshot of the board in whatever form the player manager renders.
   */
  datatype MsgToPlayer<T> =
    | WelcomePlayer
    | WaitingForOtherPlayer
    | PlayersAreReady
    | OtherPlayerLeave
    | YourAreOnMove
    | OtherPlayerIsOnMove
    | InvalidInput
    | AlreadyTaken
    | YouAreNotOnMove
    | YouWon
    | YouLose
    | Draw
    | Playboard(board: T)

  /**
   * `MsgFromPlayer`: a new connection, a line of text from a player, or a
   * player's disconnection. The connection data of `Join` is not modelled.
   */
  datatype MsgFromPlayer = Join | Msg(id: PlayerId, text: string) | Leave(id: PlayerId)
}
