# Noughts and crosses server: a verified model of its core

The system is a two-player noughts-and-crosses server, written in Rust. Players
connect over TCP. The first to join plays Circle (`o`) and the second plays
Cross (`x`). The game loop `run_game` reacts to three events from the player
manager: `Join`, `Msg` (a line a player typed) and `Leave`. It keeps a stage
(`WaitingForPlayers`, `WaitingForPlayer(p)`, `PlayerOnMove(p)`), a map of at
most two players, and one board. A player types a move as two digits, row then
column, counted from one. The converter turns that text into zero-based
coordinates. The board engine then accepts or rejects the move and reports a
win, a draw or neither. Each outgoing message is rendered to text by the TCP
player, which prefixes it with `[o] ` or `[x] `. The TCP player also keeps one
bit that says whether the last text ended a line.

The model has one Dafny module per core source file, plus a few shared
modules:

- `NnBoard` (`pb_n_n.dfy`): the n×n engine the server uses. The lines are
  built from Rust's `skip` and `step_by` (module `Iters`). Lemmas prove them
  equal to explicit index sets. The win and draw checks are proved equal to
  reference ones: "a line through the placed cell is held by one player" and
  "every line holds both symbols". The in-place `new_move` is a method on a
  class, proved against a specification function.
- `Board33` (`bp_3_3.dfy`) and `GameField` (`field.rs` as `field.dfy`): the
  two older 3×3 boards. Both use fixed indices and a `u16` score, in which
  Circle counts 1, Cross 10 and an empty cell 100. Their cells are `array`s
  updated in place. The score test is proved to mean "the line holds both
  symbols". Both boards are proved to agree with the n×n engine at n = 3.
- `Converters`: the TCP text-to-coordinates converter.
- `Game`: the session. `Next` is the transition function on a `SessionState`,
  under the invariant `Inv`. This invariant is what makes every
  `players.get_mut(..).unwrap()` succeed. `Session` is a class holding the
  loop's variables, and its `Step` method is proved to follow `Next`. Each
  player is represented by the queue of messages the game has sent it.
- `Tcp`: the message rendering and newline flag of `send_msg_to_player`, and
  the line-ending stripping of `get_user_input`.
- Shared modules:
  - `Ids`: the player id and its `!`.
  - `Cells`: a cell, `used_by_user` and `are_same_some_values`.
  - `RustStr`: UTF-8 byte length and `str::parse::<usize>`.
  - `PlayboardApi` and `PlayerManager`: the shared enums.
  - `Wrappers`: `Option` and `Result`.

A Rust panic (an index out of bounds, a `usize` underflow, a `str` slice that
cuts a character) is modelled as an explicit outcome (`Panicked`,
`NotCharBoundary`, `Underflow`), not as a precondition.

## Model

| member | source | states |
|---|---|---|
| Ids.Not | src/game.rs:40-49 | `!p` is the other player: never `p`, and Circle exactly when `p` is Cross |
| Ids.NotInvolutive | src/game.rs:40-49 | `!!p == p` |
| Ids.Name | src/game.rs:28-38 | a player's name is one character: `"o"` exactly for Circle and `"x"` exactly for Cross |
| RustStr.Utf8Len | src/game/converters.rs:15 | a character takes 1 to 4 bytes, and exactly 1 when it is ASCII |
| RustStr.ByteLen | src/game/converters.rs:15 | `str::len` is at least the character count, and equal to it exactly when every character is ASCII |
| RustStr.ByteLenTwo | src/game/converters.rs:15-20 | a two-byte string is two ASCII characters or one two-byte character |
| RustStr.ParseUsize | src/game/converters.rs:5-7 | a one-character string parses exactly when it is a decimal digit, and to that digit's value; any parsed string is non-empty and starts with a digit or `+` |
| Iters.Skip | src/game/playboard/pb_n_n.rs:52 | `skip(k)` yields the elements from index `k` on, and nothing when there are fewer than `k` |
| Iters.StepByAt | src/game/playboard/pb_n_n.rs:52-62 | the `k`-th element `step_by(step)` yields is element `k * step` |
| Iters.StepByLength | src/game/playboard/pb_n_n.rs:52-62 | `step_by(step)` yields exactly `m` elements when `(m - 1) * step < len <= m * step` |
| Iters.StepByShape | src/game/playboard/pb_n_n.rs:52-62 | `step_by` yields exactly the elements `0, step, ..., (m - 1) * step` |
| Cells.UsedByUser | src/game/playboard/pb_n_n.rs:19-24 | a cell is used by `p` exactly when it holds `p` |
| Cells.AreSameSomeValues | src/game/playboard/pb_n_n.rs:66-77 | a line is uniform exactly when it is non-empty and one player holds every cell |
| Cells.EmptyCells | src/game/playboard/pb_n_n.rs:166-171 | `k` cells, all empty |
| NnBoard.RowOfFlat | src/game/playboard/pb_n_n.rs:194 | a flat index `n * r + c` below `n * n` has its row `r < n` |
| NnBoard.FlatIndexInjective | src/game/playboard/pb_n_n.rs:194 | for coordinates below `n`, different coordinates give different flat indices |
| NnBoard.Flat | src/game/playboard/pb_n_n.rs:194 | the flat index of an on-board coordinate pair is on the board |
| NnBoard.Placed | src/game/playboard/pb_n_n.rs:201-204 | a placed move changes exactly one cell, to the mover's id |
| NnBoard.IsLineCapable | src/game/playboard/pb_n_n.rs:106-127 | the two-flag loop with its early return answers true exactly when the line does not hold both symbols |
| NnBoard.AnyRowCapable | src/game/playboard/pb_n_n.rs:130-131 | true exactly when some row is still capable |
| NnBoard.AnyColumnCapable | src/game/playboard/pb_n_n.rs:133-134 | true exactly when some column is still capable |
| NnBoard.CheckForDraw | src/game/playboard/pb_n_n.rs:129-145 | `check_for_draw`: no row and no column is capable and, for odd `n` only, neither diagonal is |
| NnBoard.At | src/game/playboard/pb_n_n.rs:44-63 | the `k`-th cell of any line of an n×n board is on the board |
| NnBoard.RowCellsAt | src/game/playboard/pb_n_n.rs:44-46 | row `r` is the cells `(r, k)` for `k < n` |
| NnBoard.ColCellsAt | src/game/playboard/pb_n_n.rs:48-53 | column `c` (`skip(c).step_by(n)`) is the cells `(k, c)` for `k < n` |
| NnBoard.DiagNegCellsAt | src/game/playboard/pb_n_n.rs:55-57 | `step_by(n + 1)` is the cells `(k, k)` for `k < n` |
| NnBoard.DiagPosCellsAt | src/game/playboard/pb_n_n.rs:59-63 | the slice `[n - 1 .. n*n - 1]` stepped by `n - 1` is the cells `(k, n - 1 - k)` for `k < n` |
| NnBoard.LineCellsAt | src/game/playboard/pb_n_n.rs:44-63 | every line the source builds has `n` cells, each at the expected index |
| NnBoard.SameIffCompleted | src/game/playboard/pb_n_n.rs:66-77 | a line's cells are uniform exactly when one player holds the whole line |
| NnBoard.CapableIffNotBlocked | src/game/playboard/pb_n_n.rs:106-127 | a line is capable exactly when it is not touched by both players |
| NnBoard.WinIff | src/game/playboard/pb_n_n.rs:79-103 | `check_for_win` holds exactly when some line through the placed cell is completed (for odd `n` only, the diagonals count) |
| NnBoard.DrawIff | src/game/playboard/pb_n_n.rs:129-145 | the draw check holds exactly when every line (for odd `n` only, the diagonals too) is touched by both players |
| NnBoard.ThroughIffContains | src/game/playboard/pb_n_n.rs:79-103 | a line goes through `(r, c)` exactly when one of its cells is `(r, c)` |
| NnBoard.CompletedByMoveGoesThrough | src/game/playboard/pb_n_n.rs:201-214 | a line the move completes, when it was not already completed, goes through the placed cell |
| NnBoard.WinIsAnyCompletedLine | src/game/playboard/pb_n_n.rs:79-103 | when no line was complete before the move, a win means exactly that some line is complete after it |
| NnBoard.OneByOneWins | src/game/playboard/pb_n_n.rs:79-103 | on a 1×1 board the row of a taken cell is uniform, so every move wins before the positive diagonal (which would panic in `step_by(0)`) is looked at |
| NnBoard.OneByOneRowCapable | src/game/playboard/pb_n_n.rs:129-141 | on a 1×1 board the one row is capable, so the `||` chain of the draw check stops before the positive diagonal and the check is false without a panic |
| NnBoard.Decide | src/game/playboard/pb_n_n.rs:206-214 | the verdict is Win when the win check holds, else Draw when the draw check holds, else Continue |
| NnBoard.PlaceSpec | src/game/playboard/pb_n_n.rs:194-214 | flat index off the board: panic. Taken cell: AlreadyUsed. Both leave the board unchanged. Otherwise a valid move onto the cell is reported |
| NnBoard.PlaceMeaning | src/game/playboard/pb_n_n.rs:194-214 | after the write, a valid result is Win exactly when a line through the cell is completed, and Draw exactly when none is and every line is blocked (win takes precedence) |
| NnBoard.NewMoveSpec | src/game/playboard/pb_n_n.rs:184-215 | with the corrected range check: InvalidRange exactly when a coordinate is `>= n`; AlreadyUsed exactly for a taken cell; the board changes only when the move is valid, and then in exactly the one cell; Win and Draw mean the reference win and draw; never a panic |
| NnBoard.NewMoveAsWrittenSpec | src/game/playboard/pb_n_n.rs:177-215 | with `check_range` as written (`<=`): InvalidRange exactly when a coordinate is `> n`, and a panic exactly when the flat index is then off the board |
| NnBoard.AsWrittenRowNPanics | src/game/playboard/pb_n_n.rs:177-199 | as written, row `n` indexes past the end and panics; corrected, it is InvalidRange |
| NnBoard.AsWrittenColumnNAliases | src/game/playboard/pb_n_n.rs:177-204 | as written, `(r, n)` is accepted and writes cell `(r + 1, 0)`; corrected, it is InvalidRange with the board unchanged |
| NnBoard.AsWrittenFalseWin | src/game/playboard/pb_n_n.rs:177-214 | a concrete 3×3 board where the as-written move `(0, 3)` is reported as a win |
| NnBoard.FalseWinNoLineCompleted | src/game/playboard/pb_n_n.rs:79-103 | on that board no line is completed, so the win is false |
| NnBoard.CorrectedMoveContinues | src/game/playboard/pb_n_n.rs:184-214 | the same cell played correctly, as `(1, 0)`, gives the same board and Continue |
| NnBoard.Playboard.constructor | src/game/playboard/pb_n_n.rs:168-171 | a board of `n * n` empty cells with edge `n` |
| NnBoard.Playboard.New | src/game/playboard/pb_n_n.rs:166-174 | `new` fails exactly when `n * n` overflows `usize`, and otherwise gives a fresh empty board with edge `n` |
| NnBoard.Playboard.NewMove | src/game/playboard/pb_n_n.rs:184-215 | the corrected in-place `new_move` returns and leaves what `NewMoveSpec` says |
| NnBoard.Playboard.NewMoveAsWritten | src/game/playboard/pb_n_n.rs:177-215 | the as-written in-place `new_move` returns and leaves what `NewMoveAsWrittenSpec` says |
| NnBoard.Playboard.Place | src/game/playboard/pb_n_n.rs:194-214 | the flat index, taken check, write and verdict, as `PlaceSpec` says |
| Board33.LinesAt | src/game/playboard/bp_3_3.rs:42-59 | row `r` is cells `3r, 3r+1, 3r+2`; column `c` is `c, c+3, c+6`; the diagonals are `0, 4, 8` and `2, 4, 6` |
| Board33.Weight | src/game/playboard/bp_3_3.rs:101-116 | each cell scores 1, 10 or 100 |
| Board33.ScoreFitsU16 | src/game/playboard/bp_3_3.rs:101-116 | every partial sum of a 3-cell line's score is at most 300, so the `u16` fold never overflows |
| Board33.ScoreCapableIffNotBoth | src/game/playboard/bp_3_3.rs:101-116 | for a 3-cell line, the score is outside {12, 21, 111} exactly when the line does not hold both symbols |
| Board33.LinesAgree | src/game/playboard/bp_3_3.rs:42-59 | the fixed-index lines are the n×n engine's lines at n = 3 |
| Board33.WinAgrees | src/game/playboard/bp_3_3.rs:75-98 | the 3×3 win check, whose diagonals count only at flat positions 0/4/8 and 2/4/6, equals the n×n one at n = 3 |
| Board33.CapableAgrees | src/game/playboard/bp_3_3.rs:101-116 | the score test equals the n×n capable test on 3-cell lines |
| Board33.DrawAgrees | src/game/playboard/bp_3_3.rs:118-127 | the 3×3 draw check (all 8 lines incapable) equals the n×n one at n = 3 |
| Board33.VerdictMeaning | src/game/playboard/bp_3_3.rs:171-179 | the 3×3 verdict is Win exactly for the reference win through the cell, and Draw exactly for no win and every line blocked |
| Board33.VerdictAgrees | src/game/playboard/bp_3_3.rs:171-179 | the 3×3 verdict is the n×n verdict at n = 3 |
| Board33.PlaceSpec | src/game/playboard/bp_3_3.rs:160-179 | flat index `>= 9`: panic. Taken cell: AlreadyUsed. Both leave the board unchanged. Otherwise a valid move; never InvalidRange |
| Board33.PlaceMeaning | src/game/playboard/bp_3_3.rs:171-179 | a valid result is Win exactly for the reference win through the cell, and Draw exactly for no win and every line blocked (the one-cell write itself is stated by Board33.PlaceSpec) |
| Board33.PlaceAgrees | src/game/playboard/bp_3_3.rs:160-179 | the 3×3 write step is the n×n one at n = 3 |
| Board33.NewMoveSpec | src/game/playboard/bp_3_3.rs:143-179 | with the tautological `check_range` as written, InvalidRange is never returned |
| Board33.NewMoveCheckedSpec | src/game/playboard/bp_3_3.rs:150-179 | with the range check corrected to `< 3`: never a panic, and InvalidRange exactly for an off-board coordinate |
| Board33.CheckedAgreesWithNn | src/game/playboard/bp_3_3.rs:150-179 | the corrected 3×3 `new_move` is the corrected n×n one at n = 3 |
| Board33.AsWrittenAcceptsOffBoard | src/game/playboard/bp_3_3.rs:143-169 | as written, `(0, 5)` is accepted and writes the cell of `(1, 2)`; corrected, it is InvalidRange |
| Board33.AsWrittenRowThreePanics | src/game/playboard/bp_3_3.rs:143-163 | as written, row 3 indexes past the array and panics; corrected, it is InvalidRange |
| Board33.Playboard.constructor | src/game/playboard/bp_3_3.rs:135-141 | nine empty cells in a fresh array |
| Board33.Playboard.NewMove | src/game/playboard/bp_3_3.rs:150-180 | the in-place `new_move` on the array returns and leaves what `NewMoveSpec` says |
| GameField.ConvertInputToCoordinate | src/game/field.rs:7-17 | a one-character input parses exactly when it is a digit, or else is InvalidInput; it is accepted exactly when it is 1 to 3, as its value, and otherwise InvalidRange |
| GameField.ConvertInputToCoordinates | src/game/field.rs:19-27 | an input that is not 2 bytes is InvalidInput; one two-byte character panics on the slice; the result is coordinates exactly for two digits 1 to 3, each minus one |
| GameField.CoordinatesRoundTrip | src/game/field.rs:19-27 | for `x, y < 3`, the digits of `x + 1` and `y + 1` parse back to `(x, y)` |
| GameField.FirstErrorWins | src/game/field.rs:24-25 | the first character is checked before the second, so its error is the one reported |
| GameField.MoveOn | src/game/field.rs:149-174 | parser errors map one-to-one onto InvalidInput and InvalidRange; a taken cell is AlreadyUsed; none of these changes the board; a valid move writes exactly cell `3x + y`, to the mover |
| GameField.MoveOnMeaning | src/game/field.rs:166-174 | a valid move is Win or Draw exactly for the reference win and draw (win first) |
| GameField.NewMoveSpec | src/game/field.rs:147-175 | `new_move` on text: parse, taken check, write, verdict, with all the cases above |
| GameField.NewMoveMeaning | src/game/field.rs:147-175 | for every input, a move's result is the reference one |
| GameField.Field.constructor | src/game/field.rs:141-145 | nine empty cells |
| GameField.Field.NewMove | src/game/field.rs:147-175 | the in-place `new_move` returns and leaves what `NewMoveSpec` says |
| GameField.Field.Apply | src/game/field.rs:149-174 | from converted input, the in-place move returns and leaves what `MoveOn` says |
| GameField.Field.Write | src/game/field.rs:157-174 | from on-board coordinates, the taken check, write and verdict return and leave what `MoveOn` says |
| Converters.ConvertInputToUsize | src/game/converters.rs:5-7 | a one-character input converts exactly when it is a digit, and to its value; the empty input is an error |
| Converters.FromTcpToXYAsWritten | src/game/converters.rs:9-22 | as written: not 2 bytes is an error; one two-byte character panics on the slice; a `0` digit that parses underflows `x - 1` or `y - 1`; it converts exactly for two digits 1 to 9, each minus one |
| Converters.FromTcpToXY | src/game/converters.rs:9-22 | corrected: converts exactly for two digits 1 to 9, each minus one, so both coordinates are at most 8; every other input is an error |
| Converters.CorrectedAgreesWithAsWritten | src/game/converters.rs:9-22 | the corrected converter succeeds exactly where the as-written one converts, with the same coordinates, and fails wherever the as-written one returns its error |
| Converters.RoundTrip | src/game/converters.rs:9-22 | for `r, c <= 8`, the digits of `r + 1` and `c + 1` convert back to `(r, c)` |
| Converters.ConvertedIsDigitText | src/game/converters.rs:9-22 | conversely, converted text is exactly the digits of its coordinates plus one |
| Converters.NoBoardRangeCheck | src/game/converters.rs:21 | `"99"` converts to `(8, 8)`: any board-range check is left to the board |
| Converters.AsWrittenZeroUnderflows | src/game/converters.rs:21 | as written, `"01"` underflows `x - 1`; corrected, it is an error |
| Converters.AsWrittenWideCharPanics | src/game/converters.rs:15-19 | as written, `"é"` (two bytes) passes the length check and `input[0..1]` panics; corrected, it is an error |
| Game.Send | src/game.rs:122-132 | `get_mut(id).unwrap().send_msg_to_player(m)` appends `m` to `id`'s queue only |
| Game.Broadcast | src/game.rs:108-118 | the loop over `values_mut` appends the same messages to every player's queue |
| Game.NextJoin | src/game.rs:82-139 | a `Join` keeps the invariant |
| Game.NextMsg | src/game.rs:140-273 | a `Msg` keeps the invariant |
| Game.Departure | src/game.rs:277-297 | after a `Leave(id)`, `id` is gone; one remaining player is `!id` and the stage waits for `id`; otherwise nobody is left and the stage waits for both |
| Game.NextLeave | src/game.rs:276-298 | a `Leave` keeps the invariant |
| Game.Next | src/game.rs:80-300 | every event keeps the invariant (stage and player map agree, the board has `n * n` cells and is empty outside a game), so every `unwrap` of the loop succeeds |
| Game.Initial | src/game.rs:64-78 | the start state (no players, an empty board) satisfies the invariant |
| Game.FirstJoin | src/game.rs:84-99 | the first `Join` creates Circle, which gets WelcomePlayer then WaitingForOtherPlayer, and the stage waits for Cross |
| Game.SecondJoin | src/game.rs:100-133 | the second `Join` creates the player waited for; both get PlayersAreReady and the board; the one already waiting gets YourAreOnMove and moves first |
| Game.IgnoredEvents | src/game.rs:134-141 | a `Msg` outside a game and a third `Join` change nothing |
| Game.RejectedMessage | src/game.rs:238-270 | a message that makes no move answers only its sender: YouAreNotOnMove for the wrong player, AlreadyTaken for a taken cell, InvalidInput otherwise; stage, board and the other queue are unchanged |
| Game.AcceptedMove | src/game.rs:147-236 | after any accepted move (Continue, Draw or Win) the other player is on move; the board keeps the move, or is emptied after a win or draw |
| Game.PlayedAs | src/game.rs:146-148 | a playable message is a valid move of the mover at those coordinates |
| Game.VerdictMeaning | src/game.rs:147-198 | the reported result is Win exactly for a completed line through the cell, and Draw exactly for no win and every line blocked |
| Game.AnnounceOutboxes | src/game.rs:149-198 | a draw sends both the board and Draw; a win sends both the board, then YouWon to the mover and YouLose to the other; both end with an empty board; Continue sends nothing |
| Game.PassTurnOutboxes | src/game.rs:200-236 | both get the current board, then `!mover` gets YourAreOnMove and the mover gets OtherPlayerIsOnMove |
| Game.TurnPasses | src/game.rs:140-273 | the stage changes exactly when the player on move names a free cell |
| Game.WinAccepted | src/game.rs:169-236 | what a winning move sends each player, in order |
| Game.DrawAccepted | src/game.rs:151-236 | what a drawing move sends each player, in order |
| Game.ContinueAccepted | src/game.rs:150-236 | what a move that ends nothing sends each player, in order |
| Game.WinMessages | src/game.rs:169-236 | a winning message: both see the finished board, learn who won, see the fresh board, and the loser moves next |
| Game.DrawMessages | src/game.rs:151-236 | a drawing message: both see the finished board, learn of the draw, and see the fresh board |
| Game.ContinueMessages | src/game.rs:150-236 | any other move: both see the new board, then who is on move |
| Game.LeaveOutcome | src/game.rs:276-298 | `Leave(id)` removes `id` and empties the board; a remaining `!id` gets OtherPlayerLeave and WaitingForOtherPlayer and the stage waits for `id`; otherwise the stage waits for both |
| Game.OutboxesOnlyGrow | src/game.rs:80-300 | no event takes back or alters a message already sent: each staying player's queue only grows |
| Game.Session.constructor | src/game.rs:64-79 | the loop's variables at the start: no players, the board, `WaitingForPlayers` |
| Game.Session.Start | src/game.rs:64-75 | creating the board fails, and the game returns, exactly when `n * n` overflows; otherwise the session starts in `Initial` |
| Game.Session.SendToAll | src/game.rs:108-118 | the loop over the players sends each the messages, as `Broadcast` says |
| Game.Session.SendTo | src/game.rs:122-132 | sends one message to one present player, as `Send` says |
| Game.Session.Step | src/game.rs:80-300 | one event, run in place, keeps the invariant and takes the state to `Next` |
| Game.Session.OnJoin | src/game.rs:82-139 | the `Join` arm takes the state to `NextJoin` |
| Game.Session.OnFirstJoin | src/game.rs:84-99 | the first player's arrival, as `NextJoin` says |
| Game.Session.OnSecondJoin | src/game.rs:100-133 | the second player's arrival, as `NextJoin` says |
| Game.Session.OnMsg | src/game.rs:140-273 | the `Msg` arm takes the state to `NextMsg` |
| Game.Session.OnAccepted | src/game.rs:148-236 | an accepted move's messages, board reset and stage flip, as `Accepted` says |
| Game.Session.AnnounceResult | src/game.rs:149-198 | the Draw and Win broadcasts and board reset, as `Announce` says |
| Game.Session.PassTurnFrom | src/game.rs:200-236 | the board to both, who is on move, the stage flip, as `PassTurn` says |
| Game.Session.OnLeave | src/game.rs:276-298 | the `Leave` arm takes the state to `NextLeave` |
| Game.Session.Depart | src/game.rs:277-297 | the removal and the remaining player's messages and stage, as `Departure` says |
| Tcp.Prefix | src/game/player_manager/tcp.rs:161-170 | the prefix is `"["`, the player's name, then `"] "` |
| Tcp.RenderPrefix | src/game/player_manager/tcp.rs:161-178 | every message but a board starts with the player's prefix, after `"\r\n"` for OtherPlayerLeave with the flag down |
| Tcp.RenderBoard | src/game/player_manager/tcp.rs:155-157 | a board message is the header, the board and `"\r\n"`, with no prefix |
| Tcp.TextEndings | src/game/player_manager/tcp.rs:131-158 | the three prompts end with `": "`, every other text ends with `"\r\n"` |
| Tcp.RenderEnding | src/game/player_manager/tcp.rs:131-181 | a rendered message ends with a newline exactly when it is not a prompt |
| Tcp.FlagStaysHonest | src/game/player_manager/tcp.rs:171-181 | when the flag is true exactly at a line start, it stays so after every kind except the two re-prompts and OtherPlayerLeave with the flag down |
| Tcp.RepromptsBreakTheFlag | src/game/player_manager/tcp.rs:141-146 | InvalidInput and AlreadyTaken end with `": "` and still set the flag |
| Tcp.LeaveOnFreshLine | src/game/player_manager/tcp.rs:175-178 | OtherPlayerLeave, sent while a line is open, starts with a line break |
| Tcp.Player.constructor | src/game/player_manager/tcp.rs:107-123 | a new player has its id, nothing queued and the flag up |
| Tcp.Player.SendMsgToPlayer | src/game/player_manager/tcp.rs:127-184 | exactly one rendered string is queued; YourAreOnMove lowers the flag, OtherPlayerLeave keeps it, every other kind raises it |
| Tcp.StripLineEnd | src/game/player_manager/tcp.rs:37-39 | a trailing `"\r\n"` is removed, else a trailing `"\n"`, else nothing |
| Tcp.StripRoundTrip | src/game/player_manager/tcp.rs:37-39 | a line typed with either ending, or with none, comes back as typed |

## Left out

- Networking, the tokio tasks and the channels of `src/game/player_manager/tcp.rs`:
  - interface selection, the listener and the port-scanning bind loop;
  - the `select!` loop of `player_communication`.
  - These are I/O and concurrency. A `Tcp.Player` queues its strings in `sent` in place of the channel.
- `get_user_input`: reading standard input and parsing the interface number are I/O. Only the line-ending stripping is modelled (`Tcp.StripLineEnd`).
- `src/main.rs`, `src/game/player.rs`, `src/player.rs`, `src/game/msgs.rs` and `src/game/player_manager/msgs.rs` (command line, logger, socket tasks, thin async senders) are not part of this model.
- `src/field.rs` is not part of this model: it is an earlier draft that no module declares.
- Logging, and the `Display` impls that draw a board (`src/game/field.rs:178-213`, `src/game/playboard/pb_n_n.rs:27-41`), are presentation only.
  - In `Game`, a `Playboard` message carries the cell sequence it would be drawn from.
  - In `Tcp`, it carries the already-drawn text. The two halves of the message path are not composed in one proof.
- The order in which `players.values_mut()` visits the two players is not modelled. Each player's own queue is, and it does not depend on that order.
- async/await and the connection data (`NewPlayerData`) carried by `Join` are left out.
- The third player's `Join` only prints a line and drops the connection. It is modelled as changing nothing.
- The session is modelled with the n×n engine, the board `src/main.rs:73` wires in, and with its corrected range check (see Findings).
- The converter: `run_game` takes its message converter as a parameter (`src/game.rs:51-60`), and `src/main.rs:77-78` passes `converters::pm_tcp_msg_to_x_y` and `converters::pb_n_n_to_string`, neither of which is defined in `src/game/converters.rs`. The session assumes the wired converter is `from_tcp_to_x_y` (`src/game/converters.rs:9-22`), in its corrected form (see Findings), and a board message carries the cells rather than their drawing. The edge size is any `usize`: the `3..=10` limit of the command line is not needed by any proof.
- Board re-creation: the board is re-created with `create_pb().unwrap()` after a game and on a leave. The model resets it to `n * n` empty cells. That is what `new` returns again for the same `n`, so the `unwrap` cannot fail.
- RustStr.ParseUsize: states only the one-character case and the leading character of `str::parse::<usize>`. The converters never parse longer strings, because both slices are one byte.
- The two-byte-character panic in `src/game/field.rs`: the panic of `&input[0..1]` is modelled as written (`NotCharBoundary`, then `Panicked`), without a corrected twin, because this board is not wired into the server.
- GameField: `field.rs`'s own `ConvertError` variants are named `BadInput` and `BadRange` so as not to clash with `InvalidMove`. Its `Symbols` enum is represented by the player id, which has the same two values.
- NnBoard.CheckForWin: on an empty 1×1 board the source's win check would reach the positive diagonal and panic in `step_by(0)`. The model skips that diagonal when `n == 1`; the check is only made after a move, and then the row of the placed cell is already uniform (`NnBoard.OneByOneWins`). The draw check never reaches that diagonal on a 1×1 board, because its row is capable (`NnBoard.OneByOneRowCapable`), and `NnBoard.IsDraw` mirrors that short-circuit.
- NnBoard.Playboard.NewMove: positions are `usize`, but `n * r + c` is computed on unbounded integers. A position whose flat index would overflow `usize` is reported as out of range, or as a panic in the as-written variant, instead of wrapping.
- Board33.PlaceSpec and GameField.MoveOn: `3 * r + c` is likewise computed on unbounded integers, where the source's `usize` arithmetic could overflow (a panic in debug builds, a wrap in release builds). No wired input comes near that: the converters yield coordinates of at most 8.
- Tcp: a message's text is modelled as a body plus an ending (`": "` or `"\r\n"`), which concatenate to the source's literal.

## Findings

| source | as written | input that shows it | evidently intended | confidence | as-written member | corrected member |
|---|---|---|---|---|---|---|
| src/game/playboard/pb_n_n.rs:177-179 | `check_range` is `value <= limit`, so a coordinate equal to the edge is accepted | on a 3×3 board, `(0, 3)` writes cell `(1, 0)` and can report a false Win; `(3, 0)` indexes past the end | `value < limit` | high (not executed) | NnBoard.AsWrittenFalseWin | NnBoard.NewMoveSpec |
| src/game/playboard/bp_3_3.rs:143-145 | `value > 1 \|\| value < 4` is true for every value, so InvalidRange is never returned | `(0, 5)` writes the cell of `(1, 2)`; `(3, 0)` panics | `value < 3` | high (not executed) | Board33.AsWrittenAcceptsOffBoard | Board33.NewMoveCheckedSpec |
| src/game/converters.rs:21 | `x - 1` on a parsed digit `0` underflows `usize` (a panic, or a wrap to `usize::MAX` in release builds) | `"01"` | reject the digit `0` as a conversion error | high (not executed) | Converters.AsWrittenZeroUnderflows | Converters.FromTcpToXY |
| src/game/converters.rs:15-19 | `len()` counts bytes, so one two-byte character passes the length check and `&input[0..1]` panics on a character boundary | `"é"` | reject it as a conversion error | high (not executed) | Converters.AsWrittenWideCharPanics | Converters.FromTcpToXY |
