/**
 * The game loop (`run_game`): one board, a stage, and at most two players,
 * driven by the player manager's `Join`, `Msg` and `Leave` events.
 *
 * Each player is represented by the queue of messages the game has sent
 * it, in order; a board snapshot in a `Playboard` message is the cell
 * sequence at the time it was sent. The board is the n×n engine with the
 * corrected range check, and a player's text goes through the corrected
 * converter.
 *
 * `Next` is the transition, defined on states that satisfy `Inv`; that
 * every `players.get_mut(..).unwrap()` of the loop succeeds is the
 * precondition `id in players` of `Send`, discharged from `Inv` in every
 * branch. `Session.Step` runs one event imperatively and is proved to
 * follow `Next`.
 */
module Game {
  import opened Wrappers
  import opened Ids
  import opened Cells
  import opened RustStr
  import opened PlayerManager
  import PlayboardApi
  import NnBoard
  import Converters

  /** `GameStage`. */
  datatype GameStage = WaitingForPlayers | WaitingForPlayer(player: PlayerId) | PlayerOnMove(player: PlayerId)

  /** The messages one player has been sent, oldest first. */
  type Outbox = seq<MsgToPlayer<seq<Cell>>>

  /** The loop's state: the stage, the `players` map, and the board's cells. */
  datatype SessionState = SessionState(stage: GameStage, players: map<PlayerId, Outbox>, fields: seq<Cell>)

  /** The two players. */
  lemma BothPlayers(p: PlayerId)
    ensures {p, Not(p)} == {Circle, Cross}
  {
  }

  /** Once both players have joined, every player id is a key. */
  lemma EveryoneIn(ps: map<PlayerId, Outbox>)
    requires ps.Keys == {Circle, Cross}
    ensures forall p: PlayerId :: p in ps
  {
    forall p: PlayerId ensures p in ps {
      assert p == Circle || p == Cross;
    }
  }

  /** The player who is not `p` is `Not(p)`. */
  lemma OtherIsNot(p: PlayerId, q: PlayerId)
    requires q != p
    ensures q == Not(p)
  {
  }

  /**
   * The invariant of the loop: nobody while waiting for players, exactly
   * the other player while waiting for `p`, both while a player is on move;
   * the board has `n * n` cells and is empty unless a game is running.
   */
  predicate Inv(s: SessionState, n: nat) {
    |s.fields| == n * n
    && (match s.stage
        case WaitingForPlayers => s.players.Keys == {}
        case WaitingForPlayer(p) => s.players.Keys == {Not(p)}
        case PlayerOnMove(_) => forall p: PlayerId :: p in s.players)
    && (!s.stage.PlayerOnMove? ==> s.fields == EmptyCells(n * n))
  }

  /** `players.get_mut(&id).unwrap().send_msg_to_player(m)`: `m` joins `id`'s queue. */
  function Send(players: map<PlayerId, Outbox>, id: PlayerId, m: MsgToPlayer<seq<Cell>>): (ps: map<PlayerId, Outbox>)
    requires id in players
    ensures ps.Keys == players.Keys
    ensures ps[id] == players[id] + [m]
    ensures forall q | q in players && q != id :: ps[q] == players[q]
  {
    players[id := players[id] + [m]]
  }

  /** Two messages sent to one player in a row: its queue grows by both, in order. */
  lemma SendTwice(players: map<PlayerId, Outbox>, id: PlayerId, a: MsgToPlayer<seq<Cell>>, b: MsgToPlayer<seq<Cell>>)
    requires id in players
    ensures Send(Send(players, id, a), id, b) == players[id := players[id] + [a, b]]
  {
    assert players[id] + [a] + [b] == players[id] + [a, b];
  }

  /** `for player in players.values_mut()`: every player is sent `ms`, in order. */
  function Broadcast(players: map<PlayerId, Outbox>, ms: Outbox): (ps: map<PlayerId, Outbox>)
    ensures ps.Keys == players.Keys
    ensures forall q | q in players :: ps[q] == players[q] + ms
  {
    map q | q in players :: players[q] + ms
  }

  /** A `Join`: the first player becomes Circle, the second the player waited for; the game then starts. */
  function NextJoin(s: SessionState, n: nat): (t: SessionState)
    requires Inv(s, n)
    ensures Inv(t, n)
  {
    match s.stage
    case WaitingForPlayers =>
      SessionState(WaitingForPlayer(Cross), map[Circle := [WelcomePlayer, WaitingForOtherPlayer]], s.fields)
    case WaitingForPlayer(p) =>
      BothPlayers(p);
      var joined := s.players[p := [WelcomePlayer]];
      var ready := Broadcast(joined, [PlayersAreReady, Playboard(s.fields)]);
      var told := Send(Send(ready, Not(p), YourAreOnMove), p, OtherPlayerIsOnMove);
      EveryoneIn(told);
      SessionState(PlayerOnMove(Not(p)), told, s.fields)
    case PlayerOnMove(_) => s
  }

  /**
   * The end of a game after a move of `m` with result `v` on the board
   * `placed`: on a draw or a win, both are shown the board with the move and
   * told the result, and the board is reset; otherwise nothing is sent and
   * the board keeps the move.
   */
  function Announce(players: map<PlayerId, Outbox>, n: nat, m: PlayerId, v: PlayboardApi.ValidMove, placed: seq<Cell>)
    : (r: (map<PlayerId, Outbox>, seq<Cell>))
    requires (forall p: PlayerId :: p in players) && |placed| == n * n
    ensures (forall p: PlayerId :: p in r.0) && |r.1| == n * n
  {
    match v
    case Continue => (players, placed)
    case Draw => (Broadcast(players, [Playboard(placed), MsgToPlayer.Draw]), EmptyCells(n * n))
    case Win => (Send(Send(Broadcast(players, [Playboard(placed)]), m, YouWon), Not(m), YouLose), EmptyCells(n * n))
  }

  /** The turn passes from `m`: both are shown `fields`, then told who moves. */
  function PassTurn(players: map<PlayerId, Outbox>, m: PlayerId, fields: seq<Cell>): (ps: map<PlayerId, Outbox>)
    requires forall p: PlayerId :: p in players
    ensures forall p: PlayerId :: p in ps
  {
    var shown := Send(Send(players, Not(m), Playboard(fields)), m, Playboard(fields));
    Send(Send(shown, Not(m), YourAreOnMove), m, OtherPlayerIsOnMove)
  }

  /** An accepted move of `m` with result `v` on the board `placed`. */
  function Accepted(players: map<PlayerId, Outbox>, n: nat, m: PlayerId, v: PlayboardApi.ValidMove, placed: seq<Cell>): (t: SessionState)
    requires (forall p: PlayerId :: p in players) && |placed| == n * n
    ensures Inv(t, n)
  {
    var (announced, fields) := Announce(players, n, m, v, placed);
    SessionState(PlayerOnMove(Not(m)), PassTurn(announced, m, fields), fields)
  }

  /**
   * A `Msg`: ignored unless a player is on move; a player not on move is
   * told so; the mover's text is converted and played, and a rejection is
   * reported to the mover alone.
   */
  function NextMsg(s: SessionState, n: nat, id: PlayerId, text: string): (t: SessionState)
    requires Inv(s, n)
    ensures Inv(t, n)
  {
    match s.stage
    case PlayerOnMove(m) =>
      if id != m then s.(players := Send(s.players, id, YouAreNotOnMove))
      else
        (match Converters.FromTcpToXY(text)
         case Err(_) => s.(players := Send(s.players, m, InvalidInput))
         case Ok(pos) =>
           var (outcome, placed) := NnBoard.NewMoveSpec(s.fields, n, pos, m);
           (match outcome
            case Valid(v) => Accepted(s.players, n, m, v, placed)
            case Invalid(e) =>
              if e.AlreadyUsed? then s.(players := Send(s.players, m, AlreadyTaken))
              else s.(players := Send(s.players, m, InvalidInput))))
    case _ => s
  }

  /** What is left of a two-player map once `id` is gone: the other player, or nobody. */
  lemma AfterRemoval(ps: map<PlayerId, Outbox>, id: PlayerId)
    requires id !in ps
    ensures |ps| == 1 ==> ps.Keys == {Not(id)}
    ensures |ps| != 1 ==> ps.Keys == {}
  {
    forall q | q in ps ensures q == Not(id) {
      OtherIsNot(id, q);
    }
    assert ps.Keys <= {Not(id)};
    if Not(id) in ps {
      assert ps.Keys == {Not(id)};
    } else {
      assert ps.Keys == {};
    }
  }

  /**
   * The players and stage once `id` has left: a remaining player is told
   * and waits for a new opponent in `id`'s place, or nobody is left.
   */
  function Departure(players: map<PlayerId, Outbox>, id: PlayerId): (r: (GameStage, map<PlayerId, Outbox>))
    ensures r.1.Keys == players.Keys - {id}
    ensures r.0 == WaitingForPlayers || r.0 == WaitingForPlayer(id)
    ensures r.0 == WaitingForPlayers ==> r.1.Keys == {}
    ensures r.0 == WaitingForPlayer(id) ==> r.1.Keys == {Not(id)}
  {
    var ps := players - {id};
    AfterRemoval(ps, id);
    if |ps| == 1 then
      var q := Not(id);
      (WaitingForPlayer(id), ps[q := ps[q] + [OtherPlayerLeave, WaitingForOtherPlayer]])
    else
      (WaitingForPlayers, ps)
  }

  /** A `Leave`: the player departs and a running game's board is reset. */
  function NextLeave(s: SessionState, n: nat, id: PlayerId): (t: SessionState)
    requires Inv(s, n)
    ensures Inv(t, n)
  {
    var (stage, ps) := Departure(s.players, id);
    SessionState(stage, ps, if s.stage.PlayerOnMove? then EmptyCells(n * n) else s.fields)
  }

  /** One turn of the loop. */
  function Next(s: SessionState, n: nat, ev: MsgFromPlayer): (t: SessionState)
    requires Inv(s, n)
    ensures Inv(t, n)
  {
    match ev
    case Join => NextJoin(s, n)
    case Msg(id, text) => NextMsg(s, n, id, text)
    case Leave(id) => NextLeave(s, n, id)
  }

  /** The state `run_game` starts in once the board is created. */
  function Initial(n: nat): (s: SessionState)
    ensures Inv(s, n)
  {
    SessionState(WaitingForPlayers, map[], EmptyCells(n * n))
  }

  // ---- what the loop promises ----

  /** The board has a free cell at the coordinates the mover's text names. */
  predicate Playable(s: SessionState, n: nat, text: string)
    requires |s.fields| == n * n
  {
    var conv := Converters.FromTcpToXY(text);
    conv.Ok? && conv.value.0 < n && conv.value.1 < n
    && NnBoard.CellAt(s.fields, n, conv.value.0, conv.value.1) == None
  }

  /** The board once the mover takes the cell its playable text names. */
  function AfterMove(s: SessionState, n: nat, text: string): (placed: seq<Cell>)
    requires |s.fields| == n * n && s.stage.PlayerOnMove? && Playable(s, n, text)
    ensures |placed| == n * n
  {
    var pos := Converters.FromTcpToXY(text).value;
    NnBoard.Placed(s.fields, n, pos.0, pos.1, s.stage.player)
  }

  /** The move completes a line through the cell taken. */
  ghost predicate Wins(s: SessionState, n: nat, text: string)
    requires |s.fields| == n * n && s.stage.PlayerOnMove? && Playable(s, n, text)
  {
    var pos := Converters.FromTcpToXY(text).value;
    NnBoard.WinRef(AfterMove(s, n, text), n, pos.0, pos.1)
  }

  /** The move wins nothing and leaves every line blocked. */
  ghost predicate Draws(s: SessionState, n: nat, text: string)
    requires |s.fields| == n * n && s.stage.PlayerOnMove? && Playable(s, n, text)
  {
    !Wins(s, n, text) && NnBoard.DrawRef(AfterMove(s, n, text), n)
  }

  /** The reply to a message that does not make a move. */
  function Rejection(s: SessionState, n: nat, id: PlayerId, text: string): MsgToPlayer<seq<Cell>>
    requires |s.fields| == n * n && s.stage.PlayerOnMove?
  {
    var conv := Converters.FromTcpToXY(text);
    if id != s.stage.player then YouAreNotOnMove
    else if conv.Ok? && conv.value.0 < n && conv.value.1 < n
            && NnBoard.CellAt(s.fields, n, conv.value.0, conv.value.1).Some? then AlreadyTaken
    else InvalidInput
  }

  /** The first player to join is Circle and is told to wait. */
  lemma FirstJoin(n: nat)
    ensures Next(Initial(n), n, Join)
            == SessionState(WaitingForPlayer(Cross), map[Circle := [WelcomePlayer, WaitingForOtherPlayer]], EmptyCells(n * n))
  {
  }

  /** The second player to join completes the pair; the player who waited moves first. */
  lemma SecondJoin(s: SessionState, n: nat)
    requires Inv(s, n) && s.stage.WaitingForPlayer?
    ensures var p := s.stage.player;
            var t := Next(s, n, Join);
            t.stage == PlayerOnMove(Not(p)) && t.fields == s.fields
            && t.players[p] == [WelcomePlayer, PlayersAreReady, Playboard(s.fields), OtherPlayerIsOnMove]
            && t.players[Not(p)] == s.players[Not(p)] + [PlayersAreReady, Playboard(s.fields), YourAreOnMove]
  {
    var p := s.stage.player;
    var t := Next(s, n, Join);
    assert t.players[p] == [WelcomePlayer] + [PlayersAreReady, Playboard(s.fields)] + [OtherPlayerIsOnMove];
    assert t.players[Not(p)] == s.players[Not(p)] + [PlayersAreReady, Playboard(s.fields)] + [YourAreOnMove];
  }

  /** Events that change nothing: a message outside a game, a third `Join`. */
  lemma IgnoredEvents(s: SessionState, n: nat, ev: MsgFromPlayer)
    requires Inv(s, n)
    ensures ev.Msg? && !s.stage.PlayerOnMove? ==> Next(s, n, ev) == s
    ensures ev.Join? && s.stage.PlayerOnMove? ==> Next(s, n, ev) == s
  {
  }

  /**
   * A message that makes no move: the sender alone is answered, with the
   * reply its mistake calls for; the board, the turn and the other player's
   * queue are unchanged.
   */
  lemma RejectedMessage(s: SessionState, n: nat, id: PlayerId, text: string)
    requires Inv(s, n) && s.stage.PlayerOnMove? && !(id == s.stage.player && Playable(s, n, text))
    ensures var t := Next(s, n, Msg(id, text));
            t.stage == s.stage && t.fields == s.fields && t.players.Keys == s.players.Keys
            && t.players[id] == s.players[id] + [Rejection(s, n, id, text)]
            && t.players[Not(id)] == s.players[Not(id)]
  {
    NotInvolutive(id);
  }

  /** An accepted move passes the turn; the board keeps it, or is reset when the game ends. */
  lemma AcceptedMove(s: SessionState, n: nat, text: string)
    requires Inv(s, n) && s.stage.PlayerOnMove? && Playable(s, n, text)
    ensures var t := Next(s, n, Msg(s.stage.player, text));
            t.stage == PlayerOnMove(Not(s.stage.player))
            && t.fields == if Wins(s, n, text) || Draws(s, n, text) then EmptyCells(n * n) else AfterMove(s, n, text)
  {
    PlayedAs(s, n, text);
    VerdictMeaning(s, n, text);
  }

  /** The transition an accepted move takes, with the result the board reports. */
  lemma PlayedAs(s: SessionState, n: nat, text: string)
    requires Inv(s, n) && s.stage.PlayerOnMove? && Playable(s, n, text)
    ensures var pos := Converters.FromTcpToXY(text).value;
            var res := NnBoard.NewMoveSpec(s.fields, n, pos, s.stage.player);
            res.0.Valid? && res.1 == AfterMove(s, n, text)
            && Next(s, n, Msg(s.stage.player, text)) == Accepted(s.players, n, s.stage.player, res.0.valid, res.1)
  {
  }

  /** The result the board reports for an accepted move is the reference one. */
  lemma VerdictMeaning(s: SessionState, n: nat, text: string)
    requires Inv(s, n) && s.stage.PlayerOnMove? && Playable(s, n, text)
    ensures var pos := Converters.FromTcpToXY(text).value;
            var v := NnBoard.NewMoveSpec(s.fields, n, pos, s.stage.player).0.valid;
            (v == PlayboardApi.Win <==> Wins(s, n, text)) && (v == PlayboardApi.Draw <==> Draws(s, n, text))
  {
    PlayedAs(s, n, text);
  }

  /** What `Announce` sends each player. */
  lemma AnnounceOutboxes(players: map<PlayerId, Outbox>, n: nat, m: PlayerId, v: PlayboardApi.ValidMove, placed: seq<Cell>)
    requires (forall p: PlayerId :: p in players) && |placed| == n * n
    ensures var r := Announce(players, n, m, v, placed);
            (v == PlayboardApi.Continue ==> r == (players, placed))
            && (v == PlayboardApi.Draw ==>
                 r.1 == EmptyCells(n * n)
                 && r.0[m] == players[m] + [Playboard(placed), MsgToPlayer.Draw]
                 && r.0[Not(m)] == players[Not(m)] + [Playboard(placed), MsgToPlayer.Draw])
            && (v == PlayboardApi.Win ==>
                 r.1 == EmptyCells(n * n)
                 && r.0[m] == players[m] + [Playboard(placed), YouWon]
                 && r.0[Not(m)] == players[Not(m)] + [Playboard(placed), YouLose])
  {
    NotInvolutive(m);
  }

  /** What `PassTurn` sends each player. */
  lemma PassTurnOutboxes(players: map<PlayerId, Outbox>, m: PlayerId, fields: seq<Cell>)
    requires forall p: PlayerId :: p in players
    ensures var ps := PassTurn(players, m, fields);
            ps[m] == players[m] + [Playboard(fields), OtherPlayerIsOnMove]
            && ps[Not(m)] == players[Not(m)] + [Playboard(fields), YourAreOnMove]
  {
    NotInvolutive(m);
  }

  /** The turn passes exactly when the player on move names a free cell. */
  lemma TurnPasses(s: SessionState, n: nat, id: PlayerId, text: string)
    requires Inv(s, n) && s.stage.PlayerOnMove?
    ensures Next(s, n, Msg(id, text)).stage != s.stage <==> id == s.stage.player && Playable(s, n, text)
  {
    if id == s.stage.player && Playable(s, n, text) {
      AcceptedMove(s, n, text);
      NotInvolutive(id);
    } else {
      RejectedMessage(s, n, id, text);
    }
  }

  /** Two pairs appended one after the other are the four elements appended at once. */
  lemma AppendPairs<T>(q: seq<T>, a: T, b: T, c: T, d: T)
    ensures q + [a, b] + [c, d] == q + [a, b, c, d]
  {
  }

  /** What an accepted winning move of `m` sends each player. */
  lemma WinAccepted(players: map<PlayerId, Outbox>, n: nat, m: PlayerId, placed: seq<Cell>)
    requires (forall p: PlayerId :: p in players) && |placed| == n * n
    ensures var t := Accepted(players, n, m, PlayboardApi.Win, placed);
            var reset := Playboard(EmptyCells(n * n));
            t.players[m] == players[m] + [Playboard(placed), YouWon, reset, OtherPlayerIsOnMove]
            && t.players[Not(m)] == players[Not(m)] + [Playboard(placed), YouLose, reset, YourAreOnMove]
  {
    var r := Announce(players, n, m, PlayboardApi.Win, placed);
    AnnounceOutboxes(players, n, m, PlayboardApi.Win, placed);
    PassTurnOutboxes(r.0, m, r.1);
    AppendPairs(players[m], Playboard(placed), YouWon, Playboard(r.1), OtherPlayerIsOnMove);
    AppendPairs(players[Not(m)], Playboard(placed), YouLose, Playboard(r.1), YourAreOnMove);
  }

  /** What an accepted drawing move of `m` sends each player. */
  lemma DrawAccepted(players: map<PlayerId, Outbox>, n: nat, m: PlayerId, placed: seq<Cell>)
    requires (forall p: PlayerId :: p in players) && |placed| == n * n
    ensures var t := Accepted(players, n, m, PlayboardApi.Draw, placed);
            var reset := Playboard(EmptyCells(n * n));
            t.players[m] == players[m] + [Playboard(placed), MsgToPlayer.Draw, reset, OtherPlayerIsOnMove]
            && t.players[Not(m)] == players[Not(m)] + [Playboard(placed), MsgToPlayer.Draw, reset, YourAreOnMove]
  {
    var r := Announce(players, n, m, PlayboardApi.Draw, placed);
    AnnounceOutboxes(players, n, m, PlayboardApi.Draw, placed);
    PassTurnOutboxes(r.0, m, r.1);
    AppendPairs(players[m], Playboard(placed), MsgToPlayer.Draw, Playboard(r.1), OtherPlayerIsOnMove);
    AppendPairs(players[Not(m)], Playboard(placed), MsgToPlayer.Draw, Playboard(r.1), YourAreOnMove);
  }

  /** What an accepted move of `m` that ends nothing sends each player. */
  lemma ContinueAccepted(players: map<PlayerId, Outbox>, n: nat, m: PlayerId, placed: seq<Cell>)
    requires (forall p: PlayerId :: p in players) && |placed| == n * n
    ensures var t := Accepted(players, n, m, PlayboardApi.Continue, placed);
            t.players[m] == players[m] + [Playboard(placed), OtherPlayerIsOnMove]
            && t.players[Not(m)] == players[Not(m)] + [Playboard(placed), YourAreOnMove]
  {
    AnnounceOutboxes(players, n, m, PlayboardApi.Continue, placed);
    PassTurnOutboxes(players, m, placed);
  }

  /** A winning move: both see the finished board, learn who won, and see the fresh board; the loser moves next. */
  lemma WinMessages(s: SessionState, n: nat, text: string)
    requires Inv(s, n) && s.stage.PlayerOnMove? && Playable(s, n, text) && Wins(s, n, text)
    ensures var m := s.stage.player;
            var t := Next(s, n, Msg(m, text));
            var finished := Playboard(AfterMove(s, n, text));
            var reset := Playboard(EmptyCells(n * n));
            t.players[m] == s.players[m] + [finished, YouWon, reset, OtherPlayerIsOnMove]
            && t.players[Not(m)] == s.players[Not(m)] + [finished, YouLose, reset, YourAreOnMove]
  {
    PlayedAs(s, n, text);
    VerdictMeaning(s, n, text);
    WinAccepted(s.players, n, s.stage.player, AfterMove(s, n, text));
  }

  /** A drawing move: both see the finished board, learn of the draw, and see the fresh board. */
  lemma DrawMessages(s: SessionState, n: nat, text: string)
    requires Inv(s, n) && s.stage.PlayerOnMove? && Playable(s, n, text) && Draws(s, n, text)
    ensures var m := s.stage.player;
            var t := Next(s, n, Msg(m, text));
            var finished := Playboard(AfterMove(s, n, text));
            var reset := Playboard(EmptyCells(n * n));
            t.players[m] == s.players[m] + [finished, MsgToPlayer.Draw, reset, OtherPlayerIsOnMove]
            && t.players[Not(m)] == s.players[Not(m)] + [finished, MsgToPlayer.Draw, reset, YourAreOnMove]
  {
    PlayedAs(s, n, text);
    VerdictMeaning(s, n, text);
    DrawAccepted(s.players, n, s.stage.player, AfterMove(s, n, text));
  }

  /** A move that neither wins nor draws: both see the new board and the turn passes. */
  lemma ContinueMessages(s: SessionState, n: nat, text: string)
    requires Inv(s, n) && s.stage.PlayerOnMove? && Playable(s, n, text)
    requires !Wins(s, n, text) && !Draws(s, n, text)
    ensures var m := s.stage.player;
            var t := Next(s, n, Msg(m, text));
            var board := Playboard(AfterMove(s, n, text));
            t.players[m] == s.players[m] + [board, OtherPlayerIsOnMove]
            && t.players[Not(m)] == s.players[Not(m)] + [board, YourAreOnMove]
  {
    PlayedAs(s, n, text);
    VerdictMeaning(s, n, text);
    ContinueAccepted(s.players, n, s.stage.player, AfterMove(s, n, text));
  }

  /**
   * A `Leave`: the player is gone and the board is empty; the other player,
   * if still there, is told and waits in the leaver's place.
   */
  lemma LeaveOutcome(s: SessionState, n: nat, id: PlayerId)
    requires Inv(s, n)
    ensures var t := Next(s, n, Leave(id));
            t.players.Keys == s.players.Keys - {id} && t.fields == EmptyCells(n * n)
            && (Not(id) in s.players ==>
                  t.stage == WaitingForPlayer(id)
                  && t.players[Not(id)] == s.players[Not(id)] + [OtherPlayerLeave, WaitingForOtherPlayer])
            && (Not(id) !in s.players ==> t.stage == WaitingForPlayers)
  {
    var ps := s.players - {id};
    AfterRemoval(ps, id);
    NotInvolutive(id);
    if Not(id) in s.players {
      assert Not(id) != id;
      assert ps.Keys == {Not(id)};
    } else {
      assert ps.Keys == {};
    }
  }

  /** Every player in both maps has had its queue extended, never changed. */
  predicate Grows(before: map<PlayerId, Outbox>, after: map<PlayerId, Outbox>) {
    forall q | q in before && q in after :: before[q] <= after[q]
  }

  /** A `Join` only appends to the queue of the player already waiting. */
  lemma JoinAppends(s: SessionState, n: nat)
    requires Inv(s, n)
    ensures Grows(s.players, Next(s, n, Join).players)
  {
    var t := Next(s, n, Join);
    if s.stage.WaitingForPlayer? {
      var p := s.stage.player;
      SecondJoin(s, n);
      forall q | q in s.players && q in t.players ensures s.players[q] <= t.players[q] {
        assert q == Not(p);
      }
    }
  }

  /** An accepted move only appends to both queues. */
  lemma MoveAppends(s: SessionState, n: nat, text: string)
    requires Inv(s, n) && s.stage.PlayerOnMove? && Playable(s, n, text)
    ensures Grows(s.players, Next(s, n, Msg(s.stage.player, text)).players)
  {
    var m := s.stage.player;
    var t := Next(s, n, Msg(m, text));
    if Wins(s, n, text) {
      WinMessages(s, n, text);
    } else if Draws(s, n, text) {
      DrawMessages(s, n, text);
    } else {
      ContinueMessages(s, n, text);
    }
    forall q | q in s.players && q in t.players ensures s.players[q] <= t.players[q] {
      if q != m {
        OtherIsNot(m, q);
      }
    }
  }

  /** A message that makes no move only appends to the sender's queue. */
  lemma RejectionAppends(s: SessionState, n: nat, id: PlayerId, text: string)
    requires Inv(s, n) && s.stage.PlayerOnMove? && !(id == s.stage.player && Playable(s, n, text))
    ensures Grows(s.players, Next(s, n, Msg(id, text)).players)
  {
    var t := Next(s, n, Msg(id, text));
    RejectedMessage(s, n, id, text);
    forall q | q in s.players && q in t.players ensures s.players[q] <= t.players[q] {
      if q != id {
        OtherIsNot(id, q);
      }
    }
  }

  /** A `Leave` only appends to the queue of the player who stays. */
  lemma LeaveAppends(s: SessionState, n: nat, id: PlayerId)
    requires Inv(s, n)
    ensures Grows(s.players, Next(s, n, Leave(id)).players)
  {
    var t := Next(s, n, Leave(id));
    LeaveOutcome(s, n, id);
    forall q | q in s.players && q in t.players ensures s.players[q] <= t.players[q] {
      OtherIsNot(id, q);
    }
  }

  /** Nothing once sent is taken back: each staying player's queue only grows. */
  lemma OutboxesOnlyGrow(s: SessionState, n: nat, ev: MsgFromPlayer)
    requires Inv(s, n)
    ensures Grows(s.players, Next(s, n, ev).players)
  {
    match ev
    case Join =>
      JoinAppends(s, n);
    case Msg(id, text) =>
      if !s.stage.PlayerOnMove? {
        IgnoredEvents(s, n, ev);
      } else if id == s.stage.player && Playable(s, n, text) {
        MoveAppends(s, n, text);
      } else {
        RejectionAppends(s, n, id, text);
      }
    case Leave(id) =>
      LeaveAppends(s, n, id);
  }

  /** `run_game`'s variables: the stage, the players and the board object. */
  class Session {
    var stage: GameStage
    var players: map<PlayerId, Outbox>
    var board: NnBoard.Playboard
    const edgeSize: nat

    function State(): SessionState
      reads this, board
    {
      SessionState(stage, players, board.fields)
    }

    ghost predicate Valid()
      reads this, board
    {
      board.Valid() && board.edgeSize == edgeSize && Inv(State(), edgeSize)
    }

    constructor (b: NnBoard.Playboard)
      requires b.Valid() && b.fields == EmptyCells(b.edgeSize * b.edgeSize)
      ensures Valid() && board == b && edgeSize == b.edgeSize && State() == Initial(b.edgeSize)
    {
      stage := WaitingForPlayers;
      players := map[];
      board := b;
      edgeSize := b.edgeSize;
    }

    /** The start of `run_game`: create the board, or give up when it cannot be created. */
    static method Start(n: usize) returns (r: Option<Session>)
      ensures r.Some? <==> n * n <= USIZE_MAX
      ensures r.Some? ==> fresh(r.value) && fresh(r.value.board) && r.value.Valid()
                          && r.value.edgeSize == n && r.value.State() == Initial(n)
    {
      var created := NnBoard.Playboard.New(n);
      match created {
        case Err(_) =>
          return None;
        case Ok(b) =>
          var session := new Session(b);
          return Some(session);
      }
    }

    /** The broadcast loop: each player in turn is sent `ms`. */
    method SendToAll(ms: Outbox)
      modifies this
      ensures players == Broadcast(old(players), ms)
      ensures stage == old(stage) && board == old(board)
    {
      ghost var start := players;
      var pending := players.Keys;
      while pending != {}
        invariant pending <= start.Keys && players.Keys == start.Keys
        invariant forall q | q in start :: players[q] == if q in pending then start[q] else start[q] + ms
        invariant stage == old(stage) && board == old(board)
        decreases |pending|
      {
        var q :| q in pending;
        players := players[q := players[q] + ms];
        pending := pending - {q};
      }
      assert players == Broadcast(start, ms);
    }

    /** Sends `m` to one player. */
    method SendTo(id: PlayerId, m: MsgToPlayer<seq<Cell>>)
      requires id in players
      modifies this
      ensures players == Send(old(players), id, m)
      ensures stage == old(stage) && board == old(board)
    {
      players := players[id := players[id] + [m]];
    }

    /** One turn of the loop. */
    method Step(ev: MsgFromPlayer)
      requires Valid()
      modifies this, board
      ensures Valid()
      ensures State() == Next(old(State()), edgeSize, ev)
    {
      match ev {
        case Join => OnJoin();
        case Msg(id, text) => OnMsg(id, text);
        case Leave(id) => OnLeave(id);
      }
    }

    /** The `Join` arm: welcome the first or the second player; a third one is ignored. */
    method OnJoin()
      requires Valid()
      modifies this
      ensures Valid() && board == old(board)
      ensures State() == NextJoin(old(State()), edgeSize)
    {
      match stage {
        case WaitingForPlayers => OnFirstJoin();
        case WaitingForPlayer(p) => OnSecondJoin(p);
        case PlayerOnMove(_) =>
      }
    }

    /** The first `Join`: Circle is welcomed and told to wait. */
    method OnFirstJoin()
      requires Valid() && stage == WaitingForPlayers
      modifies this
      ensures Valid() && board == old(board)
      ensures State() == NextJoin(old(State()), edgeSize)
    {
      assert players == map[];
      players := players[Circle := [WelcomePlayer]];
      SendTo(Circle, WaitingForOtherPlayer);
      stage := WaitingForPlayer(Cross);
      assert players[Circle] == [WelcomePlayer, WaitingForOtherPlayer];
      assert players == map[Circle := [WelcomePlayer, WaitingForOtherPlayer]];
    }

    /** The second `Join`: `p` is welcomed, both see the board, and the first to join moves. */
    method OnSecondJoin(p: PlayerId)
      requires Valid() && stage == WaitingForPlayer(p)
      modifies this
      ensures Valid() && board == old(board)
      ensures State() == NextJoin(old(State()), edgeSize)
    {
      BothPlayers(p);
      players := players[p := [WelcomePlayer]];
      SendToAll([PlayersAreReady, Playboard(board.fields)]);
      stage := PlayerOnMove(Not(p));
      SendTo(Not(p), YourAreOnMove);
      SendTo(p, OtherPlayerIsOnMove);
      EveryoneIn(players);
    }

    /** The `Msg` arm: play the mover's text, or answer a message that makes no move. */
    method OnMsg(id: PlayerId, text: string)
      requires Valid()
      modifies this, board
      ensures Valid()
      ensures State() == NextMsg(old(State()), edgeSize, id, text)
    {
      match stage {
        case PlayerOnMove(m) =>
          if id != m {
            SendTo(id, YouAreNotOnMove);
            return;
          }
          match Converters.FromTcpToXY(text) {
            case Err(_) =>
              SendTo(m, InvalidInput);
            case Ok(pos) =>
              var res := board.NewMove(pos, id);
              match res {
                case Valid(v) =>
                  OnAccepted(m, v);
                case Invalid(e) =>
                  match e {
                    case AlreadyUsed => SendTo(m, AlreadyTaken);
                    case InvalidRange => SendTo(m, InvalidInput);
                  }
                case Panicked =>
                  assert false;
              }
          }
        case _ =>
      }
    }

    /** The tail of an accepted move, once the board holds it. */
    method OnAccepted(m: PlayerId, v: PlayboardApi.ValidMove)
      requires board.Valid() && board.edgeSize == edgeSize && forall p: PlayerId :: p in players
      modifies this
      ensures Valid()
      ensures State() == Accepted(old(players), edgeSize, m, v, old(board.fields))
    {
      AnnounceResult(m, v);
      PassTurnFrom(m);
    }

    /** On a draw or a win: show the finished board, announce the result, reset the board. */
    method AnnounceResult(m: PlayerId, v: PlayboardApi.ValidMove)
      requires board.Valid() && board.edgeSize == edgeSize && forall p: PlayerId :: p in players
      modifies this
      ensures board.Valid() && board.edgeSize == edgeSize && stage == old(stage)
      ensures (players, board.fields) == Announce(old(players), edgeSize, m, v, old(board.fields))
    {
      var moved := board.fields;
      match v {
        case Continue =>
        case Draw =>
          SendToAll([Playboard(moved), MsgToPlayer.Draw]);
          board := new NnBoard.Playboard(edgeSize);
        case Win =>
          SendToAll([Playboard(moved)]);
          SendTo(m, YouWon);
          SendTo(Not(m), YouLose);
          board := new NnBoard.Playboard(edgeSize);
      }
    }

    /** Show both players the board and pass the turn to the other player. */
    method PassTurnFrom(m: PlayerId)
      requires forall p: PlayerId :: p in players
      modifies this
      ensures board == old(board)
      ensures stage == PlayerOnMove(Not(m)) && players == PassTurn(old(players), m, board.fields)
    {
      SendTo(Not(m), Playboard(board.fields));
      SendTo(m, Playboard(board.fields));
      SendTo(Not(m), YourAreOnMove);
      SendTo(m, OtherPlayerIsOnMove);
      stage := PlayerOnMove(Not(m));
    }

    /** The `Leave` arm: remove the player and reset a running game's board. */
    method OnLeave(id: PlayerId)
      requires Valid()
      modifies this
      ensures Valid()
      ensures State() == NextLeave(old(State()), edgeSize, id)
    {
      ghost var before := State();
      if stage.PlayerOnMove? {
        board := new NnBoard.Playboard(edgeSize);
      }
      ghost var fields := board.fields;
      assert fields == if before.stage.PlayerOnMove? then EmptyCells(edgeSize * edgeSize) else before.fields;
      Depart(id);
      assert State() == SessionState(stage, players, fields);
    }

    /** Removes `id`; a remaining player is told and left waiting. */
    method Depart(id: PlayerId)
      modifies this
      ensures stage == Departure(old(players), id).0
      ensures players == Departure(old(players), id).1
      ensures board == old(board)
    {
      var remaining := players - {id};
      AfterRemoval(remaining, id);
      players := remaining;
      if |players| == 1 {
        SendTo(Not(id), OtherPlayerLeave);
        SendTo(Not(id), WaitingForOtherPlayer);
        stage := WaitingForPlayer(id);
        SendTwice(remaining, Not(id), OtherPlayerLeave, WaitingForOtherPlayer);
      } else {
        stage := WaitingForPlayers;
      }
    }
  }
}
