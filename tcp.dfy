/**
 * The TCP player's outbound formatter (`Player::send_msg_to_player`) and
 * the line-ending stripping of `get_user_input`. A player keeps one bit,
 * whether the last message it was sent ended with a newline, so that
 * `OtherPlayerLeave` can start on a fresh line after a prompt.
 */
module Tcp {
  import opened Ids
  import opened PlayerManager

  predicate EndsWith(s: string, suffix: string) {
    |suffix| <= |s| && s[|s| - |suffix|..] == suffix
  }

  predicate StartsWith(s: string, prefix: string) {
    |prefix| <= |s| && s[..|prefix|] == prefix
  }

  /** The prompts, which leave the cursor on the line for the player's answer. */
  predicate IsPrompt(msg: MsgToPlayer<string>) {
    msg.YourAreOnMove? || msg.InvalidInput? || msg.AlreadyTaken?
  }

  /** How each text ends: `": "` after a prompt, a line break otherwise. */
  function Ending(msg: MsgToPlayer<string>): string {
    if IsPrompt(msg) then ": " else "\r\n"
  }

  /** The fixed texts of the message kinds, without their endings. */
  const WelcomePlayerText: string := "Welcome player"
  const WaitingForOtherPlayerText: string := "We are waiting for another player"
  const PlayersAreReadyText: string := "Both players are ready\r\n"
  const OtherPlayerLeaveText: string := "Other player leave game. Congratulation you win!"
  const YourAreOnMoveText: string := "Now you are on move"
  const OtherPlayerIsOnMoveText: string := "Now is other player on move"
  const InvalidInputText: string := "You pass invalid input. Please repeat your input"
  const AlreadyTakenText: string := "Required field is already taken. Please repeat your input"
  const YouAreNotOnMoveText: string := "You are not on move. Please wait till other player move"
  const YouWonText: string := "Congratulation, you win."
  const YouLoseText: string := "Unfortunately you lose."
  const DrawText: string := "Nobody win"
  const BoardHeader: string := "------------------\r\nCurrent game field\r\n\r\n"

  /** Each text without its ending; a board arrives already rendered. */
  function Body(msg: MsgToPlayer<string>): string {
    match msg
    case WelcomePlayer => WelcomePlayerText
    case WaitingForOtherPlayer => WaitingForOtherPlayerText
    case PlayersAreReady => PlayersAreReadyText
    case OtherPlayerLeave => OtherPlayerLeaveText
    case YourAreOnMove => YourAreOnMoveText
    case OtherPlayerIsOnMove => OtherPlayerIsOnMoveText
    case InvalidInput => InvalidInputText
    case AlreadyTaken => AlreadyTakenText
    case YouAreNotOnMove => YouAreNotOnMoveText
    case YouWon => YouWonText
    case YouLose => YouLoseText
    case Draw => DrawText
    case Playboard(board) => BoardHeader + board
  }

  /** The text of each message kind. */
  function Text(msg: MsgToPlayer<string>): string {
    Body(msg) + Ending(msg)
  }

  /** The player prefix, `"[o] "` or `"[x] "`. */
  function Prefix(id: PlayerId): (p: string)
    ensures |p| == 4 && p[0] == '[' && p[1..2] == Name(id) && p[2..] == "] "
  {
    "[" + Name(id) + "] "
  }

  /** The flag after sending `msg`. */
  function NextFlag(flag: bool, msg: MsgToPlayer<string>): bool {
    match msg
    case YourAreOnMove => false
    case OtherPlayerLeave => flag
    case _ => true
  }

  /**
   * The string queued for `msg` by a player `id` whose flag is `flag`: a
   * line break first for `OtherPlayerLeave` after an open line, then the
   * prefix unless the message is a board, then the text.
   */
  function Render(id: PlayerId, flag: bool, msg: MsgToPlayer<string>): string {
    var lead := if msg.OtherPlayerLeave? && !flag then "\r\n" else "";
    var prefix := if msg.Playboard? then "" else Prefix(id);
    lead + (prefix + Text(msg))
  }

  /** `Render` spelled out as `send_msg_to_player` builds the string. */
  lemma RenderSteps(id: PlayerId, flag: bool, msg: MsgToPlayer<string>)
    ensures Render(id, flag, msg) ==
            var text := if msg.Playboard? then Text(msg) else Prefix(id) + Text(msg);
            if msg.OtherPlayerLeave? && !flag then "\r\n" + text else text
  {
    assert "" + Text(msg) == Text(msg);
    assert "" + (Prefix(id) + Text(msg)) == Prefix(id) + Text(msg);
  }

  /** A string starts with any of its prefixes. */
  lemma ConcatStartsWith(a: string, b: string)
    ensures StartsWith(a + b, a)
  {
    assert (a + b)[..|a|] == a;
  }

  /** `a + (b + c)` starts with `a + b`. */
  lemma ConcatStartsWith3(a: string, b: string, c: string)
    ensures StartsWith(a + (b + c), a + b)
  {
    assert a + (b + c) == (a + b) + c;
    ConcatStartsWith(a + b, c);
  }

  /** Every message but a board carries the player's prefix, after an optional line break. */
  lemma RenderPrefix(id: PlayerId, flag: bool, msg: MsgToPlayer<string>)
    requires !msg.Playboard?
    ensures var out := Render(id, flag, msg);
            if msg.OtherPlayerLeave? && !flag
            then StartsWith(out, "\r\n" + Prefix(id))
            else StartsWith(out, Prefix(id))
  {
    var lead := if msg.OtherPlayerLeave? && !flag then "\r\n" else "";
    ConcatStartsWith3(lead, Prefix(id), Text(msg));
    assert "" + Prefix(id) == Prefix(id);
  }

  /** A board is framed by the header `BoardHeader`, written out here, and a line break, and carries no prefix. */
  lemma RenderBoard(id: PlayerId, flag: bool, board: string)
    ensures Render(id, flag, Playboard(board)) ==
              "------------------\r\nCurrent game field\r\n\r\n" + board + "\r\n"
  {
  }

  /** A string ends with any of its suffixes. */
  lemma ConcatEndsWith(a: string, b: string)
    ensures EndsWith(a + b, b)
  {
    assert (a + b)[|a|..] == b;
  }

  /** The prompts end with `": "`, the others with a line break. */
  lemma TextEndings(msg: MsgToPlayer<string>)
    ensures IsPrompt(msg) ==> EndsWith(Text(msg), ": ")
    ensures !IsPrompt(msg) ==> EndsWith(Text(msg), "\r\n")
  {
    ConcatEndsWith(Body(msg), Ending(msg));
  }

  /** The last string queued ends a line, or nothing was queued yet. */
  predicate AtLineStart(sent: seq<string>) {
    sent == [] || EndsWith(sent[|sent| - 1], "\n")
  }

  /** The last character of each text: a space after the prompts, a newline otherwise. */
  lemma TextLastChar(msg: MsgToPlayer<string>)
    ensures |Text(msg)| > 0
    ensures Text(msg)[|Text(msg)| - 1] == if IsPrompt(msg) then ' ' else '\n'
  {
    var b := Body(msg);
    var e := Ending(msg);
    assert (b + e)[|b| + |e| - 1] == e[|e| - 1];
  }

  /** The last character of `a + (b + c)` is that of `c`. */
  lemma LastOfConcat3(a: string, b: string, c: string)
    requires |c| > 0
    ensures |a + (b + c)| > 0 && (a + (b + c))[|a + (b + c)| - 1] == c[|c| - 1]
  {
  }

  /** Rendering keeps the ending of the text: a space for the prompts, a newline otherwise. */
  lemma RenderEnding(id: PlayerId, flag: bool, msg: MsgToPlayer<string>)
    ensures var out := Render(id, flag, msg);
            |out| > 0 && (out[|out| - 1] == '\n' <==> !IsPrompt(msg))
  {
    TextLastChar(msg);
    var lead := if msg.OtherPlayerLeave? && !flag then "\r\n" else "";
    var prefix := if msg.Playboard? then "" else Prefix(id);
    LastOfConcat3(lead, prefix, Text(msg));
  }

  /** After queueing `out`, the queue is at a line start exactly when `out` ends with a newline. */
  lemma AtLineStartAfter(sent: seq<string>, out: string)
    requires |out| > 0
    ensures AtLineStart(sent + [out]) <==> out[|out| - 1] == '\n'
  {
    var after := sent + [out];
    assert after[|after| - 1] == out;
    assert out[|out| - 1..] == [out[|out| - 1]];
  }

  /**
   * Where the flag tells the truth about the last string and keeps doing
   * so: after every kind except the two re-prompts `InvalidInput` and
   * `AlreadyTaken` (which end with `": "` but set the flag) and
   * `OtherPlayerLeave` sent with the flag down (which ends a line but
   * leaves the flag down).
   */
  lemma {:induction false} FlagStaysHonest(id: PlayerId, flag: bool, sent: seq<string>, msg: MsgToPlayer<string>)
    requires flag == AtLineStart(sent)
    requires !msg.InvalidInput? && !msg.AlreadyTaken? && !(msg.OtherPlayerLeave? && !flag)
    ensures NextFlag(flag, msg) == AtLineStart(sent + [Render(id, flag, msg)])
  {
    RenderEnding(id, flag, msg);
    AtLineStartAfter(sent, Render(id, flag, msg));
  }

  /** The re-prompts leave the flag up although the line is still open. */
  lemma RepromptsBreakTheFlag(id: PlayerId, flag: bool, msg: MsgToPlayer<string>)
    requires msg.InvalidInput? || msg.AlreadyTaken?
    ensures NextFlag(flag, msg) && !AtLineStart([Render(id, flag, msg)])
  {
    RenderEnding(id, flag, msg);
    AtLineStartAfter([], Render(id, flag, msg));
  }

  /** `OtherPlayerLeave` after an open line starts with a line break, so it begins a fresh line. */
  lemma LeaveOnFreshLine(id: PlayerId, flag: bool, sent: seq<string>)
    requires flag == AtLineStart(sent)
    ensures AtLineStart(sent) || StartsWith(Render(id, flag, OtherPlayerLeave), "\r\n")
  {
    RenderPrefix(id, flag, OtherPlayerLeave);
  }

  /** `Player`: its id, the flag, and the strings queued on its channel so far. */
  class Player {
    const id: PlayerId
    var lastMsgEndsWithNewLine: bool
    var sent: seq<string>

    /** `Player::new`: nothing queued, the flag up. */
    constructor (id: PlayerId)
      ensures this.id == id && lastMsgEndsWithNewLine && sent == []
    {
      this.id := id;
      lastMsgEndsWithNewLine := true;
      sent := [];
    }

    /** `send_msg_to_player`: text, prefix, flag, and exactly one string queued. */
    method SendMsgToPlayer(msg: MsgToPlayer<string>)
      modifies this
      ensures sent == old(sent) + [Render(id, old(lastMsgEndsWithNewLine), msg)]
      ensures lastMsgEndsWithNewLine == NextFlag(old(lastMsgEndsWithNewLine), msg)
    {
      var text := Text(msg);
      if !msg.Playboard? {
        text := Prefix(id) + text;
      }
      if msg.YourAreOnMove? {
        lastMsgEndsWithNewLine := false;
      } else if msg.OtherPlayerLeave? {
        if !lastMsgEndsWithNewLine {
          text := "\r\n" + text;
        }
      } else {
        lastMsgEndsWithNewLine := true;
      }
      RenderSteps(id, old(lastMsgEndsWithNewLine), msg);
      sent := sent + [text];
    }
  }

  // ---- get_user_input ----

  /** `strip_suffix("\r\n")`, else `strip_suffix("\n")`, else the line unchanged. */
  function StripLineEnd(s: string): (r: string)
    ensures EndsWith(s, "\r\n") ==> s == r + "\r\n"
    ensures !EndsWith(s, "\r\n") && EndsWith(s, "\n") ==> s == r + "\n"
    ensures !EndsWith(s, "\n") ==> r == s
  {
    if EndsWith(s, "\r\n") then s[..|s| - 2]
    else if EndsWith(s, "\n") then s[..|s| - 1]
    else s
  }

  /** A line typed with either ending comes back without it. */
  lemma StripRoundTrip(line: string)
    requires !EndsWith(line, "\r") && !EndsWith(line, "\n")
    ensures StripLineEnd(line + "\r\n") == line
    ensures StripLineEnd(line + "\n") == line
    ensures StripLineEnd(line) == line
  {
    assert (line + "\r\n")[..|line|] == line;
    assert (line + "\n")[..|line|] == line;
    if |line| > 0 {
      assert (line + "\n")[|line| - 1..] == [line[|line| - 1], '\n'];
    }
  }
}
