/**
 * The fixed 3×3 board (`playboard::bp_3_3`): nine cells in an array, lines
 * at hard-coded indices, a score-encoded "line still winnable" test, and a
 * `new_move` whose range check accepts every coordinate.
 *
 * `src/game/field.rs` repeats the line, win and draw code of this file
 * verbatim over `Option<Symbols>`; the `Field` module reuses the functions
 * defined here.
 */
module Board33 {
  import opened Wrappers
  import opened Ids
  import opened Cells
  import opened Iters
  import opened PlayboardApi
  import opened RustStr
  import NnBoard

  // ---- the lines ----

  /** `get_iter_row`: `fields[3 * r .. 3 * (r + 1)]`. */
  function Row3(fields: seq<Cell>, r: nat): seq<Cell>
    requires |fields| == 9 && r < 3
  {
    fields[3 * r .. 3 * (r + 1)]
  }

  /** `get_iter_col_`: `fields.iter().skip(c).step_by(3)`. */
  function Col3(fields: seq<Cell>, c: nat): seq<Cell> {
    StepBy(Skip(fields, c), 3)
  }

  /** `get_iter_diag_neg`: `fields.iter().step_by(4)`. */
  function DiagNeg3(fields: seq<Cell>): seq<Cell> {
    StepBy(fields, 4)
  }

  /** `get_iter_diag_pos`: `fields[2..7].iter().step_by(2)`. */
  function DiagPos3(fields: seq<Cell>): seq<Cell>
    requires |fields| == 9
  {
    StepBy(fields[2..7], 2)
  }

  /** Column `c` is the cells `{c, c + 3, c + 6}`. */
  lemma Col3At(fields: seq<Cell>, c: nat)
    requires |fields| == 9 && c < 3
    ensures Col3(fields, c) == [fields[c], fields[c + 3], fields[c + 6]]
  {
    StepByShape(Skip(fields, c), 3, 3);
  }

  /** The negative diagonal is the cells `{0, 4, 8}`. */
  lemma DiagNeg3At(fields: seq<Cell>)
    requires |fields| == 9
    ensures DiagNeg3(fields) == [fields[0], fields[4], fields[8]]
  {
    StepByShape(fields, 4, 3);
  }

  /** The positive diagonal is the cells `{2, 4, 6}`. */
  lemma DiagPos3At(fields: seq<Cell>)
    requires |fields| == 9
    ensures DiagPos3(fields) == [fields[2], fields[4], fields[6]]
  {
    var s := fields[2..7];
    StepByShape(s, 2, 3);
    assert s[0] == fields[2] && s[2] == fields[4] && s[4] == fields[6];
  }

  /**
   * The index sets: row `r` is `{3r, 3r+1, 3r+2}`, column `c` is
   * `{c, c+3, c+6}`, the diagonals are `{0, 4, 8}` and `{2, 4, 6}`.
   */
  lemma LinesAt(fields: seq<Cell>)
    requires |fields| == 9
    ensures forall r | 0 <= r < 3 :: Row3(fields, r) == [fields[3 * r], fields[3 * r + 1], fields[3 * r + 2]]
    ensures forall c | 0 <= c < 3 :: Col3(fields, c) == [fields[c], fields[c + 3], fields[c + 6]]
    ensures DiagNeg3(fields) == [fields[0], fields[4], fields[8]]
    ensures DiagPos3(fields) == [fields[2], fields[4], fields[6]]
  {
    forall c | 0 <= c < 3
      ensures Col3(fields, c) == [fields[c], fields[c + 3], fields[c + 6]]
    {
      Col3At(fields, c);
    }
    DiagNeg3At(fields);
    DiagPos3At(fields);
  }

  // ---- win ----

  /**
   * `check_for_win` at flat position `p`: the row `p / 3`, the column
   * `p % 3`, the negative diagonal when `p` is 0, 4 or 8, the positive one
   * when `p` is 2, 4 or 6.
   */
  predicate CheckForWin3(fields: seq<Cell>, p: nat)
    requires |fields| == 9 && p < 9
  {
    AreSameSomeValues(Row3(fields, p / 3))
    || AreSameSomeValues(Col3(fields, p % 3))
    || ((p == 0 || p == 4 || p == 8) && AreSameSomeValues(DiagNeg3(fields)))
    || ((p == 2 || p == 4 || p == 6) && AreSameSomeValues(DiagPos3(fields)))
  }

  // ---- draw, through the score encoding ----

  /** The fold's weights: a circle is 1, a cross 10, an empty cell 100. */
  function Weight(cell: Cell): (w: nat)
    ensures w == 1 || w == 10 || w == 100
  {
    match cell
    case Some(Circle) => 1
    case Some(Cross) => 10
    case None => 100
  }

  /**
   * The `u16` fold of `is_line_capable`, from the left. Every partial sum is
   * the score of a prefix, so the bound below keeps each of them under
   * `100 * |line|`: at most 300 on a line of three, far below `u16::MAX`.
   */
  function Score(line: seq<Cell>): (s: nat)
    ensures s <= 100 * |line|
    ensures s >= |line|
  {
    if line == [] then 0 else Score(line[..|line| - 1]) + Weight(line[|line| - 1])
  }

  /** `is_line_capable`: the score is none of 12, 21 and 111. */
  predicate IsLineCapable3(line: seq<Cell>) {
    var score := Score(line);
    !(score == 12 || score == 21 || score == 111)
  }

  /** Every partial sum of the fold over a line of three fits in a `u16`. */
  lemma ScoreFitsU16(line: seq<Cell>)
    requires |line| == 3
    ensures forall k | 0 <= k <= 3 :: Score(line[..k]) <= 300 < 0x1_0000
  {
  }

  /**
   * The encoding is exact on a line of three: the score is 12, 21 or 111
   * (two circles and a cross, a circle and two crosses, one of each and an
   * empty cell) exactly when the line holds both symbols.
   */
  lemma ScoreCapableIffNotBoth(line: seq<Cell>)
    requires |line| == 3
    ensures IsLineCapable3(line) <==> !HasBoth(line)
  {
    assert line[..2][..1] == line[..1];
    assert line[..1][..0] == [];
    assert Score(line[..1]) == Weight(line[0]);
    assert Score(line[..2]) == Weight(line[0]) + Weight(line[1]);
    assert line[..3] == line;
    assert Score(line) == Weight(line[0]) + Weight(line[1]) + Weight(line[2]);
    assert Some(Circle) in line <==> line[0] == Some(Circle) || line[1] == Some(Circle) || line[2] == Some(Circle);
    assert Some(Cross) in line <==> line[0] == Some(Cross) || line[1] == Some(Cross) || line[2] == Some(Cross);
  }

  /** `check_for_draw`: all eight lines are incapable. */
  predicate CheckForDraw3(fields: seq<Cell>)
    requires |fields| == 9
  {
    !IsLineCapable3(Row3(fields, 0))
    && !IsLineCapable3(Row3(fields, 1))
    && !IsLineCapable3(Row3(fields, 2))
    && !IsLineCapable3(Col3(fields, 0))
    && !IsLineCapable3(Col3(fields, 1))
    && !IsLineCapable3(Col3(fields, 2))
    && !IsLineCapable3(DiagPos3(fields))
    && !IsLineCapable3(DiagNeg3(fields))
  }

  // ---- agreement with the n×n engine at n = 3 ----

  /** The fixed-index lines are the n×n engine's lines at edge 3. */
  lemma LinesAgree(fields: seq<Cell>)
    requires |fields| == 9
    ensures forall r | 0 <= r < 3 :: Row3(fields, r) == NnBoard.Row(fields, 3, r)
    ensures forall c | 0 <= c < 3 :: Col3(fields, c) == NnBoard.Col(fields, 3, c)
    ensures DiagNeg3(fields) == NnBoard.DiagNeg(fields, 3)
    ensures DiagPos3(fields) == NnBoard.DiagPos(fields, 3)
  {
    LinesAt(fields);
    NnBoard.DiagPosCellsAt(fields, 3);
    assert NnBoard.At(3, NnBoard.DiagPosLine, 1) == 4;
  }

  /** `check_for_win` here and in the n×n engine agree on every on-board cell. */
  lemma WinAgrees(fields: seq<Cell>, r: nat, c: nat)
    requires |fields| == 9 && r < 3 && c < 3
    ensures CheckForWin3(fields, 3 * r + c) == NnBoard.CheckForWin(fields, 3, (r, c))
  {
    LinesAgree(fields);
    assert (3 * r + c) / 3 == r && (3 * r + c) % 3 == c;
  }

  /** Each line's score test is the n×n engine's "no two symbols" test. */
  lemma CapableAgrees(line: seq<Cell>)
    requires |line| == 3
    ensures IsLineCapable3(line) == NnBoard.LineCapable(line)
  {
    ScoreCapableIffNotBoth(line);
  }

  /** Every line has three cells. */
  lemma LinesLength(fields: seq<Cell>)
    requires |fields| == 9
    ensures forall r | 0 <= r < 3 :: |Row3(fields, r)| == 3
    ensures forall c | 0 <= c < 3 :: |Col3(fields, c)| == 3
    ensures |DiagNeg3(fields)| == 3 && |DiagPos3(fields)| == 3
  {
    forall r | 0 <= r < 3
      ensures |Row3(fields, r)| == 3
    {
      assert 3 * (r + 1) == 3 * r + 3;
    }
    forall c | 0 <= c < 3
      ensures |Col3(fields, c)| == 3
    {
      Col3At(fields, c);
    }
    DiagNeg3At(fields);
    DiagPos3At(fields);
  }

  /** At edge 3, "some row is capable" is the disjunction over the three rows. */
  lemma RowsAtThree(fields: seq<Cell>)
    requires |fields| == 9
    ensures (exists r | 0 <= r < 3 :: NnBoard.LineCapable(NnBoard.Row(fields, 3, r))) <==>
            NnBoard.LineCapable(NnBoard.Row(fields, 3, 0)) || NnBoard.LineCapable(NnBoard.Row(fields, 3, 1))
            || NnBoard.LineCapable(NnBoard.Row(fields, 3, 2))
  {
    if r :| 0 <= r < 3 && NnBoard.LineCapable(NnBoard.Row(fields, 3, r)) {
      assert r == 0 || r == 1 || r == 2;
    }
  }

  /** At edge 3, "some column is capable" is the disjunction over the three columns. */
  lemma ColumnsAtThree(fields: seq<Cell>)
    requires |fields| == 9
    ensures (exists c | 0 <= c < 3 :: NnBoard.LineCapable(NnBoard.Col(fields, 3, c))) <==>
            NnBoard.LineCapable(NnBoard.Col(fields, 3, 0)) || NnBoard.LineCapable(NnBoard.Col(fields, 3, 1))
            || NnBoard.LineCapable(NnBoard.Col(fields, 3, 2))
  {
    if c :| 0 <= c < 3 && NnBoard.LineCapable(NnBoard.Col(fields, 3, c)) {
      assert c == 0 || c == 1 || c == 2;
    }
  }

  /** The n×n draw check at edge 3, its quantifiers written out line by line. */
  lemma IsDrawAtThree(fields: seq<Cell>)
    requires |fields| == 9
    ensures NnBoard.IsDraw(fields, 3) ==
            !(NnBoard.LineCapable(NnBoard.Row(fields, 3, 0)) || NnBoard.LineCapable(NnBoard.Row(fields, 3, 1))
              || NnBoard.LineCapable(NnBoard.Row(fields, 3, 2))
              || NnBoard.LineCapable(NnBoard.Col(fields, 3, 0)) || NnBoard.LineCapable(NnBoard.Col(fields, 3, 1))
              || NnBoard.LineCapable(NnBoard.Col(fields, 3, 2))
              || NnBoard.LineCapable(NnBoard.DiagNeg(fields, 3)) || NnBoard.LineCapable(NnBoard.DiagPos(fields, 3)))
  {
    RowsAtThree(fields);
    ColumnsAtThree(fields);
  }

  /** `check_for_draw` here and in the n×n engine agree. */
  lemma DrawAgrees(fields: seq<Cell>)
    requires |fields| == 9
    ensures CheckForDraw3(fields) == NnBoard.IsDraw(fields, 3)
  {
    IsDrawAtThree(fields);
    LinesAgree(fields);
    LinesLength(fields);
    CapableAgrees(Row3(fields, 0));
    CapableAgrees(Row3(fields, 1));
    CapableAgrees(Row3(fields, 2));
    CapableAgrees(Col3(fields, 0));
    CapableAgrees(Col3(fields, 1));
    CapableAgrees(Col3(fields, 2));
    CapableAgrees(DiagNeg3(fields));
    CapableAgrees(DiagPos3(fields));
  }

  // ---- new_move ----

  /** `check_range` as written: `value > 1 || value < 4`, which every value meets. */
  predicate CheckRange(value: nat) {
    value > 1 || value < 4
  }

  /** The evidently intended range check: a coordinate is below 3. */
  predicate CheckRangeCorrected(value: nat) {
    value < 3
  }

  /** The verdict on a board just written at cell `p`: win, else draw, else the game goes on. */
  function Verdict3(placed: seq<Cell>, p: nat): ValidMove
    requires |placed| == 9 && p < 9
  {
    if CheckForWin3(placed, p) then Win
    else if CheckForDraw3(placed) then Draw
    else Continue
  }

  /** The part of `new_move` after its range check: index `3 * r + c`, panic past cell 8. */
  function PlaceSpec(fields: seq<Cell>, pos: (nat, nat), id: PlayerId): (res: (MoveOutcome, seq<Cell>))
    requires |fields| == 9
    ensures res.0 == Panicked <==> 3 * pos.0 + pos.1 >= 9
    ensures !res.0.Valid? ==> res.1 == fields
    ensures res.0 == Invalid(AlreadyUsed) <==> 3 * pos.0 + pos.1 < 9 && fields[3 * pos.0 + pos.1].Some?
    ensures res.0 != Invalid(InvalidRange)
    ensures res.0.Valid? ==>
              3 * pos.0 + pos.1 < 9 && fields[3 * pos.0 + pos.1] == None
              && res.1 == fields[3 * pos.0 + pos.1 := Some(id)]
  {
    var p := 3 * pos.0 + pos.1;
    if p >= 9 then (Panicked, fields)
    else if fields[p].Some? then (Invalid(AlreadyUsed), fields)
    else
      var placed := fields[p := Some(id)];
      (Valid(Verdict3(placed, p)), placed)
  }

  /** `new_move` as written: `InvalidRange` is never returned. */
  function NewMoveSpec(fields: seq<Cell>, pos: (nat, nat), id: PlayerId): (res: (MoveOutcome, seq<Cell>))
    requires |fields| == 9
    ensures res.0 != Invalid(InvalidRange)
    ensures res == PlaceSpec(fields, pos, id)
  {
    if !CheckRange(pos.0) || !CheckRange(pos.1) then (Invalid(InvalidRange), fields)
    else PlaceSpec(fields, pos, id)
  }

  /** `new_move` with the corrected range check. */
  function NewMoveCheckedSpec(fields: seq<Cell>, pos: (nat, nat), id: PlayerId): (res: (MoveOutcome, seq<Cell>))
    requires |fields| == 9
    ensures res.0 != Panicked
    ensures res.0 == Invalid(InvalidRange) <==> !(pos.0 < 3 && pos.1 < 3)
  {
    if !CheckRangeCorrected(pos.0) || !CheckRangeCorrected(pos.1) then (Invalid(InvalidRange), fields)
    else PlaceSpec(fields, pos, id)
  }

  /**
   * The verdict on the cell `(r, c)` is `Win` exactly when a line through it
   * is completed, and `Draw` exactly when none is and every line is blocked.
   */
  lemma VerdictMeaning(placed: seq<Cell>, r: nat, c: nat)
    requires |placed| == 9 && r < 3 && c < 3
    ensures Verdict3(placed, 3 * r + c) == Win <==> NnBoard.WinRef(placed, 3, r, c)
    ensures Verdict3(placed, 3 * r + c) == Draw <==> !NnBoard.WinRef(placed, 3, r, c) && NnBoard.DrawRef(placed, 3)
  {
    WinAgrees(placed, r, c);
    NnBoard.WinIff(placed, 3, r, c);
    DrawAgrees(placed);
    NnBoard.DrawIff(placed, 3);
  }

  /**
   * An accepted move reports `Win` exactly when a line through the cell it
   * wrote is completed, and `Draw` exactly when none is and every line of
   * the board is blocked; unlike the n×n engine, the lines checked are those
   * of the cell actually written, even when the coordinates were off the
   * board.
   */
  lemma PlaceMeaning(fields: seq<Cell>, pos: (nat, nat), id: PlayerId)
    requires |fields| == 9
    ensures var res := PlaceSpec(fields, pos, id);
            var p := 3 * pos.0 + pos.1;
            res.0.Valid? ==> (res.0.valid == Win <==> NnBoard.WinRef(res.1, 3, p / 3, p % 3))
    ensures var res := PlaceSpec(fields, pos, id);
            var p := 3 * pos.0 + pos.1;
            res.0.Valid? ==>
              (res.0.valid == Draw <==> !NnBoard.WinRef(res.1, 3, p / 3, p % 3) && NnBoard.DrawRef(res.1, 3))
  {
    var res := PlaceSpec(fields, pos, id);
    var p := 3 * pos.0 + pos.1;
    if res.0.Valid? {
      var r, c := p / 3, p % 3;
      assert 3 * r + c == p;
      assert res.0.valid == Verdict3(res.1, 3 * r + c);
      VerdictMeaning(res.1, r, c);
    }
  }

  /** On an on-board cell both boards give the same verdict. */
  lemma VerdictAgrees(placed: seq<Cell>, pos: (nat, nat))
    requires |placed| == 9 && pos.0 < 3 && pos.1 < 3
    ensures Verdict3(placed, 3 * pos.0 + pos.1) == NnBoard.Verdict(placed, 3, pos)
  {
    WinAgrees(placed, pos.0, pos.1);
    DrawAgrees(placed);
  }

  /** A move onto an empty cell writes it and reports the verdict on the written board. */
  lemma PlaceOnEmpty(fields: seq<Cell>, pos: (nat, nat), id: PlayerId)
    requires |fields| == 9 && 3 * pos.0 + pos.1 < 9 && fields[3 * pos.0 + pos.1] == None
    ensures var p := 3 * pos.0 + pos.1;
            PlaceSpec(fields, pos, id) == (Valid(Verdict3(fields[p := Some(id)], p)), fields[p := Some(id)])
  {
    var p := 3 * pos.0 + pos.1;
    var res := PlaceSpec(fields, pos, id);
    assert res.1 == fields[p := Some(id)];
    assert res.0 == Valid(Verdict3(fields[p := Some(id)], p));
  }

  /** On the board, the move after the range check is the n×n engine's at edge 3. */
  lemma PlaceAgrees(fields: seq<Cell>, pos: (nat, nat), id: PlayerId)
    requires |fields| == 9 && pos.0 < 3 && pos.1 < 3
    ensures PlaceSpec(fields, pos, id) == NnBoard.PlaceSpec(fields, 3, pos, id)
  {
    var p := 3 * pos.0 + pos.1;
    var here := PlaceSpec(fields, pos, id);
    var there := NnBoard.PlaceSpec(fields, 3, pos, id);
    if fields[p] == None {
      VerdictAgrees(fields[p := Some(id)], pos);
      PlaceOnEmpty(fields, pos, id);
      NnBoard.PlaceOnEmpty(fields, 3, pos, id);
    }
    assert here.0 == there.0 && here.1 == there.1;
  }

  /** With the corrected range check this board is the n×n engine at edge 3. */
  lemma {:induction false} CheckedAgreesWithNn(fields: seq<Cell>, pos: (nat, nat), id: PlayerId)
    requires |fields| == 9
    ensures NewMoveCheckedSpec(fields, pos, id) == NnBoard.NewMoveSpec(fields, 3, pos, id)
  {
    if pos.0 < 3 && pos.1 < 3 {
      PlaceAgrees(fields, pos, id);
      NnBoard.NewMoveOnBoard(fields, 3, pos, id);
    }
  }

  /** As written, `(0, 5)` is accepted and writes cell `(1, 2)`; the corrected check rejects it. */
  lemma AsWrittenAcceptsOffBoard(fields: seq<Cell>, id: PlayerId)
    requires |fields| == 9 && fields[5] == None
    ensures NewMoveSpec(fields, (0, 5), id).0.Valid?
    ensures NewMoveSpec(fields, (0, 5), id).1 == NewMoveCheckedSpec(fields, (1, 2), id).1
    ensures NewMoveCheckedSpec(fields, (0, 5), id).0 == Invalid(InvalidRange)
  {
  }

  /** As written, `(3, 0)` passes the range check and indexes past the array. */
  lemma AsWrittenRowThreePanics(fields: seq<Cell>, id: PlayerId)
    requires |fields| == 9
    ensures NewMoveSpec(fields, (3, 0), id).0 == Panicked
    ensures NewMoveCheckedSpec(fields, (3, 0), id).0 == Invalid(InvalidRange)
  {
  }

  // ---- the board object ----

  /** `bp_3_3::Playboard`: nine cells in a fixed array, updated in place. */
  class Playboard {
    const fields: array<Cell>

    /** `Playboard::new`: nine empty cells. */
    constructor ()
      ensures fresh(fields) && fields.Length == 9 && fields[..] == EmptyCells(9)
    {
      fields := new Cell[9](_ => None);
    }

    /** `new_move` as written. */
    method NewMove(pos: (usize, usize), id: PlayerId) returns (r: MoveOutcome)
      requires fields.Length == 9
      modifies fields
      ensures r == NewMoveSpec(old(fields[..]), pos, id).0
      ensures fields[..] == NewMoveSpec(old(fields[..]), pos, id).1
    {
      if !CheckRange(pos.0) || !CheckRange(pos.1) {
        return Invalid(InvalidRange);
      }
      var p := 3 * pos.0 + pos.1;
      if p >= fields.Length {
        return Panicked;
      }
      if fields[p].Some? {
        return Invalid(AlreadyUsed);
      }
      fields[p] := Some(id);
      return MoveOutcome.Valid(Verdict3(fields[..], p));
    }
  }
}
