/**
 * The n×n board engine (`playboard::pb_n_n`): a flat vector of
 * `edge_size * edge_size` cells, row-major, and `new_move`, which checks the
 * coordinates, rejects a taken cell, writes the cell, and then asks whether
 * the move won (through the placed cell only) and, failing that, whether
 * the board is a draw (every line blocked).
 *
 * The lines are built as the source builds them, from slice iterators
 * (`Row`, `Col`, `DiagNeg`, `DiagPos`); `At` and the ghost predicates below
 * it restate them as index sets, and the lemmas connect the two views.
 */
module NnBoard {
  import opened Wrappers
  import opened Ids
  import opened Cells
  import opened Iters
  import opened PlayboardApi
  import opened RustStr

  // ---- index arithmetic ----

  /** For `r, c < n` the flat index `n * r + c` is on the board, and so is the whole of row `r`. */
  lemma Bounds(n: nat, r: nat, c: nat)
    requires r < n && c < n
    ensures n * r + c < n * n
    ensures n * (r + 1) == n * r + n <= n * n
  {
    MulLe(r + 1, n, n);
  }

  /** A flat index below `n * n` has its row below `n`. */
  lemma RowOfFlat(n: nat, r: nat, c: nat)
    requires n * r + c < n * n
    ensures r < n
  {
    if r >= n {
      MulLe(n, r, n);
    }
  }

  /** Distinct on-board coordinates have distinct flat indices. */
  lemma FlatIndexInjective(n: nat, r1: nat, c1: nat, r2: nat, c2: nat)
    requires r1 < n && c1 < n && r2 < n && c2 < n
    requires n * r1 + c1 == n * r2 + c2
    ensures r1 == r2 && c1 == c2
  {
    if r1 < r2 {
      MulLe(r1 + 1, r2, n);
    } else if r2 < r1 {
      MulLe(r2 + 1, r1, n);
    }
  }

  /** The row-major flat index of the on-board cell `(r, c)`. */
  function Flat(n: nat, r: nat, c: nat): (i: nat)
    requires r < n && c < n
    ensures i < n * n
  {
    Bounds(n, r, c);
    n * r + c
  }

  /** The cell at row `r`, column `c`. */
  function CellAt(fields: seq<Cell>, n: nat, r: nat, c: nat): Cell
    requires |fields| == n * n && r < n && c < n
  {
    Bounds(n, r, c);
    fields[n * r + c]
  }

  /** The board after `id` takes the on-board cell `(r, c)`; every other cell is unchanged. */
  function Placed(fields: seq<Cell>, n: nat, r: nat, c: nat, id: PlayerId): (after: seq<Cell>)
    requires |fields| == n * n && r < n && c < n
    ensures |after| == n * n
    ensures CellAt(after, n, r, c) == Some(id)
    ensures forall i | 0 <= i < n * n && i != n * r + c :: after[i] == fields[i]
  {
    Bounds(n, r, c);
    fields[n * r + c := Some(id)]
  }

  // ---- the lines, as the source's iterators build them ----

  /** `get_iter_row`: the slice `fields[n * r .. n * (r + 1)]`. */
  function Row(fields: seq<Cell>, n: nat, r: nat): seq<Cell>
    requires |fields| == n * n && r < n
  {
    Bounds(n, r, 0);
    fields[n * r .. n * (r + 1)]
  }

  /** `get_iter_col_`: `fields.iter().skip(c).step_by(n)`. */
  function Col(fields: seq<Cell>, n: nat, c: nat): seq<Cell>
    requires n > 0
  {
    StepBy(Skip(fields, c), n)
  }

  /** `get_iter_diag_neg`: `fields.iter().step_by(n + 1)`. */
  function DiagNeg(fields: seq<Cell>, n: nat): seq<Cell> {
    StepBy(fields, n + 1)
  }

  /**
   * `get_iter_diag_pos`: `fields[n - 1 .. len - 1].iter().step_by(n - 1)`;
   * with `n == 1` the source would panic in `step_by(0)`.
   */
  function DiagPos(fields: seq<Cell>, n: nat): seq<Cell>
    requires |fields| == n * n && n >= 2
  {
    MulLe(1, n, n);
    StepBy(fields[n - 1 .. |fields| - 1], n - 1)
  }

  // ---- win and draw, as the source computes them ----

  /** On a 1×1 board the row of a taken cell is already uniform. */
  lemma OneByOneRowWins(fields: seq<Cell>, r: nat)
    requires |fields| == 1 && r < 1 && fields[0].Some?
    ensures AreSameSomeValues(Row(fields, 1, r))
  {
    assert Row(fields, 1, r) == [fields[0]];
    assert forall i | 0 <= i < 1 :: [fields[0]][i] == Some(fields[0].value);
  }

  /**
   * `check_for_win`: the row or the column of `pos` is uniform or, on a
   * board of odd edge only, a diagonal that `pos` lies on is uniform. On an
   * empty 1×1 board the source would reach the positive diagonal and panic
   * in `step_by(0)`; after a move it never does, because the row of the
   * placed cell is uniform (`OneByOneWins`), so the model skips it there.
   */
  predicate CheckForWin(fields: seq<Cell>, n: nat, pos: (nat, nat))
    requires |fields| == n * n && pos.0 < n
  {
    if AreSameSomeValues(Row(fields, n, pos.0)) || AreSameSomeValues(Col(fields, n, pos.1)) then true
    else if n % 2 == 1 then
      (pos.0 == pos.1 && AreSameSomeValues(DiagNeg(fields, n)))
      || (pos.0 + pos.1 == n - 1 && n >= 2 && AreSameSomeValues(DiagPos(fields, n)))
    else false
  }

  /** `is_line_capable`, as a property: a line is still winnable unless it holds both symbols. */
  predicate LineCapable(line: seq<Cell>) {
    !HasBoth(line)
  }

  /** A one-cell line cannot hold both symbols, so the row of a 1×1 board is always capable. */
  lemma OneByOneRowCapable(fields: seq<Cell>, n: nat)
    requires |fields| == n * n
    ensures n == 1 ==> LineCapable(Row(fields, n, 0))
  {
  }

  /**
   * `check_for_draw`: no row and no column is capable and, on a board of odd
   * edge only, neither diagonal is. The `||` chain stops at the first capable
   * line; on a 1×1 board the row is capable (`OneByOneRowCapable`), so the
   * positive diagonal, which would panic in `step_by(0)`, is never evaluated.
   */
  predicate IsDraw(fields: seq<Cell>, n: nat)
    requires |fields| == n * n
  {
    var rowsCapable := exists r | 0 <= r < n :: LineCapable(Row(fields, n, r));
    var columnsCapable := exists c | 0 <= c < n :: LineCapable(Col(fields, n, c));
    OneByOneRowCapable(fields, n);
    if n % 2 == 1 then
      !(rowsCapable || columnsCapable || LineCapable(DiagNeg(fields, n)) || LineCapable(DiagPos(fields, n)))
    else
      !(rowsCapable || columnsCapable)
  }

  /** `is_line_capable`: a loop with two flags and an early return. */
  method IsLineCapable(line: seq<Cell>) returns (capable: bool)
    ensures capable <==> !(Some(Circle) in line && Some(Cross) in line)
  {
    var userCross := false;
    var userCircle := false;
    for i := 0 to |line|
      invariant userCircle <==> Some(Circle) in line[..i]
      invariant userCross <==> Some(Cross) in line[..i]
      invariant !(userCircle && userCross)
    {
      assert line[..i + 1] == line[..i] + [line[i]];
      match line[i] {
        case Some(x) =>
          match x {
            case Circle => userCircle := true;
            case Cross => userCross := true;
          }
        case None =>
      }
      if userCircle && userCross {
        return false;
      }
    }
    assert line[..|line|] == line;
    return true;
  }

  /** `(0..n).any(|r| is_line_capable(get_iter_row(r)))`, stopping at the first capable row. */
  method AnyRowCapable(fields: seq<Cell>, n: nat) returns (capable: bool)
    requires |fields| == n * n
    ensures capable <==> exists r | 0 <= r < n :: LineCapable(Row(fields, n, r))
  {
    capable := false;
    var r := 0;
    while r < n && !capable
      invariant 0 <= r <= n
      invariant capable <==> exists k | 0 <= k < r :: LineCapable(Row(fields, n, k))
    {
      capable := IsLineCapable(Row(fields, n, r));
      r := r + 1;
    }
  }

  /** `(0..n).any(|c| is_line_capable(get_iter_col_(c)))`, stopping at the first capable column. */
  method AnyColumnCapable(fields: seq<Cell>, n: nat) returns (capable: bool)
    requires |fields| == n * n && n > 0
    ensures capable <==> exists c | 0 <= c < n :: LineCapable(Col(fields, n, c))
  {
    capable := false;
    var c := 0;
    while c < n && !capable
      invariant 0 <= c <= n
      invariant capable <==> exists k | 0 <= k < c :: LineCapable(Col(fields, n, k))
    {
      capable := IsLineCapable(Col(fields, n, c));
      c := c + 1;
    }
  }

  /** `check_for_draw`, computed as the source does, line by line. */
  method CheckForDraw(fields: seq<Cell>, n: nat) returns (draw: bool)
    requires |fields| == n * n
    ensures draw == IsDraw(fields, n)
  {
    OneByOneRowCapable(fields, n);
    var rowsCapable := AnyRowCapable(fields, n);
    var columnsCapable := false;
    if n > 0 {
      columnsCapable := AnyColumnCapable(fields, n);
    }
    if n % 2 == 1 {
      if rowsCapable || columnsCapable {
        return false;
      }
      var negCapable := IsLineCapable(DiagNeg(fields, n));
      if negCapable {
        return false;
      }
      var posCapable := IsLineCapable(DiagPos(fields, n));
      return !posCapable;
    }
    return !(rowsCapable || columnsCapable);
  }

  // ---- the same lines, as index sets ----

  /** The lines of an n×n board: its rows, its columns and its two diagonals. */
  datatype Line = RowLine(r: nat) | ColLine(c: nat) | DiagNegLine | DiagPosLine

  /** The lines that count: every row and column, and the diagonals only when `n` is odd. */
  predicate IsLine(n: nat, line: Line) {
    match line
    case RowLine(r) => r < n
    case ColLine(c) => c < n
    case _ => n % 2 == 1
  }

  /**
   * The flat index of the `k`-th cell of a line: row `r` is `(r, k)`, column
   * `c` is `(k, c)`, the negative diagonal `(k, k)`, the positive one `(k, n - 1 - k)`.
   */
  function At(n: nat, line: Line, k: nat): (i: nat)
    requires IsLine(n, line) && k < n
    ensures i < n * n
  {
    match line
    case RowLine(r) => Flat(n, r, k)
    case ColLine(c) => Flat(n, k, c)
    case DiagNegLine => Flat(n, k, k)
    case DiagPosLine => Flat(n, k, n - 1 - k)
  }

  /** The line goes through the cell `(r, c)`. */
  predicate Through(n: nat, line: Line, r: nat, c: nat) {
    match line
    case RowLine(x) => x == r
    case ColLine(y) => y == c
    case DiagNegLine => r == c
    case DiagPosLine => r + c == n - 1
  }

  /** Player `p` holds every cell of the line. */
  ghost predicate Owns(fields: seq<Cell>, n: nat, line: Line, p: PlayerId)
    requires |fields| == n * n && IsLine(n, line)
  {
    forall k | 0 <= k < n :: fields[At(n, line, k)] == Some(p)
  }

  /** Player `p` holds some cell of the line. */
  ghost predicate Touches(fields: seq<Cell>, n: nat, line: Line, p: PlayerId)
    requires |fields| == n * n && IsLine(n, line)
  {
    exists k | 0 <= k < n :: fields[At(n, line, k)] == Some(p)
  }

  /** One player holds the whole line. */
  ghost predicate Completed(fields: seq<Cell>, n: nat, line: Line)
    requires |fields| == n * n && IsLine(n, line)
  {
    exists p :: Owns(fields, n, line, p)
  }

  /** Both players hold a cell of the line, so neither can complete it. */
  ghost predicate Blocked(fields: seq<Cell>, n: nat, line: Line)
    requires |fields| == n * n && IsLine(n, line)
  {
    Touches(fields, n, line, Circle) && Touches(fields, n, line, Cross)
  }

  /** Reference win: some line through `(r, c)` is completed. */
  ghost predicate WinRef(fields: seq<Cell>, n: nat, r: nat, c: nat)
    requires |fields| == n * n
  {
    exists line | IsLine(n, line) && Through(n, line, r, c) :: Completed(fields, n, line)
  }

  /** Reference draw: every line is blocked. */
  ghost predicate DrawRef(fields: seq<Cell>, n: nat)
    requires |fields| == n * n
  {
    forall line | IsLine(n, line) :: Blocked(fields, n, line)
  }

  // ---- the two views agree ----

  /** The iterator the source uses for each line. */
  function LineCells(fields: seq<Cell>, n: nat, line: Line): seq<Cell>
    requires |fields| == n * n && IsLine(n, line)
    requires line.DiagPosLine? ==> n >= 2
  {
    match line
    case RowLine(r) => Row(fields, n, r)
    case ColLine(c) => Col(fields, n, c)
    case DiagNegLine => DiagNeg(fields, n)
    case DiagPosLine => DiagPos(fields, n)
  }

  /** `Row` yields the cells `(r, 0), ..., (r, n - 1)`. */
  lemma RowCellsAt(fields: seq<Cell>, n: nat, r: nat)
    requires |fields| == n * n && r < n
    ensures |Row(fields, n, r)| == n
    ensures forall k | 0 <= k < n :: Row(fields, n, r)[k] == fields[At(n, RowLine(r), k)]
  {
    Bounds(n, r, 0);
  }

  /** `Col` yields the cells `(0, c), ..., (n - 1, c)`. */
  lemma ColCellsAt(fields: seq<Cell>, n: nat, c: nat)
    requires |fields| == n * n && c < n
    ensures |Col(fields, n, c)| == n
    ensures forall k | 0 <= k < n :: Col(fields, n, c)[k] == fields[At(n, ColLine(c), k)]
  {
    var s := Skip(fields, c);
    assert (n - 1) * n == n * n - n;
    StepByShape(s, n, n);
  }

  /** The sizes `DiagNeg` works with: `n` steps of `n + 1` cover the board. */
  lemma DiagNegSizes(n: nat)
    requires n >= 1
    ensures (n - 1) * (n + 1) < n * n <= n * (n + 1)
  {
    assert (n - 1) * (n + 1) == n * n - 1;
    assert n * (n + 1) == n * n + n;
  }

  /** The `k`-th cell of `DiagNeg`. */
  lemma DiagNegAt(fields: seq<Cell>, n: nat, k: nat)
    requires |fields| == n * n && n % 2 == 1 && k < n
    ensures k < |DiagNeg(fields, n)| && DiagNeg(fields, n)[k] == fields[At(n, DiagNegLine, k)]
  {
    DiagNegSizes(n);
    StepInside(n * n, n + 1, n, k);
    assert k * (n + 1) == n * k + k;
    StepByAt(fields, n + 1, k);
  }

  /** `DiagNeg` yields the cells `(0, 0), ..., (n - 1, n - 1)`. */
  lemma DiagNegCellsAt(fields: seq<Cell>, n: nat)
    requires |fields| == n * n && n % 2 == 1
    ensures |DiagNeg(fields, n)| == n
    ensures forall k | 0 <= k < n :: DiagNeg(fields, n)[k] == fields[At(n, DiagNegLine, k)]
  {
    DiagNegSizes(n);
    StepByLength(fields, n + 1, n);
    forall k | 0 <= k < n
      ensures DiagNeg(fields, n)[k] == fields[At(n, DiagNegLine, k)]
    {
      DiagNegAt(fields, n, k);
    }
  }

  /** The sizes `DiagPos` works with: the slice has `n * (n - 1)` cells. */
  lemma DiagPosSizes(n: nat)
    requires n >= 2
    ensures n <= n * n - 1
    ensures n * n - n == n * (n - 1)
    ensures (n - 1) * (n - 1) < n * (n - 1)
  {
    MulLe(2, n, n);
    assert n * (n - 1) == n * n - n;
    assert n * (n - 1) - (n - 1) * (n - 1) == n - 1;
  }

  /** The `k`-th step of `DiagPos` lands on `(k, n - 1 - k)`. */
  lemma DiagPosIndex(n: nat, k: nat)
    requires n >= 2 && k < n
    ensures k * (n - 1) < n * n - n
    ensures (n - 1) + k * (n - 1) == n * k + (n - 1 - k)
  {
    DiagPosSizes(n);
    MulLe(k, n - 1, n - 1);
    assert k * (n - 1) == n * k - k;
  }

  /** The `k`-th cell of `DiagPos`. */
  lemma DiagPosAt(fields: seq<Cell>, n: nat, k: nat)
    requires |fields| == n * n && n % 2 == 1 && n >= 2 && k < n
    ensures k < |DiagPos(fields, n)| && DiagPos(fields, n)[k] == fields[At(n, DiagPosLine, k)]
  {
    DiagPosIndex(n, k);
    var s := fields[n - 1 .. |fields| - 1];
    StepByAt(s, n - 1, k);
  }

  /** `DiagPos` yields the cells `(0, n - 1), ..., (n - 1, 0)`. */
  lemma DiagPosCellsAt(fields: seq<Cell>, n: nat)
    requires |fields| == n * n && n % 2 == 1 && n >= 2
    ensures |DiagPos(fields, n)| == n
    ensures forall k | 0 <= k < n :: DiagPos(fields, n)[k] == fields[At(n, DiagPosLine, k)]
  {
    DiagPosSizes(n);
    StepByLength(fields[n - 1 .. |fields| - 1], n - 1, n);
    forall k | 0 <= k < n
      ensures DiagPos(fields, n)[k] == fields[At(n, DiagPosLine, k)]
    {
      DiagPosAt(fields, n, k);
    }
  }

  /** Each iterator yields exactly the `n` cells `At(n, line, 0 .. n)`, in that order. */
  lemma LineCellsAt(fields: seq<Cell>, n: nat, line: Line)
    requires |fields| == n * n && IsLine(n, line)
    requires line.DiagPosLine? ==> n >= 2
    ensures |LineCells(fields, n, line)| == n
    ensures forall k | 0 <= k < n :: LineCells(fields, n, line)[k] == fields[At(n, line, k)]
  {
    match line {
      case RowLine(r) => RowCellsAt(fields, n, r);
      case ColLine(c) => ColCellsAt(fields, n, c);
      case DiagNegLine => DiagNegCellsAt(fields, n);
      case DiagPosLine => DiagPosCellsAt(fields, n);
    }
  }

  /** `are_same_some_values` on a line's iterator holds exactly when the line is completed. */
  lemma SameIffCompleted(fields: seq<Cell>, n: nat, line: Line)
    requires |fields| == n * n && IsLine(n, line) && n >= 1
    requires line.DiagPosLine? ==> n >= 2
    ensures AreSameSomeValues(LineCells(fields, n, line)) <==> Completed(fields, n, line)
  {
    LineCellsAt(fields, n, line);
    var s := LineCells(fields, n, line);
    if AreSameSomeValues(s) {
      var p :| |s| > 0 && forall i | 0 <= i < |s| :: s[i] == Some(p);
      assert Owns(fields, n, line, p);
    }
    if Completed(fields, n, line) {
      var p :| Owns(fields, n, line, p);
      assert forall i | 0 <= i < |s| :: s[i] == Some(p);
    }
  }

  /** `is_line_capable` on a line's iterator holds exactly when the line is not blocked. */
  lemma CapableIffNotBlocked(fields: seq<Cell>, n: nat, line: Line)
    requires |fields| == n * n && IsLine(n, line) && n >= 1
    requires line.DiagPosLine? ==> n >= 2
    ensures LineCapable(LineCells(fields, n, line)) <==> !Blocked(fields, n, line)
  {
    LineCellsAt(fields, n, line);
    var s := LineCells(fields, n, line);
    forall p: PlayerId
      ensures Some(p) in s <==> Touches(fields, n, line, p)
    {
      if Some(p) in s {
        var i :| 0 <= i < |s| && s[i] == Some(p);
        assert fields[At(n, line, i)] == Some(p);
      }
    }
  }

  /** On a 1×1 board a completed line through the only cell means the row is uniform. */
  lemma WinIffOne(fields: seq<Cell>, n: nat, r: nat, c: nat)
    requires |fields| == n * n && n == 1 && r < n && c < n
    ensures CheckForWin(fields, n, (r, c)) <==> WinRef(fields, n, r, c)
  {
    if fields[0].Some? {
      OneByOneRowWins(fields, r);
      assert At(n, RowLine(r), 0) == 0;
      assert Owns(fields, n, RowLine(r), fields[0].value);
      assert IsLine(n, RowLine(r)) && Through(n, RowLine(r), r, c);
    } else {
      forall line, p | IsLine(n, line)
        ensures !Owns(fields, n, line, p)
      {
        assert fields[At(n, line, 0)] == None;
      }
      SameIffCompleted(fields, n, RowLine(r));
      SameIffCompleted(fields, n, ColLine(c));
      SameIffCompleted(fields, n, DiagNegLine);
    }
  }

  /** On a wider board, `check_for_win` finds a completed line through `(r, c)`. */
  lemma WinSound(fields: seq<Cell>, n: nat, r: nat, c: nat)
    requires |fields| == n * n && n >= 2 && r < n && c < n
    requires CheckForWin(fields, n, (r, c))
    ensures WinRef(fields, n, r, c)
  {
    if AreSameSomeValues(Row(fields, n, r)) {
      SameIffCompleted(fields, n, RowLine(r));
      assert IsLine(n, RowLine(r)) && Through(n, RowLine(r), r, c);
    } else if AreSameSomeValues(Col(fields, n, c)) {
      SameIffCompleted(fields, n, ColLine(c));
      assert IsLine(n, ColLine(c)) && Through(n, ColLine(c), r, c);
    } else if r == c && AreSameSomeValues(DiagNeg(fields, n)) {
      SameIffCompleted(fields, n, DiagNegLine);
      assert IsLine(n, DiagNegLine) && Through(n, DiagNegLine, r, c);
    } else {
      SameIffCompleted(fields, n, DiagPosLine);
      assert IsLine(n, DiagPosLine) && Through(n, DiagPosLine, r, c);
    }
  }

  /** On a wider board, a completed line through `(r, c)` is one that `check_for_win` looks at. */
  lemma WinComplete(fields: seq<Cell>, n: nat, r: nat, c: nat)
    requires |fields| == n * n && n >= 2 && r < n && c < n
    requires WinRef(fields, n, r, c)
    ensures CheckForWin(fields, n, (r, c))
  {
    var line :| IsLine(n, line) && Through(n, line, r, c) && Completed(fields, n, line);
    SameIffCompleted(fields, n, line);
  }

  /** `check_for_win` at an on-board position is the reference win. */
  lemma {:induction false} WinIff(fields: seq<Cell>, n: nat, r: nat, c: nat)
    requires |fields| == n * n && r < n && c < n
    ensures CheckForWin(fields, n, (r, c)) <==> WinRef(fields, n, r, c)
  {
    if n == 1 {
      WinIffOne(fields, n, r, c);
    } else {
      if CheckForWin(fields, n, (r, c)) {
        WinSound(fields, n, r, c);
      }
      if WinRef(fields, n, r, c) {
        WinComplete(fields, n, r, c);
      }
    }
  }

  /** `check_for_draw` is the reference draw: every line, anywhere on the board, is blocked. */
  lemma {:induction false} DrawIff(fields: seq<Cell>, n: nat)
    requires |fields| == n * n && n >= 2
    ensures IsDraw(fields, n) <==> DrawRef(fields, n)
  {
    forall line | IsLine(n, line)
      ensures LineCapable(LineCells(fields, n, line)) <==> !Blocked(fields, n, line)
    {
      CapableIffNotBlocked(fields, n, line);
    }
    if IsDraw(fields, n) {
      forall line | IsLine(n, line)
        ensures Blocked(fields, n, line)
      {
        match line {
          case RowLine(r) => assert !LineCapable(Row(fields, n, r));
          case ColLine(c) => assert !LineCapable(Col(fields, n, c));
          case DiagNegLine =>
          case DiagPosLine =>
        }
      }
    }
    if DrawRef(fields, n) {
      forall r | 0 <= r < n
        ensures !LineCapable(Row(fields, n, r))
      {
        assert IsLine(n, RowLine(r));
      }
      forall c | 0 <= c < n
        ensures !LineCapable(Col(fields, n, c))
      {
        assert IsLine(n, ColLine(c));
      }
      if n % 2 == 1 {
        assert IsLine(n, DiagNegLine) && IsLine(n, DiagPosLine);
      }
    }
  }

  /** On an on-board cell, the lines through it are the lines whose index set contains it. */
  lemma ThroughIffContains(n: nat, line: Line, r: nat, c: nat)
    requires IsLine(n, line) && r < n && c < n
    ensures Through(n, line, r, c) <==> exists k | 0 <= k < n :: At(n, line, k) == n * r + c
  {
    Bounds(n, r, c);
    if Through(n, line, r, c) {
      var k := if line.RowLine? then c else r;
      assert At(n, line, k) == n * r + c;
    }
    if k :| 0 <= k < n && At(n, line, k) == n * r + c {
      match line {
        case RowLine(x) => FlatIndexInjective(n, x, k, r, c);
        case ColLine(y) => FlatIndexInjective(n, k, y, r, c);
        case DiagNegLine => FlatIndexInjective(n, k, k, r, c);
        case DiagPosLine => FlatIndexInjective(n, k, n - 1 - k, r, c);
      }
    }
  }

  /**
   * Why `check_for_win` may look only through the placed cell: a line that
   * the move completes must go through that cell.
   */
  lemma CompletedByMoveGoesThrough(before: seq<Cell>, n: nat, r: nat, c: nat, id: PlayerId, line: Line)
    requires |before| == n * n && r < n && c < n && IsLine(n, line)
    requires !Completed(before, n, line)
    requires Completed(Placed(before, n, r, c, id), n, line)
    ensures Through(n, line, r, c)
  {
    Bounds(n, r, c);
    var after := Placed(before, n, r, c, id);
    var p :| Owns(after, n, line, p);
    ThroughIffContains(n, line, r, c);
    if !Through(n, line, r, c) {
      assert Owns(before, n, line, p) by {
        forall k | 0 <= k < n
          ensures before[At(n, line, k)] == Some(p)
        {
          assert after[At(n, line, k)] == Some(p);
        }
      }
    }
  }

  /**
   * If no line was completed before the move, the reference win through the
   * placed cell is exactly "some line of the board is completed".
   */
  lemma WinIsAnyCompletedLine(before: seq<Cell>, n: nat, r: nat, c: nat, id: PlayerId)
    requires |before| == n * n && r < n && c < n
    requires forall line | IsLine(n, line) :: !Completed(before, n, line)
    ensures WinRef(Placed(before, n, r, c, id), n, r, c) <==>
              exists line | IsLine(n, line) :: Completed(Placed(before, n, r, c, id), n, line)
  {
    var after := Placed(before, n, r, c, id);
    if line :| IsLine(n, line) && Completed(after, n, line) {
      CompletedByMoveGoesThrough(before, n, r, c, id, line);
    }
  }

  // ---- new_move ----

  /** The corrected `check_range`: a coordinate must be below the edge size. */
  predicate CheckRange(value: nat, limit: nat) {
    value < limit
  }

  /** `check_range` as written: `value <= limit` also lets `value == limit` through. */
  predicate CheckRangeAsWritten(value: nat, limit: nat) {
    value <= limit
  }

  /** A 1×1 board is won by its only move, so its draw check is never reached. */
  lemma OneByOneWins(fields: seq<Cell>, n: nat, pos: (nat, nat))
    requires |fields| == n * n && pos.0 < n
    ensures n == 1 && fields[0].Some? ==> CheckForWin(fields, n, pos)
  {
    if n == 1 && fields[0].Some? {
      OneByOneRowWins(fields, pos.0);
    }
  }

  /**
   * The verdict on a board just written at `pos`: win, else draw, else the
   * game goes on.
   */
  function Verdict(placed: seq<Cell>, n: nat, pos: (nat, nat)): ValidMove
    requires |placed| == n * n && pos.0 < n
  {
    if CheckForWin(placed, n, pos) then Win
    else if IsDraw(placed, n) then Draw
    else Continue
  }

  /** The tail of `new_move`: `check_for_win` through the placed cell, then `check_for_draw`. */
  method Decide(placed: seq<Cell>, n: nat, pos: (nat, nat)) returns (verdict: ValidMove)
    requires |placed| == n * n && pos.0 < n
    ensures verdict == Verdict(placed, n, pos)
  {
    if CheckForWin(placed, n, pos) {
      return Win;
    }
    var draw := CheckForDraw(placed, n);
    verdict := if draw then Draw else Continue;
  }

  /**
   * Everything `new_move` does after its range check, on the flat index
   * `n * pos.0 + pos.1`: panic past the end of the vector, reject a taken
   * cell, or write the cell and report win, draw or continue, in that order.
   */
  function PlaceSpec(fields: seq<Cell>, n: nat, pos: (nat, nat), id: PlayerId): (res: (MoveOutcome, seq<Cell>))
    requires |fields| == n * n
    ensures res.0 == Panicked <==> n * pos.0 + pos.1 >= n * n
    ensures !res.0.Valid? ==> res.1 == fields
    ensures res.0 == Invalid(AlreadyUsed) <==> n * pos.0 + pos.1 < n * n && fields[n * pos.0 + pos.1].Some?
    ensures res.0.Valid? ==>
              n * pos.0 + pos.1 < n * n && fields[n * pos.0 + pos.1] == None
              && res.1 == fields[n * pos.0 + pos.1 := Some(id)]
  {
    var flat := n * pos.0 + pos.1;
    if flat >= |fields| then (Panicked, fields)
    else if fields[flat].Some? then (Invalid(AlreadyUsed), fields)
    else
      RowOfFlat(n, pos.0, pos.1);
      var placed := fields[flat := Some(id)];
      (Valid(Verdict(placed, n, pos)), placed)
  }

  /**
   * An accepted move on an on-board cell reports `Win` exactly when a line
   * through the cell is completed, and `Draw` exactly when none is and
   * every line of the board is blocked.
   */
  lemma PlaceMeaning(fields: seq<Cell>, n: nat, pos: (nat, nat), id: PlayerId)
    requires |fields| == n * n && pos.0 < n && pos.1 < n
    ensures var res := PlaceSpec(fields, n, pos, id);
            res.0.Valid? ==>
              (res.0 == Valid(Win) <==> WinRef(res.1, n, pos.0, pos.1))
              && (res.0 == Valid(Draw) <==> !WinRef(res.1, n, pos.0, pos.1) && DrawRef(res.1, n))
  {
    var res := PlaceSpec(fields, n, pos, id);
    if res.0.Valid? {
      var placed := Placed(fields, n, pos.0, pos.1, id);
      assert res.1 == placed;
      OneByOneWins(placed, n, pos);
      assert res.0 == Valid(Win) <==> CheckForWin(placed, n, pos);
      WinIff(placed, n, pos.0, pos.1);
      if n >= 2 {
        assert res.0 == Valid(Draw) <==> !CheckForWin(placed, n, pos) && IsDraw(placed, n);
        DrawIff(placed, n);
      }
    }
  }

  /** `new_move` with the corrected range check. */
  function NewMoveSpec(fields: seq<Cell>, n: nat, pos: (nat, nat), id: PlayerId): (res: (MoveOutcome, seq<Cell>))
    requires |fields| == n * n
    ensures res.0 != Panicked
    ensures res.0 == Invalid(InvalidRange) <==> !(pos.0 < n && pos.1 < n)
    ensures res.0.Invalid? ==> res.1 == fields
    ensures res.0 == Invalid(AlreadyUsed) <==> pos.0 < n && pos.1 < n && CellAt(fields, n, pos.0, pos.1).Some?
    ensures res.0.Valid? <==> pos.0 < n && pos.1 < n && CellAt(fields, n, pos.0, pos.1) == None
    ensures res.0.Valid? ==> res.1 == Placed(fields, n, pos.0, pos.1, id)
    ensures res.0 == Valid(Win) <==> res.0.Valid? && WinRef(res.1, n, pos.0, pos.1)
    ensures res.0 == Valid(Draw) <==> res.0.Valid? && !WinRef(res.1, n, pos.0, pos.1) && DrawRef(res.1, n)
  {
    if !CheckRange(pos.0, n) || !CheckRange(pos.1, n) then (Invalid(InvalidRange), fields)
    else
      Bounds(n, pos.0, pos.1);
      PlaceMeaning(fields, n, pos, id);
      PlaceSpec(fields, n, pos, id)
  }

  /**
   * A move onto an empty cell inside the vector writes it and reports the
   * verdict on the written board (`pos.1` may be `n` under the as-written
   * range check, so only the flat index is required to be inside).
   */
  lemma PlaceOnEmpty(fields: seq<Cell>, n: nat, pos: (nat, nat), id: PlayerId)
    requires |fields| == n * n && n * pos.0 + pos.1 < n * n && fields[n * pos.0 + pos.1] == None
    ensures pos.0 < n
    ensures var placed := fields[n * pos.0 + pos.1 := Some(id)];
            PlaceSpec(fields, n, pos, id).0 == Valid(Verdict(placed, n, pos))
            && PlaceSpec(fields, n, pos, id).1 == placed
  {
    RowOfFlat(n, pos.0, pos.1);
  }

  /** On the board, the corrected `new_move` is the move after its range check. */
  lemma NewMoveOnBoard(fields: seq<Cell>, n: nat, pos: (nat, nat), id: PlayerId)
    requires |fields| == n * n && pos.0 < n && pos.1 < n
    ensures NewMoveSpec(fields, n, pos, id) == PlaceSpec(fields, n, pos, id)
  {
  }

  /** `new_move` as written, with `check_range` accepting a coordinate equal to the edge size. */
  function NewMoveAsWrittenSpec(fields: seq<Cell>, n: nat, pos: (nat, nat), id: PlayerId): (res: (MoveOutcome, seq<Cell>))
    requires |fields| == n * n
    ensures res.0 == Invalid(InvalidRange) <==> !(pos.0 <= n && pos.1 <= n)
    ensures res.0 == Panicked <==> pos.0 <= n && pos.1 <= n && n * pos.0 + pos.1 >= n * n
    ensures !res.0.Valid? ==> res.1 == fields
  {
    if !CheckRangeAsWritten(pos.0, n) || !CheckRangeAsWritten(pos.1, n) then (Invalid(InvalidRange), fields)
    else PlaceSpec(fields, n, pos, id)
  }

  // ---- what the as-written range check lets through ----

  /** As written, row `n` is accepted by the range check and indexes past the end of the board. */
  lemma AsWrittenRowNPanics(fields: seq<Cell>, n: nat, c: nat, id: PlayerId)
    requires |fields| == n * n && c <= n
    ensures NewMoveAsWrittenSpec(fields, n, (n, c), id).0 == Panicked
    ensures NewMoveSpec(fields, n, (n, c), id).0 == Invalid(InvalidRange)
  {
  }

  /**
   * As written, `(r, n)` with `r + 1 < n` is accepted and writes cell
   * `(r + 1, 0)`, where the corrected check rejects it.
   */
  lemma AsWrittenColumnNAliases(fields: seq<Cell>, n: nat, r: nat, id: PlayerId)
    requires |fields| == n * n && r + 1 < n && CellAt(fields, n, r + 1, 0) == None
    ensures NewMoveAsWrittenSpec(fields, n, (r, n), id).0.Valid?
    ensures NewMoveAsWrittenSpec(fields, n, (r, n), id).1 == fields[n * (r + 1) := Some(id)]
    ensures NewMoveSpec(fields, n, (r, n), id) == (Invalid(InvalidRange), fields)
  {
    Bounds(n, r + 1, 0);
    assert n * r + n == n * (r + 1);
  }

  /** A 3×3 board with one circle, on `(2, 0)`. */
  const FalseWinBefore: seq<Cell> := [None, None, None, None, None, None, Some(Circle), None, None]

  /** The same board with a second circle, on `(1, 0)`. */
  const FalseWinAfter: seq<Cell> := [None, None, None, Some(Circle), None, None, Some(Circle), None, None]

  /**
   * A concrete false win: on `FalseWinBefore`, the as-written move `(0, 3)`
   * (the text "14") lands on `(1, 0)` and then checks row 0 and the
   * "column 3" iterator, which yields the cells `(1, 0)` and `(2, 0)` only;
   * two circles report a win.
   */
  lemma AsWrittenFalseWin()
    ensures NewMoveAsWrittenSpec(FalseWinBefore, 3, (0, 3), Circle) == (Valid(Win), FalseWinAfter)
  {
    var after := FalseWinAfter;
    assert FalseWinBefore[3 := Some(Circle)] == after;
    StepByShape(Skip(after, 3), 3, 2);
    assert Col(after, 3, 3) == [Some(Circle), Some(Circle)];
    assert AreSameSomeValues(Col(after, 3, 3)) by {
      assert forall i | 0 <= i < 2 :: Col(after, 3, 3)[i] == Some(Circle);
    }
  }

  /** No line of `FalseWinAfter` is completed: the win above is false. */
  lemma FalseWinNoLineCompleted()
    ensures forall line | IsLine(3, line) :: !Completed(FalseWinAfter, 3, line)
  {
    forall line | IsLine(3, line)
      ensures !Completed(FalseWinAfter, 3, line)
    {
      var k := if line.RowLine? then 1 else 0;
      assert FalseWinAfter[At(3, line, k)] == None;
    }
  }

  /** Played at its real coordinates `(1, 0)`, the same move continues the game. */
  lemma CorrectedMoveContinues()
    ensures NewMoveSpec(FalseWinBefore, 3, (1, 0), Circle) == (Valid(Continue), FalseWinAfter)
  {
    var after := FalseWinAfter;
    assert FalseWinBefore[3 := Some(Circle)] == after;
    FalseWinNoLineCompleted();
    assert IsLine(3, RowLine(0)) && !Blocked(after, 3, RowLine(0)) by {
      assert forall k | 0 <= k < 3 :: after[At(3, RowLine(0), k)] == None;
    }
  }

  // ---- the board object ----

  /** `PlayboardToBig`: the edge size squared does not fit in `usize`. */
  datatype PlayboardToBig = PlayboardToBig

  /** `pb_n_n::Playboard`: the cell vector, updated in place, and its edge size. */
  class Playboard {
    var fields: seq<Cell>
    const edgeSize: nat

    ghost predicate Valid()
      reads this
    {
      |fields| == edgeSize * edgeSize && edgeSize * edgeSize <= USIZE_MAX
    }

    /** An empty board of edge `n`, for an `n` whose square fits in `usize`. */
    constructor (n: nat)
      requires n * n <= USIZE_MAX
      ensures Valid() && edgeSize == n && fields == EmptyCells(n * n)
    {
      edgeSize := n;
      fields := EmptyCells(n * n);
    }

    /** `Playboard::new`: `checked_mul` of the edge size with itself, or `PlayboardToBig`. */
    static method New(n: usize) returns (r: Result<Playboard, PlayboardToBig>)
      ensures r.Ok? <==> n * n <= USIZE_MAX
      ensures r.Ok? ==> fresh(r.value) && r.value.Valid() && r.value.edgeSize == n
                        && r.value.fields == EmptyCells(n * n)
    {
      if n * n <= USIZE_MAX {
        var board := new Playboard(n);
        r := Ok(board);
      } else {
        r := Err(PlayboardToBig);
      }
    }

    /** `new_move` with the corrected range check; the session uses this one. */
    method NewMove(pos: (usize, usize), id: PlayerId) returns (r: MoveOutcome)
      requires Valid()
      modifies this
      ensures Valid()
      ensures r == NewMoveSpec(old(fields), edgeSize, pos, id).0
      ensures fields == NewMoveSpec(old(fields), edgeSize, pos, id).1
    {
      if !CheckRange(pos.0, edgeSize) || !CheckRange(pos.1, edgeSize) {
        return Invalid(InvalidRange);
      }
      r := Place(pos, id);
    }

    /** `new_move` as written. */
    method NewMoveAsWritten(pos: (usize, usize), id: PlayerId) returns (r: MoveOutcome)
      requires Valid()
      modifies this
      ensures Valid()
      ensures r == NewMoveAsWrittenSpec(old(fields), edgeSize, pos, id).0
      ensures fields == NewMoveAsWrittenSpec(old(fields), edgeSize, pos, id).1
    {
      if !CheckRangeAsWritten(pos.0, edgeSize) || !CheckRangeAsWritten(pos.1, edgeSize) {
        return Invalid(InvalidRange);
      }
      r := Place(pos, id);
    }

    /** The body of `new_move` after the range check. */
    method Place(pos: (nat, nat), id: PlayerId) returns (r: MoveOutcome)
      requires Valid()
      modifies this
      ensures Valid()
      ensures r == PlaceSpec(old(fields), edgeSize, pos, id).0
      ensures fields == PlaceSpec(old(fields), edgeSize, pos, id).1
    {
      var flat := edgeSize * pos.0 + pos.1;
      if flat >= |fields| {
        return Panicked;
      }
      if fields[flat].Some? {
        return Invalid(AlreadyUsed);
      }
      PlaceOnEmpty(fields, edgeSize, pos, id);
      fields := fields[flat := Some(id)];
      var verdict := Decide(fields, edgeSize, pos);
      r := MoveOutcome.Valid(verdict);
    }
  }
}
