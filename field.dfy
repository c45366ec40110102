/**
 * The second 3×3 board (`game::field`): a text-to-coordinate parser for
 * inputs such as "12", and a `Field` whose `new_move` takes that text.
 * Its line, win and draw code is a copy of the fixed 3×3 board's over
 * `Option<Symbols>`; `Symbols { Cross, Circle }` is the same two-valued
 * type as `PlayerId`, and the model uses `PlayerId` for it.
 */
module GameField {
  import opened Wrappers
  import opened Ids
  import opened Cells
  import opened RustStr
  import PlayboardApi
  import NnBoard
  import Board33

  // ---- parsing input ----

  /** `ConvertError`: the text is not a number, or the number is not 1, 2 or 3. */
  datatype ConvertError = BadInput | BadRange

  /** `convert_input_to_coordinate`: `parse::<usize>`, then the range check `1..=3`. */
  function ConvertInputToCoordinate(input: string): (r: Result<nat, ConvertError>)
    ensures r.Ok? ==> 1 <= r.value <= 3
    ensures |input| == 1 ==> (r == Err(BadInput) <==> !IsDigit(input[0]))
    ensures |input| == 1 ==> (r.Ok? <==> '1' <= input[0] <= '3')
    ensures |input| == 1 && r.Ok? ==> r.value == DigitValue(input[0])
  {
    match ParseUsize(input)
    case None => Err(BadInput)
    case Some(value) => if value < 1 || value > 3 then Err(BadRange) else Ok(value)
  }

  /**
   * What `convert_input_to_coordinates` does: the two zero-based
   * coordinates, an error, or a panic when the byte slice `input[0..1]`
   * cuts a two-byte character.
   */
  datatype Conversion = Coordinates(x: nat, y: nat) | Failed(error: ConvertError) | NotCharBoundary

  /**
   * `convert_input_to_coordinates`: exactly two bytes, the first byte
   * converted, then the second, each minus one.
   */
  function ConvertInputToCoordinates(input: string): (r: Conversion)
    ensures ByteLen(input) != 2 ==> r == Failed(BadInput)
    ensures r == NotCharBoundary <==> |input| == 1 && Utf8Len(input[0]) == 2
    ensures r.Coordinates? <==> |input| == 2 && '1' <= input[0] <= '3' && '1' <= input[1] <= '3'
    ensures r.Coordinates? ==> r.x == DigitValue(input[0]) - 1 < 3 && r.y == DigitValue(input[1]) - 1 < 3
  {
    if ByteLen(input) != 2 then Failed(BadInput)
    else if Utf8Len(input[0]) != 1 then
      ByteLenTwo(input);
      NotCharBoundary
    else
      ByteLenTwo(input);
      match ConvertInputToCoordinate(input[0..1])
      case Err(e) => Failed(e)
      case Ok(x) =>
        match ConvertInputToCoordinate(input[1..2])
        case Err(e) => Failed(e)
        case Ok(y) => Coordinates(x - 1, y - 1)
  }

  /** For every cell, the text of its one-based digits parses back to it. */
  lemma CoordinatesRoundTrip(x: nat, y: nat)
    requires x < 3 && y < 3
    ensures ConvertInputToCoordinates([DigitChar(x + 1), DigitChar(y + 1)]) == Coordinates(x, y)
  {
  }

  /**
   * The first character is checked before the second, so its error wins:
   * a non-digit first is `BadInput` and an out-of-range digit first is
   * `BadRange`, whatever the second is.
   */
  lemma FirstErrorWins(a: char, b: char)
    requires a as int < 0x80 && b as int < 0x80
    ensures !IsDigit(a) ==> ConvertInputToCoordinates([a, b]) == Failed(BadInput)
    ensures IsDigit(a) && !('1' <= a <= '3') ==> ConvertInputToCoordinates([a, b]) == Failed(BadRange)
    ensures '1' <= a <= '3' && !IsDigit(b) ==> ConvertInputToCoordinates([a, b]) == Failed(BadInput)
    ensures '1' <= a <= '3' && IsDigit(b) && !('1' <= b <= '3') ==> ConvertInputToCoordinates([a, b]) == Failed(BadRange)
  {
    assert ByteLen([a, b]) == 2;
    assert [a, b][0..1] == [a] && [a, b][1..2] == [b];
  }

  // ---- the field ----

  /** `InvalidMove` of this board: bad text, a number out of range, or a taken cell. */
  datatype InvalidMove = InvalidInput | InvalidRange | AlreadyUsed

  /** What `Field::new_move` does: return `Ok`, return `Err`, or panic. */
  datatype Outcome = Valid(valid: PlayboardApi.ValidMove) | Invalid(invalid: InvalidMove) | Panicked

  /** A conversion that names a cell names one on the board. */
  predicate OnBoard(conv: Conversion) {
    conv.Coordinates? ==> conv.x < 3 && conv.y < 3
  }

  /**
   * `Field::new_move` after the parse: a parse error becomes the matching
   * `InvalidMove`, a taken cell `AlreadyUsed`; otherwise cell `3x + y` is
   * written and the win check runs before the draw check.
   */
  function MoveOn(fields: seq<Cell>, conv: Conversion, symbol: PlayerId): (res: (Outcome, seq<Cell>))
    requires |fields| == 9 && OnBoard(conv)
    ensures res.0 == Panicked <==> conv == NotCharBoundary
    ensures !res.0.Valid? ==> res.1 == fields
    ensures res.0 == Invalid(InvalidInput) <==> conv == Failed(BadInput)
    ensures res.0 == Invalid(InvalidRange) <==> conv == Failed(BadRange)
    ensures res.0 == Invalid(AlreadyUsed) <==> conv.Coordinates? && fields[3 * conv.x + conv.y].Some?
    ensures res.0.Valid? ==> conv.Coordinates? && fields[3 * conv.x + conv.y] == None
                             && res.1 == fields[3 * conv.x + conv.y := Some(symbol)]
  {
    match conv
    case NotCharBoundary => (Panicked, fields)
    case Failed(e) =>
      (match e
       case BadInput => (Invalid(InvalidInput), fields)
       case BadRange => (Invalid(InvalidRange), fields))
    case Coordinates(x, y) =>
      var p := 3 * x + y;
      if fields[p].Some? then (Invalid(AlreadyUsed), fields)
      else
        var placed := fields[p := Some(symbol)];
        (Valid(Board33.Verdict3(placed, p)), placed)
  }

  /** An accepted move is the verdict on the board with its cell written. */
  lemma MoveOnValid(fields: seq<Cell>, conv: Conversion, symbol: PlayerId)
    requires |fields| == 9 && OnBoard(conv)
    ensures var res := MoveOn(fields, conv, symbol);
            res.0.Valid? ==> conv.Coordinates? && res.0.valid == Board33.Verdict3(res.1, 3 * conv.x + conv.y)
  {
  }

  /**
   * An accepted move reports `Win` exactly when a line through its cell is
   * completed, and `Draw` exactly when none is and every line is blocked.
   */
  lemma MoveOnMeaning(fields: seq<Cell>, conv: Conversion, symbol: PlayerId)
    requires |fields| == 9 && OnBoard(conv)
    ensures var res := MoveOn(fields, conv, symbol);
            res.0.Valid? ==> (res.0.valid == PlayboardApi.Win <==> NnBoard.WinRef(res.1, 3, conv.x, conv.y))
    ensures var res := MoveOn(fields, conv, symbol);
            res.0.Valid? ==>
              (res.0.valid == PlayboardApi.Draw <==> !NnBoard.WinRef(res.1, 3, conv.x, conv.y) && NnBoard.DrawRef(res.1, 3))
  {
    var res := MoveOn(fields, conv, symbol);
    MoveOnValid(fields, conv, symbol);
    if res.0.Valid? {
      Board33.VerdictMeaning(res.1, conv.x, conv.y);
    }
  }

  /** `Field::new_move`: parse the text, then move on the cell it names. */
  function NewMoveSpec(fields: seq<Cell>, input: string, symbol: PlayerId): (res: (Outcome, seq<Cell>))
    requires |fields| == 9
    ensures res.0 == Panicked <==> ConvertInputToCoordinates(input) == NotCharBoundary
    ensures !res.0.Valid? ==> res.1 == fields
    ensures res.0 == Invalid(InvalidInput) <==> ConvertInputToCoordinates(input) == Failed(BadInput)
    ensures res.0 == Invalid(InvalidRange) <==> ConvertInputToCoordinates(input) == Failed(BadRange)
    ensures var c := ConvertInputToCoordinates(input);
            res.0 == Invalid(AlreadyUsed) <==> c.Coordinates? && fields[3 * c.x + c.y].Some?
    ensures var c := ConvertInputToCoordinates(input);
            res.0.Valid? ==> c.Coordinates? && fields[3 * c.x + c.y] == None
                             && res.1 == fields[3 * c.x + c.y := Some(symbol)]
  {
    MoveOn(fields, ConvertInputToCoordinates(input), symbol)
  }

  /** An accepted move reports `Win` and `Draw` as `MoveOnMeaning` says, on the cell the text names. */
  lemma NewMoveMeaning(fields: seq<Cell>, input: string, symbol: PlayerId)
    requires |fields| == 9
    ensures var res := NewMoveSpec(fields, input, symbol);
            var c := ConvertInputToCoordinates(input);
            res.0.Valid? ==>
              (res.0 == Valid(PlayboardApi.Win) <==> NnBoard.WinRef(res.1, 3, c.x, c.y))
              && (res.0 == Valid(PlayboardApi.Draw) <==> !NnBoard.WinRef(res.1, 3, c.x, c.y) && NnBoard.DrawRef(res.1, 3))
  {
    MoveOnMeaning(fields, ConvertInputToCoordinates(input), symbol);
  }

  /** `Field`: nine cells in a fixed array, updated in place. */
  class Field {
    const fields: array<Cell>

    /** `Field::new`: nine empty cells. */
    constructor ()
      ensures fresh(fields) && fields.Length == 9 && fields[..] == EmptyCells(9)
    {
      fields := new Cell[9](_ => None);
    }

    /** `Field::new_move`. */
    method NewMove(input: string, symbol: PlayerId) returns (r: Outcome)
      requires fields.Length == 9
      modifies fields
      ensures r == NewMoveSpec(old(fields[..]), input, symbol).0
      ensures fields[..] == NewMoveSpec(old(fields[..]), input, symbol).1
    {
      var conversion := ConvertInputToCoordinates(input);
      r := Apply(conversion, symbol);
    }

    /** The rest of `new_move`, on the parsed coordinates. */
    method Apply(conv: Conversion, symbol: PlayerId) returns (r: Outcome)
      requires fields.Length == 9 && OnBoard(conv)
      modifies fields
      ensures r == MoveOn(old(fields[..]), conv, symbol).0
      ensures fields[..] == MoveOn(old(fields[..]), conv, symbol).1
    {
      match conv {
        case NotCharBoundary => return Panicked;
        case Failed(e) =>
          match e {
            case BadInput => return Invalid(InvalidInput);
            case BadRange => return Invalid(InvalidRange);
          }
        case Coordinates(x, y) => r := Write(x, y, symbol);
      }
    }

    /** The tail of `new_move` on converted coordinates: reject a taken cell, else write it and judge. */
    method Write(x: nat, y: nat, symbol: PlayerId) returns (r: Outcome)
      requires fields.Length == 9 && x < 3 && y < 3
      modifies fields
      ensures r == MoveOn(old(fields[..]), Coordinates(x, y), symbol).0
      ensures fields[..] == MoveOn(old(fields[..]), Coordinates(x, y), symbol).1
    {
      ghost var before := fields[..];
      var position := 3 * x + y;
      if fields[position].Some? {
        return Invalid(AlreadyUsed);
      }
      fields[position] := Some(symbol);
      assert fields[..] == before[position := Some(symbol)];
      return Valid(Board33.Verdict3(fields[..], position));
    }
  }
}
