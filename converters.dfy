/**
 * The production coordinate converter (`game::converters`): two bytes,
 * each parsed as a `usize`, each turned from one-based to zero-based. It
 * does no board-range check; the board does that.
 */
module Converters {
  import opened Wrappers
  import opened RustStr

  /** `ConversionError`. */
  datatype ConversionError = ConversionError

  /** `convert_input_to_usize`: `parse::<usize>`, with every parse error collapsed into one. */
  function ConvertInputToUsize(input: string): (r: Result<usize, ConversionError>)
    ensures |input| == 1 ==> (r.Ok? <==> IsDigit(input[0]))
    ensures |input| == 1 && r.Ok? ==> r.value == DigitValue(input[0])
    ensures input == [] ==> r.Err?
  {
    match ParseUsize(input)
    case None => Err(ConversionError)
    case Some(v) => Ok(v)
  }

  /**
   * What `from_tcp_to_x_y` does as written: the pair, an error, or one of
   * two panics, slicing `input[0..1]` inside a two-byte character or
   * computing `0 - 1` in `usize`.
   */
  datatype TcpConversion = Converted(x: usize, y: usize) | Failed | NotCharBoundary | Underflow

  /** `from_tcp_to_x_y` as written. */
  function FromTcpToXYAsWritten(input: string): (r: TcpConversion)
    ensures ByteLen(input) != 2 ==> r == Failed
    ensures r == NotCharBoundary <==> |input| == 1 && Utf8Len(input[0]) == 2
    ensures r == Underflow <==>
              |input| == 2 && IsDigit(input[0]) && IsDigit(input[1]) && (input[0] == '0' || input[1] == '0')
    ensures r.Converted? <==> |input| == 2 && '1' <= input[0] <= '9' && '1' <= input[1] <= '9'
    ensures r.Converted? ==> r.x == DigitValue(input[0]) - 1 && r.y == DigitValue(input[1]) - 1
  {
    if ByteLen(input) != 2 then Failed
    else if Utf8Len(input[0]) != 1 then
      ByteLenTwo(input);
      NotCharBoundary
    else
      ByteLenTwo(input);
      match ConvertInputToUsize(input[0..1])
      case Err(_) => Failed
      case Ok(x) =>
        match ConvertInputToUsize(input[1..2])
        case Err(_) => Failed
        case Ok(y) => if x == 0 || y == 0 then Underflow else Converted(x - 1, y - 1)
  }

  /**
   * The evidently intended converter: every input that the code as
   * written panics on is a `ConversionError` instead.
   */
  function FromTcpToXY(input: string): (r: Result<(usize, usize), ConversionError>)
    ensures r.Ok? <==> |input| == 2 && '1' <= input[0] <= '9' && '1' <= input[1] <= '9'
    ensures r.Ok? ==> r.value == (DigitValue(input[0]) - 1, DigitValue(input[1]) - 1)
    ensures r.Ok? ==> r.value.0 <= 8 && r.value.1 <= 8
  {
    if ByteLen(input) != 2 then Err(ConversionError)
    else if Utf8Len(input[0]) != 1 then Err(ConversionError)
    else
      ByteLenTwo(input);
      match ConvertInputToUsize(input[0..1])
      case Err(e) => Err(e)
      case Ok(x) =>
        match ConvertInputToUsize(input[1..2])
        case Err(e) => Err(e)
        case Ok(y) => if x == 0 || y == 0 then Err(ConversionError) else Ok((x - 1, y - 1))
  }

  /** The corrected converter differs from the written one only where that one panics. */
  lemma CorrectedAgreesWithAsWritten(input: string)
    ensures FromTcpToXYAsWritten(input).Converted? <==> FromTcpToXY(input).Ok?
    ensures FromTcpToXY(input).Ok? ==>
              FromTcpToXY(input).value == (FromTcpToXYAsWritten(input).x, FromTcpToXYAsWritten(input).y)
    ensures FromTcpToXYAsWritten(input) == Failed ==> FromTcpToXY(input).Err?
  {
  }

  /** Every pair of coordinates up to 8 is reached by its one-based digits, and only by them. */
  lemma RoundTrip(r: nat, c: nat)
    requires r <= 8 && c <= 8
    ensures FromTcpToXY([DigitChar(r + 1), DigitChar(c + 1)]) == Ok((r, c))
  {
  }

  /** Conversely, a converted input is the text of its coordinates' one-based digits. */
  lemma ConvertedIsDigitText(input: string)
    requires FromTcpToXY(input).Ok?
    ensures var (r, c) := FromTcpToXY(input).value;
            input == [DigitChar(r + 1), DigitChar(c + 1)]
  {
  }

  /** "99" converts to `(8, 8)`: no board-range check happens here. */
  lemma NoBoardRangeCheck()
    ensures FromTcpToXY("99") == Ok((8, 8))
  {
  }

  /** As written, the digit `0` makes `x - 1` underflow; the corrected converter rejects it. */
  lemma AsWrittenZeroUnderflows()
    ensures FromTcpToXYAsWritten("01") == Underflow
    ensures FromTcpToXY("01") == Err(ConversionError)
  {
  }

  /**
   * As written, one two-byte character (such as `é`) passes the length
   * check and `input[0..1]` cuts it; the corrected converter rejects it.
   */
  lemma AsWrittenWideCharPanics()
    ensures FromTcpToXYAsWritten("é") == NotCharBoundary
    ensures FromTcpToXY("é") == Err(ConversionError)
  {
  }
}
