/**
 * The few facts about Rust strings and `usize` that the parsers of the game
 * depend on: strings are UTF-8, `str::len` counts bytes, slicing a `str`
 * panics off a character boundary, and `str::parse::<usize>` accepts an
 * optional `+` followed by ASCII digits whose value fits in 64 bits.
 */
module RustStr {
  import opened Wrappers

  /** `usize::MAX` on the 64-bit targets the server is built for. */
  const USIZE_MAX: nat := 0xFFFF_FFFF_FFFF_FFFF

  type usize = x: nat | x <= USIZE_MAX

  /** Number of bytes in the UTF-8 encoding of `c`. */
  function Utf8Len(c: char): (k: nat)
    ensures 1 <= k <= 4
    ensures k == 1 <==> c as int < 0x80
  {
    if c as int < 0x80 then 1
    else if c as int < 0x800 then 2
    else if c as int < 0x1_0000 then 3
    else 4
  }

  /** `str::len`: the byte length of the UTF-8 encoding of `s`. */
  function ByteLen(s: string): (k: nat)
    ensures k >= |s|
    ensures k == |s| <==> forall i | 0 <= i < |s| :: s[i] as int < 0x80
  {
    if s == [] then 0 else Utf8Len(s[0]) + ByteLen(s[1..])
  }

  /** A string of two bytes is two ASCII characters or one two-byte character. */
  lemma ByteLenTwo(s: string)
    requires ByteLen(s) == 2
    ensures (|s| == 2 && s[0] as int < 0x80 && s[1] as int < 0x80) || (|s| == 1 && Utf8Len(s[0]) == 2)
  {
    assert s != [];
    if Utf8Len(s[0]) == 1 {
      var t := s[1..];
      assert ByteLen(t) == 1;
      assert t != [] && ByteLen(t[1..]) == 0;
    }
  }

  predicate IsDigit(c: char) {
    '0' <= c <= '9'
  }

  function DigitValue(c: char): (d: nat)
    requires IsDigit(c)
    ensures d <= 9
  {
    c as int - '0' as int
  }

  /** The ASCII digit for `d`. */
  function DigitChar(d: nat): (c: char)
    requires d <= 9
    ensures IsDigit(c) && DigitValue(c) == d && c as int < 0x80
  {
    ('0' as int + d) as char
  }

  /** The value of a non-empty run of decimal digits, most significant first. */
  function DigitsValue(s: string): nat
    requires forall i | 0 <= i < |s| :: IsDigit(s[i])
  {
    if s == [] then 0 else DigitsValue(s[..|s| - 1]) * 10 + DigitValue(s[|s| - 1])
  }

  /** `s.parse::<usize>()`, with `None` for every `ParseIntError`. */
  function ParseUsize(s: string): (r: Option<usize>)
    ensures r.Some? ==> s != [] && (IsDigit(s[0]) || s[0] == '+')
    ensures |s| == 1 ==> (r.Some? <==> IsDigit(s[0]))
    ensures |s| == 1 && r.Some? ==> r.value == DigitValue(s[0])
  {
    var digits := if |s| >= 2 && s[0] == '+' then s[1..] else s;
    if digits == [] || exists i | 0 <= i < |digits| :: !IsDigit(digits[i]) then None
    else
      var v := DigitsValue(digits);
      assert |digits| == 1 ==> v == DigitValue(digits[0]) by {
        if |digits| == 1 {
          assert digits[..0] == [];
          assert DigitsValue(digits) == DigitsValue(digits[..0]) * 10 + DigitValue(digits[0]);
        }
      }
      if v <= USIZE_MAX then Some(v) else None
  }
}
