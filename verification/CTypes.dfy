/** The fixed-width C arithmetic of the modelled machine: `int` and `time_t` hold 32 bits, `long` and
    pointers hold 64, all signed two's complement, and plain `char` is signed. */
module CTypes {

  const INT_MIN: int := -0x8000_0000
  const INT_MAX: int := 0x7fff_ffff
  const LONG_MIN: int := -0x8000_0000_0000_0000
  const LONG_MAX: int := 0x7fff_ffff_ffff_ffff

  predicate IsInt(x: int) {
    INT_MIN <= x <= INT_MAX
  }

  predicate IsLong(x: int) {
    LONG_MIN <= x <= LONG_MAX
  }

  /** The value kept by a signed 32-bit variable when `x` is assigned to it. */
  function WrapInt(x: int): (r: int)
    ensures IsInt(r)
    ensures IsInt(x) ==> r == x
  {
    (x + 0x8000_0000) % 0x1_0000_0000 - 0x8000_0000
  }

  /** The value kept by a signed 64-bit variable when `x` is assigned to it. */
  function WrapLong(x: int): (r: int)
    ensures IsLong(r)
    ensures IsLong(x) ==> r == x
  {
    (x + 0x8000_0000_0000_0000) % 0x1_0000_0000_0000_0000 - 0x8000_0000_0000_0000
  }

  lemma {:induction false} WrapIntShift(x: int, k: int)
    ensures WrapInt(x + k * 0x1_0000_0000) == WrapInt(x)
  {
  }

  /** C division truncates toward zero; Dafny's rounds down for a positive divisor. */
  function TruncDiv(x: int, d: int): int
    requires d > 0
  {
    if x >= 0 then x / d else -((-x) / d)
  }

  /** The character that ends a C string. */
  const NUL := '\0'

  /** Text as C keeps it: without the character that would end it. */
  predicate IsText(s: string) {
    NUL !in s
  }

  /** Past one blank, if there is one. */
  function SkipBlank(s: string): (r: string)
    ensures |r| <= |s|
  {
    if s != [] && s[0] == ' ' then s[1..] else s
  }

  /** The C string that starts at `j` in `s`: everything up to the first NUL, or to the end. */
  function CString(s: string, j: nat): (r: string)
    requires j <= |s|
    decreases |s| - j
  {
    if j == |s| || s[j] == NUL then [] else [s[j]] + CString(s, j + 1)
  }

  lemma {:induction false} CStringSpan(s: string, j: nat)
    requires j <= |s|
    ensures var r := CString(s, j);
            && NUL !in r && j + |r| <= |s| && r == s[j..j + |r|]
            && (j + |r| == |s| || s[j + |r|] == NUL)
    decreases |s| - j
  {
    if j < |s| && s[j] != NUL {
      CStringSpan(s, j + 1);
    }
  }

  /** A string is determined by where it starts and where its first NUL is. */
  lemma {:induction false} CStringIs(s: string, j: nat, r: string)
    requires j + |r| <= |s| && r == s[j..j + |r|] && NUL !in r
    requires j + |r| == |s| || s[j + |r|] == NUL
    ensures CString(s, j) == r
    decreases |r|
  {
    if r != [] {
      CStringIs(s, j + 1, r[1..]);
    }
  }

  /** What follows a terminated string does not change it. */
  lemma {:induction false} CStringExtend(s: string, t: string, j: nat)
    requires j < |s| && s[|s| - 1] == NUL
    ensures CString(s + t, j) == CString(s, j) && j + |CString(s, j)| < |s|
  {
    var r := CString(s, j);
    CStringSpan(s, j);
    CStringIs(s + t, j, r);
  }

  predicate IsBlank(c: char) {
    c == ' ' || c == '\t'
  }

  predicate IsDigit(c: char) {
    '0' <= c <= '9'
  }

  predicate StartsWith(word: string, text: string) {
    |word| <= |text| && text[..|word|] == word
  }
}
