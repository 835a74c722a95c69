/**
 * The output side of the serialiser: the stream every render operation writes
 * to (std::ostream in the C++ code), the one formatter through which every
 * number is written, and a splitting function used to read rendered text back.
 */
module Output {
  import opened Options
  import opened Sequences

  /** An output stream; `text` is everything written to it so far, in order. */
  class Stream {
    var text: string

    constructor ()
      ensures text == ""
    {
      text := "";
    }

    /** `out << s`: appends `s` and nothing else. */
    method Write(s: string)
      modifies this
      ensures text == old(text) + s
    {
      text := text + s;
    }
  }

  // ---------- numbers ----------

  predicate IsDigit(ch: char) {
    '0' <= ch <= '9'
  }

  /** The characters that may appear in a formatted number. */
  predicate IsNumeral(s: string) {
    forall i :: 0 <= i < |s| ==> IsDigit(s[i]) || s[i] == '-'
  }

  function DigitChar(d: nat): (ch: char)
    requires d < 10
    ensures IsDigit(ch) && ch as int - '0' as int == d
  {
    ('0' as int + d) as char
  }

  /** The decimal digits of `n`, most significant first, without leading zeros. */
  function Digits(n: nat): (r: string)
    ensures |r| > 0
    ensures forall i :: 0 <= i < |r| ==> IsDigit(r[i])
    ensures r[0] == '0' ==> n == 0
    decreases n
  {
    if n < 10 then [DigitChar(n)] else Digits(n / 10) + [DigitChar(n % 10)]
  }

  /**
   * The text written for a number: plain decimal, with a leading '-' when
   * negative. Coordinates, radii and widths are modelled as integers. The C++
   * code writes them as `double`s with six significant digits, which agrees
   * with this only for integral values below 10^6 in magnitude; the `uint32_t`
   * font size is always written this way.
   */
  function FormatNumber(n: int): (r: string)
    ensures |r| > 0 && IsNumeral(r)
    ensures (r[0] == '-') == (n < 0)
    ensures forall i :: 1 <= i < |r| ==> IsDigit(r[i])
    ensures r[0] == '-' ==> |r| > 1
  {
    if n < 0 then "-" + Digits(-n) else Digits(n)
  }

  /** Reads a string of decimal digits back as a number. */
  function ParseDigits(s: string): nat
    requires forall i :: 0 <= i < |s| ==> IsDigit(s[i])
  {
    if s == [] then 0
    else
      assert IsDigit(s[|s| - 1]);
      ParseDigits(s[..|s| - 1]) * 10 + (s[|s| - 1] as int - '0' as int)
  }

  /** Reads a formatted number back. */
  function ParseNumber(s: string): int
    requires |s| > 0 && IsNumeral(s)
    requires forall i :: 1 <= i < |s| ==> IsDigit(s[i])
    requires s[0] == '-' ==> |s| > 1
  {
    if s[0] == '-' then -(ParseDigits(s[1..]) as int) else ParseDigits(s)
  }

  lemma {:induction false} ParseDigitsOfDigits(n: nat)
    ensures ParseDigits(Digits(n)) == n
    decreases n
  {
    if n >= 10 {
      var d := Digits(n);
      assert d[..|d| - 1] == Digits(n / 10);
      ParseDigitsOfDigits(n / 10);
    }
  }

  /** Formatting loses nothing: every number is read back from its text. */
  lemma FormatNumberRoundTrip(n: int)
    ensures ParseNumber(FormatNumber(n)) == n
  {
    var r := FormatNumber(n);
    if n < 0 {
      assert r[1..] == Digits(-n);
      ParseDigitsOfDigits(-n);
    } else {
      ParseDigitsOfDigits(n);
    }
  }

  // ---------- reading rendered text back ----------

  /** The position of the last `sep` in `s`, if any. */
  function LastIndexOf(s: string, sep: char): (r: Option<nat>)
    ensures r.Some? ==> r.value < |s|
  {
    if s == [] then None
    else if s[|s| - 1] == sep then Some(|s| - 1)
    else LastIndexOf(s[..|s| - 1], sep)
  }

  /** `LastIndexOf` finds a `sep` with none after it, or reports that `s` holds none. */
  lemma {:induction false} LastIndexOfFound(s: string, sep: char)
    ensures var r := LastIndexOf(s, sep);
      (r.Some? ==> s[r.value] == sep && forall i :: r.value < i < |s| ==> s[i] != sep)
      && (r.None? ==> forall i :: 0 <= i < |s| ==> s[i] != sep)
    decreases |s|
  {
    if s != [] && s[|s| - 1] != sep {
      var init := s[..|s| - 1];
      LastIndexOfFound(init, sep);
      assert forall i :: 0 <= i < |init| ==> init[i] == s[i];
    }
  }

  /** The pieces of `s` between occurrences of `sep` (always at least one piece). */
  function Split(s: string, sep: char): seq<string>
    decreases |s|
  {
    match LastIndexOf(s, sep)
    case None => [s]
    case Some(i) => Split(s[..i], sep) + [s[i + 1..]]
  }

  lemma SplitWithoutSeparator(s: string, sep: char)
    requires forall i :: 0 <= i < |s| ==> s[i] != sep
    ensures Split(s, sep) == [s]
  {
    LastIndexOfFound(s, sep);
  }

  /** Splitting at the last separator of `s`. */
  lemma SplitAtLast(s: string, sep: char, k: nat)
    requires k < |s| && s[k] == sep
    requires forall i :: k < i < |s| ==> s[i] != sep
    ensures Split(s, sep) == Split(s[..k], sep) + [s[k + 1..]]
  {
    LastIndexOfFound(s, sep);
    assert LastIndexOf(s, sep) == Some(k);
  }

  lemma SplitJoinedLast(a: string, b: string, sep: char)
    requires LastIndexOf(b, sep).None?
    ensures Split(a + [sep] + b, sep) == Split(a, sep) + Split(b, sep)
  {
    var s := a + [sep] + b;
    LastIndexOfFound(b, sep);
    forall i | |a| < i < |s|
      ensures s[i] != sep
    {
      assert s[i] == b[i - |a| - 1];
    }
    SplitAtLast(s, sep, |a|);
    assert s[..|a|] == a && s[|a| + 1..] == b;
  }

  lemma SplitJoinedInner(a: string, b: string, sep: char, j: nat)
    requires LastIndexOf(b, sep) == Some(j)
    requires Split(a + [sep] + b[..j], sep) == Split(a, sep) + Split(b[..j], sep)
    ensures Split(a + [sep] + b, sep) == Split(a, sep) + Split(b, sep)
  {
    var s := a + [sep] + b;
    var k := |a| + 1 + j;
    LastIndexOfFound(b, sep);
    forall i | k < i < |s|
      ensures s[i] != sep
    {
      assert s[i] == b[i - |a| - 1];
    }
    var x, y, z := Split(a, sep), Split(b[..j], sep), [b[j + 1..]];
    JoinedSlices(a, b, sep, j);
    var pre, post := s[..k], s[k + 1..];
    assert Split(pre, sep) == x + y;
    assert [post] == z;
    SplitAtLast(s, sep, k);
    SplitAtFound(b, sep, j);
    ConcatAssociative(x, y, z);
  }

  lemma SplitAtFound(s: string, sep: char, i: nat)
    requires LastIndexOf(s, sep) == Some(i)
    ensures Split(s, sep) == Split(s[..i], sep) + [s[i + 1..]]
  {
  }

  lemma JoinedSlices(a: string, b: string, sep: char, j: nat)
    requires j < |b|
    ensures (a + [sep] + b)[..|a| + 1 + j] == a + [sep] + b[..j]
    ensures (a + [sep] + b)[|a| + 1 + j + 1..] == b[j + 1..]
  {
  }

  /** Splitting distributes over a joining separator. */
  lemma {:induction false} SplitAppend(a: string, b: string, sep: char)
    ensures Split(a + [sep] + b, sep) == Split(a, sep) + Split(b, sep)
    decreases |b|
  {
    match LastIndexOf(b, sep)
    case None =>
      SplitJoinedLast(a, b, sep);
    case Some(j) =>
      SplitAppend(a, b[..j], sep);
      SplitJoinedInner(a, b, sep, j);
  }

  /** No line break in `s`. */
  predicate SingleLine(s: string) {
    forall i :: 0 <= i < |s| ==> s[i] != '\n'
  }

  lemma SingleLineAppend(a: string, b: string)
    ensures SingleLine(a + b) <==> SingleLine(a) && SingleLine(b)
  {
    if SingleLine(a + b) {
      forall i | 0 <= i < |a| ensures a[i] != '\n' {
        assert (a + b)[i] == a[i];
      }
      forall i | 0 <= i < |b| ensures b[i] != '\n' {
        assert (a + b)[|a| + i] == b[i];
      }
    }
  }

  lemma NumeralSingleLine(s: string)
    requires IsNumeral(s)
    ensures SingleLine(s)
  {
  }
}
