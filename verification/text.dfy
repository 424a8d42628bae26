/**
 * String helpers shared by the lyric parser and the time display:
 * decimal digits, `Number.prototype.toString` on naturals, `padStart(2, '0')`,
 * `String.prototype.trim` and `String.prototype.split('\n')`.
 */
module Text {

  datatype Option<T> = None | Some(value: T)

  // ---------------------------------------------------------------------
  // Decimal digits
  // ---------------------------------------------------------------------

  /** The class `\d` of a JavaScript regular expression: ASCII digits only. */
  predicate IsDigit(c: char) {
    '0' <= c <= '9'
  }

  predicate AllDigits(s: string) {
    forall i :: 0 <= i < |s| ==> IsDigit(s[i])
  }

  function DigitValue(c: char): (d: nat)
    requires IsDigit(c)
    ensures d < 10
  {
    c as int - '0' as int
  }

  function DigitChar(d: nat): (c: char)
    requires d < 10
    ensures IsDigit(c) && DigitValue(c) == d
  {
    ('0' as int + d) as char
  }

  function Pow10(k: nat): (p: nat)
    ensures p >= 1
  {
    if k == 0 then 1 else 10 * Pow10(k - 1)
  }

  /** The number a string of decimal digits denotes, most significant digit first. */
  function DigitsValue(s: string): (n: nat)
    requires AllDigits(s)
    ensures n < Pow10(|s|)
  {
    if s == [] then 0
    else
      var m := DigitsValue(s[..|s| - 1]);
      assert m <= Pow10(|s| - 1) - 1;
      m * 10 + DigitValue(s[|s| - 1])
  }

  /** Leading zeros do not change the value of a digit string. */
  lemma {:induction false} LeadingZeroValue(s: string)
    requires AllDigits(s)
    ensures AllDigits("0" + s) && DigitsValue("0" + s) == DigitsValue(s)
  {
    if s != [] {
      var init := s[..|s| - 1];
      LeadingZeroValue(init);
      assert ("0" + s)[..|s|] == "0" + init;
    }
  }

  /** `n.toString()` for a non-negative integer: the shortest decimal numeral of `n`. */
  function NatToString(n: nat): (s: string)
    ensures |s| >= 1 && AllDigits(s)
    ensures DigitsValue(s) == n
    ensures |s| == 1 || s[0] != '0'
  {
    if n < 10 then [DigitChar(n)]
    else
      var front := NatToString(n / 10);
      var s := front + [DigitChar(n % 10)];
      assert s[..|s| - 1] == front;
      s
  }

  /** `s.padStart(2, '0')`: a string shorter than two characters is left-padded with '0'. */
  function Pad2(s: string): (r: string)
    ensures |r| == if |s| >= 2 then |s| else 2
    ensures |s| >= 2 ==> r == s
    decreases 2 - |s|
  {
    if |s| >= 2 then s else Pad2("0" + s)
  }

  lemma {:induction false} Pad2Digits(s: string)
    requires AllDigits(s)
    ensures |Pad2(s)| == if |s| >= 2 then |s| else 2
    ensures AllDigits(Pad2(s)) && DigitsValue(Pad2(s)) == DigitsValue(s)
    ensures |s| >= 2 ==> Pad2(s) == s
    decreases 2 - |s|
  {
    if |s| < 2 {
      LeadingZeroValue(s);
      Pad2Digits("0" + s);
    }
  }

  // ---------------------------------------------------------------------
  // Whitespace and trim
  // ---------------------------------------------------------------------

  /**
   * The characters `String.prototype.trim` removes: the ECMAScript WhiteSpace
   * (TAB, VT, FF, ZWNBSP and the space separators of category Zs) and
   * LineTerminator (LF, CR, LS, PS) code points.
   */
  predicate IsWhitespace(c: char) {
    || c == '\t' || c == '\n' || c == '\U{B}' || c == '\U{C}' || c == '\r'
    || c == ' ' || c == '\U{A0}' || c == '\U{1680}'
    || ('\U{2000}' <= c <= '\U{200A}')
    || c == '\U{2028}' || c == '\U{2029}' || c == '\U{202F}' || c == '\U{205F}'
    || c == '\U{3000}' || c == '\U{FEFF}'
  }

  /** Every character of `s` from `i` up to, not including, `j` is whitespace. */
  predicate WhitespaceBetween(s: string, i: int, j: int)
    requires 0 <= i <= j <= |s|
  {
    forall k :: i <= k < j ==> IsWhitespace(s[k])
  }

  /** The first position at or after `i` that does not hold whitespace, or `|s|`. */
  function SkipWhitespace(s: string, i: nat): (j: nat)
    requires i <= |s|
    ensures i <= j <= |s| && WhitespaceBetween(s, i, j)
    ensures j < |s| ==> !IsWhitespace(s[j])
    decreases |s| - i
  {
    if i < |s| && IsWhitespace(s[i]) then SkipWhitespace(s, i + 1) else i
  }

  /** Going back from `j` but not below `lo`: the end of `s[lo..j]` without its trailing whitespace. */
  function SkipWhitespaceBack(s: string, lo: nat, j: nat): (k: nat)
    requires lo <= j <= |s|
    ensures lo <= k <= j && WhitespaceBetween(s, k, j)
    ensures k > lo ==> !IsWhitespace(s[k - 1])
    decreases j
  {
    if j > lo && IsWhitespace(s[j - 1]) then SkipWhitespaceBack(s, lo, j - 1) else j
  }

  /** `s.trim()`: `s` without its leading and trailing whitespace. */
  function Trim(s: string): (r: string)
    ensures |r| <= |s|
  {
    var start := SkipWhitespace(s, 0);
    s[start..SkipWhitespaceBack(s, start, |s|)]
  }

  /**
   * What `trim` means: the result is the slice of `s` between a whitespace-only
   * prefix and a whitespace-only suffix.
   */
  lemma TrimSpec(s: string)
    ensures exists i ::
      && 0 <= i && i + |Trim(s)| <= |s| && Trim(s) == s[i..i + |Trim(s)|]
      && WhitespaceBetween(s, 0, i) && WhitespaceBetween(s, i + |Trim(s)|, |s|)
  {
    var i := SkipWhitespace(s, 0);
    var j := SkipWhitespaceBack(s, i, |s|);
    assert Trim(s) == s[i..j] && |Trim(s)| == j - i;
    assert WhitespaceBetween(s, 0, i) && WhitespaceBetween(s, i + |Trim(s)|, |s|);
  }

  /** The result of `trim` neither starts nor ends with whitespace. */
  lemma TrimEnds(s: string)
    ensures Trim(s) != [] ==> !IsWhitespace(Trim(s)[0]) && !IsWhitespace(Trim(s)[|Trim(s)| - 1])
  {
    var i := SkipWhitespace(s, 0);
    var j := SkipWhitespaceBack(s, i, |s|);
    var r := s[i..j];
    assert Trim(s) == r;
    if i < j {
      assert !IsWhitespace(s[i]) && !IsWhitespace(s[j - 1]);
      assert r[0] == s[i] && r[|r| - 1] == s[j - 1];
    }
  }

  /** `trim` yields the empty string exactly when `s` is whitespace only. */
  lemma TrimEmpty(s: string)
    ensures Trim(s) == [] <==> WhitespaceBetween(s, 0, |s|)
  {
    var i := SkipWhitespace(s, 0);
    var j := SkipWhitespaceBack(s, i, |s|);
    if i < |s| {
      assert !IsWhitespace(s[i]);
      assert j > i;
    }
  }

  // ---------------------------------------------------------------------
  // Lines
  // ---------------------------------------------------------------------

  /** `s.split('\n')`: the pieces between line feeds; there is always at least one. */
  function Split(s: string): (lines: seq<string>)
    ensures |lines| >= 1
    ensures forall k :: 0 <= k < |lines| ==> '\n' !in lines[k]
  {
    if s == [] then [""]
    else
      var rest := Split(s[1..]);
      if s[0] == '\n' then [""] + rest
      else [[s[0]] + rest[0]] + rest[1..]
  }

  /** `lines.join('\n')`. */
  function Join(lines: seq<string>): (s: string)
    requires |lines| >= 1
  {
    if |lines| == 1 then lines[0] else lines[0] + "\n" + Join(lines[1..])
  }

  lemma {:induction false} JoinSplit(s: string)
    ensures Join(Split(s)) == s
  {
    if s != [] {
      var rest := Split(s[1..]);
      JoinSplit(s[1..]);
      if s[0] == '\n' {
        assert Split(s)[1..] == rest;
      } else {
        var lines := Split(s);
        if |rest| == 1 {
          assert Join(lines) == [s[0]] + rest[0];
        } else {
          assert lines[1..] == rest[1..];
          assert Join(lines) == [s[0]] + (rest[0] + "\n" + Join(rest[1..]));
        }
      }
    }
  }

  lemma {:induction false} SplitJoin(lines: seq<string>)
    requires |lines| >= 1
    requires forall k :: 0 <= k < |lines| ==> '\n' !in lines[k]
    ensures Split(Join(lines)) == lines
    decreases |Join(lines)|
  {
    var s := Join(lines);
    var first := lines[0];
    if first == [] {
      if |lines| > 1 {
        assert s == "\n" + Join(lines[1..]);
        assert s[1..] == Join(lines[1..]);
        SplitJoin(lines[1..]);
      }
    } else {
      var tail := [first[1..]] + lines[1..];
      assert tail[1..] == lines[1..];
      assert s[0] == first[0] by {
        if |lines| > 1 {
          assert s == first + ("\n" + Join(lines[1..]));
        }
      }
      assert s[1..] == Join(tail) by {
        if |lines| > 1 {
          assert s == first + ("\n" + Join(lines[1..]));
        }
      }
      assert first[0] in first;
      assert forall k :: 0 <= k < |tail| ==> '\n' !in tail[k] by {
        assert forall c :: c in first[1..] ==> c in first;
      }
      SplitJoin(tail);
      assert [first[0]] + first[1..] == first;
    }
  }
}
