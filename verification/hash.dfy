/**
 * `String.prototype.hashCode` (static/js/script.js): the polynomial string hash
 * with multiplier 31 over the UTF-16 code units, kept in 32-bit two's complement
 * after every step, and made non-negative at the end. It picks a stable cover
 * image for an album or song name.
 */
module Hash {

  const TwoTo31: int := 0x8000_0000
  const TwoTo32: int := 0x1_0000_0000

  /** ECMAScript ToInt32 on an integer: the value congruent to `x` modulo 2^32 in [-2^31, 2^31). */
  function ToInt32(x: int): (r: int)
    ensures -TwoTo31 <= r < TwoTo31
    ensures r == x - TwoTo32 * ((x + TwoTo31) / TwoTo32)
  {
    (x + TwoTo31) % TwoTo32 - TwoTo31
  }

  /** Adding a multiple of 2^32 does not change ToInt32. */
  lemma ToInt32Shift(x: int, k: int)
    ensures ToInt32(x + k * TwoTo32) == ToInt32(x)
  {
    var r := ToInt32(x);
    var s := ToInt32(x + k * TwoTo32);
    var q := (x + TwoTo31) / TwoTo32;
    var q' := (x + k * TwoTo32 + TwoTo31) / TwoTo32;
    assert s - r == TwoTo32 * (k - q' + q);
  }

  /** A value already in 32-bit range is its own ToInt32. */
  lemma ToInt32InRange(x: int)
    requires -TwoTo31 <= x < TwoTo31
    ensures ToInt32(x) == x
  {
  }

  /** `charCodeAt` over a string: each code point as one UTF-16 unit, or as a surrogate pair above U+FFFF. */
  function Utf16(s: string): (units: seq<int>)
    ensures forall k :: 0 <= k < |units| ==> 0 <= units[k] < 0x1_0000
    ensures |units| >= |s|
  {
    if s == [] then []
    else
      var v := s[0] as int;
      var first := if v < 0x1_0000 then [v]
                   else [0xD800 + (v - 0x1_0000) / 0x400, 0xDC00 + (v - 0x1_0000) % 0x400];
      first + Utf16(s[1..])
  }

  /** The exact polynomial hash: the sum of `units[i] * 31^(n - 1 - i)`. */
  function Poly(units: seq<int>): int
  {
    if units == [] then 0 else 31 * Poly(units[..|units| - 1]) + units[|units| - 1]
  }

  function Abs(x: int): nat {
    if x < 0 then -x else x
  }

  /**
   * One round of the loop, `((hash << 5) - hash) + char` truncated to 32 bits, keeps
   * `hash` equal to the exact hash of the prefix modulo 2^32.
   */
  lemma HashStep(hash: int, prefix: seq<int>, unit: int)
    requires hash == ToInt32(Poly(prefix))
    ensures ToInt32(ToInt32(hash * 32) - hash + unit) == ToInt32(Poly(prefix + [unit]))
  {
    var p := Poly(prefix);
    var a := (hash * 32 + TwoTo31) / TwoTo32;
    var b := (p + TwoTo31) / TwoTo32;
    assert hash == p - TwoTo32 * b;
    assert ToInt32(hash * 32) - hash + unit == 31 * p + unit + -(31 * b + a) * TwoTo32;
    ToInt32Shift(31 * p + unit, -(31 * b + a));
    assert (prefix + [unit])[..|prefix|] == prefix;
  }

  /**
   * `s.hashCode()`: the absolute value of the 32-bit wrapped polynomial hash of
   * the UTF-16 units of `s`, which lies in [0, 2^31].
   */
  method HashCode(s: string) returns (h: nat)
    ensures h == Abs(ToInt32(Poly(Utf16(s))))
    ensures h <= TwoTo31
  {
    var units := Utf16(s);
    var hash := 0;
    var i := 0;
    while i < |units|
      invariant 0 <= i <= |units|
      invariant hash == ToInt32(Poly(units[..i]))
    {
      var unit := units[i];
      HashStep(hash, units[..i], unit);
      assert units[..i] + [unit] == units[..i + 1];
      hash := ToInt32(ToInt32(hash * 32) - hash + unit);
      i := i + 1;
    }
    assert units[..i] == units;
    h := Abs(hash);
  }

  /** Two examples: "a" hashes to 97 and "ab" to 97 * 31 + 98. */
  lemma HashExamples()
    ensures Abs(ToInt32(Poly(Utf16("a")))) == 97
    ensures Abs(ToInt32(Poly(Utf16("ab")))) == 3105
  {
    assert Utf16("ab") == [97, 98];
    assert [97, 98][..1] == [97];
    ToInt32InRange(3105);
  }
}
