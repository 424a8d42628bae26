/**
 * LRC lyric files: `parseLRC` (static/js/script.js) and the choice of the
 * active lyric line made by `updateCurrentLyric`.
 *
 * A line contributes an entry when it contains a match of the regular
 * expression `\[(\d+):(\d+\.\d+)\]` anywhere in it (the expression is not
 * anchored); the entry's time is minutes * 60 + seconds, its text the line
 * without that first match, trimmed. Times are exact reals here.
 */
module Lrc {
  import opened Text

  datatype Lyric = Lyric(time: real, text: string)

  /** A match of the tag expression: `[` at start, `:` at colon, `.` at dot, `]` at close. */
  datatype Tag = Tag(start: nat, colon: nat, dot: nat, close: nat)

  // ---------------------------------------------------------------------
  // The tag expression
  // ---------------------------------------------------------------------

  /**
   * `\[(\d+):(\d+\.\d+)\]` matches `line[p..e + 1]`, with its `:` at `c` and its
   * `.` at `d`; each of the three digit groups is non-empty.
   */
  ghost predicate TagAt(line: string, p: int, c: int, d: int, e: int) {
    && 0 <= p && p + 1 < c && c + 1 < d && d + 1 < e && e < |line|
    && line[p] == '[' && DigitsBetween(line, p + 1, c)
    && line[c] == ':' && DigitsBetween(line, c + 1, d)
    && line[d] == '.' && DigitsBetween(line, d + 1, e)
    && line[e] == ']'
  }

  /** Every character of `s` from `i` up to, not including, `j` is a digit. */
  predicate DigitsBetween(s: string, i: int, j: int)
    requires 0 <= i <= j <= |s|
  {
    forall k :: i <= k < j ==> IsDigit(s[k])
  }

  /** A run of digits inside `s` is, cut out, a string of digits. */
  lemma DigitsBetweenSlice(s: string, i: int, j: int)
    requires 0 <= i <= j <= |s| && DigitsBetween(s, i, j)
    ensures AllDigits(s[i..j])
  {
  }

  /** The expression matches nowhere before position `p`. */
  ghost predicate NoTagBefore(line: string, p: int) {
    forall q, c, d, e :: 0 <= q < p ==> !TagAt(line, q, c, d, e)
  }

  /** End of the longest run of digits starting at `i` (what a greedy `\d+` consumes). */
  function DigitRunEnd(s: string, i: nat): (j: nat)
    requires i <= |s|
    ensures i <= j <= |s| && DigitsBetween(s, i, j)
    ensures j < |s| ==> !IsDigit(s[j])
    decreases |s| - i
  {
    if i < |s| && IsDigit(s[i]) then DigitRunEnd(s, i + 1) else i
  }

  /** A run of digits that stops at a non-digit is the greedy run. */
  lemma DigitRunEndUnique(s: string, i: nat, j: nat)
    requires i <= j < |s| && DigitsBetween(s, i, j) && !IsDigit(s[j])
    ensures DigitRunEnd(s, i) == j
  {
  }

  /** The tag expression tried at position `p` only: greedy digit runs, then the delimiters. */
  function MatchAt(line: string, p: nat): (m: Option<Tag>)
    requires p <= |line|
    ensures m.Some? ==> m.value.start == p
    ensures m.Some? ==> TagAt(line, p, m.value.colon, m.value.dot, m.value.close)
  {
    if p < |line| && line[p] == '[' then
      var c := DigitRunEnd(line, p + 1);
      if c > p + 1 && c < |line| && line[c] == ':' then
        var d := DigitRunEnd(line, c + 1);
        if d > c + 1 && d < |line| && line[d] == '.' then
          var e := DigitRunEnd(line, d + 1);
          if e > d + 1 && e < |line| && line[e] == ']' then Some(Tag(p, c, d, e))
          else None
        else None
      else None
    else None
  }

  /** Conversely, every match of the expression at `p` is the one `MatchAt` finds. */
  lemma TagAtMatched(line: string, p: nat, c: nat, d: nat, e: nat)
    requires TagAt(line, p, c, d, e)
    ensures MatchAt(line, p) == Some(Tag(p, c, d, e))
  {
    DigitRunEndUnique(line, p + 1, c);
    DigitRunEndUnique(line, c + 1, d);
    DigitRunEndUnique(line, d + 1, e);
  }

  /** `line.match(timeRegex)`: the leftmost match at or after `from`. */
  function FirstTag(line: string, from: nat): (m: Option<Tag>)
    requires from <= |line|
    ensures m.Some? ==> from <= m.value.start < |line| && MatchAt(line, m.value.start) == m
    ensures m.Some? ==> forall q :: from <= q < m.value.start ==> MatchAt(line, q).None?
    ensures m.None? ==> forall q :: from <= q <= |line| ==> MatchAt(line, q).None?
    decreases |line| - from
  {
    if MatchAt(line, from).Some? then MatchAt(line, from)
    else if from == |line| then None
    else FirstTag(line, from + 1)
  }

  /** minutes * 60 + seconds, `parseInt` of group 1 and `parseFloat` of group 2, exactly. */
  function TagTime(line: string, t: Tag): (time: real)
    requires TagAt(line, t.start, t.colon, t.dot, t.close)
    ensures time >= 0.0
  {
    DigitsBetweenSlice(line, t.start + 1, t.colon);
    DigitsBetweenSlice(line, t.colon + 1, t.dot);
    DigitsBetweenSlice(line, t.dot + 1, t.close);
    var minutes := DigitsValue(line[t.start + 1..t.colon]);
    var whole := DigitsValue(line[t.colon + 1..t.dot]);
    (minutes * 60) as real + whole as real + DecimalFraction(line[t.dot + 1..t.close])
  }

  /** The digits after the decimal point, read as a fraction of a second. */
  function DecimalFraction(digits: string): (f: real)
    requires AllDigits(digits)
    ensures 0.0 <= f < 1.0
  {
    var n := DigitsValue(digits);
    var p := Pow10(|digits|);
    QuotientBelowOne(n as real, p as real);
    n as real / p as real
  }

  /** A quotient of a non-negative number by a larger one lies in [0, 1). */
  lemma QuotientBelowOne(a: real, b: real)
    requires 0.0 <= a < b
    ensures 0.0 <= a / b < 1.0
  {
    assert a / b * b == a;
  }

  // ---------------------------------------------------------------------
  // One line
  // ---------------------------------------------------------------------

  /** The body of the `lines.forEach` callback: an entry, or nothing for this line. */
  function ParseLine(line: string): (r: Option<Lyric>)
    ensures r.Some? ==> r.value.text != [] && r.value.time >= 0.0
  {
    match FirstTag(line, 0)
    case None => None
    case Some(t) => TaggedEntry(line, t)
  }

  /** What a line gives once `t` is its match: the time of the tag and the rest of the line, trimmed, unless that is blank. */
  function TaggedEntry(line: string, t: Tag): (r: Option<Lyric>)
    requires TagAt(line, t.start, t.colon, t.dot, t.close)
    ensures r.Some? ==> r.value.text != [] && r.value.time >= 0.0
  {
    var text := Trim(line[..t.start] + line[t.close + 1..]);
    if text == "" then None else Some(Lyric(TagTime(line, t), text))
  }

  /** A line in which the expression matches nowhere gives no entry. */
  lemma ParseLineUntagged(line: string)
    requires forall p, c, d, e :: !TagAt(line, p, c, d, e)
    ensures ParseLine(line) == None
  {
  }

  /** The leftmost match of the expression is the one `line.match` reports. */
  lemma FirstTagLeftmost(line: string, p: nat, c: nat, d: nat, e: nat)
    requires TagAt(line, p, c, d, e)
    requires NoTagBefore(line, p)
    ensures FirstTag(line, 0) == Some(Tag(p, c, d, e))
  {
    TagAtMatched(line, p, c, d, e);
  }

  /** What `match` reports is a match of the expression with no match before it. */
  lemma FirstTagIsLeftmost(line: string, t: Tag)
    requires FirstTag(line, 0) == Some(t)
    ensures TagAt(line, t.start, t.colon, t.dot, t.close)
    ensures NoTagBefore(line, t.start)
  {
    forall q, c, d, e | 0 <= q < t.start
      ensures !TagAt(line, q, c, d, e)
    {
      if TagAt(line, q, c, d, e) {
        TagAtMatched(line, q, c, d, e);
      }
    }
  }

  /**
   * A line whose leftmost match of the expression is at `p`, with its `:` at `c`,
   * its `.` at `d` and its `]` at `e`, gives the entry made of that match's time and
   * of the rest of the line, trimmed, unless that rest is blank.
   */
  lemma ParseLineOfMatch(line: string, p: nat, c: nat, d: nat, e: nat)
    requires TagAt(line, p, c, d, e)
    requires NoTagBefore(line, p)
    ensures ParseLine(line) == TaggedEntry(line, Tag(p, c, d, e))
  {
    FirstTagLeftmost(line, p, c, d, e);
  }

  /**
   * Conversely, every entry comes from the leftmost match `m` in its line: the
   * entry's time is that match's time, and its text the rest of the line, trimmed.
   */
  lemma ParseLineSound(line: string, l: Lyric) returns (m: Tag)
    requires ParseLine(line) == Some(l)
    ensures TagAt(line, m.start, m.colon, m.dot, m.close) && NoTagBefore(line, m.start)
    ensures l.time == TagTime(line, m)
    ensures l.text == Trim(line[..m.start] + line[m.close + 1..])
  {
    m := FirstTag(line, 0).value;
    ParseLineFirstTag(line, m);
    TaggedEntryParts(line, m, l);
    FirstTagIsLeftmost(line, m);
  }

  /** The entry of a line is the one its first match gives. */
  lemma ParseLineFirstTag(line: string, t: Tag)
    requires FirstTag(line, 0) == Some(t)
    ensures TagAt(line, t.start, t.colon, t.dot, t.close)
    ensures ParseLine(line) == TaggedEntry(line, t)
  {
  }

  /** The parts of the entry a match gives: the match's time and the rest of the line, trimmed. */
  lemma TaggedEntryParts(line: string, t: Tag, l: Lyric)
    requires TagAt(line, t.start, t.colon, t.dot, t.close)
    requires TaggedEntry(line, t) == Some(l)
    ensures l.time == TagTime(line, t) && l.text == Trim(line[..t.start] + line[t.close + 1..])
  {
    var text := Trim(line[..t.start] + line[t.close + 1..]);
    assert TaggedEntry(line, t) == if text == "" then None else Some(Lyric(TagTime(line, t), text));
  }

  // ---------------------------------------------------------------------
  // All lines, then the sort
  // ---------------------------------------------------------------------

  /** The result of the callback for every line, in line order. */
  function ParseAll(lines: seq<string>): (rs: seq<Option<Lyric>>)
    ensures |rs| == |lines|
    ensures forall k :: 0 <= k < |lines| ==> rs[k] == ParseLine(lines[k])
  {
    if lines == [] then [] else [ParseLine(lines[0])] + ParseAll(lines[1..])
  }

  /** The entries `lyrics.push` collects from the callback results, in order. */
  function Collect(rs: seq<Option<Lyric>>): (r: seq<Lyric>)
    ensures |r| <= |rs|
  {
    if rs == [] then []
    else
      match rs[0]
      case None => Collect(rs[1..])
      case Some(l) => [l] + Collect(rs[1..])
  }

  lemma {:induction false} CollectComplete(rs: seq<Option<Lyric>>, k: nat, l: Lyric)
    requires k < |rs| && rs[k] == Some(l)
    ensures l in Collect(rs)
  {
    if k > 0 {
      assert rs[1..][k - 1] == rs[k];
      CollectComplete(rs[1..], k - 1, l);
    }
  }

  lemma {:induction false} CollectSound(rs: seq<Option<Lyric>>, l: Lyric)
    requires l in Collect(rs)
    ensures exists k :: 0 <= k < |rs| && rs[k] == Some(l)
  {
    if rs[0] != Some(l) {
      CollectSound(rs[1..], l);
      var k :| 0 <= k < |rs| - 1 && rs[1..][k] == Some(l);
      assert rs[k + 1] == Some(l);
    }
  }

  /** The entries of the lines, in line order (the array built by `lyrics.push`). */
  function Extract(lines: seq<string>): (r: seq<Lyric>)
    ensures |r| <= |lines|
  {
    Collect(ParseAll(lines))
  }

  /** Every line's entry is extracted. */
  lemma ExtractComplete(lines: seq<string>, k: nat, l: Lyric)
    requires k < |lines| && ParseLine(lines[k]) == Some(l)
    ensures l in Extract(lines)
  {
    CollectComplete(ParseAll(lines), k, l);
  }

  /** Every extracted entry comes from a line. */
  lemma ExtractSound(lines: seq<string>, l: Lyric)
    requires l in Extract(lines)
    ensures exists k :: 0 <= k < |lines| && ParseLine(lines[k]) == Some(l)
  {
    CollectSound(ParseAll(lines), l);
  }

  ghost predicate SortedByTime(xs: seq<Lyric>) {
    forall i, j :: 0 <= i < j < |xs| ==> xs[i].time <= xs[j].time
  }

  /** The entries of `xs` whose time is `t`, in their order in `xs`. */
  function AtTime(xs: seq<Lyric>, t: real): seq<Lyric> {
    if xs == [] then []
    else (if xs[0].time == t then [xs[0]] else []) + AtTime(xs[1..], t)
  }

  /** Puts `x` before the first entry that is not earlier than it. */
  function InsertByTime(x: Lyric, ys: seq<Lyric>): (r: seq<Lyric>)
    ensures multiset(r) == multiset(ys) + multiset{x}
    ensures |r| == |ys| + 1
  {
    if ys == [] || x.time <= ys[0].time then [x] + ys
    else
      assert ys == [ys[0]] + ys[1..];
      [ys[0]] + InsertByTime(x, ys[1..])
  }

  /** Inserting into a time-sorted list keeps it sorted, and the new head is `x` or the old head. */
  lemma {:induction false} InsertByTimeSorted(x: Lyric, ys: seq<Lyric>)
    requires SortedByTime(ys)
    ensures SortedByTime(InsertByTime(x, ys))
    ensures InsertByTime(x, ys)[0] == x || (ys != [] && InsertByTime(x, ys)[0] == ys[0])
  {
    if ys != [] && x.time > ys[0].time {
      var tail := ys[1..];
      assert SortedByTime(tail) by {
        forall i, j | 0 <= i < j < |tail|
          ensures tail[i].time <= tail[j].time
        {
          assert tail[i] == ys[i + 1] && tail[j] == ys[j + 1];
        }
      }
      InsertByTimeSorted(x, tail);
      var rest := InsertByTime(x, tail);
      var r := [ys[0]] + rest;
      assert r == InsertByTime(x, ys);
      assert ys[0].time <= rest[0].time by {
        if rest[0] != x {
          assert rest[0] == ys[1];
        }
      }
      forall i, j | 0 <= i < j < |r|
        ensures r[i].time <= r[j].time
      {
        if i == 0 {
          assert r[j] == rest[j - 1];
          assert rest[0].time <= rest[j - 1].time;
        } else {
          assert r[i] == rest[i - 1] && r[j] == rest[j - 1];
        }
      }
    }
  }

  /** The inserted entry goes before every entry of the same time. */
  lemma {:induction false} InsertByTimeAtTime(x: Lyric, ys: seq<Lyric>, t: real)
    ensures AtTime(InsertByTime(x, ys), t) == (if x.time == t then [x] else []) + AtTime(ys, t)
  {
    if ys == [] || x.time <= ys[0].time {
      assert ([x] + ys)[1..] == ys;
    } else {
      var rest := InsertByTime(x, ys[1..]);
      InsertByTimeAtTime(x, ys[1..], t);
      var head := if ys[0].time == t then [ys[0]] else [];
      var mine := if x.time == t then [x] else [];
      assert ([ys[0]] + rest)[1..] == rest;
      assert AtTime(InsertByTime(x, ys), t) == head + (mine + AtTime(ys[1..], t));
      assert AtTime(ys, t) == head + AtTime(ys[1..], t);
      assert head == [] || mine == [];
    }
  }

  /**
   * `lyrics.sort((a, b) => a.time - b.time)`: a stable sort by time (insertion sort,
   * each entry going before the later entries of equal time).
   */
  function SortByTime(xs: seq<Lyric>): (r: seq<Lyric>)
    ensures multiset(r) == multiset(xs) && |r| == |xs|
    ensures SortedByTime(r)
  {
    if xs == [] then []
    else
      assert xs == [xs[0]] + xs[1..];
      InsertByTimeSorted(xs[0], SortByTime(xs[1..]));
      InsertByTime(xs[0], SortByTime(xs[1..]))
  }

  /** Stability: for every time, the entries with that time keep their input order. */
  lemma {:induction false} SortByTimeStable(xs: seq<Lyric>, t: real)
    ensures AtTime(SortByTime(xs), t) == AtTime(xs, t)
  {
    if xs != [] {
      SortByTimeStable(xs[1..], t);
      InsertByTimeAtTime(xs[0], SortByTime(xs[1..]), t);
    }
  }

  /** `parseLRC(lrcText)`. */
  function ParseLRC(text: string): (r: seq<Lyric>)
    ensures SortedByTime(r)
  {
    SortByTime(Extract(Split(text)))
  }

  /**
   * The parse result: sorted by time, no longer than the number of lines, made of
   * exactly the entries of the tagged lines whose remaining text is not blank, with
   * entries of equal time in line order.
   */
  lemma ParseLRCSpec(text: string)
    ensures SortedByTime(ParseLRC(text))
    ensures |ParseLRC(text)| <= |Split(text)|
    ensures forall l :: l in ParseLRC(text) <==>
      exists k :: 0 <= k < |Split(text)| && ParseLine(Split(text)[k]) == Some(l)
    ensures multiset(ParseLRC(text)) == multiset(Extract(Split(text)))
    ensures forall t :: AtTime(ParseLRC(text), t) == AtTime(Extract(Split(text)), t)
  {
    var lines := Split(text);
    forall l | l in ParseLRC(text)
      ensures exists k :: 0 <= k < |lines| && ParseLine(lines[k]) == Some(l)
    {
      assert l in multiset(Extract(lines));
      ExtractSound(lines, l);
    }
    forall l | exists k :: 0 <= k < |lines| && ParseLine(lines[k]) == Some(l)
      ensures l in ParseLRC(text)
    {
      var k :| 0 <= k < |lines| && ParseLine(lines[k]) == Some(l);
      ExtractComplete(lines, k, l);
      assert l in multiset(ParseLRC(text));
    }
    forall t ensures AtTime(ParseLRC(text), t) == AtTime(Extract(lines), t) {
      SortByTimeStable(Extract(lines), t);
    }
  }

  // ---------------------------------------------------------------------
  // The active line
  // ---------------------------------------------------------------------

  /** The first index at or after `i` whose time is later than `t`, or `|lyrics|`. */
  function FirstLaterFrom(lyrics: seq<Lyric>, t: real, i: nat): (j: nat)
    requires i <= |lyrics|
    ensures i <= j <= |lyrics|
    ensures forall k :: i <= k < j ==> lyrics[k].time <= t
    ensures j < |lyrics| ==> lyrics[j].time > t
    decreases |lyrics| - i
  {
    if i == |lyrics| || lyrics[i].time > t then i else FirstLaterFrom(lyrics, t, i + 1)
  }

  /**
   * The index `updateCurrentLyric` settles on: the one before the first lyric later
   * than `t`, or the last index when there is none.
   */
  function ActiveIndex(lyrics: seq<Lyric>, t: real): (k: int)
    ensures -1 <= k < |lyrics|
    ensures forall j :: 0 <= j <= k ==> lyrics[j].time <= t
    ensures k + 1 < |lyrics| ==> lyrics[k + 1].time > t
  {
    FirstLaterFrom(lyrics, t, 0) - 1
  }

  /** On sorted lyrics, the active index is the greatest one whose time is not after `t`. */
  lemma ActiveIndexGreatest(lyrics: seq<Lyric>, t: real)
    requires SortedByTime(lyrics)
    ensures forall j :: 0 <= j < |lyrics| ==> (lyrics[j].time <= t <==> j <= ActiveIndex(lyrics, t))
  {
    var k := ActiveIndex(lyrics, t);
    forall j | 0 <= j < |lyrics| && k < j
      ensures lyrics[j].time > t
    {
      assert lyrics[k + 1].time <= lyrics[j].time;
    }
  }
}
