/**
 * The string primitives the field structurer relies on: Python's whitespace
 * and digit classes (restricted to ASCII), `str.strip()` and `str.split("\n")`.
 */
module Text {

  /** `\s` and `str.isspace()` restricted to ASCII: tab, line feed, vertical
      tab, form feed, carriage return (9-13), the separators 0x1C-0x1F and the
      space (32). Python also counts these five separators as whitespace. */
  predicate IsSpace(c: char) {
    ('\t' <= c <= '\r') || ('\U{1C}' <= c <= ' ')
  }

  /** `[0-9]`, and `\d` restricted to ASCII. */
  predicate IsDigit(c: char) {
    '0' <= c <= '9'
  }

  ghost predicate AllSpace(s: string) {
    forall k :: 0 <= k < |s| ==> IsSpace(s[k])
  }

  /** The first index at or after `i` that does not hold whitespace. */
  function SkipLeading(s: string, i: nat): (a: nat)
    requires i <= |s|
    ensures i <= a <= |s|
    ensures forall k :: i <= k < a ==> IsSpace(s[k])
    ensures a == |s| || !IsSpace(s[a])
    decreases |s| - i
  {
    if i < |s| && IsSpace(s[i]) then SkipLeading(s, i + 1) else i
  }

  /** The end of `s[lo..j]` once its trailing whitespace is dropped. */
  function SkipTrailing(s: string, lo: nat, j: nat): (b: nat)
    requires lo <= j <= |s|
    ensures lo <= b <= j
    ensures forall k :: b <= k < j ==> IsSpace(s[k])
    ensures b == lo || !IsSpace(s[b - 1])
    decreases j
  {
    if lo < j && IsSpace(s[j - 1]) then SkipTrailing(s, lo, j - 1) else j
  }

  /** `s[a..b]` is what is left of `s` once the whitespace at both ends is
      removed. */
  ghost predicate StripSpan(s: string, a: nat, b: nat) {
    && a <= b <= |s|
    && (forall k :: 0 <= k < a ==> IsSpace(s[k]))
    && (forall k :: b <= k < |s| ==> IsSpace(s[k]))
    && (a < b ==> !IsSpace(s[a]) && !IsSpace(s[b - 1]))
  }

  /** Python's `str.strip()` without arguments. The result is empty exactly
      when `s` is all whitespace. */
  function Strip(s: string): (r: string)
    ensures exists a: nat, b: nat :: StripSpan(s, a, b) && r == s[a..b]
    ensures r == [] || (!IsSpace(r[0]) && !IsSpace(r[|r| - 1]))
    ensures r == [] <==> AllSpace(s)
  {
    var a := SkipLeading(s, 0);
    var b := SkipTrailing(s, a, |s|);
    assert StripSpan(s, a, b);
    assert b > a ==> s[a..b][0] == s[a] && s[a..b][b - a - 1] == s[b - 1];
    s[a..b]
  }

  /** A string with no whitespace at either end is its own strip. */
  lemma StripUnchanged(s: string)
    requires s != [] && !IsSpace(s[0]) && !IsSpace(s[|s| - 1])
    ensures Strip(s) == s
  {
  }

  /** Joins lines with a line feed between each two: the inverse of
      SplitLines. */
  function JoinLines(ls: seq<string>): string
    requires |ls| >= 1
  {
    if |ls| == 1 then ls[0] else ls[0] + "\n" + JoinLines(ls[1..])
  }

  /** Python's `str.split("\n")`: the pieces of `t` between line feeds, in
      order; an empty string gives one empty piece, and a trailing line feed
      gives a trailing empty piece. */
  function SplitLines(t: string): (r: seq<string>)
    ensures |r| >= 1
    ensures forall k :: 0 <= k < |r| ==> '\n' !in r[k]
    ensures JoinLines(r) == t
    decreases |t|
  {
    if t == [] then [""]
    else if t[0] == '\n' then
      var rest := SplitLines(t[1..]);
      assert t == "\n" + t[1..];
      [""] + rest
    else
      var rest := SplitLines(t[1..]);
      var r := [[t[0]] + rest[0]] + rest[1..];
      assert r[1..] == rest[1..];
      assert |rest| > 1 ==> JoinLines(rest) == rest[0] + "\n" + JoinLines(rest[1..]);
      assert t == [t[0]] + t[1..];
      r
  }

  /** Splitting a piece without line feeds followed by more text. */
  lemma {:induction false} SplitAfterPiece(x: string, rest: string)
    requires '\n' !in x
    ensures SplitLines(x + rest) == [x + SplitLines(rest)[0]] + SplitLines(rest)[1..]
    decreases |x|
  {
    if x != [] {
      var t := x + rest;
      assert t[0] == x[0] && x[0] in x;
      assert t[1..] == x[1..] + rest;
      assert '\n' !in x[1..] by {
        forall k | 0 <= k < |x[1..]| ensures x[1..][k] != '\n' { assert x[1..][k] == x[k + 1]; }
      }
      SplitAfterPiece(x[1..], rest);
      var tail, sr := SplitLines(t[1..]), SplitLines(rest);
      assert SplitLines(t) == [[t[0]] + tail[0]] + tail[1..];
      assert tail[0] == x[1..] + sr[0] && tail[1..] == sr[1..];
      assert [x[0]] + (x[1..] + sr[0]) == x + sr[0];
      calc {
        SplitLines(x + rest);
        [[t[0]] + tail[0]] + tail[1..];
        [[x[0]] + (x[1..] + sr[0])] + sr[1..];
        [x + sr[0]] + sr[1..];
      }
    } else {
      var sr := SplitLines(rest);
      assert x + rest == rest && x + sr[0] == sr[0];
      assert sr == [sr[0]] + sr[1..];
    }
  }

  /** Splitting undoes joining, when no line holds a line feed. */
  lemma {:induction false} SplitJoin(ls: seq<string>)
    requires |ls| >= 1
    requires forall k :: 0 <= k < |ls| ==> '\n' !in ls[k]
    ensures SplitLines(JoinLines(ls)) == ls
    decreases |ls|
  {
    if |ls| == 1 {
      SplitAfterPiece(ls[0], "");
      assert ls[0] + "" == ls[0];
    } else {
      var rest := JoinLines(ls[1..]);
      SplitJoin(ls[1..]);
      var nl := "\n" + rest;
      assert nl[0] == '\n' && nl[1..] == rest;
      assert SplitLines(nl) == [""] + ls[1..];
      assert JoinLines(ls) == ls[0] + nl;
      SplitAfterPiece(ls[0], nl);
      assert ls[0] + "" == ls[0];
      assert ls == [ls[0]] + ls[1..];
    }
  }

  lemma {:induction false} JoinAppend(x: seq<string>, y: seq<string>)
    requires |x| >= 1 && |y| >= 1
    ensures JoinLines(x + y) == JoinLines(x) + "\n" + JoinLines(y)
    decreases |x|
  {
    if |x| == 1 {
      assert (x + y)[1..] == y;
    } else {
      assert (x + y)[1..] == x[1..] + y;
      JoinAppend(x[1..], y);
    }
  }

  /** A line feed in the text is a boundary between lines: the lines of
      `a + "\n" + b` are those of `a` followed by those of `b`. */
  lemma SplitAround(a: string, b: string)
    ensures SplitLines(a + "\n" + b) == SplitLines(a) + SplitLines(b)
  {
    var x, y := SplitLines(a), SplitLines(b);
    JoinAppend(x, y);
    var xy := x + y;
    assert forall k :: 0 <= k < |xy| ==> '\n' !in xy[k] by {
      forall k | 0 <= k < |xy| ensures '\n' !in xy[k] {
        if k < |x| { assert xy[k] == x[k]; } else { assert xy[k] == y[k - |x|]; }
      }
    }
    SplitJoin(xy);
  }
}
