/**
 * The three regular expressions of the field structurer, as Python's `re`
 * module runs them with `re.IGNORECASE`.
 *
 * Each of them has the shape
 *
 *     (w1|w2|...) \s* (g1a|g1b|...)? \s* (g2a|...)? \s* ... (capture)
 *
 * a label word chosen from alternatives, then optional separator groups with
 * whitespace around them, then the captured value. A `Pattern` records the
 * words, the optional groups and the kind of capture. `MatchAt` says, without
 * any search strategy, when a match starts at an index and what its capture
 * group holds; `MatchHere` is an executable backtracking matcher for one
 * start index and `Search` the left-to-right scan of `re.search`. The lemmas
 * prove that the scan returns the leftmost match.
 */
module Regex {
  import opened Wrappers
  import opened Text

  /** How a character `c` of the text matches the lower-case pattern letter
      `l` under `re.IGNORECASE`: Python compares lower-case forms, so an ASCII
      letter matches itself and its upper-case form, and the letter `i` also
      matches U+0130 (whose lower-case form is `i`) and U+0131 (the dotless
      `i`, which Python lists as equivalent). No other character folds onto
      the letters the patterns use. Any other pattern character matches only
      itself. */
  predicate CiChar(c: char, l: char) {
    if 'a' <= l <= 'z' then
      c == l || c as int == l as int - 32 || (l == 'i' && (c == '\U{0130}' || c == '\U{0131}'))
    else
      c == l
  }

  /** The text spells the literal `w` at index `a`, ignoring case. */
  predicate LitAt(t: string, a: nat, w: string) {
    a + |w| <= |t| && forall k :: 0 <= k < |w| ==> CiChar(t[a + k], w[k])
  }

  /** The kinds of capture group: `[0-9]{3,}`,
      `[0-9]{2}[\/\-][0-9]{2}[\/\-][0-9]{4}` and `[\d,]+\.\d{2}`. */
  datatype Capture = DigitRun | DateDigits | Amount

  /** `(words[0]|words[1]|...)`, then `\s*`, then for each group g
      `(g[0]|g[1]|...)?\s*`, then the capture. */
  datatype Pattern = Pattern(words: seq<string>, groups: seq<seq<string>>, capture: Capture)

  /** The characters a capture of the given kind can begin with. */
  predicate StartsCapture(c: char, kind: Capture) {
    IsDigit(c) || (kind == Amount && c == ',')
  }

  predicate IsDateSep(c: char) {
    c == '/' || c == '-'
  }

  datatype CharClass = Space | Digit | DigitOrComma

  predicate InClass(c: char, cls: CharClass) {
    match cls
    case Space => IsSpace(c)
    case Digit => IsDigit(c)
    case DigitOrComma => IsDigit(c) || c == ','
  }

  /** Every character of `t[x..y]` is in the class. */
  ghost predicate AllIn(t: string, x: nat, y: nat, cls: CharClass) {
    x <= y <= |t| && forall k :: x <= k < y ==> InClass(t[k], cls)
  }

  /** The end of the longest run of the class starting at `x`: what a greedy
      `*` over the class consumes. */
  function Skip(t: string, x: nat, cls: CharClass): (y: nat)
    requires x <= |t|
    ensures AllIn(t, x, y, cls)
    ensures y == |t| || !InClass(t[y], cls)
    decreases |t| - x
  {
    if x < |t| && InClass(t[x], cls) then Skip(t, x + 1, cls) else x
  }

  lemma SkipExact(t: string, x: nat, y: nat, cls: CharClass)
    requires AllIn(t, x, y, cls)
    requires y == |t| || !InClass(t[y], cls)
    ensures Skip(t, x, cls) == y
  {
  }

  // ---------------------------------------------------------------------
  // What a match is
  // ---------------------------------------------------------------------

  /** `t[y..z]` matches the optional group `(alts[0]|alts[1]|...)?`. */
  ghost predicate OptSpan(t: string, y: nat, z: nat, alts: seq<string>) {
    z == y || exists w :: w in alts && LitAt(t, y, w) && z == y + |w|
  }

  /** `t[x..j]` matches `\s*(gs[0])?\s*(gs[1])?\s*...`. */
  ghost predicate GapSpan(t: string, x: nat, j: nat, gs: seq<seq<string>>)
    decreases |gs|
  {
    j <= |t| &&
    exists y: nat :: AllIn(t, x, y, Space) && y <= j &&
      if gs == [] then y == j
      else exists z: nat :: y <= z <= j && OptSpan(t, y, z, gs[0]) && GapSpan(t, z, j, gs[1..])
  }

  /** `t[j..k]` is the capture group of the given kind, as a match that ends
      with it takes it: the greedy `[0-9]{3,}` takes the whole digit run; the
      date has fixed length and each separator is `/` or `-` on its own;
      the amount is a non-empty run of digits and commas, a point and two
      digits (the run is the whole run, since a point is neither). */
  ghost predicate CaptureSpan(t: string, j: nat, k: nat, kind: Capture) {
    match kind
    case DigitRun =>
      j + 3 <= k && AllIn(t, j, k, Digit) && (k == |t| || !IsDigit(t[k]))
    case DateDigits =>
      && k == j + 10 <= |t|
      && IsDigit(t[j]) && IsDigit(t[j + 1]) && IsDateSep(t[j + 2])
      && IsDigit(t[j + 3]) && IsDigit(t[j + 4]) && IsDateSep(t[j + 5])
      && AllIn(t, j + 6, k, Digit)
    case Amount =>
      && j + 4 <= k <= |t|
      && AllIn(t, j, k - 3, DigitOrComma)
      && t[k - 3] == '.' && IsDigit(t[k - 2]) && IsDigit(t[k - 1])
  }

  /** One way the pattern matches at `i`: the word `w`, the separators up to
      `j` and the capture `t[j..k]`. */
  ghost predicate ParseAt(t: string, i: nat, p: Pattern, w: string, j: nat, k: nat) {
    && w in p.words
    && LitAt(t, i, w)
    && GapSpan(t, i + |w|, j, p.groups)
    && CaptureSpan(t, j, k, p.capture)
  }

  /** The pattern matches at start index `i` with capture group `cap`. */
  ghost predicate MatchAt(t: string, i: nat, p: Pattern, cap: string) {
    exists w, j: nat, k: nat :: ParseAt(t, i, p, w, j, k) && j <= k <= |t| && cap == t[j..k]
  }

  /** No match starts at an index in `[a, b)`. */
  ghost predicate NoMatchIn(t: string, p: Pattern, a: int, b: int) {
    forall m: nat, c :: a <= m < b ==> !MatchAt(t, m, p, c)
  }

  /** Building a gap from its parts: whitespace, then one alternative of the
      first group or nothing, then the gap of the remaining groups. */
  lemma GapTake(t: string, x: nat, y: nat, z: nat, j: nat, gs: seq<seq<string>>)
    requires gs != [] && AllIn(t, x, y, Space) && y <= z <= j
    requires OptSpan(t, y, z, gs[0]) && GapSpan(t, z, j, gs[1..])
    ensures GapSpan(t, x, j, gs)
  {
  }

  lemma GapLast(t: string, x: nat, j: nat)
    requires AllIn(t, x, j, Space)
    ensures GapSpan(t, x, j, [])
  {
  }

  /** A piece of a literal the text spells is spelt at the matching index. */
  lemma LitSub(t: string, i: nat, l: string, a: nat, w: string)
    requires LitAt(t, i, l) && a + |w| <= |l| && l[a..a + |w|] == w
    ensures LitAt(t, i + a, w)
  {
    forall q | 0 <= q < |w| ensures CiChar(t[i + a + q], w[q]) {
      assert w[q] == l[a + q];
    }
  }

  lemma OptTake(t: string, y: nat, w: string, alts: seq<string>)
    requires w in alts && LitAt(t, y, w)
    ensures OptSpan(t, y, y + |w|, alts)
  {
  }

  // ---------------------------------------------------------------------
  // Well-formed patterns
  // ---------------------------------------------------------------------

  /** A character that neither whitespace nor any capture can begin with. */
  predicate PlainChar(c: char) {
    !IsSpace(c) && !IsDigit(c) && c != ','
  }

  ghost predicate TokenOk(w: string) {
    w != [] && forall m :: 0 <= m < |w| ==> PlainChar(w[m])
  }

  ghost predicate GroupsOk(gs: seq<seq<string>>) {
    forall n, q :: 0 <= n < |gs| && 0 <= q < |gs[n]| ==> TokenOk(gs[n][q])
  }

  ghost predicate WordOk(w: string) {
    w != [] && forall m :: 0 <= m < |w| ==> PlainChar(w[m]) || w[m] == ' '
  }

  /** The label words and the optional tokens are made of letters and
      punctuation (the words may hold a space); no word or token is empty. */
  ghost predicate WellFormed(p: Pattern) {
    (forall q :: 0 <= q < |p.words| ==> WordOk(p.words[q])) && GroupsOk(p.groups)
  }

  lemma CiPlain(c: char, l: char)
    requires CiChar(c, l) && PlainChar(l)
    ensures PlainChar(c)
  {
  }

  // ---------------------------------------------------------------------
  // The executable matcher
  // ---------------------------------------------------------------------

  /** Where the capture begins after the separators, searching from `x`
      with the group tried before its absence, the alternatives in order. */
  function GapEnd(t: string, x: nat, gs: seq<seq<string>>, kind: Capture): (r: Option<nat>)
    requires x <= |t|
    ensures r.Some? ==> x <= r.value < |t| && StartsCapture(t[r.value], kind)
    decreases |gs|, 1, 0
  {
    var y := Skip(t, x, Space);
    if gs == [] then
      if y < |t| && StartsCapture(t[y], kind) then Some(y) else None
    else
      TryGroup(t, y, gs[0], gs[1..], kind)
  }

  function TryGroup(t: string, y: nat, alts: seq<string>, rest: seq<seq<string>>, kind: Capture): (r: Option<nat>)
    requires y <= |t|
    ensures r.Some? ==> y <= r.value < |t| && StartsCapture(t[r.value], kind)
    decreases |rest| + 1, 0, |alts|
  {
    if alts == [] then
      GapEnd(t, y, rest, kind)
    else if LitAt(t, y, alts[0]) then
      match GapEnd(t, y + |alts[0]|, rest, kind)
      case Some(j) => Some(j)
      case None => TryGroup(t, y, alts[1..], rest, kind)
    else
      TryGroup(t, y, alts[1..], rest, kind)
  }

  /** The end of the capture that begins at `j`, if one does. */
  function CaptureEnd(t: string, j: nat, kind: Capture): (r: Option<nat>)
    requires j <= |t|
    ensures r.Some? ==> j <= r.value <= |t|
    ensures forall k: nat :: r == Some(k) <==> CaptureSpan(t, j, k, kind)
  {
    match kind
    case DigitRun =>
      var k := Skip(t, j, Digit);
      if j + 3 <= k then Some(k) else None
    case DateDigits =>
      if && j + 10 <= |t|
         && IsDigit(t[j]) && IsDigit(t[j + 1]) && IsDateSep(t[j + 2])
         && IsDigit(t[j + 3]) && IsDigit(t[j + 4]) && IsDateSep(t[j + 5])
         && IsDigit(t[j + 6]) && IsDigit(t[j + 7]) && IsDigit(t[j + 8]) && IsDigit(t[j + 9])
      then Some(j + 10) else None
    case Amount =>
      var m := Skip(t, j, DigitOrComma);
      AmountRunIsWhole(t, j, m);
      if j < m && m + 3 <= |t| && t[m] == '.' && IsDigit(t[m + 1]) && IsDigit(t[m + 2])
      then Some(m + 3) else None
  }

  lemma AmountRunIsWhole(t: string, j: nat, m: nat)
    requires j <= m <= |t| && AllIn(t, j, m, DigitOrComma)
    requires m == |t| || !InClass(t[m], DigitOrComma)
    ensures forall k: nat :: CaptureSpan(t, j, k, Amount) ==> k == m + 3
  {
    forall k: nat | CaptureSpan(t, j, k, Amount) ensures k == m + 3 {
      SkipExact(t, j, k - 3, DigitOrComma);
      SkipExact(t, j, m, DigitOrComma);
    }
  }

  /** The executable matcher at one start index: each word in turn, then the
      separators, then the capture. */
  function MatchHere(t: string, i: nat, p: Pattern): (r: Option<string>)
    requires i <= |t|
    ensures r.Some? ==> MatchAt(t, i, p, r.value)
  {
    TryWordsSound(t, i, p, p.words);
    TryWords(t, i, p, p.words)
  }

  function TryWords(t: string, i: nat, p: Pattern, ws: seq<string>): Option<string>
    requires i <= |t|
    decreases |ws|
  {
    if ws == [] then None
    else if LitAt(t, i, ws[0]) then
      match GapEnd(t, i + |ws[0]|, p.groups, p.capture)
      case Some(j) =>
        (match CaptureEnd(t, j, p.capture)
         case Some(k) => Some(t[j..k])
         case None => TryWords(t, i, p, ws[1..]))
      case None => TryWords(t, i, p, ws[1..])
    else
      TryWords(t, i, p, ws[1..])
  }

  /** A match found by the search: its start index and its capture group. */
  datatype Hit = Hit(start: nat, capture: string)

  /** `re.search`: the leftmost start index at which the pattern matches,
      with its capture group, or None when it matches nowhere. */
  function Search(t: string, p: Pattern, from: nat): (r: Option<Hit>)
    requires WellFormed(p)
    ensures r.Some? ==> from <= r.value.start <= |t| && MatchAt(t, r.value.start, p, r.value.capture)
    ensures r.Some? ==> NoMatchIn(t, p, from, r.value.start)
    ensures r.None? ==> NoMatchIn(t, p, from, |t| + 1)
    decreases |t| + 1 - from
  {
    if from > |t| then None
    else
      MatchHereCorrect(t, from, p);
      match MatchHere(t, from, p)
      case Some(c) => Some(Hit(from, c))
      case None => Search(t, p, from + 1)
  }

  // ---------------------------------------------------------------------
  // The gap: soundness, completeness, uniqueness
  // ---------------------------------------------------------------------

  lemma {:induction false} GapEndSound(t: string, x: nat, gs: seq<seq<string>>, kind: Capture)
    requires x <= |t|
    ensures GapEnd(t, x, gs, kind).Some? ==> GapSpan(t, x, GapEnd(t, x, gs, kind).value, gs)
    decreases |gs|, 1, 0
  {
    var y := Skip(t, x, Space);
    if gs != [] {
      TryGroupSound(t, y, gs[0], gs[1..], kind);
    }
  }

  lemma {:induction false} TryGroupSound(t: string, y: nat, alts: seq<string>, rest: seq<seq<string>>, kind: Capture)
    requires y <= |t|
    ensures var r := TryGroup(t, y, alts, rest, kind);
            r.Some? ==> exists z: nat :: y <= z <= r.value && OptSpan(t, y, z, alts) && GapSpan(t, z, r.value, rest)
    decreases |rest| + 1, 0, |alts|
  {
    var r := TryGroup(t, y, alts, rest, kind);
    if r.Some? {
      if alts == [] {
        GapEndSound(t, y, rest, kind);
        assert OptSpan(t, y, y, alts);
      } else if LitAt(t, y, alts[0]) && GapEnd(t, y + |alts[0]|, rest, kind).Some? {
        GapEndSound(t, y + |alts[0]|, rest, kind);
        assert OptSpan(t, y, y + |alts[0]|, alts) by { assert alts[0] in alts; }
      } else {
        TryGroupSound(t, y, alts[1..], rest, kind);
        var z: nat :| y <= z <= r.value && OptSpan(t, y, z, alts[1..]) && GapSpan(t, z, r.value, rest);
        if z != y {
          var w :| w in alts[1..] && LitAt(t, y, w) && z == y + |w|;
          assert w in alts;
        }
        assert OptSpan(t, y, z, alts);
      }
    }
  }

  lemma GapSpanMerge(t: string, x: nat, y: nat, j: nat, gs: seq<seq<string>>)
    requires AllIn(t, x, y, Space) && GapSpan(t, y, j, gs)
    ensures GapSpan(t, x, j, gs)
  {
    var y': nat :| AllIn(t, y, y', Space) && y' <= j &&
      if gs == [] then y' == j
      else exists z: nat :: y' <= z <= j && OptSpan(t, y', z, gs[0]) && GapSpan(t, z, j, gs[1..]);
    assert AllIn(t, x, y', Space);
  }

  lemma GapEndAfterSpaces(t: string, x: nat, gs: seq<seq<string>>, kind: Capture)
    requires x <= |t|
    ensures GapEnd(t, x, gs, kind) == GapEnd(t, Skip(t, x, Space), gs, kind)
  {
    var y := Skip(t, x, Space);
    SkipExact(t, y, y, Space);
  }

  lemma {:induction false} TryGroupFallback(t: string, y: nat, alts: seq<string>, rest: seq<seq<string>>, kind: Capture)
    requires y <= |t| && GapEnd(t, y, rest, kind).Some?
    ensures TryGroup(t, y, alts, rest, kind).Some?
    decreases |alts|
  {
    if alts != [] {
      TryGroupFallback(t, y, alts[1..], rest, kind);
    }
  }

  lemma {:induction false} TryGroupPick(t: string, y: nat, alts: seq<string>, rest: seq<seq<string>>, kind: Capture, w: string)
    requires y <= |t| && w in alts && LitAt(t, y, w)
    requires GapEnd(t, y + |w|, rest, kind).Some?
    ensures TryGroup(t, y, alts, rest, kind).Some?
    decreases |alts|
  {
    if alts[0] != w {
      TryGroupPick(t, y, alts[1..], rest, kind, w);
    }
  }

  /** Every parse of the separators is found by the matcher. */
  lemma {:induction false} GapEndComplete(t: string, x: nat, j: nat, gs: seq<seq<string>>, kind: Capture)
    requires x <= |t| && GroupsOk(gs)
    requires GapSpan(t, x, j, gs) && j < |t| && StartsCapture(t[j], kind)
    ensures GapEnd(t, x, gs, kind).Some?
    decreases |gs|
  {
    if gs == [] {
      GapSpanLast(t, x, j);
      SkipExact(t, x, j, Space);
    } else {
      var y', z := GapSpanParts(t, x, j, gs);
      GroupsOkTail(gs);
      var y := Skip(t, x, Space);
      if z == y' {
        GapSpanMerge(t, x, y', j, gs[1..]);
        GapEndComplete(t, x, j, gs[1..], kind);
        GapEndAfterSpaces(t, x, gs[1..], kind);
        TryGroupFallback(t, y, gs[0], gs[1..], kind);
      } else {
        var w := GroupTaken(t, x, y', z, gs[0]);
        GapEndComplete(t, z, j, gs[1..], kind);
        TryGroupPick(t, y, gs[0], gs[1..], kind, w);
      }
    }
  }

  lemma GapSpanLast(t: string, x: nat, j: nat)
    requires GapSpan(t, x, j, [])
    ensures AllIn(t, x, j, Space)
  {
  }

  /** The pieces of a gap: whitespace up to `y`, the first group's span
      `t[y..z]`, then the gap of the remaining groups. */
  lemma GapSpanParts(t: string, x: nat, j: nat, gs: seq<seq<string>>) returns (y: nat, z: nat)
    requires gs != [] && GapSpan(t, x, j, gs)
    ensures AllIn(t, x, y, Space) && y <= z <= j && OptSpan(t, y, z, gs[0]) && GapSpan(t, z, j, gs[1..])
  {
    y :| AllIn(t, x, y, Space) && y <= j &&
      exists z: nat :: y <= z <= j && OptSpan(t, y, z, gs[0]) && GapSpan(t, z, j, gs[1..]);
    z :| y <= z <= j && OptSpan(t, y, z, gs[0]) && GapSpan(t, z, j, gs[1..]);
  }

  lemma GroupsOkTail(gs: seq<seq<string>>)
    requires gs != [] && GroupsOk(gs)
    ensures GroupsOk(gs[1..]) && forall q :: 0 <= q < |gs[0]| ==> TokenOk(gs[0][q])
  {
    forall n, q | 0 <= n < |gs[1..]| && 0 <= q < |gs[1..][n]| ensures TokenOk(gs[1..][n][q]) {
      assert gs[1..][n] == gs[n + 1];
    }
  }

  /** A non-empty group span is one alternative of the group, taken after
      all the whitespace (an alternative begins with a plain character). */
  lemma GroupTaken(t: string, x: nat, y: nat, z: nat, alts: seq<string>) returns (w: string)
    requires AllIn(t, x, y, Space) && y < z && OptSpan(t, y, z, alts)
    requires forall q :: 0 <= q < |alts| ==> TokenOk(alts[q])
    ensures w in alts && LitAt(t, y, w) && z == y + |w| && Skip(t, x, Space) == y
  {
    w :| w in alts && LitAt(t, y, w) && z == y + |w|;
    var q :| 0 <= q < |alts| && alts[q] == w;
    assert TokenOk(w);
    assert CiChar(t[y + 0], w[0]);
    CiPlain(t[y], w[0]);
    SkipExact(t, x, y, Space);
  }

  /** No character in the separators can begin a capture. */
  lemma {:induction false} GapSpanPlain(t: string, x: nat, j: nat, gs: seq<seq<string>>, kind: Capture)
    requires GroupsOk(gs) && GapSpan(t, x, j, gs)
    ensures x <= j
    ensures forall k :: x <= k < j ==> !StartsCapture(t[k], kind)
    decreases |gs|
  {
    var y: nat :| AllIn(t, x, y, Space) && y <= j &&
      if gs == [] then y == j
      else exists z: nat :: y <= z <= j && OptSpan(t, y, z, gs[0]) && GapSpan(t, z, j, gs[1..]);
    if gs != [] {
      var z: nat :| y <= z <= j && OptSpan(t, y, z, gs[0]) && GapSpan(t, z, j, gs[1..]);
      GroupsOkTail(gs);
      GapSpanPlain(t, z, j, gs[1..], kind);
      if z != y {
        var w :| w in gs[0] && LitAt(t, y, w) && z == y + |w|;
        var q :| 0 <= q < |gs[0]| && gs[0][q] == w;
        assert TokenOk(w);
        forall k | y <= k < z ensures !StartsCapture(t[k], kind) {
          assert CiChar(t[y + (k - y)], w[k - y]);
          CiPlain(t[k], w[k - y]);
        }
      }
    }
  }

  /** The capture begins at the first character after `i` that can begin
      one: the word and the separators hold none. */
  lemma HeadPlain(t: string, i: nat, p: Pattern, w: string, j: nat, k: nat)
    requires WellFormed(p) && ParseAt(t, i, p, w, j, k)
    ensures i < j < |t| && StartsCapture(t[j], p.capture)
    ensures forall m :: i <= m < j ==> !StartsCapture(t[m], p.capture)
  {
    GapSpanPlain(t, i + |w|, j, p.groups, p.capture);
    var q :| 0 <= q < |p.words| && p.words[q] == w;
    assert WordOk(w);
    forall m | i <= m < i + |w| ensures !StartsCapture(t[m], p.capture) {
      assert CiChar(t[i + (m - i)], w[m - i]);
      if w[m - i] != ' ' {
        CiPlain(t[m], w[m - i]);
      }
    }
    CaptureStarts(t, j, k, p.capture);
  }

  lemma CaptureStarts(t: string, j: nat, k: nat, kind: Capture)
    requires CaptureSpan(t, j, k, kind)
    ensures j < k <= |t| && StartsCapture(t[j], kind)
  {
  }

  /** All parses at one start index agree on where the capture lies. */
  lemma ParseUnique(t: string, i: nat, p: Pattern, w1: string, j1: nat, k1: nat, w2: string, j2: nat, k2: nat)
    requires WellFormed(p)
    requires ParseAt(t, i, p, w1, j1, k1) && ParseAt(t, i, p, w2, j2, k2)
    ensures j1 == j2 && k1 == k2
  {
    HeadPlain(t, i, p, w1, j1, k1);
    HeadPlain(t, i, p, w2, j2, k2);
    var c1, c2 := CaptureEnd(t, j1, p.capture), CaptureEnd(t, j2, p.capture);
    assert c1 == Some(k1) && c2 == Some(k2);
  }

  // ---------------------------------------------------------------------
  // The matcher at one index is exactly MatchAt
  // ---------------------------------------------------------------------

  lemma {:induction false} TryWordsSound(t: string, i: nat, p: Pattern, ws: seq<string>)
    requires i <= |t|
    requires forall w :: w in ws ==> w in p.words
    ensures TryWords(t, i, p, ws).Some? ==> MatchAt(t, i, p, TryWords(t, i, p, ws).value)
    decreases |ws|
  {
    if ws != [] {
      var r := TryWords(t, i, p, ws);
      var g := if LitAt(t, i, ws[0]) then GapEnd(t, i + |ws[0]|, p.groups, p.capture) else None;
      if g.Some? && CaptureEnd(t, g.value, p.capture).Some? {
        var j := g.value;
        var k := CaptureEnd(t, j, p.capture).value;
        GapEndSound(t, i + |ws[0]|, p.groups, p.capture);
        assert ws[0] in ws;
        assert ParseAt(t, i, p, ws[0], j, k);
      } else {
        TryWordsSound(t, i, p, ws[1..]);
      }
    }
  }

  lemma {:induction false} TryWordsFinds(t: string, i: nat, p: Pattern, ws: seq<string>, w: string, j: nat, k: nat)
    requires i <= |t| && WellFormed(p)
    requires w in ws && ParseAt(t, i, p, w, j, k)
    ensures TryWords(t, i, p, ws).Some?
    decreases |ws|
  {
    if ws[0] == w {
      HeadPlain(t, i, p, w, j, k);
      GapEndComplete(t, i + |w|, j, p.groups, p.capture);
      var j' := GapEnd(t, i + |w|, p.groups, p.capture).value;
      GapEndSound(t, i + |w|, p.groups, p.capture);
      GapSpanPlain(t, i + |w|, j', p.groups, p.capture);
      GapSpanPlain(t, i + |w|, j, p.groups, p.capture);
      assert j' == j;
      assert CaptureEnd(t, j, p.capture) == Some(k);
    } else {
      TryWordsFinds(t, i, p, ws[1..], w, j, k);
    }
  }

  /** The executable matcher decides MatchAt, and the capture at a start
      index is unique. */
  lemma MatchHereCorrect(t: string, i: nat, p: Pattern)
    requires i <= |t| && WellFormed(p)
    ensures forall cap :: MatchAt(t, i, p, cap) <==> MatchHere(t, i, p) == Some(cap)
  {
    TryWordsSound(t, i, p, p.words);
    forall cap | MatchAt(t, i, p, cap) ensures MatchHere(t, i, p) == Some(cap) {
      var w, j: nat, k: nat :| ParseAt(t, i, p, w, j, k) && j <= k <= |t| && cap == t[j..k];
      TryWordsFinds(t, i, p, p.words, w, j, k);
      var found := MatchHere(t, i, p).value;
      var w', j': nat, k': nat :| ParseAt(t, i, p, w', j', k') && j' <= k' <= |t| && found == t[j'..k'];
      ParseUnique(t, i, p, w, j, k, w', j', k');
    }
  }
}
