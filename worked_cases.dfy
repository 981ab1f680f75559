/**
 * What `structure_invoice_text` gives for labelled values: the label is never
 * part of a field, the separators of a date are chosen independently, an
 * amount keeps exactly two decimals, and the receipt of the Acme store
 * structures into its four fields.
 */
module WorkedCases {
  import opened Text
  import opened Regex
  import opened Structurer

  /** A label word of the pattern cannot start before index `b`. */
  ghost predicate NoWordBefore(t: string, p: Pattern, b: nat) {
    forall m, q :: 0 <= m < b && 0 <= q < |p.words| ==> !LitAt(t, m, p.words[q])
  }

  /** Where the pieces of `pre + x + y + z` sit. */
  lemma Pieces(pre: string, x: string, y: string, z: string)
    ensures var t := pre + x + y + z;
            && |t| == |pre| + |x| + |y| + |z|
            && (forall q :: 0 <= q < |x| ==> t[|pre| + q] == x[q])
            && (forall q :: 0 <= q < |y| ==> t[|pre| + |x| + q] == y[q])
            && t[|pre| + |x|..|pre| + |x| + |y|] == y
            && (z != [] ==> t[|pre| + |x| + |y|] == z[0])
  {
    var t := pre + x + y + z;
    assert t == pre + (x + (y + z));
  }

  /** A text that agrees with `s` from index `i` on spells what `s` spells. */
  lemma LitShift(t: string, i: nat, s: string, l: string)
    requires i + |s| <= |t| && (forall q :: 0 <= q < |s| ==> t[i + q] == s[q]) && LitAt(s, 0, l)
    ensures LitAt(t, i, l)
  {
  }

  /** `Invoice No: ` in any letter case, followed by three or more digits and
      then a non-digit or the end: invoice_no is the digits, without the
      label, provided no match starts earlier. An earlier "invoice" that
      starts no match, such as a title line, does not matter. */
  lemma LabelNotCaptured(pre: string, lab: string, n: string, post: string)
    requires |lab| == 12 && LitAt(lab, 0, "invoice no: ")
    requires IsInvoiceNumber(n) && (post == [] || !IsDigit(post[0]))
    requires NoMatchIn(pre + lab + n + post, InvoicePattern, 0, |pre|)
    ensures InvoiceNo(pre + lab + n + post) == n
  {
    var t := pre + lab + n + post;
    var i := |pre|;
    Pieces(pre, lab, n, post);
    LitShift(t, i, lab, "invoice no: ");
    InvoiceLabel(t, i);
    InvoiceMatch(t, i, n);
    PatternsWellFormed();
    FieldFromFirstMatch(t, InvoicePattern, i, n);
  }

  /** An "INVOICE" title line before the label starts no match, so the
      number after the label is still found. */
  lemma TitleLineInvoiceNo(lab: string, n: string, post: string)
    requires |lab| == 12 && LitAt(lab, 0, "invoice no: ")
    requires IsInvoiceNumber(n) && (post == [] || !IsDigit(post[0]))
    ensures InvoiceNo("INVOICE\n" + lab + n + post) == n
  {
    var pre := "INVOICE\n";
    var t := pre + lab + n + post;
    Pieces(pre, lab, n, post);
    assert forall q :: 0 <= q < 8 ==> t[q] == pre[q];
    assert CiChar(t[8], "invoice no: "[0]);
    TitleLine(t);
    LabelNotCaptured(pre, lab, n, post);
  }

  /** No match of the invoice pattern starts on an "INVOICE" title line
      followed by a line that starts with `i` in any case. */
  lemma TitleLine(t: string)
    requires |t| > 8 && (forall q :: 0 <= q < 8 ==> t[q] == "INVOICE\n"[q]) && CiChar(t[8], 'i')
    ensures NoMatchIn(t, InvoicePattern, 0, 8)
  {
    var p := InvoicePattern;
    assert LitAt("INVOICE\n", 0, "invoice");
    assert LitAt(t, 0, "invoice");
    TitleStartsNoMatch(t);
    forall m, q | 1 <= m < 8 && 0 <= q < |p.words| ensures !LitAt(t, m, p.words[q]) {
      assert p.words[q] == "invoice";
      if m == 4 {
        CharBlocks(t, m, p.words[q], 1);
      } else {
        CharBlocks(t, m, p.words[q], 0);
      }
    }
    NoWordNoMatch(t, p, 1, 8);
  }

  /** "invoice" and a line feed, then an `i` in any case, which starts no
      separator token and no digit run: the invoice pattern has no match at 0. */
  lemma TitleStartsNoMatch(t: string)
    requires |t| > 8 && LitAt(t, 0, "invoice") && t[7] == '\n' && CiChar(t[8], 'i')
    ensures NoMatchIn(t, InvoicePattern, 0, 1)
  {
    var p := InvoicePattern;
    var gs := p.groups;
    assert p.words == ["invoice"] && gs[0] == ["no", "number", "#"];
    assert gs[1..] == [[":", "-"]] && gs[1..][0] == [":", "-"] && gs[1..][1..] == [];
    SkipExact(t, 7, 8, Space);
    SkipExact(t, 8, 8, Space);
    StuckAt(t, 8, gs[1..][0], gs[1..][1..]);
    assert GapEnd(t, 8, gs[1..], DigitRun).None?;
    StuckAt(t, 8, gs[0], gs[1..]);
    assert GapEnd(t, 7, gs, DigitRun).None?;
    assert TryWords(t, 0, p, p.words[1..]).None?;
    assert MatchHere(t, 0, p).None?;
    PatternsWellFormed();
    MatchHereCorrect(t, 0, p);
  }

  /** A group none of whose alternatives starts with `i`, tried at an `i`
      from which the rest of the gap finds no capture, is tried in vain. */
  lemma {:induction false} StuckAt(t: string, y: nat, alts: seq<string>, rest: seq<seq<string>>)
    requires y < |t| && CiChar(t[y], 'i')
    requires forall q :: 0 <= q < |alts| ==> alts[q] != [] && alts[q][0] in "no#:-"
    requires GapEnd(t, y, rest, DigitRun).None?
    ensures TryGroup(t, y, alts, rest, DigitRun).None?
    decreases |alts|
  {
    if alts != [] {
      CharBlocks(t, y, alts[0], 0);
      StuckAt(t, y, alts[1..], rest);
    }
  }

  /** The parts of `Invoice No: ` the pattern consumes one by one. */
  lemma InvoiceLabel(t: string, i: nat)
    requires i + 12 <= |t| && LitAt(t, i, "invoice no: ")
    ensures LitAt(t, i, "invoice") && IsSpace(t[i + 7]) && LitAt(t, i + 8, "no")
    ensures LitAt(t, i + 10, ":") && IsSpace(t[i + 11])
  {
    var l := "invoice no: ";
    LitSub(t, i, l, 0, "invoice");
    LitSub(t, i, l, 8, "no");
    LitSub(t, i, l, 10, ":");
    assert CiChar(t[i + 7], l[7]) && CiChar(t[i + 11], l[11]);
  }

  lemma InvoiceMatch(t: string, i: nat, n: string)
    requires i + 12 + |n| <= |t|
    requires LitAt(t, i, "invoice") && IsSpace(t[i + 7]) && LitAt(t, i + 8, "no")
    requires LitAt(t, i + 10, ":") && IsSpace(t[i + 11])
    requires t[i + 12..i + 12 + |n|] == n
    requires IsInvoiceNumber(n) && (i + 12 + |n| == |t| || !IsDigit(t[i + 12 + |n|]))
    ensures MatchAt(t, i, InvoicePattern, n)
  {
    var j := i + 12;
    InvoiceGap(t, i);
    DigitRunAt(t, j, n);
    assert ParseAt(t, i, InvoicePattern, "invoice", j, j + |n|);
  }

  /** ` No: ` is a gap of the invoice pattern. */
  lemma InvoiceGap(t: string, i: nat)
    requires i + 12 <= |t| && IsSpace(t[i + 7]) && LitAt(t, i + 8, "no")
    requires LitAt(t, i + 10, ":") && IsSpace(t[i + 11])
    ensures GapSpan(t, i + 7, i + 12, InvoicePattern.groups)
  {
    var j := i + 12;
    var gs := InvoicePattern.groups;
    assert gs[0] == ["no", "number", "#"] && gs[1..][0] == [":", "-"] && gs[1..][1..] == [];
    assert AllIn(t, i + 7, i + 8, Space) && AllIn(t, i + 11, j, Space);
    OptTake(t, i + 8, "no", gs[0]);
    OptTake(t, i + 10, ":", gs[1..][0]);
    GapLast(t, i + 11, j);
    GapTake(t, i + 10, i + 10, i + 11, j, gs[1..]);
    GapTake(t, i + 7, i + 8, i + 10, j, gs);
  }

  /** A whole run of three or more digits is a capture of `[0-9]{3,}`. */
  lemma DigitRunAt(t: string, j: nat, n: string)
    requires j + |n| <= |t| && t[j..j + |n|] == n
    requires IsInvoiceNumber(n) && (j + |n| == |t| || !IsDigit(t[j + |n|]))
    ensures CaptureSpan(t, j, j + |n|, DigitRun)
  {
    forall q | j <= q < j + |n| ensures IsDigit(t[q]) {
      assert t[q] == n[q - j];
    }
  }

  /** `Date: ` or `Dated: ` and a date whose two separators are each `/` or
      `-`: the date is those ten characters, whatever follows them, provided
      no match starts earlier. */
  lemma DateAfterLabel(pre: string, lab: string, d: string, post: string)
    requires lab == "Date: " || lab == "Dated: "
    requires IsDateText(d)
    requires NoMatchIn(pre + lab + d + post, DatePattern, 0, |pre|)
    ensures InvoiceDate(pre + lab + d + post) == d
  {
    var t := pre + lab + d + post;
    var i := |pre|;
    Pieces(pre, lab, d, post);
    var w := if lab == "Date: " then "date" else "dated";
    LitShift(t, i, lab, w);
    assert t[i + |w|] == lab[|w|] && t[i + |w| + 1] == lab[|w| + 1];
    DateMatch(t, i, w, d);
    PatternsWellFormed();
    FieldFromFirstMatch(t, DatePattern, i, d);
  }

  lemma DateMatch(t: string, i: nat, w: string, d: string)
    requires w == "date" || w == "dated"
    requires i + |w| + 2 + |d| <= |t| && LitAt(t, i, w) && t[i + |w|] == ':' && t[i + |w| + 1] == ' '
    requires t[i + |w| + 2..i + |w| + 2 + |d|] == d && IsDateText(d)
    ensures MatchAt(t, i, DatePattern, d)
  {
    var j := i + |w| + 2;
    DateGap(t, i + |w|);
    DateAt(t, j, d);
    assert ParseAt(t, i, DatePattern, w, j, j + 10);
  }

  /** `: ` is a gap of the date pattern. */
  lemma DateGap(t: string, x: nat)
    requires x + 2 <= |t| && t[x] == ':' && t[x + 1] == ' '
    ensures GapSpan(t, x, x + 2, DatePattern.groups)
  {
    var gs := DatePattern.groups;
    assert gs[0] == [":", "-"] && gs[1..] == [];
    assert LitAt(t, x, ":");
    OptTake(t, x, ":", gs[0]);
    GapLast(t, x + 1, x + 2);
    GapTake(t, x, x, x + 1, x + 2, gs);
  }

  /** A date in the text is a capture of the date pattern. */
  lemma DateAt(t: string, j: nat, d: string)
    requires j + |d| <= |t| && t[j..j + |d|] == d && IsDateText(d)
    ensures CaptureSpan(t, j, j + 10, DateDigits)
  {
    forall q | 0 <= q < 10 ensures t[j + q] == d[q] {
      assert t[j..j + |d|][q] == d[q];
    }
    assert AllIn(t, j + 6, j + 10, Digit) by {
      forall q | j + 6 <= q < j + 10 ensures InClass(t[q], Digit) {
        assert t[q] == d[q - j];
      }
    }
  }

  /** `Total: ` and an amount: total is the amount with exactly two decimals,
      even when more digits follow, provided no match starts earlier. */
  lemma TotalAfterLabel(pre: string, a: string, post: string)
    requires IsAmountText(a)
    requires NoMatchIn(pre + "Total: " + a + post, TotalPattern, 0, |pre|)
    ensures Total(pre + "Total: " + a + post) == a
  {
    var lab := "Total: ";
    var t := pre + lab + a + post;
    var i := |pre|;
    Pieces(pre, lab, a, post);
    LitShift(t, i, lab, "total");
    assert t[i + 5] == lab[5] && t[i + 6] == lab[6];
    TotalMatch(t, i, a);
    PatternsWellFormed();
    FieldFromFirstMatch(t, TotalPattern, i, a);
  }

  lemma TotalMatch(t: string, i: nat, a: string)
    requires i + 7 + |a| <= |t| && LitAt(t, i, "total") && t[i + 5] == ':' && t[i + 6] == ' '
    requires t[i + 7..i + 7 + |a|] == a && IsAmountText(a)
    ensures MatchAt(t, i, TotalPattern, a)
  {
    var j := i + 7;
    TotalGap(t, i);
    AmountAt(t, j, a);
    assert ParseAt(t, i, TotalPattern, "total", j, j + |a|);
  }

  /** `: ` is a gap of the total pattern, with no rupee sign. */
  lemma TotalGap(t: string, i: nat)
    requires i + 7 <= |t| && t[i + 5] == ':' && t[i + 6] == ' '
    ensures GapSpan(t, i + 5, i + 7, TotalPattern.groups)
  {
    var x := i + 5;
    var j := i + 7;
    var gs := TotalPattern.groups;
    assert gs[0] == ["=", ":"] && gs[1..][1..] == [];
    assert LitAt(t, x, ":");
    OptTake(t, x, ":", gs[0]);
    GapLast(t, j, j);
    GapTake(t, x + 1, j, j, j, gs[1..]);
    GapTake(t, x, x, x + 1, j, gs);
  }

  /** An amount in the text is a capture of `[\d,]+\.\d{2}`. */
  lemma AmountAt(t: string, j: nat, a: string)
    requires j + |a| <= |t| && t[j..j + |a|] == a && IsAmountText(a)
    ensures CaptureSpan(t, j, j + |a|, Amount)
  {
    var k := j + |a|;
    forall q | j <= q < k - 3 ensures InClass(t[q], DigitOrComma) {
      assert t[q] == a[q - j];
    }
    assert t[k - 3] == a[|a| - 3] && t[k - 2] == a[|a| - 2] && t[k - 1] == a[|a| - 1];
  }

  lemma PrefixBlocks(t: string, m: nat, w: string)
    requires |w| >= 3 && m + 3 <= |t|
    requires !CiChar(t[m], w[0]) || !CiChar(t[m + 1], w[1]) || !CiChar(t[m + 2], w[2])
    ensures !LitAt(t, m, w)
  {
  }

  // ---------------------------------------------------------------------
  // A receipt laid out line by line
  // ---------------------------------------------------------------------

  /** No label word of the pattern is spelt anywhere in `s`. */
  ghost predicate NoWordIn(s: string, p: Pattern) {
    forall m, q :: 0 <= m <= |s| && 0 <= q < |p.words| ==> !LitAt(s, m, p.words[q])
  }

  /** A label word never spans a line feed, so the lines of a text can be
      searched for label words one at a time. */
  lemma NextLineNoWord(t: string, p: Pattern, b: nat, line: string)
    requires WellFormed(p) && NoWordBefore(t, p, b)
    requires b + |line| < |t| && t[b..b + |line|] == line && t[b + |line|] == '\n'
    requires NoWordIn(line, p)
    ensures NoWordBefore(t, p, b + |line| + 1)
  {
    var e := b + |line|;
    forall m, q | b <= m <= e && 0 <= q < |p.words| ensures !LitAt(t, m, p.words[q]) {
      var w := p.words[q];
      assert WordOk(w);
      if m + |w| > e {
        CharBlocks(t, m, w, e - m);
      } else {
        LitLocal(t, b, line, m, w);
      }
    }
  }

  /** Within a piece of the text, spelling a word is a matter of the piece. */
  lemma LitLocal(t: string, b: nat, line: string, m: nat, w: string)
    requires b + |line| <= |t| && t[b..b + |line|] == line && b <= m && m + |w| <= b + |line|
    ensures LitAt(t, m, w) == LitAt(line, m - b, w)
  {
    forall i | m <= i < m + |w| ensures line[i - b] == t[i] {
      assert line[i - b] == t[b..b + |line|][i - b];
    }
  }

  /** The text of a receipt whose lines are the store, `Invoice No: n`,
      `Date: d` and `Total: a`. */
  function ReceiptText(store: string, n: string, d: string, a: string): string {
    store + "\n" + ("Invoice No: " + n) + "\n" + ("Date: " + d) + "\n" + ("Total: " + a)
  }

  /** A receipt laid out as its store line, `Invoice No: n`, `Date: d` and
      `Total: a` structures into those four values, when the store line
      holds no label word. */
  lemma ReceiptFields(store: string, n: string, d: string, a: string)
    requires '\n' !in store && Strip(store) != []
    requires NoWordIn(store, InvoicePattern) && NoWordIn(store, DatePattern) && NoWordIn(store, TotalPattern)
    requires IsInvoiceNumber(n) && IsDateText(d) && IsAmountText(a)
    ensures StructureInvoiceText(ReceiptText(store, n, d, a)) == InvoiceFields(Strip(store), n, d, a)
  {
    ReceiptStore(store, n, d, a);
    ReceiptInvoiceNo(store, n, d, a);
    ReceiptDate(store, n, d, a);
    ReceiptTotal(store, n, d, a);
  }

  lemma ReceiptStore(store: string, n: string, d: string, a: string)
    requires '\n' !in store && Strip(store) != []
    ensures StoreName(ReceiptText(store, n, d, a)) == Strip(store)
  {
    var rest := ("Invoice No: " + n) + "\n" + ("Date: " + d) + "\n" + ("Total: " + a);
    var t := ReceiptText(store, n, d, a);
    assert t == store + "\n" + rest;
    SplitAround(store, rest);
    SplitAfterPiece(store, "");
    assert store + "" == store;
    assert SplitLines(t)[0] == store;
    assert FirstNonBlank(SplitLines(t), 0);
  }

  lemma ReceiptInvoiceNo(store: string, n: string, d: string, a: string)
    requires NoWordIn(store, InvoicePattern) && IsInvoiceNumber(n)
    ensures InvoiceNo(ReceiptText(store, n, d, a)) == n
  {
    var t := ReceiptText(store, n, d, a);
    var post := "\n" + ("Date: " + d) + "\n" + ("Total: " + a);
    assert t == (store + "\n") + "Invoice No: " + n + post;
    assert t[..|store|] == store;
    PatternsWellFormed();
    NextLineNoWord(t, InvoicePattern, 0, store);
    NoWordNoMatch(t, InvoicePattern, 0, |store| + 1);
    LabelNotCaptured(store + "\n", "Invoice No: ", n, post);
  }

  lemma ReceiptDate(store: string, n: string, d: string, a: string)
    requires NoWordIn(store, DatePattern) && IsInvoiceNumber(n) && IsDateText(d)
    ensures InvoiceDate(ReceiptText(store, n, d, a)) == d
  {
    var t := ReceiptText(store, n, d, a);
    var l2 := "Invoice No: " + n;
    var pre := store + "\n" + l2 + "\n";
    var post := "\n" + ("Total: " + a);
    assert t == pre + "Date: " + d + post;
    assert t[..|store|] == store;
    assert t[|store| + 1..|store| + 1 + |l2|] == l2;
    PatternsWellFormed();
    NextLineNoWord(t, DatePattern, 0, store);
    InvoiceLineNoDate(n);
    NextLineNoWord(t, DatePattern, |store| + 1, l2);
    NoWordNoMatch(t, DatePattern, 0, |pre|);
    DateAfterLabel(pre, "Date: ", d, post);
  }

  lemma ReceiptTotal(store: string, n: string, d: string, a: string)
    requires NoWordIn(store, TotalPattern) && IsInvoiceNumber(n) && IsDateText(d) && IsAmountText(a)
    ensures Total(ReceiptText(store, n, d, a)) == a
  {
    var t := ReceiptText(store, n, d, a);
    var l2 := "Invoice No: " + n;
    var l3 := "Date: " + d;
    var pre := store + "\n" + l2 + "\n" + l3 + "\n";
    assert t == pre + "Total: " + a + "";
    assert t[..|store|] == store;
    assert t[|store| + 1..|store| + 1 + |l2|] == l2;
    assert t[|store| + |l2| + 2..|store| + |l2| + 2 + |l3|] == l3;
    PatternsWellFormed();
    NextLineNoWord(t, TotalPattern, 0, store);
    InvoiceLineNoTotal(n);
    NextLineNoWord(t, TotalPattern, |store| + 1, l2);
    DateLineNoTotal(d);
    NextLineNoWord(t, TotalPattern, |store| + |l2| + 2, l3);
    NoWordNoMatch(t, TotalPattern, 0, |pre|);
    TotalAfterLabel(pre, a, "");
  }

  lemma InvoiceLineNoDate(n: string)
    requires IsInvoiceNumber(n)
    ensures NoWordIn("Invoice No: " + n, DatePattern)
  {
    var l := "Invoice No: " + n;
    forall m, q | 0 <= m <= |l| && 0 <= q < |DatePattern.words| ensures !LitAt(l, m, DatePattern.words[q]) {
      if m < |l| {
        assert l[m] == if m < 12 then "Invoice No: "[m] else n[m - 12];
        CharBlocks(l, m, DatePattern.words[q], 0);
      }
    }
  }

  lemma InvoiceLineNoTotal(n: string)
    requires IsInvoiceNumber(n)
    ensures NoWordIn("Invoice No: " + n, TotalPattern)
  {
    var l := "Invoice No: " + n;
    forall m, q | 0 <= m <= |l| && 0 <= q < |TotalPattern.words| ensures !LitAt(l, m, TotalPattern.words[q]) {
      if m < |l| {
        assert l[m] == if m < 12 then "Invoice No: "[m] else n[m - 12];
        CharBlocks(l, m, TotalPattern.words[q], 0);
      }
    }
  }

  lemma DateLineNoTotal(d: string)
    requires IsDateText(d)
    ensures NoWordIn("Date: " + d, TotalPattern)
  {
    var l := "Date: " + d;
    forall m, q | 0 <= m <= |l| && 0 <= q < |TotalPattern.words| ensures !LitAt(l, m, TotalPattern.words[q]) {
      var w := TotalPattern.words[q];
      if m + |w| <= |l| {
        if m == 1 || m == 2 {
          CharBlocks(l, m, w, 1);
        } else {
          assert l[m] == if m < 6 then "Date: "[m] else d[m - 6];
          CharBlocks(l, m, w, 0);
        }
      }
    }
  }

  /** `Acme Store`, `Invoice No: 55501`, `Date: 12/04/2024`, `Total: 1999.50`. */
  const Acme: string := ReceiptText("Acme Store", "55501", "12/04/2024", "1999.50")

  /** The receipt of the Acme store structures into its four fields. */
  lemma AcmeReceipt()
    ensures StructureInvoiceText(Acme) == InvoiceFields("Acme Store", "55501", "12/04/2024", "1999.50")
  {
    AcmeStoreLine();
    ReceiptFields("Acme Store", "55501", "12/04/2024", "1999.50");
  }

  /** The store line of the Acme receipt is a single stripped line without
      label words. */
  lemma AcmeStoreLine()
    ensures var s := "Acme Store";
            && '\n' !in s && Strip(s) == s
            && NoWordIn(s, InvoicePattern) && NoWordIn(s, DatePattern) && NoWordIn(s, TotalPattern)
  {
    StripUnchanged("Acme Store");
    AcmeStoreNoWord(InvoicePattern);
    AcmeStoreNoWord(DatePattern);
    AcmeStoreNoWord(TotalPattern);
  }

  lemma AcmeStoreNoWord(p: Pattern)
    requires p == InvoicePattern || p == DatePattern || p == TotalPattern
    ensures NoWordIn("Acme Store", p)
  {
    var s := "Acme Store";
    forall m, q | 0 <= m <= |s| && 0 <= q < |p.words| ensures !LitAt(s, m, p.words[q]) {
      var w := p.words[q];
      if m + |w| <= |s| {
        PrefixBlocks(s, m, w);
      }
    }
  }
}
