/**
 * `structure_invoice_text` (app.py): raw OCR text to the four fields
 * store_name, invoice_no, date and total, each computed from the text on its
 * own, with "N/A" when nothing is found.
 */
module Structurer {
  import opened Wrappers
  import opened Text
  import opened Regex

  /** The dictionary the function returns: always exactly these four keys. */
  datatype InvoiceFields = InvoiceFields(storeName: string, invoiceNo: string, date: string, total: string)

  /** The fallback value of every field. */
  const NA: string := "N/A"

  /** `Invoice\s*(No|Number|#)?\s*[:\-]?\s*([0-9]{3,})` */
  const InvoicePattern: Pattern := Pattern(["invoice"], [["no", "number", "#"], [":", "-"]], DigitRun)

  /** `(Date|Dated)\s*[:\-]?\s*([0-9]{2}[\/\-][0-9]{2}[\/\-][0-9]{4})` */
  const DatePattern: Pattern := Pattern(["date", "dated"], [[":", "-"]], DateDigits)

  /** `(Total|Grand Total|Amount)\s*[=:]?\s*₹?\s*([\d,]+\.\d{2})` */
  const TotalPattern: Pattern := Pattern(["total", "grand total", "amount"], [["=", ":"], ["\U{20B9}"]], Amount)

  lemma PatternsWellFormed()
    ensures WellFormed(InvoicePattern) && WellFormed(DatePattern) && WellFormed(TotalPattern)
  {
    InvoicePatternOk();
    DatePatternOk();
    TotalPatternOk();
  }

  lemma InvoicePatternOk()
    ensures WellFormed(InvoicePattern)
  {
    assert WordOk("invoice");
    assert TokenOk("no") && TokenOk("number") && TokenOk("#") && TokenOk(":") && TokenOk("-");
  }

  lemma DatePatternOk()
    ensures WellFormed(DatePattern)
  {
    assert WordOk("date") && WordOk("dated");
    assert TokenOk(":") && TokenOk("-");
  }

  lemma TotalPatternOk()
    ensures WellFormed(TotalPattern)
  {
    assert WordOk("total") && WordOk("grand total") && WordOk("amount");
    assert TokenOk("=") && TokenOk(":") && TokenOk("\U{20B9}");
  }

  // ---------------------------------------------------------------------
  // The shapes of the extracted values
  // ---------------------------------------------------------------------

  /** Three or more ASCII digits. */
  predicate IsInvoiceNumber(s: string) {
    |s| >= 3 && forall k :: 0 <= k < |s| ==> IsDigit(s[k])
  }

  /** DD sep DD sep DDDD with each sep `/` or `-`, chosen independently;
      nothing checks that day, month or year are in range. */
  predicate IsDateText(s: string) {
    && |s| == 10
    && IsDigit(s[0]) && IsDigit(s[1]) && IsDateSep(s[2])
    && IsDigit(s[3]) && IsDigit(s[4]) && IsDateSep(s[5])
    && IsDigit(s[6]) && IsDigit(s[7]) && IsDigit(s[8]) && IsDigit(s[9])
  }

  /** A non-empty run of digits and commas, a point, exactly two digits. */
  predicate IsAmountText(s: string) {
    && |s| >= 4
    && (forall k :: 0 <= k < |s| - 3 ==> IsDigit(s[k]) || s[k] == ',')
    && s[|s| - 3] == '.' && IsDigit(s[|s| - 2]) && IsDigit(s[|s| - 1])
  }

  predicate Shaped(s: string, kind: Capture) {
    match kind
    case DigitRun => IsInvoiceNumber(s)
    case DateDigits => IsDateText(s)
    case Amount => IsAmountText(s)
  }

  lemma CaptureShape(t: string, j: nat, k: nat, kind: Capture)
    requires CaptureSpan(t, j, k, kind)
    ensures Shaped(t[j..k], kind)
  {
    var s := t[j..k];
    assert forall n :: 0 <= n < |s| ==> s[n] == t[j + n];
    match kind {
      case DigitRun =>
      case DateDigits =>
        assert InClass(t[j + 6], Digit) && InClass(t[j + 7], Digit)
            && InClass(t[j + 8], Digit) && InClass(t[j + 9], Digit);
      case Amount =>
        forall n | 0 <= n < |s| - 3 ensures IsDigit(s[n]) || s[n] == ',' {
          assert InClass(t[j + n], DigitOrComma);
        }
    }
  }

  /** `cap` occurs in `t` at `j`, after a character that cannot begin it and,
      for the digit run, before the end of the text or a non-digit. */
  ghost predicate CaptureAt(t: string, j: nat, cap: string, kind: Capture) {
    && 0 < j && j + |cap| <= |t| && t[j..j + |cap|] == cap
    && !StartsCapture(t[j - 1], kind)
    && (kind == DigitRun ==> j + |cap| == |t| || !IsDigit(t[j + |cap|]))
  }

  /** Every capture has its pattern's shape, is never "N/A", and is bounded
      in the text as CaptureAt says. */
  lemma MatchShape(t: string, i: nat, p: Pattern, cap: string)
    requires WellFormed(p) && MatchAt(t, i, p, cap)
    ensures Shaped(cap, p.capture) && cap != NA
    ensures exists j: nat :: i < j && CaptureAt(t, j, cap, p.capture)
  {
    var w, j: nat, k: nat :| ParseAt(t, i, p, w, j, k) && j <= k <= |t| && cap == t[j..k];
    CaptureShape(t, j, k, p.capture);
    HeadPlain(t, i, p, w, j, k);
    assert CaptureAt(t, j, cap, p.capture);
    assert cap[0] != 'N';
  }

  // ---------------------------------------------------------------------
  // The three pattern fields
  // ---------------------------------------------------------------------

  /** `m.group(2) if m else "N/A"` with `m = re.search(p, text, re.I)`: the
      capture of the leftmost match, or "N/A" exactly when the pattern
      matches nowhere. */
  function ExtractField(text: string, p: Pattern): (r: string)
    requires WellFormed(p)
    ensures r == NA <==> NoMatchIn(text, p, 0, |text| + 1)
    ensures r != NA ==> exists m: nat :: m <= |text| && MatchAt(text, m, p, r) && NoMatchIn(text, p, 0, m)
  {
    match Search(text, p, 0)
    case Some(h) =>
      MatchShape(text, h.start, p, h.capture);
      h.capture
    case None => NA
  }

  /** The field is the capture of the first match: a match at `m` with none
      before it decides the field. */
  lemma FieldFromFirstMatch(text: string, p: Pattern, m: nat, cap: string)
    requires WellFormed(p) && MatchAt(text, m, p, cap) && NoMatchIn(text, p, 0, m)
    ensures ExtractField(text, p) == cap
  {
    var r := ExtractField(text, p);
    MatchShape(text, m, p, cap);
    assert r != NA;
    var m': nat :| m' <= |text| && MatchAt(text, m', p, r) && NoMatchIn(text, p, 0, m');
    assert m' == m;
    MatchHereCorrect(text, m, p);
  }

  /** A field depends on the text only through where its own pattern
      matches and what it captures there. */
  lemma FieldDeterminedByMatches(t1: string, t2: string, p: Pattern)
    requires WellFormed(p)
    requires forall m: nat, c :: MatchAt(t1, m, p, c) <==> MatchAt(t2, m, p, c)
    ensures ExtractField(t1, p) == ExtractField(t2, p)
  {
    var r1 := ExtractField(t1, p);
    if r1 == NA {
      assert NoMatchIn(t2, p, 0, |t2| + 1);
    } else {
      var m: nat :| m <= |t1| && MatchAt(t1, m, p, r1) && NoMatchIn(t1, p, 0, m);
      assert MatchAt(t2, m, p, r1);
      FieldFromFirstMatch(t2, p, m, r1);
    }
  }

  /** Where none of the pattern's words appears, the pattern has no match. */
  lemma NoWordNoMatch(t: string, p: Pattern, a: nat, b: nat)
    requires forall m, q :: a <= m < b && 0 <= q < |p.words| ==> !LitAt(t, m, p.words[q])
    ensures NoMatchIn(t, p, a, b)
  {
    forall m: nat, w | a <= m < b && w in p.words ensures !LitAt(t, m, w) {
      var q :| 0 <= q < |p.words| && p.words[q] == w;
    }
  }

  lemma CharBlocks(t: string, m: nat, w: string, k: nat)
    requires k < |w| && m + k < |t| && !CiChar(t[m + k], w[k])
    ensures !LitAt(t, m, w)
  {
  }

  // ---------------------------------------------------------------------
  // store_name
  // ---------------------------------------------------------------------

  /** `[l.strip() for l in lines if l.strip()]`. */
  function NonBlankLines(ls: seq<string>): (r: seq<string>)
    ensures |r| <= |ls|
    ensures forall k :: 0 <= k < |r| ==> r[k] != [] && !IsSpace(r[k][0]) && !IsSpace(r[k][|r[k]| - 1])
  {
    if ls == [] then []
    else if Strip(ls[0]) != [] then [Strip(ls[0])] + NonBlankLines(ls[1..])
    else NonBlankLines(ls[1..])
  }

  /** Line `k` is the first line that is not blank. */
  ghost predicate FirstNonBlank(ls: seq<string>, k: int) {
    0 <= k < |ls| && Strip(ls[k]) != [] && forall m :: 0 <= m < k ==> Strip(ls[m]) == []
  }

  /** The comprehension keeps nothing exactly when every line is blank, and
      otherwise starts with the first non-blank line, stripped. */
  lemma {:induction false} NonBlankLinesHead(ls: seq<string>)
    ensures NonBlankLines(ls) == [] <==> forall k :: 0 <= k < |ls| ==> Strip(ls[k]) == []
    ensures NonBlankLines(ls) != [] ==> exists k :: FirstNonBlank(ls, k) && NonBlankLines(ls)[0] == Strip(ls[k])
  {
    if ls != [] {
      if Strip(ls[0]) != [] {
        assert FirstNonBlank(ls, 0);
      } else {
        var tl := ls[1..];
        NonBlankLinesHead(tl);
        assert NonBlankLines(ls) == NonBlankLines(tl);
        BlankHeadShift(ls);
      }
    }
  }

  /** With a blank first line, the lines after it decide the same facts. */
  lemma BlankHeadShift(ls: seq<string>)
    requires ls != [] && Strip(ls[0]) == []
    ensures (forall k :: 0 <= k < |ls| ==> Strip(ls[k]) == [])
              <==> (forall k :: 0 <= k < |ls[1..]| ==> Strip(ls[1..][k]) == [])
    ensures forall k :: FirstNonBlank(ls[1..], k) ==> FirstNonBlank(ls, k + 1) && ls[1..][k] == ls[k + 1]
  {
    var tl := ls[1..];
    assert forall k :: 1 <= k < |ls| ==> ls[k] == tl[k - 1];
  }

  /** `lines[0] if lines else "N/A"`: the first line of `text.split("\n")`
      that is not blank, stripped; "N/A" when every line is blank. */
  function StoreName(text: string): (r: string)
    ensures r != []
    ensures (forall k :: 0 <= k < |SplitLines(text)| ==> Strip(SplitLines(text)[k]) == []) ==> r == NA
    ensures (exists k :: 0 <= k < |SplitLines(text)| && Strip(SplitLines(text)[k]) != [])
              ==> exists k :: FirstNonBlank(SplitLines(text), k) && r == Strip(SplitLines(text)[k])
  {
    var lines := NonBlankLines(SplitLines(text));
    NonBlankLinesHead(SplitLines(text));
    if |lines| > 0 then lines[0] else NA
  }

  // ---------------------------------------------------------------------
  // structure_invoice_text
  // ---------------------------------------------------------------------

  /** `invoice_no`: group 2 of the leftmost match, or "N/A". */
  function InvoiceNo(text: string): (r: string)
    ensures r == NA <==> NoMatchIn(text, InvoicePattern, 0, |text| + 1)
    ensures r != NA ==> IsInvoiceNumber(r)
    ensures r != NA ==> exists m: nat :: m <= |text| && MatchAt(text, m, InvoicePattern, r) && NoMatchIn(text, InvoicePattern, 0, m)
  {
    PatternsWellFormed();
    FieldShaped(text, InvoicePattern);
    ExtractField(text, InvoicePattern)
  }

  /** `date`: group 2 of the leftmost match, or "N/A". */
  function InvoiceDate(text: string): (r: string)
    ensures r == NA <==> NoMatchIn(text, DatePattern, 0, |text| + 1)
    ensures r != NA ==> IsDateText(r)
    ensures r != NA ==> exists m: nat :: m <= |text| && MatchAt(text, m, DatePattern, r) && NoMatchIn(text, DatePattern, 0, m)
  {
    PatternsWellFormed();
    FieldShaped(text, DatePattern);
    ExtractField(text, DatePattern)
  }

  /** `total`: group 2 of the leftmost match, or "N/A". */
  function Total(text: string): (r: string)
    ensures r == NA <==> NoMatchIn(text, TotalPattern, 0, |text| + 1)
    ensures r != NA ==> IsAmountText(r)
    ensures r != NA ==> exists m: nat :: m <= |text| && MatchAt(text, m, TotalPattern, r) && NoMatchIn(text, TotalPattern, 0, m)
  {
    PatternsWellFormed();
    FieldShaped(text, TotalPattern);
    ExtractField(text, TotalPattern)
  }

  /** The function never fails and fills the four keys, each from the text
      and its own rule; every value has its rule's shape or is "N/A". */
  function StructureInvoiceText(text: string): (r: InvoiceFields)
    ensures r.storeName != []
    ensures r.invoiceNo == NA || IsInvoiceNumber(r.invoiceNo)
    ensures r.date == NA || IsDateText(r.date)
    ensures r.total == NA || IsAmountText(r.total)
  {
    PatternsWellFormed();
    InvoiceFields(StoreName(text), InvoiceNo(text), InvoiceDate(text), Total(text))
  }

  lemma FieldShaped(text: string, p: Pattern)
    requires WellFormed(p)
    ensures ExtractField(text, p) == NA || Shaped(ExtractField(text, p), p.capture)
  {
    var r := ExtractField(text, p);
    if r != NA {
      var m: nat :| m <= |text| && MatchAt(text, m, p, r) && NoMatchIn(text, p, 0, m);
      MatchShape(text, m, p, r);
    }
  }

  /** invoice_no is a whole run of digits of the text: neither the character
      before it nor the one after it is a digit. */
  lemma InvoiceNoIsWholeDigitRun(text: string)
    ensures InvoiceNo(text) != NA ==> exists j: nat :: CaptureAt(text, j, InvoiceNo(text), DigitRun)
  {
    PatternsWellFormed();
    var r := ExtractField(text, InvoicePattern);
    if r != NA {
      var m: nat :| m <= |text| && MatchAt(text, m, InvoicePattern, r) && NoMatchIn(text, InvoicePattern, 0, m);
      MatchShape(text, m, InvoicePattern, r);
    }
  }

  /** A text without the word "invoice" in any letter case has no invoice
      number. */
  lemma NoInvoiceLabel(text: string)
    requires forall m :: 0 <= m <= |text| ==> !LitAt(text, m, "invoice")
    ensures InvoiceNo(text) == NA
  {
    PatternsWellFormed();
    NoWordNoMatch(text, InvoicePattern, 0, |text| + 1);
  }
}
