/**
 * The flow of app.py around the structurer: the OCR text of an upload (one
 * image, or the pages of a PDF joined with line feeds) is structured once,
 * and the save button stores it unless its invoice number is already
 * there.
 */
module App {
  import opened Wrappers
  import opened Text
  import opened Regex
  import opened Structurer
  import opened Database

  // ---------------------------------------------------------------------
  // The text of a PDF
  // ---------------------------------------------------------------------

  /** Each page's OCR text followed by a line feed, the last page included. */
  function PagesText(pages: seq<string>): (r: string)
    ensures r == [] <==> pages == []
    ensures pages != [] ==> r[|r| - 1] == '\n'
    ensures |r| >= |pages|
  {
    if pages == [] then "" else pages[0] + "\n" + PagesText(pages[1..])
  }

  lemma {:induction false} PagesTextSnoc(pages: seq<string>, p: string)
    ensures PagesText(pages + [p]) == PagesText(pages) + p + "\n"
    decreases |pages|
  {
    if pages == [] {
      assert [p][1..] == [];
    } else {
      assert (pages + [p])[1..] == pages[1..] + [p];
      PagesTextSnoc(pages[1..], p);
    }
  }

  /** The loop `all_text += extract_text(thresh) + "\n"` over the pages. */
  method AggregatePages(pages: seq<string>) returns (allText: string)
    ensures allText == PagesText(pages)
  {
    allText := "";
    for i := 0 to |pages|
      invariant allText == PagesText(pages[..i])
    {
      PagesTextSnoc(pages[..i], pages[i]);
      assert pages[..i + 1] == pages[..i] + [pages[i]];
      allText := allText + pages[i] + "\n";
    }
    assert pages[..|pages|] == pages;
  }

  /** The lines of every page in order. */
  function PageLines(pages: seq<string>): seq<string> {
    if pages == [] then [] else SplitLines(pages[0]) + PageLines(pages[1..])
  }

  /** The lines of a PDF's text are the lines of its pages, one after the
      other, and one empty line after the last. */
  lemma {:induction false} PagesTextLines(pages: seq<string>)
    ensures SplitLines(PagesText(pages)) == PageLines(pages) + [""]
    decreases |pages|
  {
    if pages != [] {
      SplitAround(pages[0], PagesText(pages[1..]));
      PagesTextLines(pages[1..]);
    }
  }

  /** Blank lines are dropped by the comprehension, wherever they are. */
  lemma {:induction false} NonBlankLinesAppendBlank(ls: seq<string>)
    ensures NonBlankLines(ls + [""]) == NonBlankLines(ls)
    decreases |ls|
  {
    assert Strip("") == "";
    if ls == [] {
      assert [""][1..] == [];
    } else {
      assert (ls + [""])[1..] == ls[1..] + [""];
      NonBlankLinesAppendBlank(ls[1..]);
    }
  }

  /** The line feed after the last page does not change store_name. */
  lemma StoreNameTrailingLineFeed(t: string)
    ensures StoreName(t + "\n") == StoreName(t)
  {
    SplitAround(t, "");
    assert t + "\n" + "" == t + "\n";
    assert SplitLines("") == [""];
    NonBlankLinesAppendBlank(SplitLines(t));
  }

  // ---------------------------------------------------------------------
  // One upload
  // ---------------------------------------------------------------------

  /** An uploaded file as far as the structurer is concerned: an image that
      OpenCV could or could not read, with the text OCR finds in it, or a PDF
      with the OCR text of each page. */
  datatype Upload = Image(readable: bool, ocrText: string) | Pdf(pageTexts: seq<string>)

  datatype Processed = Processed(allText: string, fields: InvoiceFields)

  /** The main logic up to `structure_invoice_text(all_text)`: an unreadable
      image stops the run; otherwise the whole text is structured once. */
  method ProcessUpload(u: Upload) returns (r: Option<Processed>)
    ensures u.Image? && !u.readable ==> r == None
    ensures u.Image? && u.readable ==> r == Some(Processed(u.ocrText, StructureInvoiceText(u.ocrText)))
    ensures u.Pdf? ==> r == Some(Processed(PagesText(u.pageTexts), StructureInvoiceText(PagesText(u.pageTexts))))
  {
    var allText := "";
    match u {
      case Image(readable, ocrText) =>
        if !readable {
          return None;
        }
        allText := ocrText;
      case Pdf(pageTexts) =>
        allText := AggregatePages(pageTexts);
    }
    r := Some(Processed(allText, StructureInvoiceText(allText)));
  }

  // ---------------------------------------------------------------------
  // The save button
  // ---------------------------------------------------------------------

  /** The message the save button shows. */
  datatype Notice = Saved | AlreadyExists | Failed(error: DbError)

  datatype Decision = Decision(notice: Notice, store: Store)

  /** Check the invoice number, then either warn about the duplicate or
      insert; "N/A" is looked up like any other invoice number. */
  function SaveClicked(s: Store, data: InvoiceFields, allText: string, filePath: string, elapsed: nat): (r: Decision)
    ensures InvoiceExists(s, data.invoiceNo) == Ok(true) ==> r == Decision(AlreadyExists, s)
    ensures !s.tableExists ==> r == Decision(Failed(NoSuchTable), s)
    ensures InvoiceExists(s, data.invoiceNo) == Ok(false) ==>
              && r.notice == Saved
              && r.store == s.(rows := r.store.rows, nextId := s.nextId + 1, clock := s.clock + elapsed)
              && r.store.rows == s.rows + [Row(s.nextId, data.storeName, data.invoiceNo, data.date, data.total,
                                               allText, filePath, s.clock + elapsed)]
  {
    match InvoiceExists(s, data.invoiceNo)
    case Err(e) => Decision(Failed(e), s)
    case Ok(true) => Decision(AlreadyExists, s)
    case Ok(false) =>
      var res := Insert(s, data, allText, filePath, elapsed);
      var notice := match res.outcome case Pass => Saved case Fail(e) => Failed(e);
      Decision(notice, res.store)
  }

  /** A store that is valid stays valid through a click. */
  lemma SaveClickedKeepsValid(s: Store, data: InvoiceFields, allText: string, filePath: string, elapsed: nat)
    requires Valid(s)
    ensures Valid(SaveClicked(s, data, allText, filePath, elapsed).store)
  {
    SaveKeepsValid(s, data, allText, filePath, elapsed);
  }

  /** Once an invoice number is saved, a later upload with the same number,
      "N/A" included, is refused and the store stays as it is. */
  lemma SecondSaveRefused(s: Store, d1: InvoiceFields, t1: string, f1: string, e1: nat,
                          d2: InvoiceFields, t2: string, f2: string, e2: nat)
    requires SaveClicked(s, d1, t1, f1, e1).notice == Saved && d2.invoiceNo == d1.invoiceNo
    ensures var s1 := SaveClicked(s, d1, t1, f1, e1).store;
            SaveClicked(s1, d2, t2, f2, e2) == Decision(AlreadyExists, s1)
  {
    ExistsAfterSave(s, d1, t1, f1, e1);
  }

  /** Two receipts without an invoice number both structure to "N/A", so the
      second one cannot be saved after the first. */
  lemma SecondUnnumberedReceiptRefused(s: Store, text1: string, text2: string, f1: string, f2: string, e1: nat, e2: nat)
    requires forall m :: 0 <= m <= |text1| ==> !LitAt(text1, m, "invoice")
    requires forall m :: 0 <= m <= |text2| ==> !LitAt(text2, m, "invoice")
    requires SaveClicked(s, StructureInvoiceText(text1), text1, f1, e1).notice == Saved
    ensures var s1 := SaveClicked(s, StructureInvoiceText(text1), text1, f1, e1).store;
            SaveClicked(s1, StructureInvoiceText(text2), text2, f2, e2) == Decision(AlreadyExists, s1)
  {
    NoInvoiceLabel(text1);
    NoInvoiceLabel(text2);
    SecondSaveRefused(s, StructureInvoiceText(text1), text1, f1, e1, StructureInvoiceText(text2), text2, f2, e2);
  }

  /** The button on the live database. */
  method SaveButton(db: InvoiceDb, data: InvoiceFields, allText: string, filePath: string, elapsed: nat)
    returns (notice: Notice)
    requires Valid(db.State())
    modifies db
    ensures Decision(notice, db.State()) == SaveClicked(old(db.State()), data, allText, filePath, elapsed)
    ensures Valid(db.State())
  {
    var existing := db.CheckInvoiceExists(data.invoiceNo);
    match existing {
      case Err(e) =>
        notice := Failed(e);
      case Ok(found) =>
        if found {
          notice := AlreadyExists;
        } else {
          var outcome := db.SaveInvoice(data, allText, filePath, elapsed);
          match outcome {
            case Pass => notice := Saved;
            case Fail(e) => notice := Failed(e);
          }
        }
    }
  }

  /** The application's start creates the table, so the button never meets
      a missing table afterwards. */
  method Startup(db: InvoiceDb)
    requires Valid(db.State())
    modifies db
    ensures db.State() == WithTable(old(db.State())) && db.tableExists && Valid(db.State())
  {
    db.CreateTables();
  }
}
