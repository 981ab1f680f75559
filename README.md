# Receipt and Invoice Digitizer: a verified model of its core

The Receipt and Invoice Digitizer is a small web application. It takes an
uploaded receipt or invoice (an image, or a PDF with one or more pages) and
runs OCR over it. From the recognised text it pulls out four fields:

- the store name;
- the invoice number;
- the date;
- the total.

It can then save these fields, the raw text and the file path as a row of a
SQLite table. That table refuses a second row with the same invoice number.
It lists the saved invoices newest first.

This project models the logic between the OCR engine and the database, and
proves properties of that model in Dafny:

- **Text** (`text.dfy`): Python's `str.split("\n")` and `str.strip()` on the
  recognised text.
- **Regex** (`regex.dfy`): the three regular expressions of the field
  structurer, as `re.search` runs them with `re.IGNORECASE`.
  - `MatchAt` defines declaratively that a match starts at an index with a
    given capture group.
  - `MatchHere` is an executable backtracking matcher.
  - `Search` scans left to right.
  - The lemmas prove that the scan returns exactly the leftmost match.
- **Structurer** (`structurer.dfy`): `structure_invoice_text`. It splits the
  text into its four fields, using "N/A" for a field that is not found.
- **WorkedCases** (`worked_cases.dfy`): the behaviour on receipts laid out
  line by line.
  - The label is not part of the captured value, in any letter case, and
    an earlier label word that starts no match (an "INVOICE" title) does
    not get in the way.
  - A receipt of four lines (store, `Invoice No:`, `Date:`, `Total:`) yields
    exactly those four values.
  - So does the concrete "Acme Store" receipt.
- **Database** (`database.dfy`): the `invoices` table.
  - It is a value `Store`: whether the table exists, the rows in insertion
    order, the next AUTOINCREMENT id and a logical clock.
  - The class `InvoiceDb` keeps the same four fields and updates them in
    place.
  - `create_tables`, `check_invoice_exists`, `save_invoice` and
    `fetch_all_invoices` are methods of that class. Each is proved against a
    function on `Store`.
- **App** (`app.dfy`): the application flow.
  - The PDF page loop concatenates each page's text followed by a line feed.
  - An uploaded document is structured once, on its whole text.
  - The save button checks the invoice number and then inserts or warns.

`wrappers.dfy` holds `Option`, `Result` and `Outcome`.

Exceptions become values in the model:

- SQLite's "no such table" and UNIQUE-constraint errors are
  `DbError.NoSuchTable` and `DbError.UniqueViolation`.
- The application catches neither, so the save button then ends in
  `Notice.Failed`.

The OCR output is an input:

- an image is the text Tesseract found in it, plus whether OpenCV could read
  the file;
- a PDF is the sequence of its pages' texts.

The time at which a row is inserted is also an input: it is the number of
clock ticks since the previous insertion.

Two behaviours of the code are modelled as written:

- **The trailing line feed.** The page loop appends a line feed after every
  page, the last one included. So a two-page PDF gives
  `page1 + "\n" + page2 + "\n"`, not the pages joined by a single line feed.
  `App.PagesTextLines` states the result line by line.
  `App.StoreNameTrailingLineFeed` shows that the trailing line feed does not
  change the store name.
- **"N/A" is an ordinary key.** It is checked for duplicates like any other
  invoice number. A second upload whose invoice number is not found is
  therefore refused once a first one is saved
  (`App.SecondUnnumberedReceiptRefused`).

A third point concerns the store name. A first non-blank line that reads
`N/A` also gives "N/A", so `Structurer.StoreName` states its two cases as
implications, not as an if-and-only-if.

## Model

| member | source | states |
|---|---|---|
| Text.SplitLines | app.py:79 | `split("\n")` gives at least one piece; no piece holds a line feed; joining the pieces with line feeds gives back the text |
| Text.Strip | app.py:79 | `strip()` removes exactly the leading and trailing whitespace: the result is a slice of the input, everything cut off is whitespace, the result neither starts nor ends with whitespace, and it is empty exactly when the input is all whitespace |
| Text.SplitAround | app.py:79 | splitting `a + "\n" + b` gives the pieces of `a` followed by the pieces of `b` |
| Regex.Skip | app.py:84 | a greedy `\s*` (or digit run) takes the longest run of the class starting at the index |
| Regex.MatchHere | app.py:83-87 | the executable matcher at one start index returns only captures of real matches: each is the capture group of a parse of the pattern there |
| Regex.Search | app.py:83-87 | `re.search` finds a match at the returned start and none before it; it returns nothing exactly when no index of the text starts a match |
| Regex.MatchHereCorrect | app.py:83-87 | the backtracking matcher at one start index returns the capture `c` exactly when the pattern matches there with capture group `c` |
| Regex.ParseUnique | app.py:88 | all the ways the pattern can match at one start put the capture group at the same span, so `group(2)` does not depend on the order in which alternatives are tried |
| Regex.AmountRunIsWhole | app.py:100 | the capture `[\d,]+\.\d{2}` takes the whole run of digits and commas before the point |
| Structurer.PatternsWellFormed | app.py:83-104 | the three patterns have non-empty label words and separator tokens made of letters and punctuation |
| Structurer.ExtractField | app.py:83-104 | a field is "N/A" exactly when no index starts a match; otherwise it is the capture group of the leftmost match |
| Structurer.FieldFromFirstMatch | app.py:88 | whatever match starts first decides the field |
| Structurer.FieldDeterminedByMatches | app.py:83-104 | a field depends only on where its own pattern matches and with which capture |
| Structurer.MatchShape | app.py:83-104 | a capture of `[0-9]{3,}` is a run of three or more digits that no digit precedes or follows; a date capture is 2+2+4 digits with two separators, each `/` or `-`; an amount is digits and commas, a point and two digits; none is "N/A" |
| Structurer.NoWordNoMatch | app.py:83-104 | where no label word occurs, no match starts |
| Structurer.NonBlankLines | app.py:79 | the comprehension keeps at most as many lines as there are, and each kept line is non-empty and starts and ends with a non-whitespace character |
| Structurer.NonBlankLinesHead | app.py:79-80 | the list of stripped non-blank lines is empty exactly when every line is blank; its head is the first non-blank line, stripped |
| Structurer.StoreName | app.py:79-80 | never empty; "N/A" when every line is blank; otherwise the first non-blank line, stripped |
| Structurer.InvoiceNo | app.py:83-88 | invoice_no is "N/A" exactly when no index starts a match of the invoice pattern; otherwise it is the capture group of the leftmost match, three or more digits |
| Structurer.InvoiceDate | app.py:91-96 | date is "N/A" exactly when no index starts a match of the date pattern; otherwise it is the capture group of the leftmost match, 2+2+4 digits with a `/` or `-` after the first two pairs |
| Structurer.Total | app.py:99-104 | total is "N/A" exactly when no index starts a match of the total pattern; otherwise it is the capture group of the leftmost match, digits and commas, a point and two digits |
| Structurer.InvoiceNoIsWholeDigitRun | app.py:83-88 | a found invoice number is a maximal digit run of length at least three: no digit before it, none after it |
| Structurer.NoInvoiceLabel | app.py:83-88 | text that never contains "invoice" (in any case) has invoice number "N/A" |
| Structurer.StructureInvoiceText | app.py:76-106 | the result always holds all four fields; the store name is never empty; every other field is "N/A" or has its pattern's shape |
| WorkedCases.LabelNotCaptured | app.py:83-88 | when no match starts earlier, a text with "Invoice No: " in any letter case followed by three or more digits (then a non-digit or the end) has those digits as invoice number, not the label |
| WorkedCases.DateAfterLabel | app.py:91-96 | when no match starts earlier, the date after "Date: " or "Dated: " is the date text that follows |
| WorkedCases.TotalAfterLabel | app.py:99-104 | when no match starts earlier, the total after "Total: " is the amount that follows; digits after its two decimals are not part of it |
| WorkedCases.TitleLineInvoiceNo | app.py:83-88 | after an "INVOICE" title line, "Invoice No: " in any letter case and three or more digits still give those digits: the title word starts no match |
| WorkedCases.TitleLine | app.py:83-87 | an "INVOICE" title line followed by a line starting with `i` in any case holds no start of a match |
| WorkedCases.ReceiptFields | app.py:76-106 | a receipt of four lines (a store line holding no label word, then "Invoice No: ", "Date: " and "Total: " lines) yields the stripped store line and the three values |
| WorkedCases.AcmeReceipt | app.py:76-106 | "Acme Store", "Invoice No: 55501", "Date: 12/04/2024", "Total: 1999.50" yields Acme Store, 55501, 12/04/2024 and 1999.50 |
| Database.WithTable | database.py:17-35 | `CREATE TABLE IF NOT EXISTS` makes the table exist and leaves rows, next id and clock as they were |
| Database.CreateTablesIdempotent | database.py:21-22 | creating the table twice is creating it once; creating an existing table changes nothing; validity is kept |
| Database.NoTableValid | database.py:41-48 | the empty state is valid; looking up any key before the table exists is a "no such table" error |
| Database.InvoiceExists | database.py:41-52 | an error exactly when there is no table; true exactly when some row's invoice number equals the key |
| Database.Insert | database.py:58-76 | the insert succeeds exactly when the table exists and no row has the invoice number (the UNIQUE constraint of database.py:25); a failure leaves the store unchanged; a success appends exactly one row with that invoice number and keeps the earlier rows |
| Database.SaveFresh | database.py:58-76 | inserting a key not present succeeds and appends exactly one row: id `nextId`, the four fields, the raw text, the path and the current time; earlier rows are unchanged |
| Database.SaveRejected | database.py:25 | inserting a key already present fails with a UNIQUE violation (a missing table with "no such table") and leaves the store unchanged |
| Database.SaveKeepsValid | database.py:22-30 | every insertion keeps the invariant: no rows without a table, invoice numbers pairwise distinct, ids increasing and below the next id, timestamps non-decreasing and not after the clock |
| Database.SaveIdIsLargest | database.py:23 | the AUTOINCREMENT id of a new row is larger than every earlier id |
| Database.ExistsAfterSave | database.py:41-76 | after a successful save, checking its invoice number answers true |
| Database.NewestFirst | database.py:84-91 | one order the query may return: the rows read back to front and projected onto their four fields; when `created_at` never decreases in insertion order, this is a listing as `ORDER BY created_at DESC` promises |
| Database.NewestFirstIsListing | database.py:84-91 | when `created_at` never decreases in insertion order, any back-to-front projection of the rows is a permutation of them, projected, with `created_at` non-increasing |
| Database.Listing | database.py:82-93 | an error without a table; otherwise a permutation of all rows, projected onto store name, invoice number, date and total, with `created_at` non-increasing |
| Database.InvoiceDb.constructor | database.py:10-11 | a fresh database has no table and no rows, and meets the invariant |
| Database.InvoiceDb.CreateTables | database.py:17-35 | the new state is the old one with the table created; the invariant is kept |
| Database.InvoiceDb.CheckInvoiceExists | database.py:41-52 | answers `InvoiceExists` on the current state and changes nothing |
| Database.InvoiceDb.SaveInvoice | database.py:58-76 | the outcome and the new state are those of `Insert` on the old state; the invariant (unique invoice numbers, increasing ids, ordered timestamps) is kept |
| Database.InvoiceDb.FetchAllInvoices | database.py:82-93 | returns `Listing` of the current state |
| App.PagesText | app.py:152-155 | the PDF text is empty exactly when there are no pages; otherwise it ends with a line feed, the one after the last page; it has at least one character per page |
| App.PagesTextSnoc | app.py:152-155 | one more page appends that page's text and a line feed |
| App.AggregatePages | app.py:152-155 | the loop's text is the pages' texts, each followed by a line feed |
| App.PagesTextLines | app.py:152-155 | the lines of a PDF's text are the lines of each page in order, then one empty line |
| App.NonBlankLinesAppendBlank | app.py:79 | a blank last line does not change the non-blank lines |
| App.StoreNameTrailingLineFeed | app.py:155 | the line feed after the last page does not change the store name |
| App.ProcessUpload | app.py:129-167 | an unreadable image stops; an image is structured on its OCR text, a PDF once on its concatenated pages |
| App.SaveClicked | app.py:175-184 | a key already present: warn, store unchanged; a new key: "saved", with exactly one row appended holding the fields, raw text and path; no table: the error, store unchanged |
| App.SaveClickedKeepsValid | app.py:175-184 | clicking save keeps the database invariant |
| App.SecondSaveRefused | app.py:175-180 | once an invoice number is saved, any later upload with that number, "N/A" included, is refused and the store is unchanged |
| App.SecondUnnumberedReceiptRefused | app.py:175-180 | two texts with no "invoice" label both give "N/A"; after the first is saved, the second is refused |
| App.SaveButton | app.py:175-184 | the notice and the new database state are those of `SaveClicked` on the old state; the database invariant is kept |
| App.Startup | app.py:21 | starting the application creates the table and keeps the invariant |

## Left out

- Image preprocessing in `preprocess_image` (app.py:45-58) is not modelled: grayscale, the twofold cubic upscale, the bilateral filter and the adaptive threshold are OpenCV calls on pixels, with nothing to state about the text.
- The OCR call `extract_text` (app.py:63-72) is Tesseract. Its output is an input here, so the character whitelist in its configuration is not modelled either.
- PDF rasterisation (`convert_from_path`) is an external program; a PDF is the sequence of its pages' OCR texts.
- The Streamlit page is not modelled. This covers:
  - the page setup and title (app.py:26-28);
  - the `session_state` flag (app.py:33-34, 180, 184, 192);
  - the uploader widget (app.py:111-114);
  - the image previews (app.py:142-146, 157-162);
  - the JSON view (app.py:169-170);
  - the success and warning messages (app.py:127, 179, 183);
  - the raw-text box (app.py:186-187);
  - the database table view (app.py:192-200).
- The upload directory, writing the uploaded file and its uuid-based name (app.py:39-40, 121-125) are file-system I/O and randomness. The path is an input string.
- The connections themselves are not modelled: opening and closing them, `commit`, and the pandas DataFrame. A DataFrame is modelled as a sequence of four-field `Summary` rows.
- The `total` column has REAL affinity. SQLite would store "1999.50" as the number 1999.5, and "1,999.50" or "N/A" as text. The model stores the string as structured.
- The wall clock: `CURRENT_TIMESTAMP` becomes a logical clock that each insertion advances by a given number of ticks, so timestamps never go backwards. Clock changes and the one-second resolution of `CURRENT_TIMESTAMP` are not modelled.
- Database.Listing: fixes neither the order among rows with equal `created_at` nor which physical order SQLite picks. It states only a permutation ordered by `created_at` descending, as `ORDER BY created_at DESC` promises.
- Concurrency: several sessions writing the same database file.
- Unicode beyond ASCII:
  - `\s`, `\d` and `str.strip()` are restricted to ASCII whitespace and digits.
  - Case folding covers ASCII letters and the two Unicode forms of `i` that Python's `re.IGNORECASE` matches.
  - Non-ASCII whitespace and digits, which Python also accepts, are not modelled.
- Structurer.StoreName: states "N/A" for all-blank text as an implication only, because a non-blank first line that reads `N/A` gives the same result.
