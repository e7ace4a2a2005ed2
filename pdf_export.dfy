/**
 * The PDF case summary: the early exits of `generatePDF`, the text rows it
 * writes page by page with its vertical cursor, the page breaks of its
 * list sections, the footer on every page, and the file name.  The PDF
 * library is modelled by the rows it is asked to write: a row is a page
 * number, a vertical position in millimetres and a text.
 */
module PdfExport {
  import opened Wrappers
  import opened Strings
  import opened Json
  import Storage
  import Records
  import Matching
  import Documents
  import Deadlines
  import App

  /** The margin, which is also the cursor on a fresh page. */
  const Top := 20
  const LineHeight := 7
  /** A list row that leaves the cursor below this starts a new page. */
  const ListBreak := 280
  /** A list section starting below this starts on a new page. */
  const SectionBreak := 250
  /** The notes section starting below this starts on a new page. */
  const NotesBreak := 220
  /** The height of the library's default page (A4, in millimetres). */
  const PageHeight := 297

  datatype Row = Row(page: nat, y: int, text: string)

  /** The document being written: its rows, its page count and the page the
      next row goes to. */
  class PdfDocument {
    var rows: seq<Row>
    var pageCount: nat
    var current: nat

    ghost predicate Valid()
      reads this
    {
      && 1 <= current <= pageCount
      && forall i :: 0 <= i < |rows| ==> 1 <= rows[i].page <= pageCount
    }

    /** `new jsPDF()`: one empty page. */
    constructor ()
      ensures rows == [] && pageCount == 1 && current == 1
      ensures Valid()
    {
      rows := [];
      pageCount := 1;
      current := 1;
    }

    /** `doc.text(text, x, y)` on the current page. */
    method Text(text: string, y: int)
      requires Valid()
      modifies this
      ensures rows == old(rows) + [Row(current, y, text)]
      ensures pageCount == old(pageCount) && current == old(current)
      ensures Valid()
    {
      rows := rows + [Row(current, y, text)];
    }

    /** `doc.addPage()`: a new last page, which becomes current. */
    method AddPage()
      requires Valid()
      modifies this
      ensures pageCount == old(pageCount) + 1 && current == pageCount
      ensures rows == old(rows)
      ensures Valid()
    {
      pageCount := pageCount + 1;
      current := pageCount;
    }

    /** `doc.setPage(page)`. */
    method SetPage(page: nat)
      requires Valid() && 1 <= page <= pageCount
      modifies this
      ensures current == page
      ensures rows == old(rows) && pageCount == old(pageCount)
      ensures Valid()
    {
      current := page;
    }
  }

  // ---------------------------------------------------------------------
  // The cursor of the list sections

  /** One list row: the cursor moves down a line, and past the break line
      it moves to the top of a new page. */
  function Advance(y: int): int {
    if y + LineHeight > ListBreak then Top else y + LineHeight
  }

  /** The cursor after `n` list rows started at `y`. */
  function CursorAfter(y: int, n: nat): int {
    if n == 0 then y else Advance(CursorAfter(y, n - 1))
  }

  /** The pages added by `n` list rows started at `y`. */
  function BreaksIn(y: int, n: nat): nat {
    if n == 0 then 0
    else BreaksIn(y, n - 1) + (if CursorAfter(y, n - 1) + LineHeight > ListBreak then 1 else 0)
  }

  /** Started on the page, the cursor of a list section stays on the page:
      every row is written between the top margin and the break line. */
  lemma {:induction false} CursorStaysOnPage(y: int, n: nat)
    requires Top <= y <= ListBreak
    ensures Top <= CursorAfter(y, n) <= ListBreak
  {
    if n > 0 {
      CursorStaysOnPage(y, n - 1);
    }
  }

  /** The rows a fresh page holds before a list section breaks. */
  const RowsPerPage := 38

  /** From the top of a page, a list section writes 38 rows per page: the
      cursor is at row `n % 38` of its page and `n / 38` pages were added. */
  lemma {:induction false} ListPaging(n: nat)
    ensures CursorAfter(Top, n) == Top + LineHeight * (n % RowsPerPage)
    ensures BreaksIn(Top, n) == n / RowsPerPage
  {
    if n > 0 {
      ListPaging(n - 1);
      var k := (n - 1) % RowsPerPage;
      assert (n - 1) / RowsPerPage * RowsPerPage + k == n - 1;
      if k == RowsPerPage - 1 {
        assert n == ((n - 1) / RowsPerPage + 1) * RowsPerPage;
        assert n % RowsPerPage == 0 && n / RowsPerPage == (n - 1) / RowsPerPage + 1;
      } else {
        assert n == (n - 1) / RowsPerPage * RowsPerPage + (k + 1);
        assert n % RowsPerPage == k + 1 && n / RowsPerPage == (n - 1) / RowsPerPage;
      }
    }
  }

  /** The two list loops of `generatePDF` (required documents, uploaded
      files): each row is written at the cursor, the cursor moves down, and a
      cursor past the break line goes to the top of a new page. */
  method ListRows(doc: PdfDocument, texts: seq<string>, y0: int) returns (y: int)
    requires doc.Valid()
    modifies doc
    ensures y == CursorAfter(y0, |texts|)
    ensures doc.pageCount == old(doc.pageCount) + BreaksIn(y0, |texts|)
    ensures |doc.rows| == old(|doc.rows|) + |texts| && doc.rows[..old(|doc.rows|)] == old(doc.rows)
    ensures ListWritten(doc.rows[old(|doc.rows|)..], texts, y0)
    ensures doc.Valid()
  {
    ghost var n0 := |doc.rows|;
    y := y0;
    var i := 0;
    while i < |texts|
      invariant i <= |texts| && doc.Valid()
      invariant y == CursorAfter(y0, i)
      invariant doc.pageCount == old(doc.pageCount) + BreaksIn(y0, i)
      invariant |doc.rows| == n0 + i && doc.rows[..n0] == old(doc.rows)
      invariant ListWritten(doc.rows[n0..], texts[..i], y0)
    {
      ghost var written := doc.rows[n0..];
      y := ListRow(doc, texts[i], y);
      ListWrittenStep(written, texts, y0, i, doc.rows[|doc.rows| - 1]);
      assert doc.rows[n0..] == written + [doc.rows[|doc.rows| - 1]];
      i := i + 1;
    }
    assert texts[..i] == texts;
  }

  /** One list row: the text at the cursor, then the cursor moves down a
      line, onto a new page once it passes the break line. */
  method ListRow(doc: PdfDocument, text: string, y: int) returns (next: int)
    requires doc.Valid()
    modifies doc
    ensures next == Advance(y)
    ensures doc.rows == old(doc.rows) + [Row(old(doc.current), y, text)]
    ensures doc.pageCount == old(doc.pageCount) + (if y + LineHeight > ListBreak then 1 else 0)
    ensures doc.Valid()
  {
    doc.Text(text, y);
    next := y + LineHeight;
    if next > ListBreak {
      doc.AddPage();
      next := Top;
    }
  }

  /** Row `i` of a list section carries the `i`-th text at the cursor after `i` rows. */
  ghost predicate ListWritten(rows: seq<Row>, texts: seq<string>, y0: int) {
    |rows| == |texts| && forall i :: 0 <= i < |rows| ==> rows[i].text == texts[i] && rows[i].y == CursorAfter(y0, i)
  }

  lemma ListWrittenStep(rows: seq<Row>, texts: seq<string>, y0: int, i: nat, row: Row)
    requires i < |texts| && ListWritten(rows, texts[..i], y0)
    requires row.text == texts[i] && row.y == CursorAfter(y0, i)
    ensures ListWritten(rows + [row], texts[..i + 1], y0)
  {
  }

  /** The notes loop: the page break is checked before each line, so every
      line is written between the top margin and the break line. */
  method NoteRows(doc: PdfDocument, notes: seq<string>, y0: int) returns (y: int)
    requires doc.Valid() && Top <= y0
    modifies doc
    ensures |doc.rows| == old(|doc.rows|) + |notes| && doc.rows[..old(|doc.rows|)] == old(doc.rows)
    ensures NotesWritten(doc.rows[old(|doc.rows|)..], notes)
    ensures Top <= y
    ensures doc.Valid()
  {
    ghost var n0 := |doc.rows|;
    y := y0;
    var i := 0;
    while i < |notes|
      invariant i <= |notes| && doc.Valid() && Top <= y
      invariant |doc.rows| == n0 + i && doc.rows[..n0] == old(doc.rows)
      invariant NotesWritten(doc.rows[n0..], notes[..i])
    {
      ghost var written := doc.rows[n0..];
      y := NoteRow(doc, notes[i], y);
      NotesWrittenStep(written, notes, i, doc.rows[|doc.rows| - 1]);
      assert doc.rows[n0..] == written + [doc.rows[|doc.rows| - 1]];
      i := i + 1;
    }
    assert notes[..i] == notes;
  }

  /** One line of the notes: a new page first when the cursor has passed the
      break line, then the text, then the cursor moves down a line. */
  method NoteRow(doc: PdfDocument, text: string, y: int) returns (next: int)
    requires doc.Valid() && Top <= y
    modifies doc
    ensures |doc.rows| == old(|doc.rows|) + 1 && doc.rows[..old(|doc.rows|)] == old(doc.rows)
    ensures doc.rows[old(|doc.rows|)].text == text
    ensures doc.rows[old(|doc.rows|)].y == (if y > ListBreak then Top else y)
    ensures next == doc.rows[old(|doc.rows|)].y + LineHeight
    ensures doc.Valid()
  {
    next := y;
    if next > ListBreak {
      doc.AddPage();
      next := Top;
    }
    doc.Text(text, next);
    next := next + LineHeight;
  }

  /** Every note line carries its text and lies between the top margin and the break line. */
  ghost predicate NotesWritten(rows: seq<Row>, notes: seq<string>) {
    |rows| == |notes| && forall i :: 0 <= i < |rows| ==> rows[i].text == notes[i] && Top <= rows[i].y <= ListBreak
  }

  lemma NotesWrittenStep(rows: seq<Row>, notes: seq<string>, i: nat, row: Row)
    requires i < |notes| && NotesWritten(rows, notes[..i])
    requires row.text == notes[i] && Top <= row.y <= ListBreak
    ensures NotesWritten(rows + [row], notes[..i + 1])
  {
  }

  /** The deadlines loop, which has no page break: the rows go one line apart. */
  method DeadlineRows(doc: PdfDocument, texts: seq<string>, y0: int) returns (y: int)
    requires doc.Valid()
    modifies doc
    ensures y == y0 + LineHeight * |texts|
    ensures |doc.rows| == old(|doc.rows|) + |texts| && doc.rows[..old(|doc.rows|)] == old(doc.rows)
    ensures forall i :: 0 <= i < |texts| ==>
              doc.rows[old(|doc.rows|) + i] == Row(doc.current, y0 + LineHeight * i, texts[i])
    ensures doc.current == old(doc.current) && doc.pageCount == old(doc.pageCount)
    ensures doc.Valid()
  {
    ghost var n0 := |doc.rows|;
    y := y0;
    var i := 0;
    while i < |texts|
      invariant i <= |texts| && doc.Valid()
      invariant y == y0 + LineHeight * i
      invariant doc.current == old(doc.current) && doc.pageCount == old(doc.pageCount)
      invariant |doc.rows| == n0 + i && doc.rows[..n0] == old(doc.rows)
      invariant forall j :: 0 <= j < i ==> doc.rows[n0 + j] == Row(doc.current, y0 + LineHeight * j, texts[j])
    {
      doc.Text(texts[i], y);
      y := y + LineHeight;
      i := i + 1;
    }
  }

  // ---------------------------------------------------------------------
  // Footers

  function FooterText(page: nat, pageCount: nat): string {
    "Page " + NatToString(page) + " of " + NatToString(pageCount)
    + " • Generated by UK Immigration Case Manager • Confidential"
  }

  /** The footer rows: one per page, in page order, ten millimetres above the bottom edge. */
  function Footers(pageCount: nat): (r: seq<Row>)
    ensures |r| == pageCount
    ensures forall i :: 0 <= i < pageCount ==> r[i].page == i + 1 && r[i].y == PageHeight - 10
  {
    seq(pageCount, i requires 0 <= i < pageCount => Row(i + 1, PageHeight - 10, FooterText(i + 1, pageCount)))
  }

  /** The footer loop: every page, from the first to the last, gets its footer. */
  method AddFooters(doc: PdfDocument)
    requires doc.Valid()
    modifies doc
    ensures doc.rows == old(doc.rows) + Footers(doc.pageCount)
    ensures doc.pageCount == old(doc.pageCount) && doc.current == doc.pageCount
    ensures doc.Valid()
  {
    var pageCount := doc.pageCount;
    ghost var footers := Footers(pageCount);
    var i := 1;
    while i <= pageCount
      invariant 1 <= i <= pageCount + 1 && doc.Valid() && doc.pageCount == pageCount
      invariant doc.rows == old(doc.rows) + footers[..i - 1]
      invariant i > 1 ==> doc.current == i - 1
    {
      doc.SetPage(i);
      doc.Text(FooterText(i, pageCount), PageHeight - 10);
      assert footers[..i] == footers[..i - 1] + [footers[i - 1]];
      i := i + 1;
    }
    assert footers[..pageCount] == footers;
  }

  // ---------------------------------------------------------------------
  // Row texts

  /** `isDocumentUploaded(docName, uploadedFiles)` of the exporter, which has
      no guard for a missing list: its caller always passes a list. */
  predicate PdfIsDocumentUploaded(doc: string, names: seq<string>) {
    Matching.IsDocumentUploaded(doc, names)
  }

  /** The exporter's rule agrees with the controller's on every present list. */
  lemma PdfRuleAgrees(doc: string, names: seq<string>)
    ensures PdfIsDocumentUploaded(doc, names) <==> App.AppIsDocumentUploaded(doc, Some(names))
  {
  }

  function StatusMarker(uploaded: bool): string {
    if uploaded then "[✓]" else "[ ]"
  }

  /** A row of the required documents section. */
  function RequiredRow(doc: string, names: seq<string>): string {
    StatusMarker(PdfIsDocumentUploaded(doc, names)) + " " + doc
  }

  /** The row of a required document starts with the ticked box exactly when
      some upload satisfies it, and names the document after the box. */
  lemma RequiredRowMarks(doc: string, names: seq<string>)
    ensures var r := RequiredRow(doc, names);
      && |r| == |doc| + 4
      && (r[..3] == "[✓]" <==> PdfIsDocumentUploaded(doc, names))
      && r[4..] == doc
  {
    var r := RequiredRow(doc, names);
    var marker := StatusMarker(PdfIsDocumentUploaded(doc, names));
    assert r[..3] == marker && r[4..] == doc;
    assert "[✓]" != "[ ]" by {
      assert "[✓]"[1] != "[ ]"[1];
    }
  }

  /** A row of the uploaded documents section; `fixed` is `toFixed(1)` of the size in the unit. */
  function UploadedRow(f: Records.UploadedFile, fixed: (nat, nat) -> string): string {
    "• " + f.name + " (" + Documents.FileTypeLabel(f.mime) + ", " + Documents.FormatFileSize(f.size, fixed) + ")"
  }

  /** A row of the deadlines section; `formatDate` is the long `en-GB` date of the stored date. */
  function DeadlineRow(d: Records.Deadline, formatDate: string -> string): string {
    d.kind + ": " + formatDate(d.date)
  }

  /** `value || fallback` as text. */
  function FieldOr(clientData: Json, key: string, fallback: string): string {
    Display(OrElse(Get(clientData, key), Str(fallback)))
  }

  /** The label and value rows of the personal details section. */
  function PersonalDetails(clientData: Json): seq<(string, string)> {
    [("Full Name:", FieldOr(clientData, "clientName", "N/A")),
     ("Email:", FieldOr(clientData, "clientEmail", "N/A")),
     ("Phone:", FieldOr(clientData, "clientPhone", "N/A")),
     ("Address:", FieldOr(clientData, "clientAddress", "") + ", " + FieldOr(clientData, "clientCity", "")
                  + ", " + FieldOr(clientData, "clientPostcode", ""))]
  }

  // ---------------------------------------------------------------------
  // The file name

  /** `Immigration_Case_<name>_<date>.pdf`, where every white-space run of the
      name becomes `_` and an empty result falls back to `Summary`. */
  function FileName(clientName: string, isoDate: string): string {
    var part := ReplaceWhitespaceRuns(clientName, "_");
    "Immigration_Case_" + (if part != "" then part else "Summary") + "_" + isoDate + ".pdf"
  }

  /** For the non-empty names that reach it, the name part of the file name
      is the name with each white-space run replaced, never the fallback,
      and carries no white space. */
  lemma FileNameOfClient(clientName: string, isoDate: string)
    requires clientName != ""
    ensures var part := ReplaceWhitespaceRuns(clientName, "_");
      && part != "" && NoWhitespace(part)
      && FileName(clientName, isoDate) == "Immigration_Case_" + part + "_" + isoDate + ".pdf"
  {
    assert NoWhitespace("_") by {
      assert !IsWhitespace('_');
    }
    ReplaceWhitespaceRunsClean(clientName, "_");
  }

  // ---------------------------------------------------------------------
  // generatePDF

  /** What an export ends with; `Failed` is an error of the library, which
      the exporter catches. */
  datatype Outcome =
    | LibraryMissing
    | NoIntakeData
    | Failed
    | Saved(fileName: string)

  /** The label and value rows of the personal details, one line per entry
      from `y` down: the label and its value share the line. */
  function DetailRows(details: seq<(string, string)>, page: nat, y: int): (r: seq<Row>)
    ensures |r| == 2 * |details|
    ensures forall k :: 0 <= k < |details| ==>
              && r[2 * k] == Row(page, y + LineHeight * k, details[k].0)
              && r[2 * k + 1] == Row(page, y + LineHeight * k, details[k].1)
  {
    if details == [] then []
    else
      var n := |details| - 1;
      DetailRows(details[..n], page, y)
      + [Row(page, y + LineHeight * n, details[n].0), Row(page, y + LineHeight * n, details[n].1)]
  }

  /** The rows of the header on page `page`: the title at the top margin,
      the generation time two lines down, the personal details heading two
      lines further, its four label and value lines, a blank line, then the
      visa heading and the visa type. */
  function HeaderRows(clientData: Json, generatedAt: string, page: nat): (r: seq<Row>)
    ensures |r| == 13
    ensures r[0] == Row(page, Top, "UK Immigration Case Summary")
    ensures r[12] == Row(page, Top + 11 * LineHeight, "Visa Type: " + FieldOr(clientData, "visaType", "Not specified"))
  {
    [Row(page, Top, "UK Immigration Case Summary"),
     Row(page, Top + 2 * LineHeight, "Generated: " + generatedAt),
     Row(page, Top + 4 * LineHeight, "Personal Details")]
    + DetailRows(PersonalDetails(clientData), page, Top + 5 * LineHeight)
    + [Row(page, Top + 10 * LineHeight, "Visa Application Details"),
       Row(page, Top + 11 * LineHeight, "Visa Type: " + FieldOr(clientData, "visaType", "Not specified"))]
  }

  /** The header stays on its page between the top margin and the section
      break, goes down the page row by row, and writes each personal detail
      as its label and its value on one line. */
  lemma HeaderLayout(clientData: Json, generatedAt: string, page: nat)
    ensures var r := HeaderRows(clientData, generatedAt, page);
      && (forall i :: 0 <= i < |r| ==> r[i].page == page && Top <= r[i].y <= Top + 11 * LineHeight)
      && (forall i :: 0 <= i < |r| - 1 ==> r[i].y <= r[i + 1].y)
      && forall k :: 0 <= k < 4 ==>
           && r[3 + 2 * k] == Row(page, Top + (5 + k) * LineHeight, PersonalDetails(clientData)[k].0)
           && r[4 + 2 * k] == Row(page, Top + (5 + k) * LineHeight, PersonalDetails(clientData)[k].1)
  {
    var r := HeaderRows(clientData, generatedAt, page);
    var d := DetailRows(PersonalDetails(clientData), page, Top + 5 * LineHeight);
    assert r[3..11] == d;
    forall k | 0 <= k < 4
      ensures r[3 + 2 * k] == d[2 * k] && r[4 + 2 * k] == d[2 * k + 1]
    {
    }
    forall i | 3 <= i < 11
      ensures r[i].page == page && r[i].y == Top + (5 + (i - 3) / 2) * LineHeight
    {
      var k := (i - 3) / 2;
      assert i == 3 + 2 * k || i == 4 + 2 * k;
    }
  }

  /** The personal details loop: each label and its value on one line, one
      line per entry. */
  method WriteDetails(doc: PdfDocument, details: seq<(string, string)>, y0: int) returns (y: int)
    requires doc.Valid()
    modifies doc
    ensures doc.rows == old(doc.rows) + DetailRows(details, old(doc.current), y0)
    ensures y == y0 + LineHeight * |details|
    ensures doc.pageCount == old(doc.pageCount) && doc.current == old(doc.current) && doc.Valid()
  {
    y := y0;
    var i := 0;
    while i < |details|
      invariant i <= |details| && doc.Valid() && doc.pageCount == old(doc.pageCount) && doc.current == old(doc.current)
      invariant y == y0 + LineHeight * i
      invariant doc.rows == old(doc.rows) + DetailRows(details[..i], doc.current, y0)
    {
      assert details[..i + 1][..i] == details[..i];
      doc.Text(details[i].0, y);
      doc.Text(details[i].1, y);
      y := y + LineHeight;
      i := i + 1;
    }
    assert details[..i] == details;
  }

  /** The title, the generation time, the personal details and the visa
      type, on the current page from the top margin; the cursor ends two
      lines below the visa type. */
  method WriteHeader(doc: PdfDocument, clientData: Json, generatedAt: string) returns (y: int)
    requires doc.Valid()
    modifies doc
    ensures doc.rows == old(doc.rows) + HeaderRows(clientData, generatedAt, old(doc.current))
    ensures y == Top + 13 * LineHeight
    ensures doc.pageCount == old(doc.pageCount) && doc.current == old(doc.current) && doc.Valid()
  {
    ghost var p := doc.current;
    y := Top;
    doc.Text("UK Immigration Case Summary", y);
    y := y + LineHeight * 2;
    doc.Text("Generated: " + generatedAt, y);
    y := y + LineHeight * 2;
    doc.Text("Personal Details", y);
    y := y + LineHeight;
    ghost var head := doc.rows;
    y := WriteDetails(doc, PersonalDetails(clientData), y);
    ghost var middle := doc.rows;
    y := y + LineHeight;
    doc.Text("Visa Application Details", y);
    y := y + LineHeight;
    doc.Text("Visa Type: " + FieldOr(clientData, "visaType", "Not specified"), y);
    y := y + LineHeight * 2;
    HeaderParts(clientData, generatedAt, p, old(doc.rows), head, middle, doc.rows);
  }

  /** The header rows are the three rows above the details, the details, and the two visa rows. */
  lemma HeaderParts(clientData: Json, generatedAt: string, p: nat,
                    rows0: seq<Row>, head: seq<Row>, middle: seq<Row>, rows: seq<Row>)
    requires head == rows0 + [Row(p, Top, "UK Immigration Case Summary")]
                           + [Row(p, Top + 2 * LineHeight, "Generated: " + generatedAt)]
                           + [Row(p, Top + 4 * LineHeight, "Personal Details")]
    requires middle == head + DetailRows(PersonalDetails(clientData), p, Top + 5 * LineHeight)
    requires rows == middle + [Row(p, Top + 10 * LineHeight, "Visa Application Details")]
                            + [Row(p, Top + 11 * LineHeight, "Visa Type: " + FieldOr(clientData, "visaType", "Not specified"))]
    ensures rows == rows0 + HeaderRows(clientData, generatedAt, p)
  {
  }

  /** A list section: a new page when the cursor is below the section break,
      the heading, the rows with their page breaks, and a blank line. */
  method ListSection(doc: PdfDocument, heading: string, texts: seq<string>, y0: int) returns (y: int)
    requires doc.Valid() && Top <= y0
    modifies doc
    ensures |doc.rows| == old(|doc.rows|) + 1 + |texts| && doc.rows[..old(|doc.rows|)] == old(doc.rows)
    ensures doc.rows[old(|doc.rows|)] ==
              if y0 > SectionBreak then Row(old(doc.pageCount) + 1, Top, heading) else Row(old(doc.current), y0, heading)
    ensures var start := (if y0 > SectionBreak then Top else y0) + LineHeight;
              && doc.pageCount == old(doc.pageCount) + (if y0 > SectionBreak then 1 else 0) + BreaksIn(start, |texts|)
              && ListWritten(doc.rows[old(|doc.rows|) + 1..], texts, start)
    ensures forall i :: old(|doc.rows|) + 1 <= i < |doc.rows| ==> Top <= doc.rows[i].y <= ListBreak
    ensures Top <= y && doc.Valid()
  {
    y := y0;
    if y > SectionBreak {
      doc.AddPage();
      y := Top;
    }
    doc.Text(heading, y);
    y := y + LineHeight;
    ghost var n1 := |doc.rows|;
    var start := y;
    y := ListRows(doc, texts, start);
    forall i | n1 <= i < |doc.rows|
      ensures Top <= doc.rows[i].y <= ListBreak
    {
      CursorStaysOnPage(start, i - n1);
    }
    CursorStaysOnPage(start, |texts|);
    y := y + LineHeight;
  }

  /** The sections after the header: the deadlines, the required and the
      uploaded documents, and the case notes, each only when there is
      something to list. */
  method WriteSections(doc: PdfDocument, memory: Storage.Memory, clientData: Json, y0: int,
                       formatDate: string -> string, fixed: (nat, nat) -> string, splitText: string -> seq<string>)
    returns (y: int)
    requires doc.Valid() && Top <= y0
    modifies doc
    ensures Top <= y && doc.Valid()
  {
    y := y0;
    var deadlines := Deadlines.StoredDeadlines(memory);
    if |deadlines| > 0 {
      doc.Text("Key Deadlines", y);
      y := y + LineHeight;
      var texts := seq(|deadlines|, i requires 0 <= i < |deadlines| => DeadlineRow(deadlines[i], formatDate));
      y := DeadlineRows(doc, texts, y);
      y := y + LineHeight;
    }

    var required := Documents.StoredRequiredDocs(memory);
    var files := Documents.StoredFiles(memory);
    if required.Some? && |required.value| > 0 {
      var docs, names := required.value, Records.FileNames(files);
      var texts := seq(|docs|, i requires 0 <= i < |docs| => RequiredRow(docs[i], names));
      y := ListSection(doc, "Required Documents", texts, y);
    }

    if |files| > 0 {
      var texts := seq(|files|, i requires 0 <= i < |files| => UploadedRow(files[i], fixed));
      y := ListSection(doc, "Uploaded Documents", texts, y);
    }

    if HasTruthy(clientData, "caseNotes") {
      if y > NotesBreak {
        doc.AddPage();
        y := Top;
      }
      doc.Text("Case Notes", y);
      y := y + LineHeight;
      var notes := splitText(Display(Get(clientData, "caseNotes").value));
      y := NoteRows(doc, notes, y);
    }

  }

  /** `generatePDF()`, over whether the library is loaded, the store, the
      clock's two texts (`toLocaleString` and the ISO date) and the library's
      text services (`toLocaleDateString`, `toFixed(1)`, `splitTextToSize`). */
  method GeneratePdf(libraryLoaded: bool, store: Storage.StorageManager, generatedAt: string, isoDate: string,
                     formatDate: string -> string, fixed: (nat, nat) -> string, splitText: string -> seq<string>)
    returns (outcome: Outcome, doc: PdfDocument?)
    ensures !libraryLoaded ==> outcome == LibraryMissing && doc == null
    ensures libraryLoaded && !HasTruthy(store.LoadClientData(), "clientName") ==> outcome == NoIntakeData && doc == null
    ensures libraryLoaded && HasTruthy(store.LoadClientData(), "clientName") ==>
              && doc != null && fresh(doc) && doc.Valid()
              && outcome == match Get(store.LoadClientData(), "clientName").value
                            case Str(name) => Saved(FileName(name, isoDate))
                            case _ => Failed
    ensures outcome.Saved? ==>
              doc != null && |doc.rows| >= doc.pageCount && doc.rows[|doc.rows| - doc.pageCount..] == Footers(doc.pageCount)
  {
    doc := null;
    if !libraryLoaded {
      return LibraryMissing, doc;
    }
    var clientData := store.LoadClientData();
    if clientData == Null || !HasTruthy(clientData, "clientName") {
      return NoIntakeData, doc;
    }
    doc := new PdfDocument();
    var name := Get(clientData, "clientName").value;
    if !name.Str? {
      return Failed, doc;
    }
    var y := WriteHeader(doc, clientData, generatedAt);

    y := WriteSections(doc, store.memory, clientData, y, formatDate, fixed, splitText);

    AddFooters(doc);
    outcome := Saved(FileName(name.s, isoDate));
  }
}
