/** The document parsers: which handler takes a file (by lower-cased
    `PurePath.suffix`, a strict size limit and whether the parsing library is
    installed, tried in a fixed order), the basic metadata every file gets,
    and how each handler assembles its text from what the parsing library
    reads out of the file. */
module Extractors {
  import opened Common
  import opened Files

  const MiB: nat := 1024 * 1024

  /** `TextFileHandler.TEXT_EXTENSIONS`. */
  const TextExtensions: set<string> := {
    ".txt", ".md", ".rst", ".log", ".json", ".xml", ".yaml", ".yml",
    ".ini", ".conf", ".cfg", ".properties",
    ".html", ".htm", ".css", ".scss", ".less",
    ".js", ".ts", ".jsx", ".tsx", ".mjs",
    ".py", ".java", ".c", ".cpp", ".h", ".hpp", ".cs", ".go", ".rb", ".php",
    ".sh", ".bat", ".ps1", ".sql"
  }

  datatype Handler = TextHandler | PdfHandler | DocxHandler | ExcelHandler | PowerPointHandler

  /** Which optional parsing libraries were importable. */
  datatype Libraries = Libraries(pypdf: bool, docx: bool, openpyxl: bool, pptx: bool)

  /** `get_file_handlers`: the order in which handlers are tried. */
  const FileHandlers: seq<Handler> := [TextHandler, PdfHandler, DocxHandler, ExcelHandler, PowerPointHandler]

  /** `Path(p).suffix.lower()`. */
  function Extension(p: string): string {
    Lower(Suffix(p))
  }

  /** The extensions a handler takes. */
  function Extensions(h: Handler): set<string> {
    match h
    case TextHandler => TextExtensions
    case PdfHandler => {".pdf"}
    case DocxHandler => {".docx"}
    case ExcelHandler => {".xlsx", ".xls"}
    case PowerPointHandler => {".pptx", ".ppt"}
  }

  /** The size, in bytes, a file must stay strictly below. */
  function SizeLimit(h: Handler): (r: nat)
    ensures r % MiB == 0 && 5 * MiB <= r <= 20 * MiB
  {
    match h
    case TextHandler => 5 * MiB
    case PdfHandler => 20 * MiB
    case DocxHandler => 10 * MiB
    case ExcelHandler => 10 * MiB
    case PowerPointHandler => 15 * MiB
  }

  /** The library a handler needs is importable (text needs none). */
  predicate Available(h: Handler, libs: Libraries)
    ensures h.TextHandler? ==> Available(h, libs)
    ensures libs == Libraries(true, true, true, true) ==> Available(h, libs)
  {
    match h
    case TextHandler => true
    case PdfHandler => libs.pypdf
    case DocxHandler => libs.docx
    case ExcelHandler => libs.openpyxl
    case PowerPointHandler => libs.pptx
  }

  /** `can_handle` of a file whose lower-cased extension is `ext`. */
  predicate CanHandle(h: Handler, libs: Libraries, ext: string, size: nat)
    ensures CanHandle(h, libs, ext, size) ==> size < 20 * MiB
  {
    Available(h, libs) && ext in Extensions(h) && size < SizeLimit(h)
  }

  /** The position of the first handler of `hs` that can handle the file,
      or `|hs|` when none can. */
  function FirstCapable(hs: seq<Handler>, libs: Libraries, ext: string, size: nat): (i: nat)
    ensures i <= |hs|
    ensures i < |hs| ==> CanHandle(hs[i], libs, ext, size)
    ensures forall j :: 0 <= j < i ==> !CanHandle(hs[j], libs, ext, size)
    decreases |hs|
  {
    if hs == [] || CanHandle(hs[0], libs, ext, size) then 0
    else
      var k := FirstCapable(hs[1..], libs, ext, size);
      assert forall j :: 1 <= j <= k ==> hs[j] == hs[1..][j - 1];
      1 + k
  }

  /** The handler `extract_file_content` hands the file to, if any. */
  function Dispatched(libs: Libraries, ext: string, size: nat): (r: Option<Handler>)
    ensures r.Some? ==> CanHandle(r.value, libs, ext, size)
    ensures r.None? ==> forall h :: !CanHandle(h, libs, ext, size)
  {
    var i := FirstCapable(FileHandlers, libs, ext, size);
    if i < |FileHandlers| then Some(FileHandlers[i])
    else
      assert forall h :: h == FileHandlers[HandlerIndex(h)];
      None
  }

  /** The position of a handler in `FileHandlers`. */
  function HandlerIndex(h: Handler): (i: nat)
    ensures i < |FileHandlers| && FileHandlers[i] == h
  {
    match h
    case TextHandler => 0
    case PdfHandler => 1
    case DocxHandler => 2
    case ExcelHandler => 3
    case PowerPointHandler => 4
  }

  /** No extension belongs to two handlers. */
  lemma ExtensionsDisjoint(h1: Handler, h2: Handler, ext: string)
    requires h1 != h2
    ensures !(ext in Extensions(h1) && ext in Extensions(h2))
  {
    assert ".pdf" !in TextExtensions && ".docx" !in TextExtensions;
    assert ".xlsx" !in TextExtensions && ".xls" !in TextExtensions;
    assert ".pptx" !in TextExtensions && ".ppt" !in TextExtensions;
  }

  /** Because the extension sets are disjoint, the order of the handlers
      does not matter: a file goes to a handler exactly when that handler
      can handle it. */
  lemma DispatchIsByExtension(libs: Libraries, ext: string, size: nat, h: Handler)
    ensures Dispatched(libs, ext, size) == Some(h) <==> CanHandle(h, libs, ext, size)
  {
    var k := match h
      case TextHandler => 0 case PdfHandler => 1 case DocxHandler => 2
      case ExcelHandler => 3 case PowerPointHandler => 4;
    assert FileHandlers[k] == h;
    var i := FirstCapable(FileHandlers, libs, ext, size);
    if CanHandle(h, libs, ext, size) && i != k {
      assert i < k;
      ExtensionsDisjoint(FileHandlers[i], h, ext);
    }
  }

  /** `FileHandler.get_metadata`. */
  function BasicMetadata(p: string, size: nat, mtime: real): (r: Record)
    ensures r.Keys == {"filename", "extension", "size_bytes", "modified_time"}
    ensures r["extension"] == Str(Extension(p)) && r["size_bytes"] == Int(size)
    ensures r["filename"] == Str(Name(p)) && r["modified_time"] == Real(mtime)
  {
    map["filename" := Str(Name(p)), "extension" := Str(Extension(p)),
        "size_bytes" := Int(size), "modified_time" := Real(mtime)]
  }

  /** The concatenation of `f(x)` for each `x` of `xs`, in order: a text
      grown by `text += f(x)` in a loop. */
  function ConcatMap<T>(xs: seq<T>, f: T -> string): string
    decreases |xs|
  {
    if xs == [] then "" else ConcatMap(xs[..|xs| - 1], f) + f(xs[|xs| - 1])
  }

  lemma ConcatMapStep<T>(xs: seq<T>, i: nat, f: T -> string)
    requires i < |xs|
    ensures ConcatMap(xs[..i + 1], f) == ConcatMap(xs[..i], f) + f(xs[i])
  {
    assert xs[..i + 1][..i] == xs[..i];
  }

  /** One iteration of `text += f(x)` after a fixed prefix `pre`. */
  lemma Grown<T>(pre: string, text: string, xs: seq<T>, i: nat, f: T -> string, piece: string)
    requires i < |xs| && text == pre + ConcatMap(xs[..i], f) && piece == f(xs[i])
    ensures text + piece == pre + ConcatMap(xs[..i + 1], f)
  {
    ConcatMapStep(xs, i, f);
    assert (pre + ConcatMap(xs[..i], f)) + piece == pre + (ConcatMap(xs[..i], f) + piece);
  }

  /** One iteration of `text += f(x)` from an empty start. */
  lemma Step<T>(text: string, xs: seq<T>, i: nat, f: T -> string, piece: string)
    requires i < |xs| && text == ConcatMap(xs[..i], f) && piece == f(xs[i])
    ensures text + piece == ConcatMap(xs[..i + 1], f)
  {
    ConcatMapStep(xs, i, f);
  }

  lemma {:induction false} ConcatMapAppend<T>(a: seq<T>, b: seq<T>, f: T -> string)
    ensures ConcatMap(a + b, f) == ConcatMap(a, f) + ConcatMap(b, f)
    decreases |b|
  {
    if b == [] {
      assert a + b == a;
    } else {
      assert (a + b)[..|a + b| - 1] == a + b[..|b| - 1];
      ConcatMapAppend(a, b[..|b| - 1], f);
    }
  }

  lemma {:induction false} JoinAppend(a: seq<string>, x: string, sep: string)
    requires a != []
    ensures Join(a + [x], sep) == Join(a, sep) + sep + x
    decreases |a|
  {
    if |a| == 1 {
      assert a + [x] == [a[0], x];
    } else {
      assert (a + [x])[1..] == a[1..] + [x];
      JoinAppend(a[1..], x, sep);
    }
  }

  // ---- Text files ----

  /** The three decodings in the order they are tried. */
  function Attempts(c: Content): seq<(string, Option<string>)>
    requires c.TextBytes?
  {
    [("utf-8", c.utf8), ("latin-1", c.latin1), ("cp1252", c.cp1252)]
  }

  /** The index of the first attempt that decodes, or `|attempts|`. */
  function FirstDecoding(attempts: seq<(string, Option<string>)>): (r: nat)
    ensures r <= |attempts|
    ensures r < |attempts| ==> attempts[r].1.Some?
    ensures forall j :: 0 <= j < r ==> attempts[j].1.None?
  {
    if attempts == [] then 0
    else if attempts[0].1.Some? then 0
    else 1 + FirstDecoding(attempts[1..])
  }

  /** `TextFileHandler.extract_text` after the basic metadata: the first
      codec that decodes gives the content and is recorded as `encoding`;
      when none does the content stays empty. Bytes that cannot be read
      give no text. */
  function TextExtracted(c: Content, meta: Record): (r: (string, Record))
    ensures !c.TextBytes? ==> r == ("", meta)
    ensures meta.Keys <= r.1.Keys <= meta.Keys + {"encoding"}
    ensures forall k :: k in meta && k != "encoding" ==> r.1[k] == meta[k]
  {
    if !c.TextBytes? then ("", meta)
    else
      var attempts := Attempts(c);
      var i := FirstDecoding(attempts);
      if i < |attempts| then (attempts[i].1.value, meta["encoding" := Str(attempts[i].0)])
      else ("", meta)
  }

  method ExtractTextFile(c: Content, meta: Record) returns (text: string, out: Record)
    ensures (text, out) == TextExtracted(c, meta)
  {
    out := meta;
    text := "";
    if !c.TextBytes? {
      return;
    }
    var attempts := Attempts(c);
    var i := 0;
    while i < |attempts|
      invariant 0 <= i <= |attempts|
      invariant forall j :: 0 <= j < i ==> attempts[j].1.None?
    {
      if attempts[i].1.Some? {
        text := attempts[i].1.value;
        out := out["encoding" := Str(attempts[i].0)];
        break;
      }
      i := i + 1;
    }
    if i == |attempts| {
      assert FirstDecoding(attempts) == |attempts| by {
        FirstDecodingNone(attempts);
      }
    } else {
      FirstDecodingAt(attempts, i);
    }
  }

  lemma {:induction false} FirstDecodingNone(attempts: seq<(string, Option<string>)>)
    requires forall j :: 0 <= j < |attempts| ==> attempts[j].1.None?
    ensures FirstDecoding(attempts) == |attempts|
    decreases |attempts|
  {
    if attempts != [] {
      FirstDecodingNone(attempts[1..]);
    }
  }

  lemma FirstDecodingAt(attempts: seq<(string, Option<string>)>, i: nat)
    requires i < |attempts| && attempts[i].1.Some?
    requires forall j :: 0 <= j < i ==> attempts[j].1.None?
    ensures FirstDecoding(attempts) == i
  {
  }

  /** UTF-8 is preferred: when it decodes, it is the encoding recorded. */
  lemma Utf8First(c: Content, meta: Record)
    requires c.TextBytes? && c.utf8.Some?
    ensures TextExtracted(c, meta) == (c.utf8.value, meta["encoding" := Str("utf-8")])
  {
  }

  // ---- PDF ----

  /** `r` is the slice of `s` starting at `i`, and everything of `s` around
      it is `c`. */
  predicate StrippedAt(s: string, c: char, r: string, i: int) {
    0 <= i && i + |r| <= |s| && s[i..i + |r|] == r
    && (forall k :: 0 <= k < i ==> s[k] == c)
    && (forall k :: i + |r| <= k < |s| ==> s[k] == c)
  }

  /** `s.strip(c)`: `s` without the leading and trailing run of `c`. */
  function Strip(s: string, c: char): (r: string)
    ensures exists i :: StrippedAt(s, c, r, i)
    ensures r != [] ==> r[0] != c && r[|r| - 1] != c
    ensures |r| <= |s|
    decreases |s|
  {
    if s == [] then
      assert StrippedAt(s, c, [], 0);
      []
    else if s[0] == c then
      var r := Strip(s[1..], c);
      assert exists i :: StrippedAt(s, c, r, i) by {
        var i :| StrippedAt(s[1..], c, r, i);
        StrippedAtFirst(s, c, r, i);
      }
      r
    else if s[|s| - 1] == c then
      var r := Strip(s[..|s| - 1], c);
      assert exists i :: StrippedAt(s, c, r, i) by {
        var i :| StrippedAt(s[..|s| - 1], c, r, i);
        StrippedAtLast(s, c, r, i);
      }
      r
    else
      assert StrippedAt(s, c, s, 0);
      s
  }

  lemma StrippedAtFirst(s: string, c: char, r: string, i: int)
    requires s != [] && s[0] == c && StrippedAt(s[1..], c, r, i)
    ensures StrippedAt(s, c, r, i + 1)
  {
    assert s[i + 1..i + 1 + |r|] == s[1..][i..i + |r|];
    forall k | 0 <= k < i + 1
      ensures s[k] == c
    {
      if k > 0 {
        assert s[k] == s[1..][k - 1];
      }
    }
    forall k | i + 1 + |r| <= k < |s|
      ensures s[k] == c
    {
      assert s[k] == s[1..][k - 1];
    }
  }

  lemma StrippedAtLast(s: string, c: char, r: string, i: int)
    requires s != [] && s[|s| - 1] == c && StrippedAt(s[..|s| - 1], c, r, i)
    ensures StrippedAt(s, c, r, i)
  {
    assert s[i..i + |r|] == s[..|s| - 1][i..i + |r|];
    forall k | 0 <= k < i
      ensures s[k] == c
    {
      assert s[k] == s[..|s| - 1][k];
    }
    forall k | i + |r| <= k < |s|
      ensures s[k] == c
    {
      if k < |s| - 1 {
        assert s[k] == s[..|s| - 1][k];
      }
    }
  }

  /** A document-information entry is kept, as `pdf_<key>`, when its key is
      non-empty, its value is a non-empty string. */
  function PdfInfoField(meta: Record, entry: (string, Value)): Record {
    var (key, value) := entry;
    if key != "" && Truthy(value) && value.Str? then meta["pdf_" + Lower(Strip(key, '/')) := value] else meta
  }

  /** The metadata after copying the document-information entries in order. */
  function PdfInfo(meta: Record, info: seq<(string, Value)>): (r: Record)
    ensures meta.Keys <= r.Keys
    decreases |info|
  {
    if info == [] then meta else PdfInfoField(PdfInfo(meta, info[..|info| - 1]), info[|info| - 1])
  }

  /** The document information only adds keys prefixed `pdf_`, and leaves
      every other key as it was. */
  lemma {:induction false} PdfInfoAddsOnlyPdfKeys(meta: Record, info: seq<(string, Value)>, k: string)
    requires !(|k| >= 4 && k[..4] == "pdf_")
    ensures k in PdfInfo(meta, info) <==> k in meta
    ensures k in meta ==> PdfInfo(meta, info)[k] == meta[k]
    decreases |info|
  {
    if info != [] {
      PdfInfoAddsOnlyPdfKeys(meta, info[..|info| - 1], k);
      var (key, value) := info[|info| - 1];
      var added := "pdf_" + Lower(Strip(key, '/'));
      assert added[..4] == "pdf_";
    }
  }

  function PageBlock(page: string): string {
    page + "\n\n"
  }

  /** `PDFHandler.extract_text` after the basic metadata. */
  function PdfExtracted(c: Content, meta: Record): (r: (string, Record))
    ensures !c.PdfDoc? ==> r == ("", meta)
    ensures c.PdfDoc? ==> meta.Keys + {"page_count"} <= r.1.Keys
  {
    if !c.PdfDoc? then ("", meta)
    else (ConcatMap(c.pages, PageBlock), PdfInfo(meta["page_count" := Int(|c.pages|)], c.info))
  }

  method ExtractPdf(c: Content, meta: Record) returns (text: string, out: Record)
    ensures (text, out) == PdfExtracted(c, meta)
  {
    if !c.PdfDoc? {
      return "", meta;
    }
    out := meta["page_count" := Int(|c.pages|)];
    ghost var start := out;
    var i := 0;
    while i < |c.info|
      invariant 0 <= i <= |c.info|
      invariant out == PdfInfo(start, c.info[..i])
    {
      assert c.info[..i + 1][..i] == c.info[..i];
      var (key, value) := c.info[i];
      assert c.info[i] == (key, value);
      if key != "" && Truthy(value) && value.Str? {
        out := out["pdf_" + Lower(Strip(key, '/')) := value];
      }
      i := i + 1;
    }
    assert c.info[..|c.info|] == c.info;
    text := "";
    i := 0;
    while i < |c.pages|
      invariant 0 <= i <= |c.pages|
      invariant text == ConcatMap(c.pages[..i], PageBlock)
    {
      Step(text, c.pages, i, PageBlock, c.pages[i] + "\n\n");
      text := text + (c.pages[i] + "\n\n");
      i := i + 1;
    }
    assert c.pages[..|c.pages|] == c.pages;
  }

  /** The PDF text is the pages joined by a blank line, ending in one. */
  lemma {:induction false} PdfTextIsJoinedPages(pages: seq<string>)
    requires pages != []
    ensures ConcatMap(pages, PageBlock) == Join(pages, "\n\n") + "\n\n"
    decreases |pages|
  {
    if |pages| > 1 {
      var init, last := pages[..|pages| - 1], pages[|pages| - 1];
      PdfTextIsJoinedPages(init);
      JoinAppend(init, last, "\n\n");
      assert init + [last] == pages;
      calc {
        ConcatMap(pages, PageBlock);
        ConcatMap(init, PageBlock) + PageBlock(last);
        (Join(init, "\n\n") + "\n\n") + (last + "\n\n");
        (Join(init, "\n\n") + "\n\n" + last) + "\n\n";
        Join(pages, "\n\n") + "\n\n";
      }
    }
  }

  // ---- Word documents ----

  function ParagraphLine(para: string): string {
    para + "\n"
  }

  function CellText(cell: string): string {
    cell + " "
  }

  /** A table row: each cell followed by a space, then a newline. */
  function RowText(row: seq<string>): string {
    ConcatMap(row, CellText) + "\n"
  }

  function TableText(table: seq<seq<string>>): string {
    ConcatMap(table, RowText)
  }

  /** `DocxHandler.extract_text` after the basic metadata. */
  function DocxExtracted(c: Content, meta: Record): (r: (string, Record))
    ensures !c.DocxDoc? ==> r == ("", meta)
    ensures c.DocxDoc? ==> r.1.Keys == meta.Keys + {"author", "created", "title"}
    ensures forall k :: k in meta && k !in {"author", "created", "title"} ==> r.1[k] == meta[k]
  {
    if !c.DocxDoc? then ("", meta)
    else
      (ConcatMap(c.paragraphs, ParagraphLine) + ConcatMap(c.tables, TableText),
       meta["author" := c.author]["created" := c.created]["title" := c.title])
  }

  method ExtractDocx(c: Content, meta: Record) returns (text: string, out: Record)
    ensures (text, out) == DocxExtracted(c, meta)
  {
    if !c.DocxDoc? {
      return "", meta;
    }
    out := meta["author" := c.author];
    out := out["created" := c.created];
    out := out["title" := c.title];
    text := "";
    var i := 0;
    while i < |c.paragraphs|
      invariant 0 <= i <= |c.paragraphs|
      invariant text == ConcatMap(c.paragraphs[..i], ParagraphLine)
    {
      Step(text, c.paragraphs, i, ParagraphLine, c.paragraphs[i] + "\n");
      text := text + (c.paragraphs[i] + "\n");
      i := i + 1;
    }
    assert c.paragraphs[..|c.paragraphs|] == c.paragraphs;
    ghost var paragraphs := text;
    var t := 0;
    while t < |c.tables|
      invariant 0 <= t <= |c.tables|
      invariant text == paragraphs + ConcatMap(c.tables[..t], TableText)
    {
      ghost var before := text;
      text := AppendTable(text, c.tables[t]);
      Grown(paragraphs, before, c.tables, t, TableText, TableText(c.tables[t]));
      t := t + 1;
    }
    assert c.tables[..|c.tables|] == c.tables;
  }

  /** The rows of one table appended to `text`, cell by cell. */
  method AppendTable(text: string, table: seq<seq<string>>) returns (r: string)
    ensures r == text + TableText(table)
  {
    r := text;
    var i := 0;
    while i < |table|
      invariant 0 <= i <= |table|
      invariant r == text + ConcatMap(table[..i], RowText)
    {
      ghost var before := r;
      var row := table[i];
      var k := 0;
      while k < |row|
        invariant 0 <= k <= |row|
        invariant r == before + ConcatMap(row[..k], CellText)
      {
        Grown(before, r, row, k, CellText, row[k] + " ");
        r := r + (row[k] + " ");
        k := k + 1;
      }
      assert row[..|row|] == row;
      Grown(text, before, table, i, RowText, ConcatMap(row, CellText) + "\n");
      r := r + "\n";
      i := i + 1;
    }
    assert table[..|table|] == table;
  }

  // ---- Workbooks ----

  /** The non-empty cells of a row, as `str(cell)`, in order. */
  function Present(row: seq<Option<string>>): (r: seq<string>)
    ensures |r| <= |row|
    ensures r == [] <==> forall i :: 0 <= i < |row| ==> row[i].None?
    decreases |row|
  {
    if row == [] then []
    else
      var init := Present(row[..|row| - 1]);
      assert forall i :: 0 <= i < |row| - 1 ==> row[..|row| - 1][i] == row[i];
      match row[|row| - 1]
      case Some(v) => init + [v]
      case None => init
  }

  /** A row's line: its cells joined by ` | `, or nothing when every cell is empty. */
  function RowLine(row: seq<Option<string>>): string {
    var cells := Present(row);
    if cells == [] then "" else Join(cells, " | ") + "\n"
  }

  function SheetHeader(name: string): string {
    "Sheet: " + name + "\n"
  }

  /** A sheet: its header, one line per non-empty row, and a blank line. */
  function SheetText(sheet: Sheet): string {
    SheetHeader(sheet.name) + ConcatMap(sheet.rows, RowLine) + "\n"
  }

  function SheetName(sheet: Sheet): string {
    sheet.name
  }

  function SheetNames(sheets: seq<Sheet>): (r: seq<string>)
    ensures |r| == |sheets|
    ensures forall i :: 0 <= i < |r| ==> r[i] == sheets[i].name
  {
    seq(|sheets|, i requires 0 <= i < |sheets| => sheets[i].name)
  }

  /** `ExcelHandler.extract_text` after the basic metadata. */
  function ExcelExtracted(c: Content, meta: Record): (r: (string, Record))
    ensures !c.Workbook? ==> r == ("", meta)
    ensures c.Workbook? ==> r.1.Keys == meta.Keys + {"sheet_names"}
    ensures forall k :: k in meta && k != "sheet_names" ==> r.1[k] == meta[k]
  {
    if !c.Workbook? then ("", meta)
    else (ConcatMap(c.sheets, SheetText), meta["sheet_names" := StrList(SheetNames(c.sheets))])
  }

  /** A row with no non-empty cell contributes nothing. */
  lemma EmptyRowsSkipped(row: seq<Option<string>>)
    ensures RowLine(row) == "" <==> forall i :: 0 <= i < |row| ==> row[i].None?
  {
  }

  method ExtractExcel(c: Content, meta: Record) returns (text: string, out: Record)
    ensures (text, out) == ExcelExtracted(c, meta)
  {
    if !c.Workbook? {
      return "", meta;
    }
    out := meta["sheet_names" := StrList(SheetNames(c.sheets))];
    text := "";
    var s := 0;
    while s < |c.sheets|
      invariant 0 <= s <= |c.sheets|
      invariant text == ConcatMap(c.sheets[..s], SheetText)
    {
      ghost var before := text;
      text := AppendSheet(text, c.sheets[s]);
      Step(before, c.sheets, s, SheetText, SheetText(c.sheets[s]));
      s := s + 1;
    }
    assert c.sheets[..|c.sheets|] == c.sheets;
  }

  /** One sheet appended to `text`: its header, its non-empty rows, a blank line. */
  method AppendSheet(text: string, sheet: Sheet) returns (r: string)
    ensures r == text + SheetText(sheet)
  {
    r := text + ("Sheet: " + sheet.name + "\n");
    ghost var head := r;
    var i := 0;
    while i < |sheet.rows|
      invariant 0 <= i <= |sheet.rows|
      invariant r == head + ConcatMap(sheet.rows[..i], RowLine)
    {
      var rowText := PresentCells(sheet.rows[i]);
      if rowText != [] {
        Grown(head, r, sheet.rows, i, RowLine, Join(rowText, " | ") + "\n");
        r := r + (Join(rowText, " | ") + "\n");
      } else {
        Grown(head, r, sheet.rows, i, RowLine, "");
        assert r + "" == r;
      }
      i := i + 1;
    }
    assert sheet.rows[..|sheet.rows|] == sheet.rows;
    r := r + "\n";
    ghost var rows := ConcatMap(sheet.rows, RowLine);
    assert text + SheetText(sheet) == text + (SheetHeader(sheet.name) + rows + "\n");
    assert ((text + SheetHeader(sheet.name)) + rows) + "\n" == text + (SheetHeader(sheet.name) + rows + "\n");
  }

  /** The loop collecting `str(cell)` for each non-empty cell of a row. */
  method PresentCells(row: seq<Option<string>>) returns (cells: seq<string>)
    ensures cells == Present(row)
  {
    cells := [];
    var i := 0;
    while i < |row|
      invariant 0 <= i <= |row|
      invariant cells == Present(row[..i])
    {
      assert row[..i + 1][..i] == row[..i];
      if row[i].Some? {
        cells := cells + [row[i].value];
      }
      i := i + 1;
    }
    assert row[..|row|] == row;
  }

  // ---- Slide decks ----

  /** A shape contributes its text and a newline when it has non-empty text. */
  function ShapeLine(shape: Option<string>): string {
    match shape
    case Some(t) => if t != "" then t + "\n" else ""
    case None => ""
  }

  /** The number line of the slide numbered `n`. */
  function SlideNumberLine(n: nat): string {
    "Slide " + NatToDecimal(n) + ":\n"
  }

  /** The title line, when the slide has a title placeholder. */
  function TitleLine(title: Option<string>): string {
    match title
    case Some(t) => "Title: " + t + "\n"
    case None => ""
  }

  /** The block of the slide numbered `n`. */
  function SlideText(n: nat, slide: Slide): string {
    SlideNumberLine(n) + TitleLine(slide.title) + ConcatMap(slide.shapes, ShapeLine) + "\n"
  }

  /** The slides' blocks, numbered from 1 in order. */
  function SlidesText(slides: seq<Slide>): (r: string)
    ensures r == "" <==> slides == []
    decreases |slides|
  {
    if slides == [] then ""
    else SlidesText(slides[..|slides| - 1]) + SlideText(|slides|, slides[|slides| - 1])
  }

  /** Adding a slide appends its block, numbered by its position from 1. */
  lemma SlidesTextStep(slides: seq<Slide>, i: nat)
    requires i < |slides|
    ensures SlidesText(slides[..i + 1]) == SlidesText(slides[..i]) + SlideText(i + 1, slides[i])
  {
    assert slides[..i + 1][..i] == slides[..i];
  }

  /** A deck with a slide has text: the block of slide 1 comes first. */
  lemma DeckTextStartsWithFirstSlide(slides: seq<Slide>)
    requires slides != []
    ensures StartsWith(SlidesText(slides), "Slide 1:\n")
  {
    SlidesTextPrefix(slides, 1);
    FirstSlideBlock(slides);
    var whole, first := SlidesText(slides), SlidesText(slides[..1]);
    assert whole[..9] == whole[..|first|][..9];
  }

  lemma FirstSlideBlock(slides: seq<Slide>)
    requires slides != []
    ensures StartsWith(SlidesText(slides[..1]), "Slide 1:\n")
  {
    SlidesTextStep(slides, 0);
    assert slides[..0] == [];
    var block := SlideText(1, slides[0]);
    assert SlidesText(slides[..1]) == block;
    assert SlideNumberLine(1) == "Slide 1:\n" by {
      assert NatToDecimal(1) == "1";
    }
    var rest := TitleLine(slides[0].title) + ConcatMap(slides[0].shapes, ShapeLine) + "\n";
    assert block == SlideNumberLine(1) + rest;
    assert block[..9] == SlideNumberLine(1);
  }

  /** `PowerPointHandler.extract_text` after the basic metadata, reading each
      slide's title placeholder: every slide contributes its numbered block,
      and the slide count is recorded. */
  function PowerPointExtracted(c: Content, meta: Record): (r: (string, Record))
    ensures !c.Deck? ==> r == ("", meta)
    ensures c.Deck? ==> r.1 == meta["slide_count" := Int(|c.slides|)]
    ensures c.Deck? && c.slides != [] ==> StartsWith(r.0, "Slide 1:\n")
  {
    if !c.Deck? then ("", meta)
    else if c.slides == [] then ("", meta["slide_count" := Int(0)])
    else
      DeckTextStartsWithFirstSlide(c.slides);
      (SlidesText(c.slides), meta["slide_count" := Int(|c.slides|)])
  }

  /** `PowerPointHandler.extract_text` as written: the title test reads
      `slide.title`, which python-pptx slides do not have (the title
      placeholder is `slide.shapes.title`), so the first slide raises and the
      handler returns no text with only `slide_count` recorded. */
  function PowerPointExtractedAsWritten(c: Content, meta: Record): (r: (string, Record))
    ensures r.1 == PowerPointExtracted(c, meta).1
    ensures c.Deck? && c.slides != [] ==> r.0 == "" && PowerPointExtracted(c, meta).0 != ""
    ensures !(c.Deck? && c.slides != []) ==> r == PowerPointExtracted(c, meta)
  {
    if c.Deck? && c.slides != [] then ("", meta["slide_count" := Int(|c.slides|)])
    else PowerPointExtracted(c, meta)
  }

  /** A one-slide deck whose only shape says `notes`: the code as written
      returns no text for it, so the file is never indexed, where the
      intended extraction returns its slide block. */
  lemma {:induction false} SlideTitleLosesDeckText(meta: Record)
    ensures var deck := Deck([Slide(None, [Some("notes")])]);
            PowerPointExtractedAsWritten(deck, meta).0 == ""
            && PowerPointExtracted(deck, meta).0 == "Slide 1:\nnotes\n\n"
  {
    var slide := Slide(None, [Some("notes")]);
    assert [slide][..0] == [];
    assert [slide][..1] == [slide];
    assert NatToDecimal(1) == "1";
    assert slide.shapes[..0] == [];
    assert ConcatMap(slide.shapes, ShapeLine) == "notes\n";
    assert SlidesText([slide]) == SlideText(1, slide);
  }

  method ExtractPowerPoint(c: Content, meta: Record) returns (text: string, out: Record)
    ensures (text, out) == PowerPointExtracted(c, meta)
  {
    if !c.Deck? {
      return "", meta;
    }
    out := meta["slide_count" := Int(|c.slides|)];
    text := "";
    var i := 0;
    while i < |c.slides|
      invariant 0 <= i <= |c.slides|
      invariant text == SlidesText(c.slides[..i])
    {
      SlidesTextStep(c.slides, i);
      text := AppendSlide(text, i + 1, c.slides[i]);
      i := i + 1;
    }
    assert c.slides[..|c.slides|] == c.slides;
  }

  /** The block of the slide numbered `n` appended to `text`. */
  method AppendSlide(text: string, n: nat, slide: Slide) returns (r: string)
    ensures r == text + SlideText(n, slide)
  {
    r := text + ("Slide " + NatToDecimal(n) + ":\n");
    if slide.title.Some? {
      r := r + ("Title: " + slide.title.value + "\n");
    } else {
      assert r + TitleLine(slide.title) == r;
    }
    ghost var head := r;
    var k := 0;
    while k < |slide.shapes|
      invariant 0 <= k <= |slide.shapes|
      invariant r == head + ConcatMap(slide.shapes[..k], ShapeLine)
    {
      var shape := slide.shapes[k];
      if shape.Some? && shape.value != "" {
        Grown(head, r, slide.shapes, k, ShapeLine, shape.value + "\n");
        r := r + (shape.value + "\n");
      } else {
        Grown(head, r, slide.shapes, k, ShapeLine, "");
        assert r + "" == r;
      }
      k := k + 1;
    }
    assert slide.shapes[..|slide.shapes|] == slide.shapes;
    r := r + "\n";
    ghost var number, title, shapes := SlideNumberLine(n), TitleLine(slide.title), ConcatMap(slide.shapes, ShapeLine);
    assert head == text + number + title;
    assert r == ((text + number + title) + shapes) + "\n";
    assert r == text + (number + title + shapes + "\n");
  }

  /** A deck's text is the concatenation of its slides' blocks, numbered
      consecutively: the blocks of a longer deck extend those of its prefix. */
  lemma {:induction false} SlidesTextPrefix(slides: seq<Slide>, n: nat)
    requires n <= |slides|
    ensures StartsWith(SlidesText(slides), SlidesText(slides[..n]))
    decreases |slides| - n
  {
    if n < |slides| {
      SlidesTextPrefix(slides, n + 1);
      SlidesTextStep(slides, n);
      var a := SlidesText(slides[..n]);
      var b := SlidesText(slides[..n + 1]);
      assert b[..|a|] == a;
      assert SlidesText(slides)[..|b|] == b;
      assert SlidesText(slides)[..|a|] == b[..|a|];
    } else {
      assert slides[..n] == slides;
    }
  }

  // ---- Dispatch ----

  /** `extract_text` of a handler: the basic metadata, then what the
      handler's parser makes of the file; any parsing error leaves
      `("", basic metadata)`. */
  function ExtractedBy(h: Handler, p: string, size: nat, mtime: real, c: Content): (r: (string, Record))
    ensures BasicMetadata(p, size, mtime).Keys <= r.1.Keys
  {
    var meta := BasicMetadata(p, size, mtime);
    match h
    case TextHandler => TextExtracted(c, meta)
    case PdfHandler => PdfExtracted(c, meta)
    case DocxHandler => DocxExtracted(c, meta)
    case ExcelHandler => ExcelExtracted(c, meta)
    case PowerPointHandler => PowerPointExtracted(c, meta)
  }

  const NotAFile: Record := map["error" := Str("File not found or not a regular file")]

  /** `extract_file_content`: an error record for a missing path or a
      directory; otherwise what the first handler that can handle the file
      extracts, or no text and the basic metadata when none can. */
  function Extracted(fs: FileSystem, libs: Libraries, p: string): (r: (string, Record))
    ensures !fs.IsFile(p) ==> r == ("", NotAFile)
    ensures fs.IsFile(p) ==> BasicMetadata(p, fs.nodes[p].size, fs.nodes[p].mtime).Keys <= r.1.Keys
  {
    if !fs.IsFile(p) then ("", NotAFile)
    else
      var node := fs.nodes[p];
      match Dispatched(libs, Extension(p), node.size)
      case None => ("", BasicMetadata(p, node.size, node.mtime))
      case Some(h) => ExtractedBy(h, p, node.size, node.mtime, node.content)
  }

  /** A file no handler can handle yields no text, only its basic metadata. */
  lemma UnhandledFileHasNoText(fs: FileSystem, libs: Libraries, p: string)
    requires fs.IsFile(p)
    requires forall h :: !CanHandle(h, libs, Extension(p), fs.nodes[p].size)
    ensures Extracted(fs, libs, p) == ("", BasicMetadata(p, fs.nodes[p].size, fs.nodes[p].mtime))
  {
    FirstCapableNone(FileHandlers, libs, Extension(p), fs.nodes[p].size);
  }

  /** No extracted metadata has a `path` key, so it cannot overwrite the
      path the database stores with a document. */
  lemma ExtractedHasNoPathKey(fs: FileSystem, libs: Libraries, p: string)
    ensures "path" !in Extracted(fs, libs, p).1
  {
    if !fs.IsFile(p) {
      assert Extracted(fs, libs, p).1 == NotAFile;
    } else if Dispatched(libs, Extension(p), fs.nodes[p].size).None? {
      UnhandledHasNoPathKey(fs, libs, p);
    } else {
      HandledHasNoPathKey(fs, libs, p);
    }
  }

  lemma UnhandledHasNoPathKey(fs: FileSystem, libs: Libraries, p: string)
    requires fs.IsFile(p) && Dispatched(libs, Extension(p), fs.nodes[p].size).None?
    ensures "path" !in Extracted(fs, libs, p).1
  {
    var node := fs.nodes[p];
    assert Extracted(fs, libs, p).1 == BasicMetadata(p, node.size, node.mtime);
  }

  lemma HandledHasNoPathKey(fs: FileSystem, libs: Libraries, p: string)
    requires fs.IsFile(p) && Dispatched(libs, Extension(p), fs.nodes[p].size).Some?
    ensures "path" !in Extracted(fs, libs, p).1
  {
    var node := fs.nodes[p];
    var h := Dispatched(libs, Extension(p), node.size).value;
    ExtractedByHasNoPathKey(h, p, node.size, node.mtime, node.content);
    assert Extracted(fs, libs, p) == ExtractedBy(h, p, node.size, node.mtime, node.content);
  }

  lemma ExtractedByHasNoPathKey(h: Handler, p: string, size: nat, mtime: real, c: Content)
    ensures "path" !in ExtractedBy(h, p, size, mtime, c).1
  {
    var basic := BasicMetadata(p, size, mtime);
    assert "path" !in basic;
    if h == PdfHandler && c.PdfDoc? {
      assert "path"[1] != "pdf_"[1];
      PdfInfoAddsOnlyPdfKeys(basic["page_count" := Int(|c.pages|)], c.info, "path");
    }
  }

  method ExtractWith(h: Handler, p: string, size: nat, mtime: real, c: Content) returns (text: string, meta: Record)
    ensures (text, meta) == ExtractedBy(h, p, size, mtime, c)
  {
    var basic := BasicMetadata(p, size, mtime);
    match h
    case TextHandler => text, meta := ExtractTextFile(c, basic);
    case PdfHandler => text, meta := ExtractPdf(c, basic);
    case DocxHandler => text, meta := ExtractDocx(c, basic);
    case ExcelHandler => text, meta := ExtractExcel(c, basic);
    case PowerPointHandler => text, meta := ExtractPowerPoint(c, basic);
  }

  method ExtractFileContent(fs: FileSystem, libs: Libraries, p: string) returns (text: string, meta: Record)
    ensures (text, meta) == Extracted(fs, libs, p)
  {
    if !fs.IsFile(p) {
      return "", NotAFile;
    }
    var node := fs.nodes[p];
    var h := FindHandler(libs, Extension(p), node.size);
    if h.Some? {
      text, meta := ExtractWith(h.value, p, node.size, node.mtime, node.content);
    } else {
      text, meta := "", BasicMetadata(p, node.size, node.mtime);
    }
  }

  /** The loop over `get_file_handlers()` that stops at the first handler
      whose `can_handle` accepts the file. */
  method FindHandler(libs: Libraries, ext: string, size: nat) returns (h: Option<Handler>)
    ensures h == Dispatched(libs, ext, size)
  {
    var handlers := FileHandlers;
    for i := 0 to |handlers|
      invariant forall j :: 0 <= j < i ==> !CanHandle(handlers[j], libs, ext, size)
    {
      if CanHandle(handlers[i], libs, ext, size) {
        FirstCapableAt(handlers, libs, ext, size, i);
        return Some(handlers[i]);
      }
    }
    FirstCapableNone(handlers, libs, ext, size);
    return None;
  }

  lemma FirstCapableAt(hs: seq<Handler>, libs: Libraries, ext: string, size: nat, i: nat)
    requires i < |hs| && CanHandle(hs[i], libs, ext, size)
    requires forall j :: 0 <= j < i ==> !CanHandle(hs[j], libs, ext, size)
    ensures FirstCapable(hs, libs, ext, size) == i
  {
  }

  lemma FirstCapableNone(hs: seq<Handler>, libs: Libraries, ext: string, size: nat)
    requires forall j :: 0 <= j < |hs| ==> !CanHandle(hs[j], libs, ext, size)
    ensures FirstCapable(hs, libs, ext, size) == |hs|
  {
  }
}
