/** The file system as the indexer sees it: canonical absolute POSIX paths,
    the two extension functions the Python code uses (`os.path.splitext` in
    the monitor, `pathlib.PurePath.suffix` in the extractors), the
    component-wise containment test behind `Path.relative_to`, and an
    abstract file tree in which each file carries what the document parsers
    make of its bytes. */
module Files {
  import opened Common

  /** What a parser reads out of a file's bytes. */
  datatype Content =
      /** A file read as text: the result of decoding it as UTF-8, Latin-1
          and CP-1252 (`None` where that codec raises). Latin-1 decodes every
          byte string, so for a real file `latin1` is never `None` and the
          CP-1252 attempt is never reached; the model keeps all three
          attempts so that the order of the loop is stated as written. */
    | TextBytes(utf8: Option<string>, latin1: Option<string>, cp1252: Option<string>)
      /** A PDF: the text of each page and the document-information entries. */
    | PdfDoc(pages: seq<string>, info: seq<(string, Value)>)
      /** A Word document: three core properties, the paragraphs, and each
          table as rows of cell texts. */
    | DocxDoc(author: Value, created: Value, title: Value,
              paragraphs: seq<string>, tables: seq<seq<seq<string>>>)
      /** A workbook: its sheets in order. */
    | Workbook(sheets: seq<Sheet>)
      /** A slide deck: its slides in order. */
    | Deck(slides: seq<Slide>)
      /** Bytes that opening or parsing fails on. */
    | Unreadable

  /** A sheet: its name and its rows; a cell is `None` or `str(cell)`. */
  datatype Sheet = Sheet(name: string, rows: seq<seq<Option<string>>>)

  /** A slide: the title placeholder (if any, with its text) and, per shape,
      its text (`None` for a shape without a text frame). */
  datatype Slide = Slide(title: Option<string>, shapes: seq<Option<string>>)

  datatype Node = File(size: nat, mtime: real, content: Content) | Directory

  /** The tree, keyed by canonical path, and the order in which a directory
      walk reports its entries. */
  datatype FileSystem = FileSystem(nodes: map<string, Node>, listing: seq<string>) {
    predicate Exists(p: string) { p in nodes }
    predicate IsFile(p: string) { p in nodes && nodes[p].File? }
  }

  /** Drops the empty fields left by a leading, doubled or trailing `/`. */
  function NonEmpty(parts: seq<string>): (r: seq<string>)
    ensures forall i :: 0 <= i < |r| ==> r[i] != ""
    ensures |r| <= |parts|
  {
    if parts == [] then []
    else if parts[0] == "" then NonEmpty(parts[1..])
    else [parts[0]] + NonEmpty(parts[1..])
  }

  lemma {:induction false} NonEmptyAppend(a: seq<string>, b: seq<string>)
    ensures NonEmpty(a + b) == NonEmpty(a) + NonEmpty(b)
  {
    if a == [] {
      assert a + b == b;
    } else {
      assert (a + b)[1..] == a[1..] + b;
      NonEmptyAppend(a[1..], b);
    }
  }

  /** `Path(p).parts` after the root, for an absolute path. */
  function Components(p: string): seq<string> {
    NonEmpty(Split(p, '/'))
  }

  predicate IsPrefix<T(==)>(a: seq<T>, b: seq<T>) {
    |a| <= |b| && b[..|a|] == a
  }

  /** `Path(p).relative_to(root)` succeeds: `root`'s components begin `p`'s. */
  predicate IsUnder(p: string, root: string) {
    IsPrefix(Components(root), Components(p))
  }

  /** `p` lies in a sub-directory of `root`, as a directory walk reaches it. */
  predicate IsStrictlyUnder(p: string, root: string) {
    IsUnder(p, root) && |Components(root)| < |Components(p)|
  }

  lemma {:induction false} SplitJoinedAt(a: string, b: string, c: char)
    ensures Split(a + [c] + b, c) == Split(a, c) + Split(b, c)
    decreases |a|
  {
    var s := a + [c] + b;
    if a == [] {
      assert s[0] == c && s[1..] == b;
      SplitCons(s, c);
    } else {
      assert s[0] == a[0] && s[1..] == a[1..] + [c] + b;
      SplitJoinedAt(a[1..], b, c);
      SplitCons(s, c);
      SplitCons(a, c);
      SplitConsAppend(a[0] == c, a[0], Split(a[1..], c), Split(b, c));
    }
  }

  /** The step of `Split` on a leading character commutes with appending
      further fields. */
  lemma SplitConsAppend(sep: bool, x: char, tail: seq<string>, rb: seq<string>)
    requires |tail| >= 1
    ensures (if sep then [""] + (tail + rb) else [[x] + (tail + rb)[0]] + (tail + rb)[1..])
         == (if sep then [""] + tail else [[x] + tail[0]] + tail[1..]) + rb
  {
    assert (tail + rb)[0] == tail[0];
    assert (tail + rb)[1..] == tail[1..] + rb;
  }

  /** `os.path.join(root, name)` names an entry of `root`, one level down. */
  lemma ChildIsStrictlyUnder(root: string, name: string)
    requires name != "" && '/' !in name
    ensures Components(root + "/" + name) == Components(root) + [name]
    ensures IsStrictlyUnder(root + "/" + name, root)
  {
    SplitJoinedAt(root, name, '/');
    assert root + "/" + name == root + ['/'] + name;
    NonEmptyAppend(Split(root, '/'), Split(name, '/'));
    assert Split(name, '/') == [name] by {
      SplitFieldsFree(name, '/');
      JoinSplit(name, '/');
      SplitOfFree(name, '/');
    }
    assert NonEmpty([name]) == [name];
  }

  lemma {:induction false} SplitOfFree(s: string, c: char)
    requires c !in s
    ensures Split(s, c) == [s]
    decreases |s|
  {
    if s != [] {
      SplitOfFree(s[1..], c);
      assert [s[0]] + s[1..] == s;
    }
  }

  /** Containment is by whole components: a sibling directory whose name
      merely extends the root's last component (`docs2` beside `docs`) is not
      under the root, although its path string starts with the root's. */
  lemma SiblingWithLongerNameIsNotUnder(base: string, dir: string, more: string, file: string)
    requires dir != "" && '/' !in dir
    requires more != "" && '/' !in more
    requires file != "" && '/' !in file
    ensures StartsWith(base + "/" + (dir + more) + "/" + file, base + "/" + dir)
    ensures !IsUnder(base + "/" + (dir + more) + "/" + file, base + "/" + dir)
  {
    var root := base + "/" + dir;
    var sibling := base + "/" + (dir + more);
    var p := sibling + "/" + file;
    assert p == root + more + "/" + file;
    assert p[..|root|] == root;
    ChildIsStrictlyUnder(base, dir);
    ChildIsStrictlyUnder(base, dir + more);
    ChildIsStrictlyUnder(sibling, file);
    var n := |Components(base)|;
    assert Components(p) == Components(base) + [dir + more] + [file];
    assert Components(root) == Components(base) + [dir];
    assert Components(p)[n] == dir + more;
    assert |dir + more| != |dir|;
  }

  /** `os.path.splitext(p)[1]` on POSIX: the text from the last dot of the
      final component, unless that component is only dots before it. */
  function SplitExt(p: string): string {
    var sep := RFind(p, '/');
    var dot := RFind(p, '.');
    if dot > sep && exists j :: sep + 1 <= j < dot && p[j] != '.' then p[dot..] else ""
  }

  /** `PurePath(p).name` of a path without a trailing slash. */
  function Name(p: string): string {
    p[RFind(p, '/') + 1..]
  }

  /** `PurePath(p).suffix` (Python 3.12): from the last dot of the name,
      provided that dot is neither the name's first nor its last character. */
  function Suffix(p: string): string {
    var name := Name(p);
    var i := RFind(name, '.');
    if 0 < i < |name| - 1 then name[i..] else ""
  }

  lemma {:induction false} RFindTail(s: string, c: char, k: nat)
    requires k <= |s|
    ensures RFind(s[k..], c) == if RFind(s, c) >= k then RFind(s, c) - k else -1
    decreases |s|
  {
    if |s| > k && s[|s| - 1] != c {
      assert s[k..][..|s[k..]| - 1] == s[..|s| - 1][k..];
      RFindTail(s[..|s| - 1], c, k);
    } else if |s| == k {
      assert s[k..] == [];
    }
  }

  /** For a name that neither starts nor ends with a dot, the monitor's and
      the extractors' notions of "extension" agree. */
  lemma SuffixAgreesWithSplitExt(p: string)
    requires Name(p) != ""
    requires Name(p)[0] != '.' && Name(p)[|Name(p)| - 1] != '.'
    ensures Suffix(p) == SplitExt(p)
  {
    var sep := RFind(p, '/');
    var name := p[sep + 1..];
    assert Name(p) == name;
    RFindTail(p, '.', sep + 1);
    var i := RFind(name, '.');
    var dot := RFind(p, '.');
    if dot > sep {
      assert i == dot - sep - 1;
      assert name[0] == p[sep + 1];
      assert i != 0;
      assert sep + 1 < dot && p[sep + 1] != '.';
      assert SplitExt(p) == p[dot..];
      assert name[i..] == p[dot..];
    } else {
      assert i == -1;
    }
  }

  /** The two disagree on a name ending in a dot. */
  lemma TrailingDotExtensionsDiffer()
    ensures SplitExt("/d/notes.") == "." && Suffix("/d/notes.") == ""
  {
    var p := "/d/notes.";
    assert p[8] == '.';
    assert RFind(p, '.') == 8;
    assert p[2] == '/' && forall j :: 3 <= j < 9 ==> p[j] != '/';
    assert RFind(p, '/') == 2;
    assert p[3] != '.';
    assert Name(p) == "notes.";
    assert "notes."[5] == '.';
    assert RFind("notes.", '.') == 5;
  }

  /** The files a recursive walk of `root` reports, in listing order. */
  function Walk(fs: FileSystem, root: string, listing: seq<string>): (r: seq<string>)
    ensures forall i :: 0 <= i < |r| ==> fs.IsFile(r[i]) && IsStrictlyUnder(r[i], root) && r[i] in listing
  {
    if listing == [] then []
    else
      var rest := Walk(fs, root, listing[1..]);
      if fs.IsFile(listing[0]) && IsStrictlyUnder(listing[0], root) then [listing[0]] + rest else rest
  }

  lemma {:induction false} WalkComplete(fs: FileSystem, root: string, listing: seq<string>, p: string)
    requires p in listing && fs.IsFile(p) && IsStrictlyUnder(p, root)
    ensures p in Walk(fs, root, listing)
  {
    if listing[0] != p {
      WalkComplete(fs, root, listing[1..], p);
    }
  }
}
