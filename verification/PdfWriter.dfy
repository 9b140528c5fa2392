/** The writer of the printable route list: objects, cross-reference table and trailer. */
module PdfWriter {
  import opened Text
  import opened Layout
  import opened PdfText

  const PAGE_LINES: nat := 44
  const LINE_CHARS: nat := 120

  // ---- The fixed parts of the file ------------------------------------------------------

  datatype Syntax = Syntax(
    fileHead: string,
    objectHead: Template,
    objectEnd: string,
    catalog: Template,
    kids: string,
    reference: string,
    count: Template,
    font: string,
    page: Template,
    streamHead: Template,
    streamEnd: string,
    opening: seq<string>,
    small: seq<string>,
    lineStep: string,
    close: string,
    pageLabel: Template,
    tableHead: Template,
    freeEntry: string,
    entryEnd: string,
    trailer: Template,
    start: string,
    fileEnd: string)

  const PDF: Syntax := Syntax(
    "%PDF-1.4\n",
    [Hole, Word(" 0 obj\n")],
    "\nendobj\n",
    [Word("<< /Type /Catalog /Pages "), Hole, Word(" 0 R >>")],
    "<< /Type /Pages /Kids [",
    " 0 R",
    [Word("] /Count "), Hole, Word(" >>")],
    "<< /Type /Font /Subtype /Type1 /BaseFont /Helvetica >>",
    [
      Word("<< /Type /Page /Parent "), Hole, Word(" 0 R "), Word("/MediaBox [0 0 595 842] /Resources << /Font << /F1 "), Hole,
      Word(" 0 R >> >> /Contents "), Hole, Word(" 0 R >>")
    ],
    [Word("<< /Length "), Hole, Word(" >>\nstream\n")],
    "\nendstream",
    ["BT", "/F1 15 Tf", "50 790 Td"],
    ["/F1 9 Tf", "0 -24 Td"],
    "0 -16 Td",
    "ET",
    [Word("Pagina "), Hole, Word(" de "), Hole],
    [Word("xref\n0 "), Hole, Word("\n")],
    "0000000000 65535 f \n",
    " 00000 n \n",
    [Word("trailer\n<< /Size "), Hole, Word(" /Root "), Hole, Word(" 0 R >>\n")],
    "startxref\n",
    "\n%%EOF")

  /** An operator that shows no text. */
  predicate Silent(operator: string) {
    operator != "" && operator[0] != '(' && '\n' !in operator
  }

  predicate AllSilent(operators: seq<string>) {
    forall operator | operator in operators :: Silent(operator)
  }

  // What the writer needs of the fixed parts for its files to be readable.

  predicate TableReadable(x: Syntax) {
    && HasHoles(x.tableHead, 1) && HasHoles(x.objectHead, 1) && HasHoles(x.trailer, 2)
    && |x.freeEntry| == 20 && |x.entryEnd| == 10 && EndsWithoutDigit(x.start)
  }

  predicate TreeReadable(x: Syntax) {
    && HasHoles(x.catalog, 1) && HasHoles(x.count, 1) && GoesOn(x.reference)
    && |x.count| > 0 && x.count[0].Word? && x.count[0].text != "" && x.count[0].text[0] != ' '
  }

  predicate PageReadable(x: Syntax) {
    && HasHoles(x.page, 3) && HasHoles(x.streamHead, 1)
    && AllSilent(x.opening) && AllSilent(x.small) && Silent(x.lineStep) && Silent(x.close)
  }

  /** A text that cannot continue a number. */
  predicate GoesOn(word: string) {
    word != "" && !IsDigit(word[0])
  }

  lemma SilentOperators()
    ensures AllSilent(PDF.opening) && AllSilent(PDF.small) && Silent(PDF.lineStep) && Silent(PDF.close)
  {
  }

  lemma HoleThenWord(word: string)
    requires GoesOn(word)
    ensures HasHoles([Hole, Word(word)], 1)
  {
    var t: Template := [Hole, Word(word)];
    assert t[1..] == [Word(word)] && t[1..][1..] == [];
    assert Holes(t[1..]) == 0;
  }

  lemma OneHole(a: string, b: string)
    requires GoesOn(b)
    ensures HasHoles([Word(a), Hole, Word(b)], 1)
  {
    HoleThenWord(b);
    assert [Word(a), Hole, Word(b)][1..] == [Hole, Word(b)];
  }

  lemma {:induction false} HolesConcat(s: Template, t: Template)
    ensures Holes(s + t) == Holes(s) + Holes(t)
  {
    if s == [] {
      assert s + t == t;
    } else {
      assert (s + t)[1..] == s[1..] + t;
      HolesConcat(s[1..], t);
    }
  }

  lemma HolesAppend(t: Template, n: nat, word: string)
    requires HasHoles(t, n) && GoesOn(word)
    ensures HasHoles(t + [Hole, Word(word)], n + 1)
  {
    HolesConcat(t, [Hole, Word(word)]);
    HoleThenWord(word);
  }

  lemma TwoHoles(a: string, b: string, c: string)
    requires GoesOn(b) && GoesOn(c)
    ensures HasHoles([Word(a), Hole, Word(b), Hole, Word(c)], 2)
  {
    OneHole(a, b);
    HolesAppend([Word(a), Hole, Word(b)], 1, c);
    assert [Word(a), Hole, Word(b)] + [Hole, Word(c)] == [Word(a), Hole, Word(b), Hole, Word(c)];
  }

  lemma PdfTableReadable()
    ensures TableReadable(PDF)
  {
    HoleThenWord(" 0 obj\n");
    OneHole("xref\n0 ", "\n");
    TwoHoles("trailer\n<< /Size ", " /Root ", " 0 R >>\n");
  }

  lemma PdfTreeReadable()
    ensures TreeReadable(PDF)
  {
    OneHole("<< /Type /Catalog /Pages ", " 0 R >>");
    OneHole("] /Count ", " >>");
  }

  lemma PdfPageReadable()
    ensures PageReadable(PDF)
  {
    PageTemplate("<< /Type /Page /Parent ", " 0 R ", "/MediaBox [0 0 595 842] /Resources << /Font << /F1 ", " 0 R >> >> /Contents ", " 0 R >>");
    OneHole("<< /Length ", " >>\nstream\n");
    SilentOperators();
  }

  lemma PageTemplate(a: string, b: string, c: string, d: string, e: string)
    requires GoesOn(b) && GoesOn(d) && GoesOn(e)
    ensures HasHoles([Word(a), Hole, Word(b), Word(c), Hole, Word(d), Hole, Word(e)], 3)
  {
    var start := [Word(a), Hole, Word(b)];
    OneHole(a, b);
    HolesConcat(start, [Word(c)]);
    assert [Word(c)][1..] == [];
    assert HasHoles(start + [Word(c)], 1);
    HolesAppend(start + [Word(c)], 1, d);
    HolesAppend(start + [Word(c)] + [Hole, Word(d)], 2, e);
    assert start + [Word(c)] + [Hole, Word(d)] + [Hole, Word(e)] == [Word(a), Hole, Word(b), Word(c), Hole, Word(d), Hole, Word(e)];
  }

  // ---- Pages -------------------------------------------------------------------------

  /** The lines, 44 to a page; no lines make one empty page. */
  function Pages(lines: seq<string>): (r: seq<seq<string>>)
    ensures |r| > 0
  {
    if |lines| <= PAGE_LINES then [lines] else [lines[..PAGE_LINES]] + Pages(lines[PAGE_LINES..])
  }

  lemma {:induction false} FlattenCons<T>(first: seq<T>, others: seq<seq<T>>)
    ensures Flatten([first] + others) == first + Flatten(others)
  {
    var all := [first] + others;
    if others == [] {
      assert all[..0] == others;
    } else {
      FlattenCons(first, others[..|others| - 1]);
      assert all[..|all| - 1] == [first] + others[..|others| - 1];
    }
  }

  /** The pages carry all the lines, in order, on max(1, ceil(n / 44)) pages. */
  lemma {:induction false} PagesCarryLines(lines: seq<string>)
    ensures Flatten(Pages(lines)) == lines
    ensures |Pages(lines)| == if lines == [] then 1 else (|lines| + PAGE_LINES - 1) / PAGE_LINES
    ensures forall k | 0 <= k < |Pages(lines)| :: |Pages(lines)[k]| <= PAGE_LINES
    ensures forall k | 0 <= k < |Pages(lines)| - 1 :: |Pages(lines)[k]| == PAGE_LINES
  {
    if |lines| <= PAGE_LINES {
      assert [lines][..0] == [];
    } else {
      PagesCarryLines(lines[PAGE_LINES..]);
      FlattenCons(lines[..PAGE_LINES], Pages(lines[PAGE_LINES..]));
    }
  }

  // ---- Content ------------------------------------------------------------------------

  datatype Report = Report(nfkd: string -> string, title: string, pages: seq<seq<string>>)

  function Show(nfkd: string -> string, text: string): string {
    "(" + EscapePdf(nfkd, text) + ") Tj"
  }

  function Clipped(line: string): string {
    if |line| <= LINE_CHARS then line else line[..LINE_CHARS]
  }

  function LineOperators(x: Syntax, nfkd: string -> string, lines: seq<string>): seq<string> {
    if lines == [] then [] else [Show(nfkd, Clipped(lines[0])), x.lineStep] + LineOperators(x, nfkd, lines[1..])
  }

  function PageLabel(x: Syntax, page: nat, count: nat): string {
    Fill(x.pageLabel, [page, count])
  }

  function Operators(x: Syntax, d: Report, k: nat): (r: seq<string>)
    requires k < |d.pages|
    ensures |r| > 0
  {
    x.opening + [Show(d.nfkd, d.title)] + x.small
    + LineOperators(x, d.nfkd, d.pages[k])
    + [Show(d.nfkd, PageLabel(x, k + 1, |d.pages|)), x.close]
  }

  function Content(x: Syntax, d: Report, k: nat): string
    requires k < |d.pages|
  {
    Join(Operators(x, d, k), '\n')
  }

  // ---- Objects --------------------------------------------------------------------------

  function StreamBody(x: Syntax, content: string): string {
    Fill(x.streamHead, [|content|]) + content + x.streamEnd
  }

  function References(x: Syntax, ids: seq<nat>): string {
    if ids == [] then ""
    else if |ids| == 1 then Decimal(ids[0]) + x.reference
    else Decimal(ids[0]) + x.reference + " " + References(x, ids[1..])
  }

  function PagesBody(x: Syntax, ids: seq<nat>): string {
    x.kids + References(x, ids) + Fill(x.count, [|ids|])
  }

  function PageIds(n: nat): (r: seq<nat>)
    ensures |r| == n
  {
    seq(n, k requires 0 <= k < n => 5 + 2 * k)
  }

  /** One of each, by turns. */
  function Alternate(streams: nat -> string, pages: nat -> string, n: nat): (r: seq<string>)
    ensures |r| == 2 * n
  {
    if n == 0 then [] else Alternate(streams, pages, n - 1) + [streams(n - 1), pages(n - 1)]
  }

  lemma {:induction false} AlternateAt(streams: nat -> string, pages: nat -> string, n: nat, k: nat)
    requires k < n
    ensures Alternate(streams, pages, n)[2 * k] == streams(k) && Alternate(streams, pages, n)[2 * k + 1] == pages(k)
  {
    if k < n - 1 {
      AlternateAt(streams, pages, n - 1, k);
    }
  }

  function Streams(x: Syntax, d: Report): nat -> string {
    (k: nat) => if k < |d.pages| then StreamBody(x, Content(x, d, k)) else ""
  }

  /** The content of a page is the object before it. */
  function PageBodies(x: Syntax): nat -> string {
    (k: nat) => Fill(x.page, [2, 3, 4 + 2 * k])
  }

  /** Object 1 is the catalog, 2 the page tree, 3 the font; then the objects of the pages. */
  function Objects(x: Syntax, d: Report): (r: seq<string>)
    ensures |r| == 3 + 2 * |d.pages|
  {
    [Fill(x.catalog, [2]), PagesBody(x, PageIds(|d.pages|)), x.font] + Alternate(Streams(x, d), PageBodies(x), |d.pages|)
  }

  // ---- The file --------------------------------------------------------------------------

  function ObjectText(x: Syntax, id: nat, body: string): string {
    Fill(x.objectHead, [id]) + body + x.objectEnd
  }

  function ObjectPart(x: Syntax, objects: seq<string>): nat -> string {
    (i: nat) => if i < |objects| then ObjectText(x, i + 1, objects[i]) else ""
  }

  function Offset(x: Syntax, objects: seq<string>, i: nat): nat {
    |x.fileHead| + |Concat(ObjectPart(x, objects), i)|
  }

  function EntryText(x: Syntax, offset: nat): string {
    Pad(Decimal(offset), 10) + x.entryEnd
  }

  function EntryPart(x: Syntax, objects: seq<string>): nat -> string {
    (i: nat) => EntryText(x, Offset(x, objects, i))
  }

  /** Header and objects; the table starts where they end. */
  function FileBody(x: Syntax, objects: seq<string>): string {
    x.fileHead + Concat(ObjectPart(x, objects), |objects|)
  }

  function Table(x: Syntax, objects: seq<string>): string {
    Fill(x.tableHead, [|objects| + 1]) + (x.freeEntry + Concat(EntryPart(x, objects), |objects|))
  }

  function Tail(x: Syntax, objects: seq<string>): string {
    Fill(x.trailer, [|objects| + 1, 1]) + (x.start + Decimal(|FileBody(x, objects)|) + x.fileEnd)
  }

  function File(x: Syntax, objects: seq<string>): string {
    FileBody(x, objects) + (Table(x, objects) + Tail(x, objects))
  }

  // ---- The writer ---------------------------------------------------------------------------

  method BasicPdf(nfkd: string -> string, title: string, lines: seq<string>) returns (file: string)
    ensures file == File(PDF, Objects(PDF, Report(nfkd, title, Pages(lines))))
  {
    var pages := Paginate(lines);
    var objects := BuildObjects(PDF, Report(nfkd, title, pages));
    file := LayOut(PDF, objects);
  }

  method Paginate(lines: seq<string>) returns (pages: seq<seq<string>>)
    ensures pages == Pages(lines)
  {
    pages := [];
    var index := 0;
    while index < |lines|
      invariant index < |lines| ==> pages + Pages(lines[index..]) == Pages(lines)
      invariant index >= |lines| ==> pages == if lines == [] then [] else Pages(lines)
    {
      var end := if index + PAGE_LINES < |lines| then index + PAGE_LINES else |lines|;
      ghost var rest := lines[index..];
      assert lines[index..end] == rest[..end - index] && lines[end..] == rest[end - index..];
      assert |rest| <= PAGE_LINES ==> rest[..end - index] == rest;
      pages := pages + [lines[index..end]];
      index := index + PAGE_LINES;
    }
    if |pages| == 0 {
      pages := [[]];
    }
  }

  /** The catalog and the page tree are filled in once the pages are known. */
  method BuildObjects(x: Syntax, d: Report) returns (objects: seq<string>)
    ensures objects == Objects(x, d)
  {
    var pageIds: seq<nat>;
    objects, pageIds := AddPages(["", "", x.font], Streams(x, d), PageBodies(x), |d.pages|);
    objects := objects[0 := Fill(x.catalog, [2])];
    objects := objects[1 := PagesBody(x, pageIds)];
  }

  method AddPages(first: seq<string>, streams: nat -> string, pages: nat -> string, n: nat) returns (objects: seq<string>, pageIds: seq<nat>)
    requires |first| == 3
    ensures objects == first + Alternate(streams, pages, n) && pageIds == PageIds(n)
  {
    objects, pageIds := first, [];
    for pageIndex := 0 to n
      invariant objects == first + Alternate(streams, pages, pageIndex)
      invariant pageIds == PageIds(pageIndex)
    {
      objects := objects + [streams(pageIndex), pages(pageIndex)];
      pageIds := pageIds + [|objects|];
    }
  }

  /** The parts behind the head, and where each of them starts. */
  method Append(head: string, part: nat -> string, n: nat) returns (body: string, offsets: seq<nat>)
    ensures body == head + Concat(part, n)
    ensures |offsets| == n && forall i | 0 <= i < n :: offsets[i] == |head| + |Concat(part, i)|
  {
    body, offsets := head, [];
    for index := 0 to n
      invariant body == head + Concat(part, index)
      invariant |offsets| == index && forall i | 0 <= i < index :: offsets[i] == |head| + |Concat(part, i)|
    {
      offsets := offsets + [|body|];
      body := body + part(index);
    }
  }

  method Entries(x: Syntax, objects: seq<string>, offsets: seq<nat>) returns (entries: string)
    requires |offsets| == |objects| && forall i | 0 <= i < |objects| :: offsets[i] == Offset(x, objects, i)
    ensures entries == Concat(EntryPart(x, objects), |objects|)
  {
    entries := "";
    for index := 0 to |objects|
      invariant entries == Concat(EntryPart(x, objects), index)
    {
      entries := entries + EntryText(x, offsets[index]);
    }
  }

  method LayOut(x: Syntax, objects: seq<string>) returns (file: string)
    ensures file == File(x, objects)
  {
    var body, offsets := Append(x.fileHead, ObjectPart(x, objects), |objects|);
    var xref := |body|;
    var entries := Entries(x, objects, offsets);
    var table := Fill(x.tableHead, [|objects| + 1]) + (x.freeEntry + entries);
    var tail := Fill(x.trailer, [|objects| + 1, 1]) + (x.start + Decimal(xref) + x.fileEnd);
    file := body + (table + tail);
  }
}
