/**
  A reader of such files (ISO 32000-1, sections 7.5.4 and 7.5.5): from the end of the
  file to the cross-reference table, and through it to every object. It finds the
  pages and the texts that the writer put in.
 */
module PdfReader {
  import opened Wrappers
  import opened Text
  import opened Layout
  import opened PdfText
  import opened PdfWriter

  const ENTRY_WIDTH: nat := 20

  // ---- The reader -----------------------------------------------------------------

  /** The number of entries of the table, and the text from its first entry on. */
  function TableOf(x: Syntax, file: string): Option<(nat, string)> {
    match LastNumber(file, x.start, x.fileEnd)
    case None => None
    case Some(at) =>
      if at > |file| then None
      else
        match Match(x.tableHead, file[at..])
        case None => None
        case Some(found) => if |found.0| != 1 then None else Some((found.0[0], found.1))
  }

  /** The offset in entry `id` of the table. */
  function EntryOffset(x: Syntax, entries: string, id: nat): Option<nat> {
    if |entries| < ENTRY_WIDTH * (id + 1) then None
    else
      var entry := entries[ENTRY_WIDTH * id..ENTRY_WIDTH * (id + 1)];
      if |x.entryEnd| == 10 && Digits(entry[..10]) && entry[10..] == x.entryEnd then Some(Value(entry[..10])) else None
  }

  /** The text of an object, from its body on. */
  function ObjectIn(x: Syntax, file: string, id: nat): Option<string> {
    match TableOf(x, file)
    case None => None
    case Some(table) =>
      if id >= table.0 then None
      else
        match EntryOffset(x, table.1, id)
        case None => None
        case Some(at) => if at > |file| then None else NumberedObject(x, file[at..], id)
  }

  function NumberedObject(x: Syntax, s: string, id: nat): Option<string> {
    match Match(x.objectHead, s)
    case None => None
    case Some(found) => if found.0 == [id] then Some(found.1) else None
  }

  function RootOf(x: Syntax, file: string): Option<nat> {
    match TableOf(x, file)
    case None => None
    case Some(table) =>
      if |table.1| < ENTRY_WIDTH * table.0 then None
      else
        match Match(x.trailer, table.1[ENTRY_WIDTH * table.0..])
        case None => None
        case Some(found) => if |found.0| == 2 && found.0[0] == table.0 then Some(found.0[1]) else None
  }

  /** Indirect references separated by spaces. */
  function ReadReferences(x: Syntax, s: string): Option<(seq<nat>, string)>
    decreases |s|
  {
    match Number(s)
    case None => None
    case Some(found) =>
      match Expect(found.1, x.reference)
      case None => None
      case Some(rest) =>
        if rest != "" && rest[0] == ' ' then
          match ReadReferences(x, rest[1..])
          case None => None
          case Some(others) => Some(([found.0] + others.0, others.1))
        else Some(([found.0], rest))
  }

  /** The pages of the page tree; their number must be the one that the tree declares. */
  function ReadKids(x: Syntax, s: string): Option<seq<nat>> {
    match Expect(s, x.kids)
    case None => None
    case Some(list) =>
      match ReadReferences(x, list)
      case None => None
      case Some(kids) =>
        match Match(x.count, kids.1)
        case None => None
        case Some(count) => if count.0 == [|kids.0|] then Some(kids.0) else None
  }

  /** As many characters as the stream declares; the stream must end right after them. */
  function ReadStream(x: Syntax, s: string): Option<string> {
    match Match(x.streamHead, s)
    case None => None
    case Some(found) =>
      if |found.0| == 1 && found.0[0] <= |found.1| && x.streamEnd <= found.1[found.0[0]..] then Some(found.1[..found.0[0]]) else None
  }

  /** The texts that the operators show. */
  function Texts(operators: seq<string>): seq<string> {
    if operators == [] then [] else TextOf(operators[0]) + Texts(operators[1..])
  }

  function TextOf(operator: string): seq<string> {
    if operator == "" || operator[0] != '(' then []
    else
      match ReadLiteral(operator[1..], 0)
      case None => []
      case Some(found) => if found.1 == " Tj" then [found.0] else []
  }

  function ReadPage(x: Syntax, file: string, tree: nat, id: nat): Option<seq<string>> {
    match ObjectIn(x, file, id)
    case None => None
    case Some(s) =>
      match Match(x.page, s)
      case None => None
      case Some(found) =>
        if |found.0| != 3 || found.0[0] != tree then None
        else
          match ObjectIn(x, file, found.0[2])
          case None => None
          case Some(stream) =>
            match ReadStream(x, stream)
            case None => None
            case Some(content) => Some(Texts(Split(content, {'\n'})))
  }

  function ReadPages(x: Syntax, file: string, tree: nat, kids: seq<nat>): Option<seq<seq<string>>> {
    if kids == [] then Some([])
    else
      var others := ReadPages(x, file, tree, kids[..|kids| - 1]);
      var last := ReadPage(x, file, tree, kids[|kids| - 1]);
      if others.Some? && last.Some? then Some(others.value + [last.value]) else None
  }

  /** The texts shown on each page, found from the end of the file through the table. */
  function ReadReport(x: Syntax, file: string): Option<seq<seq<string>>> {
    match RootOf(x, file)
    case None => None
    case Some(root) =>
      match ObjectIn(x, file, root)
      case None => None
      case Some(s) =>
        match Match(x.catalog, s)
        case None => None
        case Some(found) => if |found.0| != 1 then None else ReadTree(x, file, found.0[0])
  }

  function ReadTree(x: Syntax, file: string, tree: nat): Option<seq<seq<string>>> {
    match ObjectIn(x, file, tree)
    case None => None
    case Some(s) =>
      match ReadKids(x, s)
      case None => None
      case Some(kids) => ReadPages(x, file, tree, kids)
  }

  // ---- The table --------------------------------------------------------------------

  /** An entry has its fixed width exactly when its offset has at most ten digits. */
  lemma EntryWidth(x: Syntax, offset: nat)
    requires |x.entryEnd| == 10
    ensures |EntryText(x, offset)| == ENTRY_WIDTH <==> offset < Power10(10)
  {
    DigitCount(offset, 10);
  }

  lemma EntryReads(x: Syntax, offset: nat)
    requires |x.entryEnd| == 10
    requires offset < Power10(10)
    ensures var e := EntryText(x, offset); Digits(e[..10]) && e[10..] == x.entryEnd && Value(e[..10]) == offset
  {
    DigitCount(offset, 10);
    ValueOfPad(Decimal(offset), 10);
    ValueOfDecimal(offset);
    assert EntryText(x, offset)[..10] == Pad(Decimal(offset), 10);
  }

  lemma {:induction false} EvenParts(part: nat -> string, n: nat)
    requires forall i: nat | i < n :: |part(i)| == ENTRY_WIDTH
    ensures |Concat(part, n)| == ENTRY_WIDTH * n
  {
    if n > 0 {
      EvenParts(part, n - 1);
    }
  }

  /** Entry `i` of a table of parts of the same width. */
  lemma EvenPartAt(part: nat -> string, i: nat, n: nat, first: string, rest: string)
    requires i < n && |first| == ENTRY_WIDTH && forall i: nat | i < n :: |part(i)| == ENTRY_WIDTH
    ensures var s := first + Concat(part, n) + rest;
            && |s| >= ENTRY_WIDTH * (i + 2) && s[ENTRY_WIDTH * (i + 1)..ENTRY_WIDTH * (i + 2)] == part(i)
  {
    EvenParts(part, i);
    EvenParts(part, n);
    PartAt(part, i, n, first, rest, first + Concat(part, n) + rest);
  }

  /** Offsets that all fit their entries. */
  predicate OffsetsFit(x: Syntax, objects: seq<string>) {
    |FileBody(x, objects)| < Power10(10)
  }

  lemma OffsetFits(x: Syntax, objects: seq<string>, i: nat)
    requires i < |objects| && OffsetsFit(x, objects)
    ensures Offset(x, objects, i) < Power10(10)
  {
    ConcatPrefix(ObjectPart(x, objects), i, |objects|);
  }

  function TableText(x: Syntax, objects: seq<string>): string {
    x.freeEntry + Concat(EntryPart(x, objects), |objects|)
  }

  lemma EntryFound(x: Syntax, objects: seq<string>, i: nat, rest: string)
    requires TableReadable(x)
    requires i < |objects| && OffsetsFit(x, objects)
    ensures EntryOffset(x, TableText(x, objects) + rest, i + 1) == Some(Offset(x, objects, i))
  {
    var part := EntryPart(x, objects);
    forall i: nat | i < |objects|
      ensures |part(i)| == ENTRY_WIDTH
    {
      OffsetFits(x, objects, i);
      EntryWidth(x, Offset(x, objects, i));
    }
    EvenPartAt(part, i, |objects|, x.freeEntry, rest);
    OffsetFits(x, objects, i);
    EntryReads(x, Offset(x, objects, i));
  }

  lemma TableReads(x: Syntax, file: string, front: string, entries: string, n: nat, tail: string)
    requires HasHoles(x.tableHead, 1)
    requires file == front + (Fill(x.tableHead, [n]) + entries) + tail
    requires LastNumber(file, x.start, x.fileEnd) == Some(|front|)
    ensures TableOf(x, file) == Some((n, entries + tail))
  {
    assert file[|front|..] == Fill(x.tableHead, [n]) + (entries + tail);
    Matches(x.tableHead, [n], entries + tail);
  }

  lemma StartFound(x: Syntax, front: string, trailer: string, n: nat, file: string)
    requires EndsWithoutDigit(x.start)
    requires file == front + (trailer + (x.start + Decimal(n) + x.fileEnd))
    ensures LastNumber(file, x.start, x.fileEnd) == Some(n)
  {
    ReadsLastNumber(front + trailer, x.start, n, x.fileEnd);
    Regrouped(front, trailer, x.start, Decimal(n), x.fileEnd);
  }

  lemma Regrouped(a: string, b: string, c: string, d: string, e: string)
    ensures a + b + c + d + e == a + (b + (c + d + e))
  {
  }

  lemma Assoc(a: string, b: string, c: string)
    ensures a + (b + c) == a + b + c
  {
  }

  /** `startxref` leads to the table. */
  lemma TableFound(x: Syntax, objects: seq<string>)
    requires TableReadable(x)
    ensures TableOf(x, File(x, objects)) == Some((|objects| + 1, TableText(x, objects) + Tail(x, objects)))
  {
    var body := FileBody(x, objects);
    Assoc(body, Table(x, objects), Tail(x, objects));
    StartFound(x, body + Table(x, objects), Fill(x.trailer, [|objects| + 1, 1]), |body|, File(x, objects));
    TableReads(x, File(x, objects), body, TableText(x, objects), |objects| + 1, Tail(x, objects));
  }

  lemma TableLength(x: Syntax, objects: seq<string>)
    requires TableReadable(x)
    requires OffsetsFit(x, objects)
    ensures |TableText(x, objects)| == ENTRY_WIDTH * (|objects| + 1)
  {
    forall i: nat | i < |objects|
      ensures |EntryPart(x, objects)(i)| == ENTRY_WIDTH
    {
      OffsetFits(x, objects, i);
      EntryWidth(x, Offset(x, objects, i));
    }
    EvenParts(EntryPart(x, objects), |objects|);
  }

  /** Behind the table, the trailer names the root object. */
  lemma RootFound(x: Syntax, objects: seq<string>)
    requires TableReadable(x)
    requires OffsetsFit(x, objects)
    ensures RootOf(x, File(x, objects)) == Some(1)
  {
    TableFound(x, objects);
    TableLength(x, objects);
    var table, n := TableText(x, objects), |objects| + 1;
    assert (table + Tail(x, objects))[ENTRY_WIDTH * n..] == Tail(x, objects);
    Matches(x.trailer, [n, 1], x.start + Decimal(|FileBody(x, objects)|) + x.fileEnd);
  }

  /** The file has an object with this number and body. */
  predicate Has(x: Syntax, file: string, id: nat, body: string) {
    var r := ObjectIn(x, file, id);
    r.Some? && body + x.objectEnd <= r.value
  }

  predicate Numbered(x: Syntax, s: string, id: nat, body: string) {
    var r := NumberedObject(x, s, id);
    r.Some? && body + x.objectEnd <= r.value
  }

  lemma NumberedReads(x: Syntax, file: string, at: nat, id: nat, body: string, text: string)
    requires HasHoles(x.objectHead, 1)
    requires at + |text| <= |file| && file[at..at + |text|] == text && text == ObjectText(x, id, body)
    ensures Numbered(x, file[at..], id, body)
  {
    var rest := body + x.objectEnd + file[at + |text|..];
    assert file[at..] == file[at..at + |text|] + file[at + |text|..];
    assert file[at..] == Fill(x.objectHead, [id]) + rest;
    Matches(x.objectHead, [id], rest);
  }

  lemma ObjectPlaced(x: Syntax, part: nat -> string, i: nat, n: nat, head: string, rest: string, file: string, body: string, at: nat)
    requires HasHoles(x.objectHead, 1)
    requires i < n && file == head + Concat(part, n) + rest && part(i) == ObjectText(x, i + 1, body)
    requires at == |head| + |Concat(part, i)|
    ensures at <= |file| && Numbered(x, file[at..], i + 1, body)
  {
    PartAt(part, i, n, head, rest, file);
    NumberedReads(x, file, at, i + 1, body, part(i));
  }

  lemma EntryLeads(x: Syntax, file: string, n: nat, entries: string, at: nat, id: nat, body: string)
    requires TableOf(x, file) == Some((n, entries)) && id < n
    requires EntryOffset(x, entries, id) == Some(at) && at <= |file| && Numbered(x, file[at..], id, body)
    ensures Has(x, file, id, body)
  {
  }

  lemma PartPlaced(x: Syntax, objects: seq<string>, i: nat, rest: string, file: string)
    requires HasHoles(x.objectHead, 1)
    requires i < |objects| && file == FileBody(x, objects) + rest
    ensures Offset(x, objects, i) <= |file| && Numbered(x, file[Offset(x, objects, i)..], i + 1, objects[i])
  {
    ObjectPlaced(x, ObjectPart(x, objects), i, |objects|, x.fileHead, rest, file, objects[i], Offset(x, objects, i));
  }

  /** Every entry of the table leads to the object with its number. */
  lemma ObjectFound(x: Syntax, objects: seq<string>, i: nat)
    requires TableReadable(x)
    requires i < |objects| && OffsetsFit(x, objects)
    ensures Has(x, File(x, objects), i + 1, objects[i])
  {
    TableFound(x, objects);
    EntryFound(x, objects, i, Tail(x, objects));
    PartPlaced(x, objects, i, Table(x, objects) + Tail(x, objects), File(x, objects));
    EntryLeads(x, File(x, objects), |objects| + 1, TableText(x, objects) + Tail(x, objects), Offset(x, objects, i), i + 1, objects[i]);
  }

  // ---- The objects --------------------------------------------------------------------

  lemma ReferenceRead(x: Syntax, id: nat, rest: string)
    requires GoesOn(x.reference)
    ensures var r := Number(Decimal(id) + (x.reference + rest));
            r == Some((id, x.reference + rest)) && Expect(x.reference + rest, x.reference) == Some(rest)
  {
    ReadsNumber(id, x.reference + rest);
    assert (x.reference + rest)[|x.reference|..] == rest;
  }

  lemma LastReference(x: Syntax, id: nat, rest: string)
    requires GoesOn(x.reference)
    requires (rest == "" || rest[0] != ' ')
    ensures ReadReferences(x, Decimal(id) + (x.reference + rest)) == Some(([id], rest))
  {
    ReferenceRead(x, id, rest);
  }

  lemma FirstReference(x: Syntax, id: nat, others: string, ids: seq<nat>, rest: string)
    requires GoesOn(x.reference)
    requires ReadReferences(x, others) == Some((ids, rest))
    ensures ReadReferences(x, Decimal(id) + (x.reference + (" " + others))) == Some(([id] + ids, rest))
  {
    ReferenceRead(x, id, " " + others);
    SpacedRest(others);
  }

  lemma {:induction false} ReadsReferences(x: Syntax, ids: seq<nat>, rest: string)
    requires GoesOn(x.reference)
    requires |ids| > 0 && (rest == "" || rest[0] != ' ')
    ensures ReadReferences(x, References(x, ids) + rest) == Some((ids, rest))
  {
    if |ids| == 1 {
      Assoc(Decimal(ids[0]), x.reference, rest);
      LastReference(x, ids[0], rest);
      assert ids == [ids[0]];
    } else {
      SpacedList(Decimal(ids[0]), x.reference, References(x, ids[1..]), rest);
      ReadsReferences(x, ids[1..], rest);
      FirstReference(x, ids[0], References(x, ids[1..]) + rest, ids[1..], rest);
      assert [ids[0]] + ids[1..] == ids;
    }
  }

  lemma SpacedList(first: string, word: string, others: string, rest: string)
    ensures first + word + " " + others + rest == first + (word + (" " + (others + rest)))
  {
  }

  lemma SpacedRest(others: string)
    ensures (" " + others)[0] == ' ' && (" " + others)[1..] == others
  {
  }

  /** The page tree gives its kids back. */
  lemma KidsRead(x: Syntax, ids: seq<nat>, s: string)
    requires TreeReadable(x)
    requires |ids| > 0 && PagesBody(x, ids) <= s
    ensures ReadKids(x, s) == Some(ids)
  {
    var rest := s[|PagesBody(x, ids)|..];
    var counted := Fill(x.count, [|ids|]) + rest;
    assert s == PagesBody(x, ids) + rest;
    assert s == x.kids + (References(x, ids) + counted);
    assert s[|x.kids|..] == References(x, ids) + counted;
    assert Fill(x.count, [|ids|]) == x.count[0].text + Fill(x.count[1..], [|ids|]);
    ReadsReferences(x, ids, counted);
    Matches(x.count, [|ids|], rest);
  }

  /** The declared length of a stream is its length. */
  lemma StreamRead(x: Syntax, content: string, s: string)
    requires HasHoles(x.streamHead, 1)
    requires StreamBody(x, content) <= s
    ensures ReadStream(x, s) == Some(content)
  {
    var rest := s[|StreamBody(x, content)|..];
    assert s == StreamBody(x, content) + rest;
    var following := content + (x.streamEnd + rest);
    assert s == Fill(x.streamHead, [|content|]) + following;
    Matches(x.streamHead, [|content|], following);
    assert following[|content|..] == x.streamEnd + rest && following[..|content|] == content;
  }

  lemma TemplateRead(t: Template, ns: seq<nat>, s: string)
    requires HasHoles(t, |ns|) && Fill(t, ns) <= s
    ensures Match(t, s).Some? && Match(t, s).value.0 == ns
  {
    var rest := s[|Fill(t, ns)|..];
    assert s == Fill(t, ns) + rest;
    Matches(t, ns, rest);
  }

  // ---- The texts ----------------------------------------------------------------------

  lemma ShowReads(nfkd: string -> string, text: string)
    ensures TextOf(Show(nfkd, text)) == [Ascii(nfkd, text)]
    ensures '\n' !in Show(nfkd, text)
  {
    var escaped := EscapePdf(nfkd, text);
    assert Show(nfkd, text)[1..] == escaped + ")" + " Tj";
    ReadsEscaped(Ascii(nfkd, text), " Tj");
    EscapePdfPrintable(nfkd, text);
  }

  function LineTexts(nfkd: string -> string, lines: seq<string>): seq<string> {
    if lines == [] then [] else [Ascii(nfkd, Clipped(lines[0]))] + LineTexts(nfkd, lines[1..])
  }

  lemma {:induction false} TextsConcat(a: seq<string>, b: seq<string>)
    ensures Texts(a + b) == Texts(a) + Texts(b)
  {
    if a == [] {
      assert a + b == b;
    } else {
      assert (a + b)[1..] == a[1..] + b;
      TextsConcat(a[1..], b);
    }
  }

  lemma {:induction false} LinesRead(x: Syntax, nfkd: string -> string, lines: seq<string>)
    requires Silent(x.lineStep)
    ensures Texts(LineOperators(x, nfkd, lines)) == LineTexts(nfkd, lines)
    ensures forall operator | operator in LineOperators(x, nfkd, lines) :: '\n' !in operator
  {
    if lines != [] {
      var first := [Show(nfkd, Clipped(lines[0])), x.lineStep];
      LinesRead(x, nfkd, lines[1..]);
      ShowReads(nfkd, Clipped(lines[0]));
      TextsConcat(first, LineOperators(x, nfkd, lines[1..]));
      assert Texts(first) == TextOf(first[0]) + (TextOf(first[1]) + Texts(first[1..][1..]));
    }
  }

  /** What a page shows: the title, its lines and its number. */
  function Shown(x: Syntax, d: Report, k: nat): seq<string>
    requires k < |d.pages|
  {
    [Ascii(d.nfkd, d.title)] + LineTexts(d.nfkd, d.pages[k]) + [Ascii(d.nfkd, PageLabel(x, k + 1, |d.pages|))]
  }

  lemma {:induction false} SilentTexts(operators: seq<string>)
    requires AllSilent(operators)
    ensures Texts(operators) == []
  {
    if operators != [] {
      assert Silent(operators[0]);
      SilentTexts(operators[1..]);
    }
  }

  lemma TextsOfOne(operator: string)
    ensures Texts([operator]) == TextOf(operator)
  {
    assert [operator][1..] == [];
  }

  lemma FrontTexts(opening: seq<string>, title: string, small: seq<string>)
    requires Texts(opening) == [] && Texts(small) == []
    ensures Texts(opening + [title] + small) == TextOf(title)
  {
    TextsConcat(opening, [title]);
    TextsConcat(opening + [title], small);
    TextsOfOne(title);
  }

  lemma BackTexts(footer: string, close: string)
    requires Texts([close]) == []
    ensures Texts([footer, close]) == TextOf(footer)
  {
    TextsConcat([footer], [close]);
    assert [footer] + [close] == [footer, close];
    TextsOfOne(footer);
  }

  lemma ContentTexts(opening: seq<string>, title: string, small: seq<string>, lines: seq<string>, footer: string, close: string)
    requires Texts(opening) == [] && Texts(small) == [] && Texts([close]) == []
    ensures Texts(opening + [title] + small + lines + [footer, close]) == TextOf(title) + Texts(lines) + TextOf(footer)
  {
    FrontTexts(opening, title, small);
    BackTexts(footer, close);
    TextsConcat(opening + [title] + small, lines);
    TextsConcat(opening + [title] + small + lines, [footer, close]);
  }

  lemma OneLine(operators: seq<string>)
    requires AllSilent(operators)
    ensures forall operator | operator in operators :: '\n' !in operator
  {
    forall operator | operator in operators
      ensures '\n' !in operator
    {
      assert Silent(operator);
    }
  }

  /** The texts of the joined operators of a page. */
  lemma JoinedTexts(opening: seq<string>, title: string, small: seq<string>, lines: seq<string>, footer: string, close: string)
    requires AllSilent(opening) && AllSilent(small) && AllSilent([close])
    requires '\n' !in title && '\n' !in footer && forall line | line in lines :: '\n' !in line
    ensures Texts(Split(Join(opening + [title] + small + lines + [footer, close], '\n'), {'\n'})) == TextOf(title) + Texts(lines) + TextOf(footer)
  {
    SilentTexts(opening);
    SilentTexts(small);
    SilentTexts([close]);
    ContentTexts(opening, title, small, lines, footer, close);
    OneLine(opening);
    OneLine(small);
    OneLine([close]);
    SplitOfJoin(opening + [title] + small + lines + [footer, close], '\n');
  }

  lemma ContentRead(x: Syntax, d: Report, k: nat)
    requires PageReadable(x)
    requires k < |d.pages|
    ensures Texts(Split(Content(x, d, k), {'\n'})) == Shown(x, d, k)
  {
    var title, footer := Show(d.nfkd, d.title), Show(d.nfkd, PageLabel(x, k + 1, |d.pages|));
    ShowReads(d.nfkd, d.title);
    ShowReads(d.nfkd, PageLabel(x, k + 1, |d.pages|));
    LinesRead(x, d.nfkd, d.pages[k]);
    JoinedTexts(x.opening, title, x.small, LineOperators(x, d.nfkd, d.pages[k]), footer, x.close);
  }

  // ---- The whole file ---------------------------------------------------------------------

  lemma PageRead(x: Syntax, file: string, tree: nat, id: nat, content: string)
    requires PageReadable(x)
    requires id > 0 && Has(x, file, id, Fill(x.page, [tree, 3, id - 1])) && Has(x, file, id - 1, StreamBody(x, content))
    ensures ReadPage(x, file, tree, id) == Some(Texts(Split(content, {'\n'})))
  {
    TemplateRead(x.page, [tree, 3, id - 1], ObjectIn(x, file, id).value);
    StreamRead(x, content, ObjectIn(x, file, id - 1).value);
  }

  // ---- The whole report --------------------------------------------------------------------

  /** The file leads to all the objects, the first one being the root. */
  ghost predicate HasAll(x: Syntax, file: string, objects: seq<string>) {
    RootOf(x, file) == Some(1) && forall i: nat | i < |objects| :: Has(x, file, i + 1, objects[i])
  }

  lemma FileHasAll(x: Syntax, objects: seq<string>)
    requires TableReadable(x)
    requires OffsetsFit(x, objects)
    ensures HasAll(x, File(x, objects), objects)
  {
    RootFound(x, objects);
    forall i: nat | i < |objects|
      ensures Has(x, File(x, objects), i + 1, objects[i])
    {
      ObjectFound(x, objects, i);
    }
  }

  lemma BehindThree(a: string, b: string, c: string, others: seq<string>, i: nat)
    requires i < |others|
    ensures ([a, b, c] + others)[3 + i] == others[i]
  {
  }

  lemma StreamObjectAt(x: Syntax, d: Report, k: nat)
    requires k < |d.pages|
    ensures Objects(x, d)[3 + 2 * k] == Streams(x, d)(k)
  {
    AlternateAt(Streams(x, d), PageBodies(x), |d.pages|, k);
    BehindThree(Fill(x.catalog, [2]), PagesBody(x, PageIds(|d.pages|)), x.font, Alternate(Streams(x, d), PageBodies(x), |d.pages|), 2 * k);
  }

  lemma PageObjectAt(x: Syntax, d: Report, k: nat)
    requires k < |d.pages|
    ensures Objects(x, d)[4 + 2 * k] == PageBodies(x)(k)
  {
    AlternateAt(Streams(x, d), PageBodies(x), |d.pages|, k);
    BehindThree(Fill(x.catalog, [2]), PagesBody(x, PageIds(|d.pages|)), x.font, Alternate(Streams(x, d), PageBodies(x), |d.pages|), 2 * k + 1);
  }

  /** The page with this number shows these texts. */
  predicate PageShows(x: Syntax, file: string, tree: nat, id: nat, shown: seq<string>) {
    ReadPage(x, file, tree, id) == Some(shown)
  }

  lemma PageFound(x: Syntax, d: Report, k: nat, objects: seq<string>, file: string)
    requires PageReadable(x)
    requires k < |d.pages| && objects == Objects(x, d) && HasAll(x, file, objects)
    ensures PageShows(x, file, 2, 5 + 2 * k, Shown(x, d, k))
  {
    StreamObjectAt(x, d, k);
    PageObjectAt(x, d, k);
    assert Has(x, file, (3 + 2 * k) + 1, objects[3 + 2 * k]);
    assert Has(x, file, (4 + 2 * k) + 1, objects[4 + 2 * k]);
    PageRead(x, file, 2, 5 + 2 * k, Content(x, d, k));
    ContentRead(x, d, k);
  }

  lemma MorePages(x: Syntax, file: string, tree: nat, kids: seq<nat>, id: nat, shown: seq<seq<string>>, last: seq<string>)
    requires ReadPages(x, file, tree, kids) == Some(shown) && PageShows(x, file, tree, id, last)
    ensures ReadPages(x, file, tree, kids + [id]) == Some(shown + [last])
  {
    assert (kids + [id])[..|kids|] == kids;
  }

  lemma {:induction false} PagesRead(x: Syntax, file: string, tree: nat, kids: seq<nat>, shown: seq<seq<string>>)
    requires |kids| == |shown| && forall k | 0 <= k < |kids| :: PageShows(x, file, tree, kids[k], shown[k])
    ensures ReadPages(x, file, tree, kids) == Some(shown)
  {
    if kids == [] {
      assert shown == [];
    } else {
      var n := |kids| - 1;
      PagesRead(x, file, tree, kids[..n], shown[..n]);
      MorePages(x, file, tree, kids[..n], kids[n], shown[..n], shown[n]);
      assert kids[..n] + [kids[n]] == kids && shown[..n] + [shown[n]] == shown;
    }
  }

  lemma TreeRead(x: Syntax, file: string, ids: seq<nat>, shown: seq<seq<string>>)
    requires TreeReadable(x)
    requires Has(x, file, 2, PagesBody(x, ids))
    requires 0 < |ids| == |shown| && forall k | 0 <= k < |ids| :: PageShows(x, file, 2, ids[k], shown[k])
    ensures ReadTree(x, file, 2) == Some(shown)
  {
    KidsRead(x, ids, ObjectIn(x, file, 2).value);
    PagesRead(x, file, 2, ids, shown);
  }

  lemma RootRead(x: Syntax, file: string)
    requires TreeReadable(x)
    requires RootOf(x, file) == Some(1) && Has(x, file, 1, Fill(x.catalog, [2]))
    ensures ReadReport(x, file) == ReadTree(x, file, 2)
  {
    TemplateRead(x.catalog, [2], ObjectIn(x, file, 1).value);
  }

  /** What the pages show, in order. */
  function ShownPages(x: Syntax, d: Report): (r: seq<seq<string>>)
    ensures |r| == |d.pages|
  {
    seq(|d.pages|, k requires 0 <= k < |d.pages| => Shown(x, d, k))
  }

  lemma FirstObjects(x: Syntax, d: Report, objects: seq<string>, file: string)
    requires objects == Objects(x, d) && HasAll(x, file, objects)
    ensures RootOf(x, file) == Some(1) && Has(x, file, 1, Fill(x.catalog, [2])) && Has(x, file, 2, PagesBody(x, PageIds(|d.pages|)))
  {
    assert Has(x, file, 0 + 1, objects[0]) && Has(x, file, 1 + 1, objects[1]);
  }

  lemma PagesFound(x: Syntax, d: Report, objects: seq<string>, file: string, ids: seq<nat>, shown: seq<seq<string>>)
    requires PageReadable(x)
    requires objects == Objects(x, d) && HasAll(x, file, objects)
    requires |ids| == |d.pages| && ids == PageIds(|d.pages|) && shown == ShownPages(x, d)
    ensures forall k | 0 <= k < |ids| :: PageShows(x, file, 2, ids[k], shown[k])
  {
    forall k | 0 <= k < |ids|
      ensures PageShows(x, file, 2, ids[k], shown[k])
    {
      PageFound(x, d, k, objects, file);
      assert ids[k] == 5 + 2 * k && shown[k] == Shown(x, d, k);
    }
  }

  lemma ReadsObjects(x: Syntax, d: Report, objects: seq<string>, file: string)
    requires TreeReadable(x) && PageReadable(x)
    requires |d.pages| > 0 && objects == Objects(x, d) && HasAll(x, file, objects)
    ensures ReadReport(x, file) == Some(ShownPages(x, d))
  {
    FirstObjects(x, d, objects, file);
    RootRead(x, file);
    PagesFound(x, d, objects, file, PageIds(|d.pages|), ShownPages(x, d));
    TreeRead(x, file, PageIds(|d.pages|), ShownPages(x, d));
  }

  /** The reader finds every page, with its texts, in every report that is written. */
  lemma ReadsReport(nfkd: string -> string, title: string, lines: seq<string>)
    requires OffsetsFit(PDF, Objects(PDF, Report(nfkd, title, Pages(lines))))
    ensures var d := Report(nfkd, title, Pages(lines)); ReadReport(PDF, File(PDF, Objects(PDF, d))) == Some(ShownPages(PDF, d))
  {
    var d := Report(nfkd, title, Pages(lines));
    PdfTableReadable();
    PdfTreeReadable();
    PdfPageReadable();
    FileHasAll(PDF, Objects(PDF, d));
    ReadsObjects(PDF, d, Objects(PDF, d), File(PDF, Objects(PDF, d)));
  }
}
