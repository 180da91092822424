/** The language that the parser of module CloudInit reads, as a grammar: documents, their text, and
    what stands under each key. Every text is the text of a document, so this says for all texts what
    parsing means. */
module Documents {
  import opened Text
  import opened CloudInit

  /** A line that opens a block: one of the two list keys, anywhere on the line, or any other text in
      column zero. */
  datatype Key =
    | PackagesName(pre: string, post: string)
    | RuncmdName(pre: string, post: string)
    | OtherName(text: string)

  /** A line that does not: blank, the cloud-config marker, an entry of a list, or any other indented text. */
  datatype Body =
    | Blank(space: string)
    | Marker(pre: string, post: string)
    | Entry(indent: string, item: string, trail: string)
    | Note(line: string)

  datatype Block = Block(key: Key, body: seq<Body>)

  datatype Document = Document(preamble: seq<Body>, blocks: seq<Block>)

  predicate Margin(s: string) {
    AllSpace(s) && '\n' !in s
  }

  predicate ValidKey(key: Key) {
    match key
    case PackagesName(pre, post) => Margin(pre) && Margin(post)
    case RuncmdName(pre, post) => Margin(pre) && Margin(post)
    case OtherName(text) =>
      && '\n' !in text && !Indented(text) && Trim(text) != ""
      && !IsMarker(Trim(text)) && !IsPackagesKey(Trim(text)) && !IsRuncmdKey(Trim(text))
  }

  predicate ValidBody(b: Body) {
    match b
    case Blank(space) => Margin(space)
    case Marker(pre, post) => Margin(pre) && Margin(post)
    case Entry(indent, item, trail) =>
      && indent != "" && (indent[0] == ' ' || indent[0] == '\t')
      && Margin(indent) && GoodItem(item) && Margin(trail)
    case Note(line) =>
      && '\n' !in line && Indented(line) && !HasPrefix(Trim(line), "- ")
      && !IsPackagesKey(Trim(line)) && !IsRuncmdKey(Trim(line))
  }

  predicate ValidBodies(body: seq<Body>) {
    forall i :: 0 <= i < |body| ==> ValidBody(body[i])
  }

  predicate ValidBlock(b: Block) {
    ValidKey(b.key) && ValidBodies(b.body)
  }

  predicate ValidDocument(doc: Document) {
    ValidBodies(doc.preamble) && forall i :: 0 <= i < |doc.blocks| ==> ValidBlock(doc.blocks[i])
  }

  function KeyLine(key: Key): string {
    match key
    case PackagesName(pre, post) => pre + "packages:" + post
    case RuncmdName(pre, post) => pre + "runcmd:" + post
    case OtherName(text) => text
  }

  function BodyLine(b: Body): string {
    match b
    case Blank(space) => space
    case Marker(pre, post) => pre + "#cloud-config" + post
    case Entry(indent, item, trail) => indent + "- " + item + trail
    case Note(line) => line
  }

  function BodyLines(body: seq<Body>): seq<string> {
    if body == [] then [] else [BodyLine(body[0])] + BodyLines(body[1..])
  }

  function BlockLines(blocks: seq<Block>): seq<string> {
    if blocks == [] then []
    else [KeyLine(blocks[0].key)] + BodyLines(blocks[0].body) + BlockLines(blocks[1..])
  }

  function DocumentLines(doc: Document): seq<string> {
    BodyLines(doc.preamble) + BlockLines(doc.blocks)
  }

  /** The text of a document, with or without a newline after its last line. */
  function DocumentText(doc: Document, newline: bool): string {
    if newline then Unlines(DocumentLines(doc)) else Join(DocumentLines(doc), '\n')
  }

  function Entries(body: seq<Body>): seq<string> {
    if body == [] then []
    else (if body[0].Entry? then [body[0].item] else []) + Entries(body[1..])
  }

  function KeySection(key: Key): Section {
    match key
    case PackagesName(_, _) => PackagesSection
    case RuncmdName(_, _) => RuncmdSection
    case OtherName(_) => NoSection
  }

  /** The entries of all blocks of a section, in the order of the document. */
  function EntriesUnder(section: Section, blocks: seq<Block>): seq<string> {
    if blocks == [] then []
    else
      (if KeySection(blocks[0].key) == section then Entries(blocks[0].body) else [])
      + EntriesUnder(section, blocks[1..])
  }

  function Meaning(doc: Document): Lists {
    Lists(EntriesUnder(PackagesSection, doc.blocks), EntriesUnder(RuncmdSection, doc.blocks))
  }

  // ---------------------------------------------------------------- what the parser reads

  function BodyKind(b: Body): Line {
    if b.Entry? then Item(b.item) else Ignored
  }

  lemma ClassifyBody(p: Parser, b: Body)
    requires ValidBody(b)
    ensures Step(p, Classify(BodyLine(b))) == Step(p, BodyKind(b))
  {
    match b
    case Blank(space) => TrimBlank(space);
    case Marker(pre, post) => ClassifyMarker(pre, post);
    case Note(line) =>
    case Entry(indent, item, trail) => ClassifyEntry(indent, item, trail);
  }

  lemma ClassifyMarker(pre: string, post: string)
    requires AllSpace(pre) && AllSpace(post)
    ensures Classify(pre + "#cloud-config" + post) == Skipped
  {
    SpaceFacts();
    TrimFramed(pre, "#cloud-config", post);
  }

  lemma ClassifyEntry(indent: string, item: string, trail: string)
    requires indent != "" && (indent[0] == ' ' || indent[0] == '\t')
    requires AllSpace(indent) && GoodItem(item) && AllSpace(trail)
    ensures Classify(indent + "- " + item + trail) == Item(item)
  {
    hide Trim, IsMarker, IsPackagesKey, IsRuncmdKey;
    var body, line := "- " + item, indent + "- " + item + trail;
    DashBody(item, body);
    TrimFramed(indent, body, trail);
    assert line == indent + body + trail;
    assert line[..1] == [indent[0]];
    NotKeys(body);
  }

  lemma {:induction false} FeedBody(p: Parser, body: seq<Body>)
    requires ValidBodies(body)
    ensures Feed(p, BodyLines(body)) == p.(lists := Append(p.lists, InSection(p.section, Entries(body))))
    decreases body
  {
    hide Classify, ValidBody, BodyLine;
    AppendLaws(p.lists, p.lists, p.lists);
    if body != [] {
      ClassifyBody(p, body[0]);
      var q := Step(p, BodyKind(body[0]));
      FeedBody(q, body[1..]);
      assert BodyLines(body)[1..] == BodyLines(body[1..]);
      var first := if body[0].Entry? then [body[0].item] else [];
      AppendLaws(p.lists, InSection(p.section, first), InSection(p.section, Entries(body[1..])));
    }
  }

  lemma ClassifyKey(key: Key)
    requires ValidKey(key)
    ensures Classify(KeyLine(key)) ==
      match KeySection(key)
      case PackagesSection => PackagesKey
      case RuncmdSection => RuncmdKey
      case NoSection => OtherKey
  {
    match key
    case OtherName(text) =>
    case PackagesName(pre, post) => ClassifyFramed(pre, "packages:", post);
    case RuncmdName(pre, post) => ClassifyFramed(pre, "runcmd:", post);
  }

  lemma ClassifyFramed(pre: string, key: string, post: string)
    requires AllSpace(pre) && AllSpace(post) && (key == "packages:" || key == "runcmd:")
    ensures Classify(pre + key + post) == if key == "packages:" then PackagesKey else RuncmdKey
  {
    KeysTight(key);
    TrimFramed(pre, key, post);
    TrimTight(key);
    ClassifyKeys(key);
    hide Trim, IsMarker, IsPackagesKey, IsRuncmdKey;
  }

  lemma {:induction false} FeedBlocks(p: Parser, blocks: seq<Block>)
    requires forall i :: 0 <= i < |blocks| ==> ValidBlock(blocks[i])
    ensures Feed(p, BlockLines(blocks)).lists ==
      Append(p.lists, Lists(EntriesUnder(PackagesSection, blocks), EntriesUnder(RuncmdSection, blocks)))
    decreases blocks
  {
    hide Classify, ValidKey, ValidBodies, KeyLine;
    AppendLaws(p.lists, p.lists, p.lists);
    if blocks != [] {
      var b, rest := blocks[0], blocks[1..];
      ClassifyKey(b.key);
      FeedConcat(p, [KeyLine(b.key)] + BodyLines(b.body), BlockLines(rest));
      FeedConcat(p, [KeyLine(b.key)], BodyLines(b.body));
      FeedOne(p, KeyLine(b.key));
      var q := p.(section := KeySection(b.key));
      FeedBody(q, b.body);
      FeedBlocks(q.(lists := Append(q.lists, InSection(q.section, Entries(b.body)))), rest);
      AppendLaws(p.lists, InSection(q.section, Entries(b.body)),
                 Lists(EntriesUnder(PackagesSection, rest), EntriesUnder(RuncmdSection, rest)));
    }
  }

  lemma {:induction false} BodyOneLine(body: seq<Body>)
    requires ValidBodies(body)
    ensures OneLiners(BodyLines(body))
  {
    if body != [] {
      assert ValidBody(body[0]);
      BodyOneLine(body[1..]);
    }
  }

  lemma {:induction false} BlocksOneLine(blocks: seq<Block>)
    requires forall i :: 0 <= i < |blocks| ==> ValidBlock(blocks[i])
    ensures OneLiners(BlockLines(blocks))
  {
    if blocks != [] {
      assert ValidBlock(blocks[0]);
      BodyOneLine(blocks[0].body);
      BlocksOneLine(blocks[1..]);
    }
  }

  lemma FeedDocument(doc: Document)
    requires ValidDocument(doc)
    ensures Feed(Start, DocumentLines(doc)).lists == Meaning(doc)
  {
    hide ValidBlock, ValidBody;
    FeedConcat(Start, BodyLines(doc.preamble), BlockLines(doc.blocks));
    FeedBody(Start, doc.preamble);
    AppendLaws(Start.lists, Start.lists, Start.lists);
    FeedBlocks(Start, doc.blocks);
    AppendLaws(Meaning(doc), Start.lists, Start.lists);
  }

  /** Any document parses to exactly what stands under its two list keys, in the order of the document,
      whether or not its last line ends in a newline; entries before the first key or under other keys,
      blank lines, markers and notes leave no trace. */
  lemma {:induction false} ParseDocument(doc: Document, newline: bool)
    requires ValidDocument(doc)
    ensures Parse(DocumentText(doc, newline)) == Meaning(doc)
  {
    hide Classify, Split, Feed, Meaning, ValidBlock;
    var lines := DocumentLines(doc);
    BodyOneLine(doc.preamble);
    BlocksOneLine(doc.blocks);
    FeedDocument(doc);
    if newline {
      SplitUnlines(lines);
      FeedBlankLast(Start, lines);
    } else if lines == [] {
      SplitSingle("", '\n');
      FeedBlankLast(Start, lines);
      assert lines + [""] == [""];
    } else {
      SplitJoin(lines, '\n');
    }
  }

  // ---------------------------------------------------------------- every text is a document

  /** The body line or the key that a line is. */
  lemma ReadBody(line: string) returns (b: Body)
    requires '\n' !in line
    requires Classify(line).Skipped? || Classify(line).Item? || Classify(line).Ignored?
    ensures ValidBody(b) && BodyLine(b) == line
  {
    var pre, post := TrimParts(line);
    match Classify(line)
    case Skipped =>
      if Trim(line) == "" {
        TrimBlank(line);
        b := Blank(line);
      } else {
        b := Marker(pre, post);
      }
    case Item(item) =>
      TrimmedOneLine(line);
      ClassifyEmitsGoodItem(line);
      assert Trim(line) == "- " + item;
      IndentedMargin(line, pre, Trim(line) + post);
      assert line == pre + (Trim(line) + post);
      b := Entry(pre, item, post);
      assert pre + ("- " + item) + post == pre + "- " + item + post;
    case _ => b := Note(line);
  }

  lemma IndentedMargin(line: string, pre: string, rest: string)
    requires Indented(line) && line == pre + rest && rest != "" && rest[0] == '-'
    ensures pre != "" && (pre[0] == ' ' || pre[0] == '\t')
  {
    assert line[..1] == " " || line[..1] == "\t";
    assert line[0] == (pre + rest)[0];
  }

  lemma ReadKey(line: string) returns (key: Key)
    requires '\n' !in line
    requires Classify(line).PackagesKey? || Classify(line).RuncmdKey? || Classify(line).OtherKey?
    ensures ValidKey(key) && KeyLine(key) == line
  {
    var pre, post := TrimParts(line);
    match Classify(line)
    case PackagesKey => key := PackagesName(pre, post);
    case RuncmdKey => key := RuncmdName(pre, post);
    case _ => key := OtherName(line);
  }

  lemma {:induction false} ReadLines(lines: seq<string>) returns (doc: Document)
    requires OneLiners(lines)
    ensures ValidDocument(doc) && DocumentLines(doc) == lines
  {
    hide Classify, ValidKey, ValidBody, KeyLine, BodyLine;
    if lines == [] {
      doc := Document([], []);
    } else {
      var line := lines[0];
      var rest := ReadLines(lines[1..]);
      var kind := Classify(line);
      assert lines == [line] + lines[1..];
      if kind.PackagesKey? || kind.RuncmdKey? || kind.OtherKey? {
        var key := ReadKey(line);
        doc := Document([], [Block(key, rest.preamble)] + rest.blocks);
        assert doc.blocks[1..] == rest.blocks;
      } else {
        var b := ReadBody(line);
        doc := Document([b] + rest.preamble, rest.blocks);
        assert doc.preamble[1..] == rest.preamble;
      }
    }
  }

  /** Every text is the text of a document, so its parse is the meaning of that document. */
  lemma EveryTextIsADocument(text: string) returns (doc: Document)
    ensures ValidDocument(doc) && DocumentText(doc, false) == text && Parse(text) == Meaning(doc)
  {
    SplitParts(text, '\n');
    doc := ReadLines(Split(text, '\n'));
    JoinSplit(text, '\n');
    ParseDocument(doc, false);
    hide Split, Meaning, ValidDocument, Parse;
  }

  // ---------------------------------------------------------------- what a merge prints

  /** The blocks a merge adds: one for each list that has items, packages first, every item behind two
      spaces and a dash. */
  function Printed(lists: Lists): Document {
    Document([], (if lists.packages != [] then [Block(PackagesName("", ""), PrintedItems(lists.packages))] else [])
                 + (if lists.runcmds != [] then [Block(RuncmdName("", ""), PrintedItems(lists.runcmds))] else []))
  }

  function PrintedItems(items: seq<string>): seq<Body> {
    seq(|items|, i requires 0 <= i < |items| => Entry("  ", items[i], ""))
  }

  lemma {:induction false} PrintedItemLines(items: seq<string>)
    ensures BodyLines(PrintedItems(items)) == ItemLines(items)
  {
    if items != [] {
      PrintedItemLines(items[1..]);
      assert PrintedItems(items)[1..] == PrintedItems(items[1..]);
      assert "  " + "- " + items[0] + "" == "  - " + items[0];
    }
  }

  /** A merge is the base text followed by the text of such a document, and nothing else. */
  lemma MergePrints(base: string, template: string)
    ensures Merge(base, template) == base + DocumentText(Printed(Parse(template)), true)
  {
    var lists := Parse(template);
    PrintedItemLines(lists.packages);
    PrintedItemLines(lists.runcmds);
    PrintedLines(lists);
    ParseEmpty();
    assert template == "" ==> Render(lists) == [] && base + "" == base;
  }

  lemma PrintedLines(lists: Lists)
    requires BodyLines(PrintedItems(lists.packages)) == ItemLines(lists.packages)
    requires BodyLines(PrintedItems(lists.runcmds)) == ItemLines(lists.runcmds)
    ensures DocumentLines(Printed(lists)) == Render(lists)
  {
    var doc := Printed(lists);
    var blocks := doc.blocks;
    assert BodyLines(doc.preamble) == [];
    hide BodyLines, ItemLines, PrintedItems;
    assert "" + "packages:" + "" == "packages:" && "" + "runcmd:" + "" == "runcmd:";
    assert DocumentLines(doc) == BlockLines(blocks);
    if |blocks| == 1 {
      assert blocks[1..] == [];
    } else if |blocks| == 2 {
      assert blocks[1..] == [blocks[1]] && blocks[1..][1..] == [];
      assert BlockLines(blocks[1..]) == RenderList("runcmd:", lists.runcmds) + [];
    }
  }
}
