/** The merge of a template's package and command lists into cloud-init user-data
    (internal/templates/templates.go) and the user-data it starts from (internal/cloudinit/iso.go).

    MergeCloudInit parses a text line by line and prints what it found. The parser and the printer
    are connected below: printing then parsing is the identity, parsing turns merging into
    concatenation of lists, and merging into the empty text has a fixed point. */
module CloudInit {
  import opened Text

  datatype Section = NoSection | PackagesSection | RuncmdSection

  datatype Lists = Lists(packages: seq<string>, runcmds: seq<string>)

  /** The variables of the parsing loop. */
  datatype Parser = Parser(section: Section, lists: Lists)

  const Start := Parser(NoSection, Lists([], []))

  /** Two results of parsing, one after the other. */
  function Append(x: Lists, y: Lists): Lists {
    Lists(x.packages + y.packages, x.runcmds + y.runcmds)
  }

  /** What the parsing loop makes of one line. */
  datatype Line = Skipped | PackagesKey | RuncmdKey | OtherKey | Item(item: string) | Ignored

  predicate Indented(line: string) {
    HasPrefix(line, " ") || HasPrefix(line, "\t")
  }

  predicate IsMarker(trimmed: string) {
    trimmed == "#cloud-config"
  }

  predicate IsPackagesKey(trimmed: string) {
    trimmed == "packages:"
  }

  predicate IsRuncmdKey(trimmed: string) {
    trimmed == "runcmd:"
  }

  function Classify(line: string): Line {
    var trimmed := Trim(line);
    if IsMarker(trimmed) || trimmed == "" then Skipped
    else if IsPackagesKey(trimmed) then PackagesKey
    else if IsRuncmdKey(trimmed) then RuncmdKey
    else if !Indented(line) then OtherKey
    else if HasPrefix(trimmed, "- ") then Item(trimmed[2..])
    else Ignored
  }

  function Step(p: Parser, line: Line): Parser {
    match line
    case Skipped => p
    case PackagesKey => p.(section := PackagesSection)
    case RuncmdKey => p.(section := RuncmdSection)
    case OtherKey => p.(section := NoSection)
    case Item(item) => p.(lists := Append(p.lists, InSection(p.section, [item])))
    case Ignored => p
  }

  /** The items of a section, as the pair of lists they belong to. */
  function InSection(section: Section, items: seq<string>): Lists {
    match section
    case NoSection => Lists([], [])
    case PackagesSection => Lists(items, [])
    case RuncmdSection => Lists([], items)
  }

  function Feed(p: Parser, lines: seq<string>): Parser
    decreases lines
  {
    if lines == [] then p else Feed(Step(p, Classify(lines[0])), lines[1..])
  }

  function Parse(text: string): Lists {
    Feed(Start, Split(text, '\n')).lists
  }

  function ItemLines(items: seq<string>): seq<string> {
    if items == [] then [] else ["  - " + items[0]] + ItemLines(items[1..])
  }

  function RenderList(key: string, items: seq<string>): seq<string> {
    if items == [] then [] else [key] + ItemLines(items)
  }

  /** The lines appended for the two lists. */
  function Render(lists: Lists): seq<string> {
    RenderList("packages:", lists.packages) + RenderList("runcmd:", lists.runcmds)
  }

  function Merge(base: string, template: string): string {
    if template == "" then base else base + Unlines(Render(Parse(template)))
  }

  /** MergeCloudInit as written; the loop over the template's lines is the next method. */
  method MergeCloudInit(baseUserData: string, templateCloudInit: string) returns (result: string)
    ensures result == Merge(baseUserData, templateCloudInit)
  {
    hide Feed, Split, RenderList, Unlines;
    if templateCloudInit == "" {
      return baseUserData;
    }
    var packages, runcmds := ParseTemplate(templateCloudInit);
    result := PrintList(baseUserData, "packages:", packages);
    result := PrintList(result, "runcmd:", runcmds);
    var a, b := RenderList("packages:", packages), RenderList("runcmd:", runcmds);
    UnlinesConcat(a, b);
    assert baseUserData + Unlines(a) + Unlines(b) == baseUserData + (Unlines(a) + Unlines(b));
  }

  method ParseTemplate(templateCloudInit: string) returns (packages: seq<string>, runcmds: seq<string>)
    ensures Lists(packages, runcmds) == Parse(templateCloudInit)
  {
    packages, runcmds := [], [];
    var lines := Split(templateCloudInit, '\n');
    var section := NoSection;
    for i := 0 to |lines|
      // what is left to read, read from here, is what the whole text reads as
      invariant Feed(Parser(section, Lists(packages, runcmds)), lines[i..]) == Feed(Start, lines)
    {
      var line := lines[i];
      ghost var p := Parser(section, Lists(packages, runcmds));
      assert Feed(p, lines[i..]) == Feed(Step(p, Classify(line)), lines[i + 1..]) by {
        assert lines[i..][1..] == lines[i + 1..];
      }
      assert packages + [] == packages && runcmds + [] == runcmds;
      var trimmed := Trim(line);
      if IsMarker(trimmed) || trimmed == "" {
        continue;
      }
      if IsPackagesKey(trimmed) {
        section := PackagesSection;
        continue;
      }
      if IsRuncmdKey(trimmed) {
        section := RuncmdSection;
        continue;
      }
      if !HasPrefix(line, " ") && !HasPrefix(line, "\t") {
        section := NoSection;
        continue;
      }
      if HasPrefix(trimmed, "- ") {
        var item := trimmed[2..];
        match section
        case PackagesSection => packages := packages + [item];
        case RuncmdSection => runcmds := runcmds + [item];
        case NoSection =>
      }
    }
    assert lines[|lines|..] == [];
  }

  /** The key and the items of a list, or nothing when there are none. */
  method PrintList(text: string, key: string, items: seq<string>) returns (result: string)
    ensures result == text + Unlines(RenderList(key, items))
  {
    result := text;
    if |items| > 0 {
      result := result + (key + "\n");
      result := PrintItems(result, items);
      assert RenderList(key, items)[1..] == ItemLines(items);
      var rest := Unlines(ItemLines(items));
      assert text + (key + "\n") + rest == text + (key + "\n" + rest);
    }
  }

  method PrintItems(text: string, items: seq<string>) returns (result: string)
    ensures result == text + Unlines(ItemLines(items))
  {
    result := text;
    for i := 0 to |items|
      invariant result + Unlines(ItemLines(items[i..])) == text + Unlines(ItemLines(items))
    {
      assert items[i..][1..] == items[i + 1..];
      var rest := Unlines(ItemLines(items[i + 1..]));
      assert ItemLines(items[i..])[1..] == ItemLines(items[i + 1..]);
      assert result + ("  - " + items[i] + "\n" + rest) == result + ("  - " + items[i] + "\n") + rest;
      result := result + ("  - " + items[i] + "\n");
    }
    assert items[|items|..] == [];
  }

  // ---------------------------------------------------------------- the parser on lines

  lemma {:induction false} FeedConcat(p: Parser, a: seq<string>, b: seq<string>)
    ensures Feed(p, a + b) == Feed(Feed(p, a), b)
    decreases a
  {
    if a == [] {
      assert a + b == b;
    } else {
      assert (a + b)[1..] == a[1..] + b;
      FeedConcat(Step(p, Classify(a[0])), a[1..], b);
    }
  }

  /** What every item the parser emits looks like: not empty, on one line, no white space at its end. */
  predicate GoodItem(item: string) {
    item != "" && '\n' !in item && !IsSpace(item[|item| - 1])
  }

  predicate GoodItems(items: seq<string>) {
    forall i :: 0 <= i < |items| ==> GoodItem(items[i])
  }

  predicate GoodLists(lists: Lists) {
    GoodItems(lists.packages) && GoodItems(lists.runcmds)
  }

  /** A trimmed item line yields an item that keeps the line's last character. */
  lemma ClassifyEmitsGoodItem(line: string)
    requires '\n' !in line && Classify(line).Item?
    ensures GoodItem(Classify(line).item)
  {
    var trimmed := Trim(line);
    TrimmedOneLine(line);
    DashTail(trimmed);
  }

  lemma DashTail(trimmed: string)
    requires '\n' !in trimmed && Tight(trimmed) && HasPrefix(trimmed, "- ")
    ensures GoodItem(trimmed[2..])
  {
    assert trimmed[..2][1] == trimmed[1] == ' ';
    var item := trimmed[2..];
    assert item != "" && item[|item| - 1] == trimmed[|trimmed| - 1];
    assert forall i :: 0 <= i < |item| ==> item[i] == trimmed[2 + i];
  }

  lemma {:induction false} FeedEmitsGoodItems(p: Parser, lines: seq<string>)
    requires GoodLists(p.lists)
    requires forall i :: 0 <= i < |lines| ==> '\n' !in lines[i]
    ensures GoodLists(Feed(p, lines).lists)
    decreases lines
  {
    if lines != [] {
      if Classify(lines[0]).Item? {
        ClassifyEmitsGoodItem(lines[0]);
      }
      FeedEmitsGoodItems(Step(p, Classify(lines[0])), lines[1..]);
    }
  }

  lemma ParseEmitsGoodItems(text: string)
    ensures GoodLists(Parse(text))
  {
    SplitParts(text, '\n');
    FeedEmitsGoodItems(Start, Split(text, '\n'));
  }

  /** An item printed behind any indentation is read back by the parser. */
  lemma ClassifyItem(indent: string, item: string, line: string)
    requires indent != "" && (indent[0] == ' ' || indent[0] == '\t') && AllSpace(indent) && GoodItem(item)
    requires line == indent + "- " + item
    ensures Classify(line) == Item(item)
  {
    var body := "- " + item;
    DashBody(item, body);
    TrimIndented(indent, body, line);
    assert line[..1] == [indent[0]];
    NotKeys(body);
  }

  lemma DashBody(item: string, body: string)
    requires GoodItem(item) && body == "- " + item
    ensures Tight(body) && body[0] == '-' && HasPrefix(body, "- ") && body[2..] == item
  {
    assert body[|body| - 1] == item[|item| - 1];
  }

  lemma TrimIndented(indent: string, body: string, line: string)
    requires AllSpace(indent) && Tight(body) && line == indent + body
    ensures Trim(line) == body
  {
    TrimFramed(indent, body, "");
    assert indent + body + "" == line;
  }

  lemma NotKeys(trimmed: string)
    requires trimmed != "" && trimmed[0] !in "#pr"
    ensures !IsMarker(trimmed) && !IsPackagesKey(trimmed) && !IsRuncmdKey(trimmed)
  {
  }

  lemma ClassifyKeys(line: string)
    ensures line == "packages:" ==> Classify(line) == PackagesKey
    ensures line == "runcmd:" ==> Classify(line) == RuncmdKey
    ensures line == "" ==> Classify(line) == Skipped
  {
    SpaceFacts();
    if line == "packages:" || line == "runcmd:" {
      TrimTight(line);
      assert line[0] != '#';
    } else if line == "" {
      TrimBlank(line);
    }
  }

  lemma FeedOne(p: Parser, line: string)
    ensures Feed(p, [line]) == Step(p, Classify(line))
  {
    assert [line][1..] == [];
  }

  lemma AppendLaws(x: Lists, y: Lists, z: Lists)
    ensures Append(Append(x, y), z) == Append(x, Append(y, z))
    ensures Append(x, Lists([], [])) == x && Append(Lists([], []), x) == x
  {
  }

  lemma {:induction false} FeedItems(p: Parser, items: seq<string>)
    requires GoodItems(items)
    ensures Feed(p, ItemLines(items)) == p.(lists := Append(p.lists, InSection(p.section, items)))
    decreases items
  {
    if items == [] {
      AppendLaws(p.lists, p.lists, p.lists);
    } else {
      var q := Step(p, Item(items[0]));
      ClassifyItem("  ", items[0], "  - " + items[0]);
      FeedItems(q, items[1..]);
      assert ItemLines(items)[1..] == ItemLines(items[1..]);
      AppendLaws(p.lists, InSection(p.section, [items[0]]), InSection(p.section, items[1..]));
      assert items == [items[0]] + items[1..];
    }
  }

  /** Feeding one printed list appends it to its section. */
  lemma FeedRenderedList(p: Parser, section: Section, key: string, items: seq<string>)
    requires (key == "packages:" && section == PackagesSection) || (key == "runcmd:" && section == RuncmdSection)
    requires GoodItems(items)
    ensures Feed(p, RenderList(key, items)).lists == Append(p.lists, InSection(section, items))
  {
    if items == [] {
      AppendLaws(p.lists, p.lists, p.lists);
    } else {
      ClassifyKeys(key);
      FeedConcat(p, [key], ItemLines(items));
      FeedOne(p, key);
      FeedItems(p.(section := section), items);
    }
  }

  /** Feeding the printed lists appends exactly them, whatever was parsed before. */
  lemma FeedRendered(p: Parser, lists: Lists)
    requires GoodLists(lists)
    ensures Feed(p, Render(lists)).lists == Append(p.lists, lists)
  {
    var a, b := RenderList("packages:", lists.packages), RenderList("runcmd:", lists.runcmds);
    FeedConcat(p, a, b);
    FeedRenderedList(p, PackagesSection, "packages:", lists.packages);
    FeedRenderedList(Feed(p, a), RuncmdSection, "runcmd:", lists.runcmds);
    AppendLaws(p.lists, Lists(lists.packages, []), Lists([], lists.runcmds));
    assert Append(Lists(lists.packages, []), Lists([], lists.runcmds)) == lists;
  }

  lemma {:induction false} ItemLinesOneLine(items: seq<string>)
    requires GoodItems(items)
    ensures forall i :: 0 <= i < |ItemLines(items)| ==> '\n' !in ItemLines(items)[i]
  {
    if items != [] {
      ItemLinesOneLine(items[1..]);
    }
  }

  lemma SplitRendered(lists: Lists)
    requires GoodLists(lists)
    ensures Split(Unlines(Render(lists)), '\n') == Render(lists) + [""]
  {
    ItemLinesOneLine(lists.packages);
    ItemLinesOneLine(lists.runcmds);
    SplitUnlines(Render(lists));
  }

  lemma FeedBlankLast(p: Parser, lines: seq<string>)
    ensures Feed(p, lines + [""]) == Feed(p, lines)
  {
    FeedConcat(p, lines, [""]);
    FeedOne(Feed(p, lines), "");
    ClassifyKeys("");
  }

  /** Printing, then parsing, gives the lists back. */
  lemma ParseRendered(lists: Lists)
    requires GoodLists(lists)
    ensures Parse(Unlines(Render(lists))) == lists
  {
    SplitRendered(lists);
    FeedBlankLast(Start, Render(lists));
    FeedRendered(Start, lists);
    AppendLaws(lists, lists, lists);
  }

  // ---------------------------------------------------------------- the main results

  predicate CompleteLines(text: string) {
    text == "" || text[|text| - 1] == '\n'
  }

  lemma ParseEmpty()
    ensures Parse("") == Lists([], [])
  {
    assert Split("", '\n') == [""];
    FeedOne(Start, "");
    ClassifyKeys("");
  }

  /** The last line of a text, empty if the text ends in a newline. */
  function LastLine(text: string): string {
    var lines := Split(text, '\n');
    lines[|lines| - 1]
  }

  /** The parser before the last line of a text. */
  function BeforeLast(text: string): Parser {
    var lines := Split(text, '\n');
    Feed(Start, lines[..|lines| - 1])
  }

  /** The key printed first, if anything is printed. */
  function FirstKey(lists: Lists): string {
    if lists.packages != [] then "packages:" else "runcmd:"
  }

  function FirstSection(lists: Lists): Section {
    if lists.packages != [] then PackagesSection else RuncmdSection
  }

  /** The first key is glued to the base's last line. That does no harm when there is nothing to print,
      when that line is blank, or when the two together are a line the parser passes over while it is
      already in the key's section. */
  predicate MergesCleanly(base: string, template: string) {
    var lists := Parse(template);
    || lists == Lists([], [])
    || AllSpace(LastLine(base))
    || (Classify(LastLine(base) + FirstKey(lists)).Ignored? && BeforeLast(base).section == FirstSection(lists))
  }

  lemma ParseByLast(base: string)
    ensures Parse(base) == Step(BeforeLast(base), Classify(LastLine(base))).lists
  {
    hide Classify, Split;
    var lines := Split(base, '\n');
    var front, last := lines[..|lines| - 1], lines[|lines| - 1];
    assert lines == front + [last];
    FeedConcat(Start, front, [last]);
    FeedOne(Feed(Start, front), last);
  }

  /** What is read after the first key: the items of the first list, then the second list. */
  function ReadRest(r: Parser, lists: Lists): Lists {
    if lists.packages != [] then
      Append(Append(r.lists, InSection(r.section, lists.packages)), Lists([], lists.runcmds))
    else Append(r.lists, InSection(r.section, lists.runcmds))
  }

  function RestLines(lists: Lists): seq<string> {
    if lists.packages != [] then ItemLines(lists.packages) + RenderList("runcmd:", lists.runcmds)
    else ItemLines(lists.runcmds)
  }

  lemma FeedRest(r: Parser, lists: Lists)
    requires GoodLists(lists)
    ensures Feed(r, RestLines(lists)).lists == ReadRest(r, lists)
  {
    hide Classify;
    if lists.packages != [] {
      FeedConcat(r, ItemLines(lists.packages), RenderList("runcmd:", lists.runcmds));
      FeedItems(r, lists.packages);
      FeedRenderedList(Feed(r, ItemLines(lists.packages)), RuncmdSection, "runcmd:", lists.runcmds);
    } else {
      FeedItems(r, lists.runcmds);
    }
  }

  lemma RestLinesOneLine(lists: Lists)
    requires GoodLists(lists)
    ensures forall i :: 0 <= i < |RestLines(lists)| ==> '\n' !in RestLines(lists)[i]
  {
    ItemLinesOneLine(lists.packages);
    ItemLinesOneLine(lists.runcmds);
  }

  lemma RenderSplits(lists: Lists)
    requires lists != Lists([], [])
    ensures Render(lists) == [FirstKey(lists)] + RestLines(lists)
    ensures Unlines(Render(lists)) == FirstKey(lists) + ['\n'] + Unlines(RestLines(lists))
  {
    var key, rest := FirstKey(lists), RestLines(lists);
    assert Render(lists) == [key] + rest;
    assert ([key] + rest)[1..] == rest;
  }

  /** The split of a text, seen from its last line. */
  lemma SplitGlued(base: string, x: string, more: string)
    requires '\n' !in x
    ensures var lines := Split(base, '\n');
      Split(base + x + ['\n'] + more, '\n') == lines[..|lines| - 1] + [LastLine(base) + x] + Split(more, '\n')
  {
    hide Split, Join, Unlines;
    var lines := Split(base, '\n');
    var front, last := lines[..|lines| - 1], LastLine(base);
    assert lines == front + [last];
    SplitParts(base, '\n');
    JoinSplit(base, '\n');
    JoinAsUnlines(front, last);
    var tail := last + x + ['\n'] + more;
    assert base + x + ['\n'] + more == Unlines(front) + tail;
    SplitAfter(front, tail);
    SplitConcat(last + x, more, '\n');
    SplitSingle(last + x, '\n');
    assert front + ([last + x] + Split(more, '\n')) == front + [last + x] + Split(more, '\n');
  }

  lemma MergedParse(base: string, template: string)
    requires Parse(template) != Lists([], [])
    ensures Parse(Merge(base, template)) ==
      ReadRest(Step(BeforeLast(base), Classify(LastLine(base) + FirstKey(Parse(template)))), Parse(template))
  {
    hide Classify, Split, ReadRest;
    ParseEmpty();
    ParseEmitsGoodItems(template);
    var lists := Parse(template);
    var key, rest := FirstKey(lists), RestLines(lists);
    RenderSplits(lists);
    assert base + (key + ['\n'] + Unlines(rest)) == base + key + ['\n'] + Unlines(rest);
    SplitGlued(base, key, Unlines(rest));
    RestLinesOneLine(lists);
    SplitUnlines(rest);
    var lines := Split(base, '\n');
    var front, glued := lines[..|lines| - 1], LastLine(base) + key;
    assert front + [glued] + (rest + [""]) == front + [glued] + rest + [""];
    FeedBlankLast(Start, front + [glued] + rest);
    FeedConcat(Start, front + [glued], rest);
    FeedConcat(Start, front, [glued]);
    FeedOne(Feed(Start, front), glued);
    FeedRest(Feed(Start, front + [glued]), lists);
  }

  /** A blank line leaves the key glued to it intact; any other line makes something else of it. */
  predicate Intact(a: Line, b: Line, packages: bool) {
    a == Skipped && b == if packages then PackagesKey else RuncmdKey
  }

  predicate Swallowed(a: Line, b: Line) {
    (b.OtherKey? || b.Ignored? || b.Item?) && (a.Item? ==> b.Item? && |b.item| > |a.item|)
  }

  /** How a line is classified once a key has been glued to it. */
  lemma GluedLine(l: string, key: string)
    requires key == "packages:" || key == "runcmd:"
    ensures var a, b := Classify(l), Classify(l + key);
      if AllSpace(l) then Intact(a, b, key == "packages:") else Swallowed(a, b)
  {
    if AllSpace(l) {
      GluedToBlank(l, key);
    } else {
      GluedToText(l, key);
    }
  }

  lemma GluedToBlank(l: string, key: string)
    requires (key == "packages:" || key == "runcmd:") && AllSpace(l)
    ensures Intact(Classify(l), Classify(l + key), key == "packages:")
  {
    KeysTight(key);
    TrimBlank(l);
    TrimFramed(l, key, "");
    assert l + key + "" == l + key;
    ClassifyKeys(key);
    TrimTight(key);
    hide Trim, IsMarker, IsPackagesKey, IsRuncmdKey;
  }

  lemma GluedToText(l: string, key: string)
    requires (key == "packages:" || key == "runcmd:") && !AllSpace(l)
    ensures Swallowed(Classify(l), Classify(l + key))
  {
    KeysTight(key);
    hide Trim, IsMarker, IsPackagesKey, IsRuncmdKey;
    var g := TrimGlued(l, key);
    GluedIsNoKey(g, key);
    assert l != "" ==> (l + key)[..1] == l[..1];
    assert HasPrefix(Trim(l), "- ") ==> g[..2] == "- ";
  }

  lemma KeysTight(key: string)
    requires key == "packages:" || key == "runcmd:"
    ensures Tight(key)
  {
    SpaceFacts();
  }

  lemma TrimGlued(l: string, key: string) returns (g: string)
    requires !AllSpace(l) && Tight(key)
    ensures g == Trim(l + key) && Trim(l) != "" && |g| >= |Trim(l)| + |key|
    ensures g[..|Trim(l)|] == Trim(l) && HasSuffix(g, key)
  {
    TrimBlank(l);
    var pre, post := TrimParts(l);
    g := Trim(l) + post + key;
    assert l + key == pre + g + "";
    TrimFramed(pre, g, "");
  }

  lemma GluedIsNoKey(g: string, key: string)
    requires key == "packages:" || key == "runcmd:"
    requires |g| > |key| && HasSuffix(g, key)
    ensures !IsMarker(g) && !IsPackagesKey(g) && !IsRuncmdKey(g)
  {
    assert g[|g| - |key|..][|key| - 1] == g[|g| - 1] == ':';
    assert g[|g| - |key|..][|key| - 2] == g[|g| - 2] == key[|key| - 2];
  }

  /** The exact condition, over all bases and all templates: merging concatenates the lists if and only
      if the first key is not lost in the base's last line. */
  lemma MergeHomomorphismExactly(base: string, template: string)
    ensures Parse(Merge(base, template)) == Append(Parse(base), Parse(template)) <==> MergesCleanly(base, template)
  {
    hide Split, Feed, Trim;
    var lists := Parse(template);
    ParseByLast(base);
    if lists == Lists([], []) {
      assert Render(lists) == [] && base + "" == base;
      AppendLaws(Parse(base), lists, lists);
    } else {
      MergedParse(base, template);
      var l, key, p := LastLine(base), FirstKey(lists), BeforeLast(base);
      GluedLine(l, key);
      hide Classify, Parse, AllSpace, LastLine, BeforeLast, Merge;
      GluedLists(p, Classify(l), Classify(l + key), lists, AllSpace(l));
    }
  }

  /** The same, on what the two lines are to the parser. */
  lemma GluedLists(p: Parser, a: Line, b: Line, lists: Lists, blank: bool)
    requires lists != Lists([], [])
    requires if blank then Intact(a, b, lists.packages != []) else Swallowed(a, b)
    ensures ReadRest(Step(p, b), lists) == Append(Step(p, a).lists, lists)
      <==> blank || (b.Ignored? && p.section == FirstSection(lists))
  {
    var r := Step(p, b);
    var m, e := ReadRest(r, lists), Append(Step(p, a).lists, lists);
    AppendLaws(p.lists, Lists(lists.packages, []), Lists([], lists.runcmds));
    if blank || (b.Ignored? && p.section == FirstSection(lists)) {
      assert Step(p, a).lists == p.lists;
      assert Append(Lists(lists.packages, []), Lists([], lists.runcmds)) == lists;
    } else if lists.packages != [] {
      if b.Item? && a.Item? && p.section == PackagesSection {
        assert m.packages[|p.lists.packages|] == b.item && e.packages[|p.lists.packages|] == a.item;
      } else {
        assert |m.packages| != |e.packages|;
      }
    } else {
      if b.Item? && a.Item? && p.section == RuncmdSection {
        assert m.runcmds[|p.lists.runcmds|] == b.item && e.runcmds[|p.lists.runcmds|] == a.item;
      } else {
        assert |m.runcmds| != |e.runcmds|;
      }
    }
  }

  lemma LastOfComplete(base: string)
    requires CompleteLines(base)
    ensures LastLine(base) == ""
  {
    if base != "" {
      var front := base[..|base| - 1];
      assert base == front + ['\n'] + "";
      SplitConcat(front, "", '\n');
    }
  }

  /** So merging concatenates for every base made of complete lines, which is how the program's own
      base text is made. */
  lemma MergeIsHomomorphism(base: string, template: string)
    requires CompleteLines(base)
    ensures Parse(Merge(base, template)) == Append(Parse(base), Parse(template))
  {
    LastOfComplete(base);
    MergeHomomorphismExactly(base, template);
    hide Parse, Merge;
  }

  /** And a base whose last line starts in column zero and has no newline loses the first list. */
  lemma MergeNeedsCompleteLines(base: string, template: string)
    requires Trim(LastLine(base)) != "" && !Indented(LastLine(base)) && Parse(template) != Lists([], [])
    ensures Parse(Merge(base, template)) != Append(Parse(base), Parse(template))
  {
    var l, key := LastLine(base), FirstKey(Parse(template));
    TrimBlank(l);
    MergeHomomorphismExactly(base, template);
    assert l != "" && (l + key)[..1] == l[..1];
    hide Parse, Merge, Trim, LastLine;
  }

  /** Merging into the empty text normalises: a second merge changes nothing, for every text. */
  lemma MergeFixedPoint(template: string)
    ensures Merge("", Merge("", template)) == Merge("", template)
  {
    ParseEmitsGoodItems(template);
    ParseRendered(Parse(template));
    assert "" + Unlines(Render(Parse(template))) == Unlines(Render(Parse(template)));
    ParseEmpty();
  }

  /** The normal form may be merged instead of the template, into any base whatsoever. */
  lemma MergeNormalForm(base: string, template: string)
    ensures Merge(base, Merge("", template)) == Merge(base, template)
  {
    ParseEmitsGoodItems(template);
    ParseRendered(Parse(template));
    var normal := Unlines(Render(Parse(template)));
    assert "" + normal == normal;
    ParseEmpty();
    assert normal == "" ==> base + normal == base;
  }
}
