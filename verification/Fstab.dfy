/** The fstab rewrite of an imported image (patchRootfsForFirecracker in internal/images/manager.go). */
module Fstab {
  import opened Text

  /** strings.Fields: the maximal runs of characters that are not white space. */
  function Fields(s: string): seq<string>
    decreases |s|
  {
    var t := TrimLeft(s);
    TrimLeftShorter(s);
    if t == "" then []
    else
      var n := WordLength(t);
      [t[..n]] + Fields(t[n..])
  }

  function WordLength(s: string): (n: nat)
    ensures n <= |s|
    ensures s != "" && !IsSpace(s[0]) ==> n > 0
  {
    if s == "" || IsSpace(s[0]) then 0 else 1 + WordLength(s[1..])
  }

  lemma {:induction false} TrimLeftShorter(s: string)
    ensures |TrimLeft(s)| <= |s|
    ensures TrimLeft(s) == "" || !IsSpace(TrimLeft(s)[0])
  {
    if s != "" {
      TrimLeftShorter(s[1..]);
    }
  }

  predicate BlankOrComment(line: string) {
    Trim(line) == "" || HasPrefix(Trim(line), "#")
  }

  predicate Kept(line: string) {
    BlankOrComment(line) || (|Fields(Trim(line))| >= 2 && Fields(Trim(line))[1] == "/")
  }

  function KeptLines(lines: seq<string>): seq<string> {
    if lines == [] then [] else (if Kept(lines[0]) then [lines[0]] else []) + KeptLines(lines[1..])
  }

  /** The whole rewrite, from text to text. */
  function Rewrite(data: string): string {
    Join(KeptLines(Split(data, '\n')), '\n')
  }

  method RewriteFstab(data: string) returns (result: string)
    ensures result == Rewrite(data)
  {
    var all := Split(data, '\n');
    var lines: seq<string> := [];
    for i := 0 to |all|
      invariant lines + KeptLines(all[i..]) == KeptLines(all)
    {
      var line := all[i];
      assert all[i..][1..] == all[i + 1..];
      assert lines + ([line] + KeptLines(all[i + 1..])) == lines + [line] + KeptLines(all[i + 1..]);
      var trimmed := Trim(line);
      if trimmed == "" || HasPrefix(trimmed, "#") {
        lines := lines + [line];
        continue;
      }
      var fields := Fields(trimmed);
      if |fields| >= 2 && fields[1] == "/" {
        lines := lines + [line];
      }
    }
    assert all[|all|..] == [] && lines + [] == lines;
    result := Join(lines, '\n');
  }

  lemma {:induction false} KeptLinesAreKept(lines: seq<string>)
    ensures forall l :: l in KeptLines(lines) ==> Kept(l) && l in lines
    ensures forall l :: l in lines && Kept(l) ==> l in KeptLines(lines)
  {
    if lines != [] {
      KeptLinesAreKept(lines[1..]);
      assert lines == [lines[0]] + lines[1..];
    }
  }

  lemma {:induction false} KeptLinesIdempotent(lines: seq<string>)
    requires forall l :: l in lines ==> Kept(l)
    ensures KeptLines(lines) == lines
  {
    if lines != [] {
      KeptLinesIdempotent(lines[1..]);
      assert lines == [lines[0]] + lines[1..];
    }
  }

  /** Lines of the rewritten text; a text without lines reads as one empty line. */
  lemma RewrittenLines(data: string)
    ensures Split(Rewrite(data), '\n') ==
      if KeptLines(Split(data, '\n')) == [] then [""] else KeptLines(Split(data, '\n'))
  {
    var lines := Split(data, '\n');
    var kept := KeptLines(lines);
    SplitParts(data, '\n');
    KeptLinesAreKept(lines);
    if kept != [] {
      forall i | 0 <= i < |kept| ensures '\n' !in kept[i] {
        assert kept[i] in lines;
      }
      SplitJoin(kept, '\n');
    }
  }

  /** Rewriting again changes nothing, for every text, also when every line has been dropped. */
  lemma RewriteIdempotent(data: string)
    ensures Rewrite(Rewrite(data)) == Rewrite(data)
  {
    var kept := KeptLines(Split(data, '\n'));
    RewrittenLines(data);
    KeptLinesAreKept(Split(data, '\n'));
    if kept == [] {
      TrimBlank("");
      KeptLinesIdempotent([""]);
      assert [""] == [""] + [];
    } else {
      KeptLinesIdempotent(kept);
    }
  }

  /** A mount entry for the root: a device, white space, a lone slash, and nothing or white space after it. */
  ghost predicate MountsRoot(line: string) {
    exists pre, device, gap, rest :: RootEntry(line, pre, device, gap, rest)
  }

  predicate RootEntry(line: string, pre: string, device: string, gap: string, rest: string) {
    && line == pre + device + gap + "/" + rest
    && AllSpace(pre) && Word(device) && gap != "" && AllSpace(gap)
    && (rest == "" || IsSpace(rest[0]))
  }

  predicate Word(s: string) {
    s != "" && forall c :: c in s ==> !IsSpace(c)
  }

  lemma {:induction false} WordLengthExact(w: string, rest: string)
    requires forall c :: c in w ==> !IsSpace(c)
    requires rest == "" || IsSpace(rest[0])
    ensures WordLength(w + rest) == |w|
  {
    if w == "" {
      assert w + rest == rest;
    } else {
      assert (w + rest)[1..] == w[1..] + rest;
      WordLengthExact(w[1..], rest);
    }
  }

  lemma {:induction false} WordLengthWord(s: string)
    ensures forall c :: c in s[..WordLength(s)] ==> !IsSpace(c)
    ensures s[WordLength(s)..] == "" || IsSpace(s[WordLength(s)..][0])
  {
    if s != "" && !IsSpace(s[0]) {
      WordLengthWord(s[1..]);
      var n := WordLength(s[1..]);
      assert s[..1 + n] == [s[0]] + s[1..][..n];
      assert s[1 + n..] == s[1..][n..];
    }
  }

  lemma FieldsHead(pre: string, w: string, rest: string)
    requires AllSpace(pre) && Word(w) && (rest == "" || IsSpace(rest[0]))
    ensures Fields(pre + w + rest) == [w] + Fields(rest)
  {
    assert pre + w + rest == pre + (w + rest);
    TrimLeftFramed(pre, w + rest);
    WordLengthExact(w, rest);
    assert (w + rest)[..|w|] == w && (w + rest)[|w|..] == rest;
  }

  lemma FieldsParts(s: string) returns (pre: string, w: string, rest: string)
    requires Fields(s) != []
    ensures s == pre + w + rest && AllSpace(pre) && Word(w) && (rest == "" || IsSpace(rest[0]))
    ensures Fields(s) == [w] + Fields(rest)
  {
    pre := TrimLeftParts(s);
    var t := TrimLeft(s);
    WordLengthWord(t);
    w, rest := t[..WordLength(t)], t[WordLength(t)..];
    assert t == w + rest;
    assert pre + (w + rest) == pre + w + rest;
  }

  /** The second field of a line is a slash exactly when the line is an entry that mounts the root. */
  lemma SecondFieldIsRoot(line: string)
    ensures (|Fields(line)| >= 2 && Fields(line)[1] == "/") <==> MountsRoot(line)
  {
    if pre, device, gap, rest :| RootEntry(line, pre, device, gap, rest) {
      RootEntryFields(line, pre, device, gap, rest);
    }
    hide Fields, IsSpace;
    if |Fields(line)| >= 2 && Fields(line)[1] == "/" {
      var pre, device, more := FieldsParts(line);
      var gap, slash, rest := FieldsParts(more);
      assert slash == "/";
      assert gap != "" by { SlashIsNoSpace(gap, slash, rest, more); }
      assert pre + device + (gap + "/" + rest) == pre + device + gap + "/" + rest;
      assert RootEntry(line, pre, device, gap, rest);
    }
  }

  lemma RootEntryFields(line: string, pre: string, device: string, gap: string, rest: string)
    requires RootEntry(line, pre, device, gap, rest)
    ensures Fields(line) == [device] + (["/"] + Fields(rest))
  {
    SpaceFacts();
    hide Fields, IsSpace;
    var more := gap + "/" + rest;
    assert line == pre + device + more;
    assert more[0] == gap[0];
    FieldsHead(pre, device, more);
    FieldsHead(gap, "/", rest);
  }

  lemma SlashIsNoSpace(gap: string, slash: string, rest: string, more: string)
    requires slash == "/" && more == gap + slash + rest && (more == "" || IsSpace(more[0]))
    ensures gap != ""
  {
    SpaceFacts();
    hide IsSpace;
  }

  /** Every line that survives is blank, a comment, or an entry that mounts the root; all of these
      survive; and the survivors keep their order, since the filter distributes over concatenation. */
  lemma SurvivorsExactly(data: string, line: string)
    ensures line in KeptLines(Split(data, '\n')) <==>
      line in Split(data, '\n') && (BlankOrComment(line) || MountsRoot(Trim(line)))
  {
    KeptLinesAreKept(Split(data, '\n'));
    SecondFieldIsRoot(Trim(line));
  }

  lemma {:induction false} FilterKeepsOrder(a: seq<string>, b: seq<string>)
    ensures KeptLines(a + b) == KeptLines(a) + KeptLines(b)
  {
    hide Kept;
    if a == [] {
      assert a + b == b;
    } else {
      assert (a + b)[1..] == a[1..] + b;
      FilterKeepsOrder(a[1..], b);
    }
  }
}
