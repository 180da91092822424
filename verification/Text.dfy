/** Strings as the program uses them: white space, trimming, splitting, joining and decimal
    numerals, with the laws about them that the other modules build on. */
module Text {

  datatype Option<+T> = None | Some(value: T)

  /** White space in the sense of Go's unicode.IsSpace. */
  predicate IsSpace(c: char) {
    || '\t' <= c <= '\r' || c == ' ' || c == '\U{85}' || c == '\U{A0}' || c == '\U{1680}'
    || '\U{2000}' <= c <= '\U{200A}' || c == '\U{2028}' || c == '\U{2029}'
    || c == '\U{202F}' || c == '\U{205F}' || c == '\U{3000}'
  }

  lemma SpaceFacts()
    ensures forall c :: '!' <= c <= '~' ==> !IsSpace(c)
    ensures IsSpace(' ') && IsSpace('\t') && IsSpace('\n')
  {
  }

  predicate AllSpace(s: string) {
    forall c :: c in s ==> IsSpace(c)
  }

  predicate HasPrefix(s: string, p: string) {
    |p| <= |s| && s[..|p|] == p
  }

  predicate HasSuffix(s: string, p: string) {
    |p| <= |s| && s[|s| - |p|..] == p
  }

  /** No white space at either end, and not empty. */
  predicate Tight(s: string) {
    s != "" && !IsSpace(s[0]) && !IsSpace(s[|s| - 1])
  }

  function TrimLeft(s: string): string {
    if s != "" && IsSpace(s[0]) then TrimLeft(s[1..]) else s
  }

  function TrimRight(s: string): string {
    if s != "" && IsSpace(s[|s| - 1]) then TrimRight(s[..|s| - 1]) else s
  }

  /** strings.TrimSpace */
  function Trim(s: string): string {
    TrimRight(TrimLeft(s))
  }

  lemma {:induction false} TrimLeftParts(s: string) returns (pre: string)
    ensures AllSpace(pre) && s == pre + TrimLeft(s)
    ensures TrimLeft(s) == "" || !IsSpace(TrimLeft(s)[0])
  {
    pre := "";
    if s != "" && IsSpace(s[0]) {
      pre := TrimLeftParts(s[1..]);
      pre := [s[0]] + pre;
    }
  }

  lemma {:induction false} TrimRightParts(s: string) returns (post: string)
    ensures AllSpace(post) && s == TrimRight(s) + post
    ensures TrimRight(s) == "" || !IsSpace(TrimRight(s)[|TrimRight(s)| - 1])
  {
    post := "";
    if s != "" && IsSpace(s[|s| - 1]) {
      var p := TrimRightParts(s[..|s| - 1]);
      post := p + [s[|s| - 1]];
      assert s == s[..|s| - 1] + [s[|s| - 1]];
      assert TrimRight(s) + p + [s[|s| - 1]] == TrimRight(s) + post;
    }
  }

  /** Trimming takes white space off the two ends, as much as there is, and nothing else. */
  lemma TrimParts(s: string) returns (pre: string, post: string)
    ensures AllSpace(pre) && AllSpace(post) && s == pre + Trim(s) + post
    ensures Trim(s) == "" || Tight(Trim(s))
  {
    pre := TrimLeftParts(s);
    var l := TrimLeft(s);
    post := TrimRightParts(l);
    assert s == pre + (Trim(s) + post) == pre + Trim(s) + post;
    assert Trim(s) != "" ==> Trim(s)[0] == l[0];
  }

  lemma TrimmedOneLine(s: string)
    requires '\n' !in s
    ensures '\n' !in Trim(s) && (Trim(s) == "" || Tight(Trim(s)))
  {
    var pre, post := TrimParts(s);
  }

  lemma {:induction false} TrimLeftFramed(pre: string, s: string)
    requires AllSpace(pre)
    requires s == "" || !IsSpace(s[0])
    ensures TrimLeft(pre + s) == s
  {
    if pre == "" {
      assert pre + s == s;
    } else {
      assert (pre + s)[1..] == pre[1..] + s;
      TrimLeftFramed(pre[1..], s);
    }
  }

  lemma {:induction false} TrimRightFramed(s: string, post: string)
    requires AllSpace(post)
    requires s == "" || !IsSpace(s[|s| - 1])
    ensures TrimRight(s + post) == s
  {
    if post == "" {
      assert s + post == s;
    } else {
      assert (s + post)[..|s + post| - 1] == s + post[..|post| - 1];
      TrimRightFramed(s, post[..|post| - 1]);
    }
  }

  /** Trimming undoes any framing by white space. */
  lemma TrimFramed(pre: string, s: string, post: string)
    requires AllSpace(pre) && AllSpace(post) && Tight(s)
    ensures Trim(pre + s + post) == s
  {
    assert pre + s + post == pre + (s + post);
    TrimLeftFramed(pre, s + post);
    TrimRightFramed(s, post);
  }

  /** A text without white space at its ends is left alone. */
  lemma TrimTight(s: string)
    requires Tight(s)
    ensures Trim(s) == s
  {
    TrimFramed("", s, "");
    assert "" + s + "" == s;
  }

  lemma TrimKeeps(s: string, i: nat)
    requires i < |s| && !IsSpace(s[i])
    ensures s[i] in Trim(s)
  {
    var pre, post := TrimParts(s);
    assert Trim(s)[i - |pre|] == s[i];
  }

  lemma TrimKeepsFirst(s: string)
    requires s != "" && !IsSpace(s[0])
    ensures Trim(s) != "" && Trim(s)[0] == s[0]
  {
    var pre, post := TrimParts(s);
  }

  lemma TrimBlank(s: string)
    ensures AllSpace(s) <==> Trim(s) == ""
  {
    var pre, post := TrimParts(s);
    assert Trim(s) != "" ==> Trim(s)[0] in s;
  }

  // ---------------------------------------------------------------- splitting and joining

  /** strings.Split with a one-character separator. */
  function Split(s: string, sep: char): (r: seq<string>)
    ensures r != []
  {
    if s == "" then [""]
    else
      var rest := Split(s[1..], sep);
      if s[0] == sep then [""] + rest
      else [[s[0]] + rest[0]] + rest[1..]
  }

  lemma {:induction false} SplitParts(s: string, sep: char)
    ensures forall i :: 0 <= i < |Split(s, sep)| ==> sep !in Split(s, sep)[i]
  {
    if s != "" {
      SplitParts(s[1..], sep);
    }
  }

  /** strings.Join with a one-character separator. */
  function Join(lines: seq<string>, sep: char): string {
    if lines == [] then ""
    else if |lines| == 1 then lines[0]
    else lines[0] + [sep] + Join(lines[1..], sep)
  }

  lemma {:induction false} SplitSingle(s: string, sep: char)
    requires sep !in s
    ensures Split(s, sep) == [s]
  {
    if s != "" {
      SplitSingle(s[1..], sep);
      assert [s[0]] + s[1..] == s;
    }
  }

  lemma {:induction false} SplitConcat(a: string, b: string, sep: char)
    ensures Split(a + [sep] + b, sep) == Split(a, sep) + Split(b, sep)
  {
    if a == "" {
      assert (a + [sep] + b)[1..] == b;
    } else {
      assert (a + [sep] + b)[1..] == a[1..] + [sep] + b;
      SplitConcat(a[1..], b, sep);
    }
  }

  lemma {:induction false} JoinSplit(s: string, sep: char)
    ensures Join(Split(s, sep), sep) == s
  {
    if s != "" {
      var rest := Split(s[1..], sep);
      JoinSplit(s[1..], sep);
      if s[0] == sep {
        assert ([""] + rest)[1..] == rest;
        assert "" + [sep] + s[1..] == s;
      } else {
        JoinPrepend([s[0]], rest, sep);
      }
    }
  }

  lemma JoinPrepend(pre: string, lines: seq<string>, sep: char)
    requires lines != []
    ensures Join([pre + lines[0]] + lines[1..], sep) == pre + Join(lines, sep)
  {
    var r := [pre + lines[0]] + lines[1..];
    if |lines| > 1 {
      assert r[1..] == lines[1..];
      var tail := Join(lines[1..], sep);
      assert pre + lines[0] + [sep] + tail == pre + (lines[0] + [sep] + tail);
    }
  }

  lemma {:induction false} SplitJoin(lines: seq<string>, sep: char)
    requires lines != []
    requires forall i :: 0 <= i < |lines| ==> sep !in lines[i]
    ensures Split(Join(lines, sep), sep) == lines
  {
    SplitSingle(lines[0], sep);
    if |lines| > 1 {
      SplitJoin(lines[1..], sep);
      SplitConcat(lines[0], Join(lines[1..], sep), sep);
      assert lines == [lines[0]] + lines[1..];
    } else {
      assert lines == [lines[0]];
    }
  }

  /** The text that prints each line followed by a newline. */
  function Unlines(lines: seq<string>): string {
    if lines == [] then "" else lines[0] + "\n" + Unlines(lines[1..])
  }

  lemma {:induction false} UnlinesConcat(a: seq<string>, b: seq<string>)
    ensures Unlines(a + b) == Unlines(a) + Unlines(b)
  {
    if a == [] {
      assert a + b == b;
      assert "" + Unlines(b) == Unlines(b);
    } else {
      assert (a + b)[1..] == a[1..] + b;
      UnlinesConcat(a[1..], b);
      assert Unlines(a + b) == a[0] + "\n" + (Unlines(a[1..]) + Unlines(b));
    }
  }

  /** Joining puts a newline after every line but the last. */
  lemma {:induction false} JoinAsUnlines(front: seq<string>, last: string)
    ensures Join(front + [last], '\n') == Unlines(front) + last
  {
    if front == [] {
      assert front + [last] == [last] && "" + last == last;
    } else {
      var rest := front[1..];
      JoinAsUnlines(rest, last);
      assert (front + [last])[1..] == rest + [last];
      assert front[0] + "\n" + (Unlines(rest) + last) == front[0] + "\n" + Unlines(rest) + last;
    }
  }

  /** The first line of a text is the text up to its first newline. */
  lemma SplitFirstLine(line: string, more: string)
    requires '\n' !in line
    ensures Split(line + "\n" + more, '\n') == [line] + Split(more, '\n')
  {
    SplitConcat(line, more, '\n');
    SplitSingle(line, '\n');
  }

  predicate OneLiners(lines: seq<string>) {
    forall i :: 0 <= i < |lines| ==> '\n' !in lines[i]
  }

  lemma {:induction false} SplitAfter(front: seq<string>, tail: string)
    requires OneLiners(front)
    ensures Split(Unlines(front) + tail, '\n') == front + Split(tail, '\n')
  {
    if front == [] {
      assert Unlines(front) == "" && "" + tail == tail;
    } else {
      SplitAfter(front[1..], tail);
      SplitAfterLine(front[0], front[1..], tail);
      assert [front[0]] + front[1..] == front;
    }
  }

  lemma SplitAfterLine(line: string, rest: seq<string>, tail: string)
    requires '\n' !in line && Split(Unlines(rest) + tail, '\n') == rest + Split(tail, '\n')
    ensures Split(Unlines([line] + rest) + tail, '\n') == [line] + rest + Split(tail, '\n')
  {
    var more := Unlines(rest) + tail;
    assert Unlines([line] + rest) + tail == line + "\n" + more by {
      hide Split;
      assert ([line] + rest)[1..] == rest;
    }
    hide Split, Unlines;
    SplitFirstLine(line, more);
  }

  lemma SplitUnlines(lines: seq<string>)
    requires forall i :: 0 <= i < |lines| ==> '\n' !in lines[i]
    ensures Split(Unlines(lines), '\n') == lines + [""]
  {
    SplitAfter(lines, "");
    assert Unlines(lines) + "" == Unlines(lines);
  }

  // ---------------------------------------------------------------- decimal numerals

  predicate IsDigit(c: char) {
    '0' <= c <= '9'
  }

  function DigitValue(c: char): (d: nat)
    requires IsDigit(c)
    ensures d < 10
  {
    c as int - '0' as int
  }

  function DigitChar(d: nat): (c: char)
    requires d < 10
    ensures IsDigit(c) && DigitValue(c) == d
  {
    (d + '0' as int) as char
  }

  /** The shortest decimal numeral of n, as "%d" prints it. */
  function Decimal(n: nat): (s: string)
    ensures s != "" && forall i :: 0 <= i < |s| ==> IsDigit(s[i])
    ensures s[0] == '0' ==> n == 0
  {
    if n < 10 then [DigitChar(n)] else Decimal(n / 10) + [DigitChar(n % 10)]
  }

  /** The value of the digits of s read in order, every other character being skipped. */
  function DigitsValue(s: string): nat {
    if s == "" then 0
    else
      var v := DigitsValue(s[..|s| - 1]);
      var c := s[|s| - 1];
      if IsDigit(c) then 10 * v + DigitValue(c) else v
  }

  lemma {:induction false} DecimalValue(n: nat)
    ensures DigitsValue(Decimal(n)) == n
  {
    var s := Decimal(n);
    if n < 10 {
      assert s[..|s| - 1] == "";
    } else {
      DecimalValue(n / 10);
      assert s[..|s| - 1] == Decimal(n / 10);
    }
  }

  /** A numeral without a superfluous leading zero is the one Decimal prints. */
  lemma {:induction false} CanonicalNumeral(s: string)
    requires s != "" && forall i :: 0 <= i < |s| ==> IsDigit(s[i])
    requires |s| > 1 ==> s[0] != '0'
    ensures s == Decimal(DigitsValue(s))
    ensures s[0] != '0' ==> DigitsValue(s) > 0
  {
    var init, c := s[..|s| - 1], s[|s| - 1];
    assert s == init + [c];
    assert DigitChar(DigitValue(c)) == c;
    if |s| == 1 {
      assert init == "";
    } else {
      CanonicalNumeral(init);
      var v, d := DigitsValue(init), DigitValue(c);
      assert init[0] == s[0] && v > 0;
      assert (10 * v + d) / 10 == v && (10 * v + d) % 10 == d;
      assert DigitsValue(s) == 10 * v + d;
    }
  }
}
