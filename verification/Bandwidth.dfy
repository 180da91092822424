/** Bandwidth limits (parseBandwidth and parseInt64 in cmd/fcm/configure_vm.go), in 64-bit arithmetic. */
module Bandwidth {
  import opened Text

  const Two63 := 0x8000_0000_0000_0000
  const Two64 := 0x1_0000_0000_0000_0000

  /** The int64 that holds x after wrapping around. */
  function Wrap(x: int): int {
    (x + Two63) % Two64 - Two63
  }

  lemma WrapExact(x: int)
    ensures Wrap(x) == x <==> -Two63 <= x < Two63
  {
  }

  lemma WrapMultiple(x: int) returns (k: int)
    ensures Wrap(x) == x - k * Two64
  {
    k := (x + Two63) / Two64;
  }

  lemma WrapShift(x: int, k: int)
    ensures Wrap(x + k * Two64) == Wrap(x)
  {
    var q, r := (x + Two63) / Two64, (x + Two63) % Two64;
    assert x + k * Two64 + Two63 == (q + k) * Two64 + r;
  }

  /** Wrapping in between does not matter, neither for a product nor for a product plus a digit. */
  lemma WrapProduct(x: int, m: int)
    ensures Wrap(Wrap(x) * m) == Wrap(x * m)
  {
    var k := WrapMultiple(x);
    assert (x - k * Two64) * m == x * m - k * Two64 * m;
    assert k * Two64 * m == k * m * Two64;
    WrapShift(x * m, -k * m);
  }

  lemma WrapScale(x: int, m: int, d: int)
    ensures Wrap(Wrap(Wrap(x) * m) + d) == Wrap(x * m + d)
  {
    WrapProduct(x, m);
    var k := WrapMultiple(x * m);
    assert Wrap(x * m) + d == x * m + d + -k * Two64;
    WrapShift(x * m + d, -k);
  }

  /** parseInt64: digit by digit, other characters skipped, every operation wrapping. The result is the
      wrapped value of the digits. */
  method ParseInt64(s: string) returns (v: int)
    ensures v == Wrap(DigitsValue(s))
  {
    v := 0;
    for i := 0 to |s|
      invariant v == Wrap(DigitsValue(s[..i]))
    {
      var c := s[i];
      assert s[..i + 1][..i] == s[..i];
      if '0' <= c <= '9' {
        WrapScale(DigitsValue(s[..i]), 10, DigitValue(c));
        v := Wrap(Wrap(v * 10) + (c as int - '0' as int));
        assert DigitsValue(s[..i]) * 10 == 10 * DigitsValue(s[..i]);
      }
    }
    assert s[..|s|] == s;
  }

  /** If the digits of the whole text fit, so do those of every part read on the way. */
  lemma {:induction false} NoIntermediateOverflow(s: string, i: nat)
    requires i <= |s| && DigitsValue(s) < Two63
    ensures DigitsValue(s[..i]) < Two63 && Wrap(DigitsValue(s[..i])) == DigitsValue(s[..i])
    decreases |s|
  {
    if i < |s| {
      var init := s[..|s| - 1];
      assert DigitsValue(init) <= DigitsValue(s);
      NoIntermediateOverflow(init, i);
      assert init[..i] == s[..i];
    } else {
      assert s[..i] == s;
    }
  }

  /** strings.ToLower, as far as it can matter: two characters outside ASCII have ASCII lower-case forms,
      the Kelvin sign and the dotted I. The lower-case forms of all others are neither digit, white
      space nor letter of a unit. */
  function Lower(c: char): char {
    if 'A' <= c <= 'Z' then (c as int + 32) as char
    else if c == '\U{212A}' then 'k'
    else if c == '\U{0130}' then 'i'
    else c
  }

  function LowerAll(s: string): string {
    seq(|s|, i requires 0 <= i < |s| => Lower(s[i]))
  }

  function UnitOf(s: string): int {
    if HasSuffix(s, "gbps") then 1_000_000_000
    else if HasSuffix(s, "mbps") then 1_000_000
    else if HasSuffix(s, "kbps") then 1_000
    else 1
  }

  function Bandwidth(s: string): int {
    var t := Trim(LowerAll(s));
    Wrap(DigitsValue(t) * UnitOf(t))
  }

  lemma UnitLength(t: string)
    ensures HasSuffix(t, "gbps") || HasSuffix(t, "mbps") || HasSuffix(t, "kbps") ==> |t| >= 4
  {
  }

  lemma UnitHasNoDigits(s: string, unit: string)
    requires HasSuffix(s, unit) && |unit| == 4
    requires unit[1..] == "bps" && !IsDigit(unit[0])
    ensures DigitsValue(s[..|s| - 4]) == DigitsValue(s)
  {
    var n := |s|;
    assert s[n - 4..] == unit;
    assert s[n - 4] == unit[0] && s[n - 3] == unit[1] && s[n - 2] == unit[2] && s[n - 1] == unit[3];
    assert unit[1] == unit[1..][0] && unit[2] == unit[1..][1] && unit[3] == unit[1..][2];
    assert s[..n - 1][..n - 2] == s[..n - 2] && s[..n - 2][..n - 3] == s[..n - 3] && s[..n - 3][..n - 4] == s[..n - 4];
    assert DigitsValue(s) == DigitsValue(s[..n - 1]) == DigitsValue(s[..n - 2]);
    assert DigitsValue(s[..n - 2]) == DigitsValue(s[..n - 3]) == DigitsValue(s[..n - 4]);
  }

  // ---------------------------------------------------------------- what a text says

  datatype Unit = Bytes | Kbps | Mbps | Gbps

  function Suffix(u: Unit): string {
    match u
    case Bytes => ""
    case Kbps => "kbps"
    case Mbps => "mbps"
    case Gbps => "gbps"
  }

  function Factor(u: Unit): int {
    match u
    case Bytes => 1
    case Kbps => 1_000
    case Mbps => 1_000_000
    case Gbps => 1_000_000_000
  }

  /** The two are the same letter up to case; the Kelvin sign counts as a k. */
  predicate SameLetter(c: char, letter: char) {
    || c == letter
    || (c == 'K' && letter == 'k') || (c == '\U{212A}' && letter == 'k')
    || (c == 'M' && letter == 'm') || (c == 'G' && letter == 'g')
    || (c == 'B' && letter == 'b') || (c == 'P' && letter == 'p') || (c == 'S' && letter == 's')
  }

  predicate Spells(text: string, word: string) {
    |text| == |word| && forall i :: 0 <= i < |word| ==> SameLetter(text[i], word[i])
  }

  /** The text ends in a spelling of the unit's suffix, perhaps with white space after it. */
  ghost predicate EndsIn(s: string, u: Unit) {
    exists body, suffix, post :: EndsWith(s, u, body, suffix, post)
  }

  predicate EndsWith(s: string, u: Unit, body: string, suffix: string, post: string) {
    s == body + suffix + post && Spells(suffix, Suffix(u)) && AllSpace(post)
  }

  lemma LowerLetter(c: char, letter: char)
    requires letter in "kmgbps"
    ensures Lower(c) == letter <==> SameLetter(c, letter)
  {
  }

  lemma LowerKeeps(c: char)
    ensures IsSpace(Lower(c)) <==> IsSpace(c)
    ensures IsDigit(Lower(c)) <==> IsDigit(c)
    ensures IsDigit(c) ==> Lower(c) == c
  {
  }

  lemma LowerSpells(text: string, u: Unit)
    ensures LowerAll(text) == Suffix(u) <==> Spells(text, Suffix(u))
  {
    forall i | 0 <= i < |text| && |text| == |Suffix(u)|
      ensures Lower(text[i]) == Suffix(u)[i] <==> SameLetter(text[i], Suffix(u)[i])
    {
      LowerLetter(text[i], Suffix(u)[i]);
    }
  }

  lemma LowerSpace(s: string)
    ensures AllSpace(LowerAll(s)) <==> AllSpace(s)
  {
    forall i | 0 <= i < |s| ensures IsSpace(LowerAll(s)[i]) <==> IsSpace(s[i]) {
      LowerKeeps(s[i]);
    }
    forall c | c in s ensures AllSpace(LowerAll(s)) ==> IsSpace(c) {
      var i :| 0 <= i < |s| && s[i] == c;
      assert LowerAll(s)[i] in LowerAll(s);
    }
  }

  /** Capitals and white space do not change what the digits say. */
  lemma {:induction false} LowerDigits(s: string)
    ensures DigitsValue(LowerAll(s)) == DigitsValue(s)
    decreases |s|
  {
    if s != "" {
      var n := |s| - 1;
      assert LowerAll(s)[..n] == LowerAll(s[..n]);
      LowerDigits(s[..n]);
      LowerKeeps(s[n]);
    }
  }

  lemma {:induction false} SpaceHasNoDigits(pre: string, s: string, post: string)
    requires AllSpace(pre) && AllSpace(post)
    ensures DigitsValue(pre + s + post) == DigitsValue(s)
    decreases |pre| + |s| + |post|
  {
    var t := pre + s + post;
    SpaceFacts();
    if post != "" {
      assert t[|t| - 1] == post[|post| - 1] && post[|post| - 1] in post;
      assert t[..|t| - 1] == pre + s + post[..|post| - 1];
      SpaceHasNoDigits(pre, s, post[..|post| - 1]);
    } else if s != "" {
      assert t[..|t| - 1] == pre + s[..|s| - 1] + "";
      SpaceHasNoDigits(pre, s[..|s| - 1], "");
    } else if pre != "" {
      assert t == pre && t[|t| - 1] in pre;
      assert t[..|t| - 1] == pre[..|pre| - 1] + "" + "";
      SpaceHasNoDigits(pre[..|pre| - 1], "", "");
    }
  }

  lemma TrimmedDigits(s: string)
    ensures DigitsValue(Trim(LowerAll(s))) == DigitsValue(s)
  {
    var pre, post := TrimParts(LowerAll(s));
    SpaceHasNoDigits(pre, Trim(LowerAll(s)), post);
    LowerDigits(s);
  }

  /** The suffix the program looks for is there exactly when the text ends in a spelling of it. */
  lemma SuffixExactly(s: string, u: Unit)
    requires u != Bytes
    ensures HasSuffix(Trim(LowerAll(s)), Suffix(u)) <==> EndsIn(s, u)
  {
    if HasSuffix(Trim(LowerAll(s)), Suffix(u)) {
      SuffixFound(s, u);
    }
    if EndsIn(s, u) {
      var body, suffix, post :| EndsWith(s, u, body, suffix, post);
      SuffixSeen(s, u, body, suffix, post);
    }
  }

  lemma SuffixFound(s: string, u: Unit)
    requires u != Bytes && HasSuffix(Trim(LowerAll(s)), Suffix(u))
    ensures EndsIn(s, u)
  {
    var l := LowerAll(s);
    var pre, post := TrimParts(l);
    var t := Trim(l);
    UnitLength(t);
    var j, k := |l| - |post| - 4, |l| - |post|;
    var body, suffix, rest := s[..j], s[j..k], s[k..];
    assert s == body + suffix + rest;
    assert LowerAll(rest) == l[k..] == post;
    assert LowerAll(suffix) == l[j..k] == t[|t| - 4..] == Suffix(u);
    LowerSpace(rest);
    LowerSpells(suffix, u);
    assert EndsWith(s, u, body, suffix, rest);
  }

  lemma SuffixSeen(s: string, u: Unit, body: string, suffix: string, post: string)
    requires u != Bytes && EndsWith(s, u, body, suffix, post)
    ensures HasSuffix(Trim(LowerAll(s)), Suffix(u))
  {
    var l, a, b := LowerAll(s), LowerAll(body), LowerAll(post);
    LowerSpells(suffix, u);
    LowerSpace(post);
    assert l == a + Suffix(u) + b;
    TrimBehind(a, Suffix(u), b);
  }

  lemma TrimBehind(a: string, word: string, b: string)
    requires AllSpace(b) && |word| == 4 && forall i :: 0 <= i < |word| ==> '!' <= word[i] <= '~'
    ensures HasSuffix(Trim(a + word + b), word)
  {
    SpaceFacts();
    var pre, _ := TrimLeftPart(a);
    var core := a[|pre|..] + word;
    assert core != "" && core[|core| - 1] == word[3];
    assert core[0] == if a[|pre|..] == "" then word[0] else a[|pre|];
    assert a + word + b == pre + core + b;
    TrimFramed(pre, core, b);
    assert core[|core| - 4..] == word;
  }

  /** The white space a text begins with. */
  lemma TrimLeftPart(a: string) returns (pre: string, rest: string)
    ensures a == pre + rest && AllSpace(pre) && (rest == "" || !IsSpace(rest[0]))
  {
    pre := TrimLeftParts(a);
    rest := TrimLeft(a);
  }

  lemma SuffixDecides(s: string)
    ensures EndsIn(s, Gbps) ==> !EndsIn(s, Mbps) && !EndsIn(s, Kbps)
    ensures EndsIn(s, Mbps) ==> !EndsIn(s, Kbps)
    ensures forall u :: u != Bytes && EndsIn(s, u) ==> UnitOf(Trim(LowerAll(s))) == Factor(u)
    ensures (forall u :: u != Bytes ==> !EndsIn(s, u)) ==> UnitOf(Trim(LowerAll(s))) == 1
  {
    SuffixExactly(s, Kbps);
    SuffixExactly(s, Mbps);
    SuffixExactly(s, Gbps);
    OneSuffix(Trim(LowerAll(s)));
    hide LowerAll, Trim, EndsIn, HasSuffix;
    forall u | u != Bytes && EndsIn(s, u) ensures UnitOf(Trim(LowerAll(s))) == Factor(u) {
      assert u == Kbps || u == Mbps || u == Gbps;
    }
  }

  lemma OneSuffix(t: string)
    ensures HasSuffix(t, "gbps") ==> !HasSuffix(t, "mbps") && !HasSuffix(t, "kbps")
    ensures HasSuffix(t, "mbps") ==> !HasSuffix(t, "kbps")
  {
    assert "gbps"[0] != "mbps"[0] && "gbps"[0] != "kbps"[0] && "mbps"[0] != "kbps"[0];
  }

  /** For every text, the value of its digits times its unit, wrapped. */
  lemma BandwidthOf(s: string)
    ensures forall u :: u != Bytes && EndsIn(s, u) ==> Bandwidth(s) == Wrap(DigitsValue(s) * Factor(u))
    ensures (forall u :: u != Bytes ==> !EndsIn(s, u)) ==> Bandwidth(s) == Wrap(DigitsValue(s))
  {
    SuffixDecides(s);
    TrimmedDigits(s);
    hide DigitsValue, Trim, LowerAll, EndsIn, Wrap, UnitOf;
    assert DigitsValue(s) * 1 == DigitsValue(s);
  }

  /** parseBandwidth: every text is read as its digits times the unit it ends in, whatever the case of the
      letters and the white space around; a number with a unit comes out exactly if and only if it fits. */
  method ParseBandwidth(s: string) returns (r: int)
    ensures r == Bandwidth(s)
    ensures forall u :: u != Bytes && EndsIn(s, u) ==> r == Wrap(DigitsValue(s) * Factor(u))
    ensures (forall u :: u != Bytes ==> !EndsIn(s, u)) ==> r == Wrap(DigitsValue(s))
    ensures forall pre, n: nat, suffix, post, u :: Written(s, pre, n, suffix, post, u) ==>
      (r == n * Factor(u) <==> n * Factor(u) < Two63)
  {
    BandwidthOf(s);
    forall pre, n: nat, suffix, post, u | Written(s, pre, n, suffix, post, u)
      ensures Bandwidth(s) == n * Factor(u) <==> n * Factor(u) < Two63
    {
      BandwidthExact(s, pre, n, suffix, post, u);
    }
    r := ReadBandwidth(s);
  }

  method ReadBandwidth(s: string) returns (r: int)
    ensures r == Bandwidth(s)
  {
    hide Wrap, DigitsValue, Trim, LowerAll, HasSuffix;
    var t := Trim(LowerAll(s));
    UnitLength(t);
    var val;
    if HasSuffix(t, "gbps") {
      UnitHasNoDigits(t, "gbps");
      val := ParseInt64(t[..|t| - 4]);
      WrapProduct(DigitsValue(t), 1_000_000_000);
      return Wrap(val * 1_000_000_000);
    }
    if HasSuffix(t, "mbps") {
      UnitHasNoDigits(t, "mbps");
      val := ParseInt64(t[..|t| - 4]);
      WrapProduct(DigitsValue(t), 1_000_000);
      return Wrap(val * 1_000_000);
    }
    if HasSuffix(t, "kbps") {
      UnitHasNoDigits(t, "kbps");
      val := ParseInt64(t[..|t| - 4]);
      WrapProduct(DigitsValue(t), 1_000);
      return Wrap(val * 1_000);
    }
    r := ParseInt64(t);
  }

  /** A number in decimal and a unit, in any spelling, with white space before and after. */
  predicate Written(s: string, pre: string, n: nat, suffix: string, post: string, u: Unit) {
    s == pre + Decimal(n) + suffix + post && AllSpace(pre) && AllSpace(post) && Spells(suffix, Suffix(u))
  }

  /** It is read as that many times the unit exactly when the result fits. */
  lemma BandwidthExact(s: string, pre: string, n: nat, suffix: string, post: string, u: Unit)
    requires Written(s, pre, n, suffix, post, u)
    ensures Bandwidth(s) == n * Factor(u) <==> n * Factor(u) < Two63
  {
    WrittenDigits(s, pre, n, suffix, post, u);
    BandwidthOf(s);
    if u == Bytes {
      BareNumber(s, pre, n, post);
    } else {
      assert EndsWith(s, u, pre + Decimal(n), suffix, post);
    }
    assert n * Factor(u) >= 0;
    WrapExact(n * Factor(u));
    hide Bandwidth, Wrap, DigitsValue, EndsIn;
  }

  lemma WrittenDigits(s: string, pre: string, n: nat, suffix: string, post: string, u: Unit)
    requires Written(s, pre, n, suffix, post, u)
    ensures DigitsValue(s) == n
  {
    assert s == pre + (Decimal(n) + suffix) + post;
    SpaceHasNoDigits(pre, Decimal(n) + suffix, post);
    LettersHaveNoDigits(Decimal(n), suffix, u);
    DecimalValue(n);
  }

  lemma LettersHaveNoDigits(s: string, suffix: string, u: Unit)
    requires Spells(suffix, Suffix(u))
    ensures DigitsValue(s + suffix) == DigitsValue(s)
  {
    forall i | 0 <= i < |suffix| ensures !IsDigit(suffix[i]) {
      assert SameLetter(suffix[i], Suffix(u)[i]);
    }
    NoDigitsBehind(s, suffix);
  }

  lemma {:induction false} NoDigitsBehind(s: string, more: string)
    requires forall i :: 0 <= i < |more| ==> !IsDigit(more[i])
    ensures DigitsValue(s + more) == DigitsValue(s)
    decreases |more|
  {
    var t := s + more;
    if more == "" {
      assert t == s;
    } else {
      assert t[..|t| - 1] == s + more[..|more| - 1];
      NoDigitsBehind(s, more[..|more| - 1]);
    }
  }

  lemma BareNumber(s: string, pre: string, n: nat, post: string)
    requires AllSpace(post) && s == pre + Decimal(n) + "" + post
    ensures forall u :: u != Bytes ==> !EndsIn(s, u)
  {
    forall u, body, suffix, rest | u != Bytes ensures !EndsWith(s, u, body, suffix, rest) {
      NumberEndsInDigit(s, pre, n, post, u, body, suffix, rest);
    }
  }

  lemma NumberEndsInDigit(s: string, pre: string, n: nat, post: string, u: Unit, body: string, suffix: string,
                          rest: string)
    requires AllSpace(post) && s == pre + Decimal(n) + "" + post && u != Bytes
    ensures !EndsWith(s, u, body, suffix, rest)
  {
    SpaceFacts();
    var last := |pre| + |Decimal(n)| - 1;
    assert s[last] == Decimal(n)[|Decimal(n)| - 1] && IsDigit(s[last]);
    if EndsWith(s, u, body, suffix, rest) {
      var k := |body| + 3;
      assert s[k] == suffix[3] && SameLetter(suffix[3], Suffix(u)[3]);
      assert forall i :: k < i < |s| ==> s[i] in rest;
      assert forall i :: last < i < |s| ==> s[i] in post;
    }
  }
}
