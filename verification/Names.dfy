/** VM names (internal/vm/state.go) and the paths that mention them (cmd/fcm/cp.go). */
module Names {
  import opened Text

  predicate IsLetter(c: char) { 'a' <= c <= 'z' }

  predicate IsLetDig(c: char) { IsLetter(c) || IsDigit(c) }

  // The grammar of section 2.3.1 of RFC 1035, lower-case letters only.

  /** <ldh-str> ::= <let-dig-hyp> | <let-dig-hyp> <ldh-str> */
  predicate LdhStr(s: string) {
    s != "" && (IsLetDig(s[0]) || s[0] == '-') && (|s| == 1 || LdhStr(s[1..]))
  }

  /** <label> ::= <letter> [ [ <ldh-str> ] <let-dig> ], of at most 63 characters */
  predicate Label(s: string) {
    && 1 <= |s| <= 63
    && IsLetter(s[0])
    && (|s| == 1 || (IsLetDig(s[|s| - 1]) && (|s| == 2 || LdhStr(s[1..|s| - 1]))))
  }

  /** How many characters n bytes of UTF-8 can tell apart, section 3 of RFC 3629: one byte has seven free
      bits, the first of n bytes 7 - n, and every other one six. */
  function Capacity(n: nat): nat
    requires 1 <= n <= 4
  {
    if n == 1 then 128 else Power(7 - n) * Power(6 * (n - 1))
  }

  function Power(bits: nat): nat {
    if bits == 0 then 1 else 2 * Power(bits - 1)
  }

  /** The number of bytes of a character. */
  function Utf8Size(c: char): (n: nat)
    ensures 1 <= n <= 4
  {
    if c < '\U{80}' then 1 else if c < '\U{800}' then 2 else if c < '\U{10000}' then 3 else 4
  }

  /** It is the smallest that can hold the character. */
  lemma Utf8SizeLeast(c: char)
    ensures c as int < Capacity(Utf8Size(c))
    ensures forall n :: 1 <= n < Utf8Size(c) ==> Capacity(n) <= c as int
  {
    assert Power(5) == 32 && Power(4) == 16 && Power(3) == 8 && Power(6) == 64;
    assert Power(12) == 4096;
    assert Power(18) == 262144;
    assert Capacity(2) == 0x800 && Capacity(3) == 0x10000 && Capacity(4) == 0x200000;
  }

  /** The number of bytes of a text in UTF-8, which is what len counts. */
  function Utf8Length(s: string): (n: nat)
    ensures n >= |s|
  {
    if s == "" then 0 else Utf8Size(s[0]) + Utf8Length(s[1..])
  }

  lemma {:induction false} AsciiLength(s: string)
    requires forall i :: 0 <= i < |s| ==> s[i] < '\U{80}'
    ensures Utf8Length(s) == |s|
  {
    if s != "" {
      AsciiLength(s[1..]);
    }
  }

  datatype NameError = Valid | Empty | TooLong | InvalidCharacter(index: nat) | LeadingDigit

  predicate Allowed(name: string, i: nat)
    requires i < |name|
  {
    IsLetDig(name[i]) || (name[i] == '-' && 0 < i < |name| - 1)
  }

  /** ValidateName accepts exactly the labels, and otherwise names the first reason. */
  method ValidateName(name: string) returns (r: NameError)
    ensures r == Valid <==> Label(name)
    ensures r == Empty <==> name == ""
    ensures r == TooLong <==> Utf8Length(name) > 63
    ensures r.InvalidCharacter? ==>
      (r.index < |name| && !Allowed(name, r.index) && forall j :: 0 <= j < r.index ==> Allowed(name, j))
    ensures r == LeadingDigit ==>
      (name != "" && IsDigit(name[0]) && forall j :: 0 <= j < |name| ==> Allowed(name, j))
  {
    if |name| == 0 {
      return Empty;
    }
    if Utf8Length(name) > 63 {
      if Label(name) {
        LabelCharacters(name);
        AsciiLength(name);
      }
      return TooLong;
    }
    for i := 0 to |name|
      invariant forall j :: 0 <= j < i ==> Allowed(name, j)
    {
      var c := name[i];
      if 'a' <= c <= 'z' {
        continue;
      }
      if '0' <= c <= '9' {
        continue;
      }
      if c == '-' && i > 0 && i < |name| - 1 {
        continue;
      }
      if |name| > 2 {
        LdhCharacters(name[1..|name| - 1]);
        assert 0 < i < |name| - 1 ==> name[i] == name[1..|name| - 1][i - 1];
      }
      return InvalidCharacter(i);
    }
    if |name| > 2 {
      var mid := name[1..|name| - 1];
      LdhCharacters(mid);
      assert forall j :: 0 <= j < |mid| ==> mid[j] == name[j + 1] && Allowed(name, j + 1);
    }
    assert Allowed(name, 0) && Allowed(name, |name| - 1);
    if IsDigit(name[0]) {
      return LeadingDigit;
    }
    return Valid;
  }

  lemma {:induction false} LdhCharacters(s: string)
    ensures LdhStr(s) <==> s != "" && forall i :: 0 <= i < |s| ==> IsLetDig(s[i]) || s[i] == '-'
  {
    if |s| > 1 {
      LdhCharacters(s[1..]);
      assert forall i :: 1 <= i < |s| ==> s[i] == s[1..][i - 1];
    }
  }

  /** Every character of a label is a letter, a digit or a hyphen. */
  lemma LabelCharacters(name: string)
    requires Label(name)
    ensures forall i :: 0 <= i < |name| ==> IsLetDig(name[i]) || name[i] == '-'
  {
    if |name| > 2 {
      var mid := name[1..|name| - 1];
      LdhCharacters(mid);
      assert forall i :: 1 <= i < |name| - 1 ==> name[i] == mid[i - 1];
    }
  }

  // ---------------------------------------------------------------- paths into a VM

  datatype Location = Location(vm: string, path: string, remote: bool)

  /** The position of the first occurrence of c, or -1. */
  function IndexOfChar(s: string, c: char): (i: int)
    ensures -1 <= i < |s|
    ensures i >= 0 ==> s[i] == c && c !in s[..i]
    ensures i < 0 <==> c !in s
  {
    if s == "" then -1
    else if s[0] == c then 0
    else
      var i := IndexOfChar(s[1..], c);
      assert s == [s[0]] + s[1..];
      assert i >= 0 ==> s[..i + 1] == [s[0]] + s[1..][..i];
      if i < 0 then -1 else i + 1
  }

  function ParseVMPath(arg: string): Location {
    var idx := IndexOfChar(arg, ':');
    if idx <= 0 then Location("", arg, false)
    else
      var prefix := arg[..idx];
      if '/' in prefix || '\\' in prefix then Location("", arg, false)
      else Location(prefix, arg[idx + 1..], true)
  }

  /** An argument is read as a path inside a VM exactly when it is spelled name, colon, path with a
      non-empty name free of colons and path separators. */
  lemma ParseVMPathExact(arg: string, name: string, path: string)
    ensures ParseVMPath(arg) == Location(name, path, true) <==>
      arg == name + ":" + path && name != "" && ':' !in name && '/' !in name && '\\' !in name
  {
    var idx := IndexOfChar(arg, ':');
    if arg == name + ":" + path && ':' !in name {
      assert arg[|name|] == ':';
      assert idx == |name|;
    } else if idx > 0 {
      assert arg == arg[..idx] + [arg[idx]] + arg[idx + 1..];
    }
  }

  /** Every name that ValidateName accepts can be used in a path. */
  lemma AcceptedNameRoundTrip(name: string, path: string)
    requires Label(name)
    ensures ParseVMPath(name + ":" + path) == Location(name, path, true)
  {
    LabelCharacters(name);
    ParseVMPathExact(name + ":" + path, name, path);
  }
}
