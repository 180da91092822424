/** The user-data that templates are merged into (internal/cloudinit/iso.go). */
module UserData {
  import opened Text
  import opened CloudInit
  import Names

  /** defaultUserData, the text that templates are merged into; the generated password is a parameter. */
  function DefaultUserData(hostname: string, sshPubKey: string, password: string): seq<string> {
    HostLines(hostname) + UserLines() + KeyLines(sshPubKey, Trim(sshPubKey)) + PasswordLines(password) + LoginLines()
  }

  function HostLines(hostname: string): seq<string> {
    ["#cloud-config", "hostname: " + hostname, "manage_etc_hosts: true"]
  }

  function UserLines(): seq<string> {
    ["users:", "  - name: root", "    lock_passwd: false"]
  }

  function KeyLines(sshPubKey: string, trimmed: string): seq<string> {
    (if sshPubKey != "" then ["    ssh_authorized_keys:", "      - " + trimmed] else [])
    + (if trimmed != "" then ["ssh_authorized_keys:", "  - " + trimmed] else [])
  }

  function PasswordLines(password: string): seq<string> {
    ["chpasswd:", "  list: |", "    root:" + password, "  expire: false"]
  }

  function LoginLines(): seq<string> {
    ["ssh_pwauth: true", "disable_root: false"]
  }

  /** The one line comes right after the other. */
  predicate Follows(lines: seq<string>, first: string, second: string) {
    exists i :: 0 <= i < |lines| - 1 && lines[i] == first && lines[i + 1] == second
  }

  /** What the text sets: the host name; the user root, who may log in, with the password; and the key, if
      there is one, under root and once more for everybody. */
  lemma DefaultSettings(hostname: string, sshPubKey: string, password: string)
    ensures var lines, key := DefaultUserData(hostname, sshPubKey, password), Trim(sshPubKey);
      && |lines| > 1 && lines[0] == "#cloud-config" && lines[1] == "hostname: " + hostname
      && Follows(lines, "users:", "  - name: root") && Follows(lines, "  - name: root", "    lock_passwd: false")
      && Follows(lines, "chpasswd:", "  list: |") && Follows(lines, "  list: |", "    root:" + password)
      && Follows(lines, "    root:" + password, "  expire: false")
      && "ssh_pwauth: true" in lines && "disable_root: false" in lines && "manage_etc_hosts: true" in lines
      && (sshPubKey != "" ==> Follows(lines, "    ssh_authorized_keys:", "      - " + key))
      && (key != "" ==> Follows(lines, "ssh_authorized_keys:", "  - " + key))
  {
    var lines, key := DefaultUserData(hostname, sshPubKey, password), Trim(sshPubKey);
    var keys := KeyLines(sshPubKey, key);
    var n := 6 + |keys|;
    hide Trim;
    assert lines[1] == "hostname: " + hostname && lines[2] == "manage_etc_hosts: true";
    assert lines[3] == "users:" && lines[4] == "  - name: root" && lines[5] == "    lock_passwd: false";
    assert lines[n] == "chpasswd:" && lines[n + 1] == "  list: |" && lines[n + 2] == "    root:" + password;
    assert lines[n + 3] == "  expire: false" && lines[n + 4] == "ssh_pwauth: true";
    assert lines[n + 5] == "disable_root: false";
    if sshPubKey != "" {
      assert keys[0] == "    ssh_authorized_keys:" && keys[1] == "      - " + key;
      assert lines[6] == keys[0] && lines[7] == keys[1];
    }
    if key != "" {
      var k := |keys| - 2;
      assert keys[k] == "ssh_authorized_keys:" && keys[k + 1] == "  - " + key;
      assert lines[6 + k] == keys[k] && lines[7 + k] == keys[k + 1];
    }
  }

  /** Without a key no key is set. */
  lemma NoKeyNoSetting(hostname: string, password: string)
    ensures var lines := DefaultUserData(hostname, "", password);
      forall i :: 0 <= i < |lines| ==> lines[i] != "    ssh_authorized_keys:" && lines[i] != "ssh_authorized_keys:"
  {
    var lines := DefaultUserData(hostname, "", password);
    assert Trim("") == "";
    assert |lines| == 12;
    assert lines[1][0] == 'h' && lines[8][4] == 'r';
    assert "    ssh_authorized_keys:"[4] == 's' && "ssh_authorized_keys:"[0] == 's';
  }

  /** A line that opens neither list. */
  predicate Quiet(line: string) {
    !Classify(line).PackagesKey? && !Classify(line).RuncmdKey?
  }

  predicate QuietText(text: string) {
    forall line :: line in Split(text, '\n') ==> Quiet(line)
  }

  lemma {:induction false} FeedQuiet(lines: seq<string>)
    requires forall line :: line in lines ==> Quiet(line)
    ensures Feed(Start, lines) == Start
    decreases lines
  {
    if lines != [] {
      assert Quiet(lines[0]);
      AppendLaws(Start.lists, Start.lists, Start.lists);
      FeedQuiet(lines[1..]);
    }
  }

  /** A printable character that occurs in neither key makes a line quiet. */
  lemma QuietBy(line: string, i: nat)
    requires '\n' !in line && i < |line| && !IsSpace(line[i])
    requires line[i] !in "packages:" && line[i] !in "runcmd:"
    ensures QuietText(line)
  {
    SplitSingle(line, '\n');
    TrimKeeps(line, i);
  }

  /** The program's own lines never open a list, and neither does a key on one line; a key that
      spans lines must not contain a line reading `packages:` or `runcmd:` after its first. */
  predicate HarmlessKey(sshPubKey: string) {
    forall i :: 1 <= i < |Split(Trim(sshPubKey), '\n')| ==> Quiet(Split(Trim(sshPubKey), '\n')[i])
  }

  lemma OneLineKeyIsHarmless(sshPubKey: string)
    requires '\n' !in Trim(sshPubKey)
    ensures HarmlessKey(sshPubKey)
  {
    SplitSingle(Trim(sshPubKey), '\n');
  }

  lemma {:induction false} QuietUnlines(lines: seq<string>)
    requires forall i :: 0 <= i < |lines| ==> QuietText(lines[i])
    ensures QuietText(Unlines(lines))
  {
    if lines == [] {
      SplitSingle("", '\n');
      QuietEmpty();
    } else {
      QuietUnlines(lines[1..]);
      SplitConcat(lines[0], Unlines(lines[1..]), '\n');
      assert Unlines(lines) == lines[0] + ['\n'] + Unlines(lines[1..]);
    }
  }

  lemma QuietEmpty()
    ensures Quiet("")
  {
    ClassifyKeys("");
  }

  /** The key's lines stay quiet behind the dash they are printed with. */
  lemma QuietKeyLine(dash: string, sshPubKey: string)
    requires HarmlessKey(sshPubKey)
    requires dash == "      - " || dash == "  - "
    ensures QuietText(dash + Trim(sshPubKey))
  {
    var key := Trim(sshPubKey);
    var lines := Split(key, '\n');
    SplitBehind(dash, key);
    SplitParts(key, '\n');
    QuietDash(dash, lines[0]);
  }

  lemma SplitBehind(pre: string, s: string)
    requires '\n' !in pre
    ensures Split(pre + s, '\n') == [pre + Split(s, '\n')[0]] + Split(s, '\n')[1..]
  {
    if pre == "" {
      assert pre + s == s;
      var lines := Split(s, '\n');
      assert pre + lines[0] == lines[0] && lines == [lines[0]] + lines[1..];
    } else {
      assert (pre + s)[1..] == pre[1..] + s;
      SplitBehind(pre[1..], s);
      assert [pre[0]] + (pre[1..] + Split(s, '\n')[0]) == pre + Split(s, '\n')[0];
    }
  }

  lemma QuietDash(dash: string, rest: string)
    requires dash == "      - " || dash == "  - "
    requires '\n' !in rest
    ensures Quiet(dash + rest)
  {
    var line := dash + rest;
    assert line[|dash| - 2] == '-';
    SplitSingle(line, '\n');
    QuietBy(line, |dash| - 2);
    assert line in Split(line, '\n');
  }

  lemma ClassifyOther(line: string)
    requires line != "" && !IsSpace(line[0]) && line[0] !in "#pr"
    ensures Classify(line) == OtherKey
  {
    TrimKeepsFirst(line);
    NotKeys(Trim(line));
  }

  lemma QuietColumnZero(line: string)
    requires '\n' !in line && line != "" && !IsSpace(line[0]) && line[0] !in "#pr"
    ensures QuietText(line)
  {
    SplitSingle(line, '\n');
    ClassifyOther(line);
  }

  lemma DefaultUserDataQuiet(hostname: string, sshPubKey: string, password: string)
    requires Names.Label(hostname) && '\n' !in password && HarmlessKey(sshPubKey)
    ensures QuietText(Unlines(DefaultUserData(hostname, sshPubKey, password)))
  {
    Names.LabelCharacters(hostname);
    QuietHost(hostname);
    QuietUser();
    QuietKeyLines(sshPubKey);
    QuietPassword(password);
    QuietLogin();
    QuietUnlines(DefaultUserData(hostname, sshPubKey, password));
  }

  lemma QuietHost(hostname: string)
    requires '\n' !in hostname
    ensures forall i :: 0 <= i < |HostLines(hostname)| ==> QuietText(HostLines(hostname)[i])
  {
    hide QuietText, Trim;
    QuietBy("#cloud-config", 3);
    QuietBy("hostname: " + hostname, 0);
    QuietColumnZero("manage_etc_hosts: true");
  }

  lemma QuietUser()
    ensures forall i :: 0 <= i < |UserLines()| ==> QuietText(UserLines()[i])
  {
    hide QuietText, Trim;
    QuietColumnZero("users:");
    QuietBy("  - name: root", 2);
    QuietBy("    lock_passwd: false", 4);
  }

  lemma QuietKeyLines(sshPubKey: string)
    requires HarmlessKey(sshPubKey)
    ensures forall i :: 0 <= i < |KeyLines(sshPubKey, Trim(sshPubKey))| ==>
      QuietText(KeyLines(sshPubKey, Trim(sshPubKey))[i])
  {
    hide QuietText, Trim;
    QuietBy("    ssh_authorized_keys:", 6);
    QuietKeyLine("      - ", sshPubKey);
    QuietColumnZero("ssh_authorized_keys:");
    QuietKeyLine("  - ", sshPubKey);
  }

  lemma QuietPassword(password: string)
    requires '\n' !in password
    ensures forall i :: 0 <= i < |PasswordLines(password)| ==> QuietText(PasswordLines(password)[i])
  {
    hide QuietText, Trim;
    QuietColumnZero("chpasswd:");
    QuietBy("  list: |", 2);
    QuietBy("    root:" + password, 5);
    QuietBy("  expire: false", 3);
  }

  lemma QuietLogin()
    ensures forall i :: 0 <= i < |LoginLines()| ==> QuietText(LoginLines()[i])
  {
    hide QuietText, Trim;
    QuietColumnZero("ssh_pwauth: true");
    QuietColumnZero("disable_root: false");
  }

  /** With the program's own base text, the merged user-data carries exactly the template's lists. */
  lemma MergeIntoDefault(hostname: string, sshPubKey: string, password: string, template: string)
    requires Names.Label(hostname) && '\n' !in password && HarmlessKey(sshPubKey)
    ensures Parse(Merge(Unlines(DefaultUserData(hostname, sshPubKey, password)), template)) == Parse(template)
  {
    var base := Unlines(DefaultUserData(hostname, sshPubKey, password));
    DefaultUserDataQuiet(hostname, sshPubKey, password);
    FeedQuiet(Split(base, '\n'));
    UnlinesComplete(DefaultUserData(hostname, sshPubKey, password));
    MergeIsHomomorphism(base, template);
    AppendLaws(Parse(template), Parse(template), Parse(template));
  }

  lemma {:induction false} UnlinesComplete(lines: seq<string>)
    ensures CompleteLines(Unlines(lines))
  {
    if lines != [] {
      UnlinesComplete(lines[1..]);
    }
  }
}
