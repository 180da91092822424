/** The iptables chains that the program edits, as sequences: -A appends a rule, -D removes the first
    rule equal to it, -C tests for one. -A and -D may fail and then change nothing; callers of -D
    ignore that. */
module Firewall {

  /** The rules the program writes, and everybody else's. The bridge name and subnet are fixed. */
  datatype Rule =
    | Masquerade                                             // -s subnet ! -o bridge -j MASQUERADE
    | BridgeToBridge                                         // -i bridge -o bridge -j ACCEPT
    | BridgeOut                                              // -i bridge ! -o bridge -j ACCEPT
    | BridgeIn                                               // ! -i bridge -o bridge -j ACCEPT
    | Dnat(hostPort: string, vmIP: string, vmPort: string)   // --dport hostPort -j DNAT --to vmIP:vmPort
    | AllowGateway(vmIP: string, gateway: string)            // -s vmIP -d gateway -j ACCEPT
    | DropPeers(vmIP: string)                                // -s vmIP -d 192.168.100.0/24 -j DROP
    | Foreign(spec: string)

  datatype ChainName = Postrouting | Prerouting | Output | Forward

  datatype Tables = Tables(post: seq<Rule>, pre: seq<Rule>, out: seq<Rule>, fwd: seq<Rule>)

  datatype Command = Add(chain: ChainName, rule: Rule) | Delete(chain: ChainName, rule: Rule)

  function Chain(t: Tables, c: ChainName): seq<Rule> {
    match c
    case Postrouting => t.post
    case Prerouting => t.pre
    case Output => t.out
    case Forward => t.fwd
  }

  function SetChain(t: Tables, c: ChainName, rules: seq<Rule>): Tables {
    match c
    case Postrouting => t.(post := rules)
    case Prerouting => t.(pre := rules)
    case Output => t.(out := rules)
    case Forward => t.(fwd := rules)
  }

  /** -D: without the first occurrence of the rule */
  function DeleteFirst(rules: seq<Rule>, r: Rule): seq<Rule> {
    if rules == [] then []
    else if rules[0] == r then rules[1..]
    else [rules[0]] + DeleteFirst(rules[1..], r)
  }

  function Exec(t: Tables, cmd: Command): Tables {
    match cmd
    case Add(c, r) => SetChain(t, c, Chain(t, c) + [r])
    case Delete(c, r) => SetChain(t, c, DeleteFirst(Chain(t, c), r))
  }

  function ExecAll(t: Tables, cmds: seq<Command>): Tables
    decreases cmds
  {
    if cmds == [] then t else ExecAll(Exec(t, cmds[0]), cmds[1..])
  }

  /** The commands of a list that did not fail. */
  function Performed(cmds: seq<Command>, ran: seq<bool>): seq<Command>
    requires |ran| == |cmds|
  {
    if cmds == [] then []
    else if ran[0] then [cmds[0]] + Performed(cmds[1..], ran[1..])
    else Performed(cmds[1..], ran[1..])
  }

  lemma ExecPerformed(t: Tables, cmds: seq<Command>, ran: seq<bool>)
    requires |ran| == |cmds| && cmds != []
    ensures ExecAll(t, Performed(cmds, ran))
      == ExecAll(if ran[0] then Exec(t, cmds[0]) else t, Performed(cmds[1..], ran[1..]))
  {
    var rest := Performed(cmds[1..], ran[1..]);
    assert ([cmds[0]] + rest)[1..] == rest;
  }

  predicate AllRan(ran: seq<bool>) {
    forall i :: 0 <= i < |ran| ==> ran[i]
  }

  lemma {:induction false} PerformedAll(cmds: seq<Command>, ran: seq<bool>)
    requires |ran| == |cmds| && AllRan(ran)
    ensures Performed(cmds, ran) == cmds
  {
    if cmds != [] {
      PerformedAll(cmds[1..], ran[1..]);
    }
  }

  lemma {:induction false} PerformedConcat(a: seq<Command>, b: seq<Command>, ran: seq<bool>, more: seq<bool>)
    requires |ran| == |a| && |more| == |b|
    ensures Performed(a + b, ran + more) == Performed(a, ran) + Performed(b, more)
  {
    if a == [] {
      assert a + b == b && ran + more == more;
    } else {
      PerformedConcat(a[1..], b, ran[1..], more);
      assert (a + b)[1..] == a[1..] + b && (ran + more)[1..] == ran[1..] + more;
      assert (a + b)[0] == a[0] && (ran + more)[0] == ran[0];
    }
  }

  lemma {:induction false} PerformedNone(cmds: seq<Command>, ran: seq<bool>)
    requires |ran| == |cmds| && forall i :: 0 <= i < |ran| ==> !ran[i]
    ensures Performed(cmds, ran) == []
  {
    if cmds != [] {
      PerformedNone(cmds[1..], ran[1..]);
    }
  }

  /** How often a rule stands in a chain. */
  function Count(t: Tables, c: ChainName, r: Rule): nat {
    multiset(Chain(t, c))[r]
  }

  /** The rules of a chain that satisfy a predicate, in their order. */
  function Select(rules: seq<Rule>, p: Rule -> bool): seq<Rule> {
    if rules == [] then []
    else (if p(rules[0]) then [rules[0]] else []) + Select(rules[1..], p)
  }

  lemma {:induction false} DeleteFirstCounts(rules: seq<Rule>, r: Rule)
    ensures multiset(DeleteFirst(rules, r)) == multiset(rules) - multiset{r}
  {
    if rules != [] {
      var first, rest := rules[0], rules[1..];
      assert rules == [first] + rest;
      assert multiset(rules) == multiset{first} + multiset(rest);
      if first != r {
        DeleteFirstCounts(rest, r);
        assert multiset([first] + DeleteFirst(rest, r)) == multiset{first} + (multiset(rest) - multiset{r});
      }
    }
  }

  lemma DeleteCount(rules: seq<Rule>, r: Rule, x: Rule)
    ensures multiset(DeleteFirst(rules, r))[x] ==
      if x != r then multiset(rules)[x] else if multiset(rules)[r] == 0 then 0 else multiset(rules)[r] - 1
  {
    DeleteFirstCounts(rules, r);
  }

  lemma {:induction false} DeleteAppended(rules: seq<Rule>, r: Rule)
    requires r !in rules
    ensures DeleteFirst(rules + [r], r) == rules
  {
    if rules != [] {
      assert (rules + [r])[1..] == rules[1..] + [r];
      DeleteAppended(rules[1..], r);
    }
  }

  lemma {:induction false} DeleteAbsent(rules: seq<Rule>, r: Rule)
    requires r !in rules
    ensures DeleteFirst(rules, r) == rules
  {
    if rules != [] {
      DeleteAbsent(rules[1..], r);
    }
  }

  lemma {:induction false} SelectAppend(rules: seq<Rule>, r: Rule, p: Rule -> bool)
    ensures Select(rules + [r], p) == Select(rules, p) + (if p(r) then [r] else [])
  {
    var last := if p(r) then [r] else [];
    if rules == [] {
      assert rules + [r] == [r] && [r][1..] == [];
      assert Select([r], p) == last + Select([], p) == last;
      assert Select(rules, p) + last == last;
    } else {
      var first := if p(rules[0]) then [rules[0]] else [];
      assert (rules + [r])[1..] == rules[1..] + [r];
      SelectAppend(rules[1..], r, p);
      assert first + (Select(rules[1..], p) + last) == first + Select(rules[1..], p) + last;
    }
  }

  lemma {:induction false} SelectDelete(rules: seq<Rule>, r: Rule, p: Rule -> bool)
    requires !p(r)
    ensures Select(DeleteFirst(rules, r), p) == Select(rules, p)
  {
    if rules != [] && rules[0] != r {
      SelectDelete(rules[1..], r, p);
      assert DeleteFirst(rules, r)[1..] == DeleteFirst(rules[1..], r);
    }
  }

  /** A command changes the count of its own rule in its own chain, by one, and no other. */
  lemma ExecCounts(t: Tables, cmd: Command, c: ChainName, r: Rule)
    ensures Count(Exec(t, cmd), c, r) == CountAfter(Count(t, c, r), cmd, c, r)
  {
    if cmd.Delete? {
      DeleteFirstCounts(Chain(t, cmd.chain), cmd.rule);
    }
  }

  function CountAfter(n: nat, cmd: Command, c: ChainName, r: Rule): nat {
    if cmd.chain != c || cmd.rule != r then n
    else if cmd.Add? then n + 1
    else if n == 0 then 0 else n - 1
  }

  /** Rules that satisfy p keep their places relative to each other when a command's rule does not. */
  lemma ExecSelects(t: Tables, cmd: Command, c: ChainName, p: Rule -> bool)
    requires !p(cmd.rule)
    ensures Select(Chain(Exec(t, cmd), c), p) == Select(Chain(t, c), p)
  {
    match cmd
    case Add(d, r) => SelectAppend(Chain(t, d), r, p);
    case Delete(d, r) => SelectDelete(Chain(t, d), r, p);
  }

  lemma {:induction false} ExecAllConcat(t: Tables, a: seq<Command>, b: seq<Command>)
    ensures ExecAll(t, a + b) == ExecAll(ExecAll(t, a), b)
    decreases a
  {
    if a == [] {
      assert a + b == b;
    } else {
      assert (a + b)[1..] == a[1..] + b;
      ExecAllConcat(Exec(t, a[0]), a[1..], b);
    }
  }

  function CountAfterAll(n: nat, cmds: seq<Command>, c: ChainName, r: Rule): nat
    decreases cmds
  {
    if cmds == [] then n else CountAfterAll(CountAfter(n, cmds[0], c, r), cmds[1..], c, r)
  }

  lemma {:induction false} ExecAllCounts(t: Tables, cmds: seq<Command>, c: ChainName, r: Rule)
    ensures Count(ExecAll(t, cmds), c, r) == CountAfterAll(Count(t, c, r), cmds, c, r)
    decreases cmds
  {
    if cmds != [] {
      ExecCounts(t, cmds[0], c, r);
      ExecAllCounts(Exec(t, cmds[0]), cmds[1..], c, r);
    }
  }

  lemma {:induction false} CountAfterAllConcat(n: nat, a: seq<Command>, b: seq<Command>, c: ChainName, r: Rule)
    ensures CountAfterAll(n, a + b, c, r) == CountAfterAll(CountAfterAll(n, a, c, r), b, c, r)
    decreases a
  {
    if a == [] {
      assert a + b == b;
    } else {
      assert (a + b)[1..] == a[1..] + b;
      CountAfterAllConcat(CountAfter(n, a[0], c, r), a[1..], b, c, r);
    }
  }

  /** IP forwarding, and the bridge: there, with its address, and up. */
  datatype LinkState = LinkState(forwarding: bool, present: bool, addressed: bool, up: bool)

  lemma ExecRan(t: Tables, cmds: seq<Command>, first: bool, second: bool)
    requires |cmds| == 2
    ensures var u := if first then Exec(t, cmds[0]) else t;
      ExecAll(t, Performed(cmds, [first, second])) == if second then Exec(u, cmds[1]) else u
  {
    var u := if first then Exec(t, cmds[0]) else t;
    ExecPerformed(t, cmds, [first, second]);
    ExecPerformed(u, cmds[1..], [second]);
    assert cmds[1..][1..] == [] && [first, second][1..] == [second] && [second][1..] == [];
  }

  /** Two commands, the second of which is not tried when the first fails. */
  lemma PrefixRan(cmds: seq<Command>, done: nat)
    requires |cmds| == 2 && done <= 2
    ensures Performed(cmds, [done > 0, done > 1]) == cmds[..done]
  {
    var ran := [done > 0, done > 1];
    assert ran[1..] == [done > 1] && ran[1..][1..] == [] && cmds[1..] == [cmds[1]] && cmds[1..][1..] == [];
    assert Performed(cmds[1..], ran[1..]) == if done > 1 then [cmds[1]] else [];
  }

  lemma ExecFirst(t: Tables, cmds: seq<Command>)
    requires |cmds| == 2
    ensures ExecAll(t, cmds[..1]) == Exec(t, cmds[0])
  {
    assert cmds[..1][1..] == [];
  }

  lemma ExecTwo(t: Tables, cmds: seq<Command>)
    requires |cmds| == 2
    ensures ExecAll(t, cmds[..2]) == ExecAll(t, cmds) == Exec(Exec(t, cmds[0]), cmds[1])
  {
    assert cmds[..2] == cmds;
    var u := Exec(t, cmds[0]);
    assert ExecAll(t, cmds) == ExecAll(u, cmds[1..]);
    assert cmds[1..] == [cmds[1]] && cmds[1..][1..] == [];
    assert ExecAll(u, cmds[1..]) == ExecAll(Exec(u, cmds[1]), []);
  }

  /** Two lists of commands one after the other, each as far as it did not fail. */
  lemma RanInTurn(t: Tables, a: seq<Command>, b: seq<Command>, ran: seq<bool>, more: seq<bool>)
    requires |ran| == |a| && |more| == |b|
    ensures ExecAll(t, Performed(a + b, ran + more)) == ExecAll(ExecAll(t, Performed(a, ran)), Performed(b, more))
  {
    PerformedConcat(a, b, ran, more);
    ExecAllConcat(t, Performed(a, ran), Performed(b, more));
  }

  /** The host's chains, which the commands edit in place. */
  class Host {
    var post: seq<Rule>
    var pre: seq<Rule>
    var out: seq<Rule>
    var fwd: seq<Rule>
    var link: LinkState
    const reliable: bool  // no command fails

    function State(): Tables
      reads this
    {
      Tables(post, pre, out, fwd)
    }

    /** Any other command or system call the operations on the host run. */
    method Try() returns (ok: bool)
      ensures reliable ==> ok
    {
      ok := *;
      ok := ok || reliable;
    }

    /** iptables -A, which may fail */
    method Append(c: ChainName, r: Rule) returns (ok: bool)
      modifies this
      ensures State() == if ok then Exec(old(State()), Command.Add(c, r)) else old(State())
      ensures link == old(link) && (reliable ==> ok)
    {
      ok := *;
      ok := ok || reliable;
      if !ok {
        return;
      }
      match c
      case Postrouting => post := post + [r];
      case Prerouting => pre := pre + [r];
      case Output => out := out + [r];
      case Forward => fwd := fwd + [r];
    }

    /** iptables -D, which may fail */
    method Remove(c: ChainName, r: Rule) returns (ok: bool)
      modifies this
      ensures State() == if ok then Exec(old(State()), Command.Delete(c, r)) else old(State())
      ensures link == old(link) && (reliable ==> ok)
    {
      ok := *;
      ok := ok || reliable;
      if !ok {
        return;
      }
      match c
      case Postrouting => post := Without(post, r);
      case Prerouting => pre := Without(pre, r);
      case Output => out := Without(out, r);
      case Forward => fwd := Without(fwd, r);
    }

    static method Without(rules: seq<Rule>, r: Rule) returns (rest: seq<Rule>)
      ensures rest == DeleteFirst(rules, r)
    {
      var i := 0;
      while i < |rules| && rules[i] != r
        invariant 0 <= i <= |rules|
        invariant DeleteFirst(rules, r) == rules[..i] + DeleteFirst(rules[i..], r)
      {
        DeleteAt(rules, r, i);
        i := i + 1;
      }
      if i == |rules| {
        rest := rules;
        assert rules[i..] == [] && rules[..i] == rules;
      } else {
        rest := rules[..i] + rules[i + 1..];
        DeleteAt(rules, r, i);
      }
    }

    static lemma DeleteAt(rules: seq<Rule>, r: Rule, i: nat)
      requires i < |rules|
      ensures rules[..i] + DeleteFirst(rules[i..], r) ==
        if rules[i] == r then rules[..i] + rules[i + 1..] else rules[..i + 1] + DeleteFirst(rules[i + 1..], r)
    {
      assert rules[i..][1..] == rules[i + 1..];
      assert rules[..i + 1] == rules[..i] + [rules[i]];
    }
  }
}
