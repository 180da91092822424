/** What one operation does to a VM's rules: how often every rule stands in its chain afterwards, when that
    is as often as it should, and what failing commands do to it. */
module Exactness {
  import opened Firewall
  import opened Ledger

  // ---------------------------------------------------------------- the commands of one operation

  /** The rule is the one of a forward in the list. */
  predicate Hit(v: VmRecord, order: seq<string>, r: Rule) {
    r.Dnat? && r.vmIP == v.ip && r.hostPort in order && r.hostPort in v.forwards && v.forwards[r.hostPort] == r.vmPort
  }

  predicate NatChain(c: ChainName) {
    c == Prerouting || c == Output
  }

  lemma {:induction false} ForwardCounts(v: VmRecord, order: seq<string>, add: bool, n: nat, c: ChainName, r: Rule)
    requires forall h :: h in order ==> h in v.forwards
    requires forall i, j :: 0 <= i < j < |order| ==> order[i] != order[j]
    ensures CountAfterAll(n, ForwardCommands(v, order, add), c, r) ==
      if !(NatChain(c) && Hit(v, order, r)) then n else if add then n + 1 else if n == 0 then 0 else n - 1
    decreases order
  {
    if order != [] {
      var h := order[0];
      var x := Dnat(h, v.ip, v.forwards[h]);
      var pair := if add then AddRules(x) else DeleteRules(x);
      var m := CountAfterAll(n, pair, c, r);
      HitFirst(v, order, r);
      PairCounts(x, add, n, c, r);
      CountAfterAllConcat(n, pair, ForwardCommands(v, order[1..], add), c, r);
      hide AddRules, DeleteRules, CountAfterAll, Hit;
      ForwardCounts(v, order[1..], add, m, c, r);
    }
  }

  lemma HitFirst(v: VmRecord, order: seq<string>, r: Rule)
    requires order != [] && order[0] in v.forwards
    requires forall i, j :: 0 <= i < j < |order| ==> order[i] != order[j]
    ensures var x := Dnat(order[0], v.ip, v.forwards[order[0]]);
      (Hit(v, order, r) <==> r == x || Hit(v, order[1..], r)) && !Hit(v, order[1..], x)
  {
    assert order == [order[0]] + order[1..];
  }

  lemma PairCounts(x: Rule, add: bool, n: nat, c: ChainName, r: Rule)
    ensures CountAfterAll(n, if add then AddRules(x) else DeleteRules(x), c, r) ==
      if !(NatChain(c) && r == x) then n else if add then n + 1 else if n == 0 then 0 else n - 1
  {
    CountTwo(n, if add then AddRules(x) else DeleteRules(x), c, r);
  }

  lemma CountTwo(n: nat, cmds: seq<Command>, c: ChainName, r: Rule)
    requires |cmds| == 2
    ensures CountAfterAll(n, cmds, c, r) == CountAfter(CountAfter(n, cmds[0], c, r), cmds[1], c, r)
  {
    var m := CountAfter(n, cmds[0], c, r);
    assert CountAfterAll(n, cmds, c, r) == CountAfterAll(m, cmds[1..], c, r);
    assert cmds[1..] == [cmds[1]] && cmds[1..][1..] == [];
    assert CountAfterAll(m, cmds[1..], c, r) == CountAfterAll(CountAfter(m, cmds[1], c, r), [], c, r);
  }

  lemma IsolationAddCounts(v: VmRecord, bridgeIP: string, n: nat, c: ChainName, r: Rule)
    ensures CountAfterAll(n, IsolationAdds(v, bridgeIP), c, r) ==
      n + (if v.isolated && c.Forward? && (r == AllowGateway(v.ip, bridgeIP) || r == DropPeers(v.ip)) then 1 else 0)
  {
    if v.isolated {
      CountTwo(n, IsolationAdds(v, bridgeIP), c, r);
    }
  }

  lemma IsolationDeleteCounts(v: VmRecord, n: nat, c: ChainName, r: Rule)
    ensures CountAfterAll(n, IsolationDeletes(v), c, r) ==
      if v.isolated && c.Forward? && (r == AllowGateway(v.ip, FixedGateway) || r == DropPeers(v.ip))
      then (if n == 0 then 0 else n - 1) else n
  {
    if v.isolated {
      CountTwo(n, IsolationDeletes(v), c, r);
    }
  }

  /** From the rules of a VM that is down, setup's commands lead to those of the VM up. */
  lemma SetupCounts(v: VmRecord, bridgeIP: string, order: seq<string>, c: ChainName, r: Rule)
    requires Walk(order, v.forwards.Keys) && Belongs(r, v.ip)
    ensures CountAfterAll(0, SetupCommands(v, bridgeIP, order), c, r) == Want(v, true, bridgeIP, c, r)
  {
    var a, b := IsolationAdds(v, bridgeIP), ForwardCommands(v, order, true);
    CountAfterAllConcat(0, a, b, c, r);
    IsolationAddCounts(v, bridgeIP, 0, c, r);
    ForwardCounts(v, order, true, CountAfterAll(0, a, c, r), c, r);
  }

  /** The commands of a stop or a deletion lead back to no rule at all, from up or from down. */
  lemma CleanupCounts(v: VmRecord, up: bool, order: seq<string>, c: ChainName, r: Rule)
    requires Walk(order, v.forwards.Keys) && Belongs(r, v.ip)
    ensures var n := Want(v, up, FixedGateway, c, r);
      CountAfterAll(n, CleanupCommands(v, order), c, r) == 0
      && CountAfterAll(n, DeleteCommands(v, order, false), c, r) == 0
  {
    var n := Want(v, up, FixedGateway, c, r);
    var a, b := IsolationDeletes(v), ForwardCommands(v, order, false);
    CountAfterAllConcat(n, a, b, c, r);
    IsolationDeleteCounts(v, n, c, r);
    ForwardCounts(v, order, false, CountAfterAll(n, a, c, r), c, r);
    CountAfterAllConcat(n, b, a, c, r);
    ForwardCounts(v, order, false, n, c, r);
    IsolationDeleteCounts(v, CountAfterAll(n, b, c, r), c, r);
  }

  lemma AddCounts(v: VmRecord, h: string, p: string, bridgeIP: string, c: ChainName, r: Rule)
    requires h !in v.forwards && Belongs(r, v.ip)
    ensures CountAfterAll(Want(v, true, bridgeIP, c, r), AddRules(Dnat(h, v.ip, p)), c, r)
      == Want(v.(forwards := v.forwards[h := p]), true, bridgeIP, c, r)
  {
    CountTwo(Want(v, true, bridgeIP, c, r), AddRules(Dnat(h, v.ip, p)), c, r);
  }

  lemma RemoveCounts(v: VmRecord, h: string, up: bool, bridgeIP: string, c: ChainName, r: Rule)
    requires h in v.forwards && Belongs(r, v.ip)
    ensures CountAfterAll(Want(v, up, bridgeIP, c, r), DeleteRules(Dnat(h, v.ip, v.forwards[h])), c, r)
      == Want(v.(forwards := v.forwards - {h}), up, bridgeIP, c, r)
  {
    CountTwo(Want(v, up, bridgeIP, c, r), DeleteRules(Dnat(h, v.ip, v.forwards[h])), c, r);
  }

  lemma {:induction false} OwnForwardCommands(v: VmRecord, order: seq<string>, add: bool)
    requires forall h :: h in order ==> h in v.forwards
    ensures forall i :: 0 <= i < |ForwardCommands(v, order, add)| ==>
      Belongs(ForwardCommands(v, order, add)[i].rule, v.ip)
  {
    if order != [] {
      OwnForwardCommands(v, order[1..], add);
    }
  }

  // ---------------------------------------------------------------- whole operations

  /** Commands on a VM's own rules leave all other rules in place and order. */
  lemma {:induction false} OwnLeavesOthers(t: Tables, cmds: seq<Command>, ip: string, c: ChainName)
    requires forall i :: 0 <= i < |cmds| ==> Belongs(cmds[i].rule, ip)
    ensures Select(Chain(ExecAll(t, cmds), c), r => !Belongs(r, ip)) == Select(Chain(t, c), r => !Belongs(r, ip))
    decreases cmds
  {
    if cmds != [] {
      ExecSelects(t, cmds[0], c, r => !Belongs(r, ip));
      OwnLeavesOthers(Exec(t, cmds[0]), cmds[1..], ip, c);
    }
  }

  lemma {:induction false} PerformedOwn(cmds: seq<Command>, ran: seq<bool>, ip: string)
    requires |ran| == |cmds| && forall i :: 0 <= i < |cmds| ==> Belongs(cmds[i].rule, ip)
    ensures forall i :: 0 <= i < |Performed(cmds, ran)| ==> Belongs(Performed(cmds, ran)[i].rule, ip)
  {
    if cmds != [] {
      PerformedOwn(cmds[1..], ran[1..], ip);
    }
  }

  /** All rules but the VM's are in place and order. */
  ghost predicate OthersInOrder(t: Tables, u: Tables, ip: string) {
    forall c :: Select(Chain(u, c), r => !Belongs(r, ip)) == Select(Chain(t, c), r => !Belongs(r, ip))
  }

  lemma RanLeavesOthers(t: Tables, cmds: seq<Command>, ran: seq<bool>, ip: string)
    requires |ran| == |cmds| && forall i :: 0 <= i < |cmds| ==> Belongs(cmds[i].rule, ip)
    ensures OthersInOrder(t, ExecAll(t, Performed(cmds, ran)), ip)
  {
    PerformedOwn(cmds, ran, ip);
    forall c ensures Select(Chain(ExecAll(t, Performed(cmds, ran)), c), r => !Belongs(r, ip))
      == Select(Chain(t, c), r => !Belongs(r, ip))
    {
      OwnLeavesOthers(t, Performed(cmds, ran), ip, c);
    }
  }

  /** A start leads from no rules to those the VM should have. */
  lemma SetupExact(t: Tables, v: VmRecord, bridgeIP: string, order: seq<string>)
    requires Exact(t, v, false, bridgeIP) && Walk(order, v.forwards.Keys)
    ensures Exact(ExecAll(t, SetupCommands(v, bridgeIP, order)), v, true, bridgeIP)
  {
    var cmds := SetupCommands(v, bridgeIP, order);
    forall c, r | Belongs(r, v.ip) ensures Count(ExecAll(t, cmds), c, r) == Want(v, true, bridgeIP, c, r) {
      AfterCounts(t, v, false, bridgeIP, cmds, c, r);
      SetupCounts(v, bridgeIP, order, c, r);
    }
  }

  /** A stop and a deletion lead back to no rules, from up and from down. */
  lemma CleanupExact(t: Tables, v: VmRecord, up: bool, order: seq<string>)
    requires Exact(t, v, up, FixedGateway) && Walk(order, v.forwards.Keys)
    ensures Exact(ExecAll(t, CleanupCommands(v, order)), v, false, FixedGateway)
    ensures Exact(ExecAll(t, DeleteCommands(v, order, false)), v, false, FixedGateway)
  {
    forall c, r | Belongs(r, v.ip)
      ensures Count(ExecAll(t, CleanupCommands(v, order)), c, r) == 0
      ensures Count(ExecAll(t, DeleteCommands(v, order, false)), c, r) == 0
    {
      AfterCounts(t, v, up, FixedGateway, CleanupCommands(v, order), c, r);
      AfterCounts(t, v, up, FixedGateway, DeleteCommands(v, order, false), c, r);
      CleanupCounts(v, up, order, c, r);
    }
  }

  /** Rules of forwards are in the NAT table only. */
  lemma {:induction false} ForwardsLeaveFilter(t: Tables, v: VmRecord, order: seq<string>, add: bool)
    requires forall h :: h in order ==> h in v.forwards
    ensures ExecAll(t, ForwardCommands(v, order, add)).fwd == t.fwd
    decreases order
  {
    if order != [] {
      var x := Dnat(order[0], v.ip, v.forwards[order[0]]);
      var pair := if add then AddRules(x) else DeleteRules(x);
      ExecTwo(t, pair);
      ExecAllConcat(t, pair, ForwardCommands(v, order[1..], add));
      ForwardsLeaveFilter(ExecAll(t, pair), v, order[1..], add);
    }
  }

  /** A start puts the exception for the gateway in front of the rule that drops what goes to the peers. */
  lemma IsolationInOrder(t: Tables, v: VmRecord, bridgeIP: string, order: seq<string>)
    requires Walk(order, v.forwards.Keys)
    ensures ExecAll(t, SetupCommands(v, bridgeIP, order)).fwd ==
      t.fwd + if v.isolated then [AllowGateway(v.ip, bridgeIP), DropPeers(v.ip)] else []
  {
    var adds := IsolationAdds(v, bridgeIP);
    ExecAllConcat(t, adds, ForwardCommands(v, order, true));
    ForwardsLeaveFilter(ExecAll(t, adds), v, order, true);
    if v.isolated {
      ExecTwo(t, adds);
      assert t.fwd + [AllowGateway(v.ip, bridgeIP)] + [DropPeers(v.ip)]
        == t.fwd + [AllowGateway(v.ip, bridgeIP), DropPeers(v.ip)];
    } else {
      assert t.fwd + [] == t.fwd;
    }
  }

  /** Adding a forward keeps a VM's rules exact in just these cases: the VM is up, and the host port is
      not forwarded yet. Otherwise the old rule is orphaned or doubled, or a VM that is down gets one. */
  lemma AddForwardExactly(t: Tables, v: VmRecord, up: bool, bridgeIP: string, h: string, p: string)
    requires Exact(t, v, up, bridgeIP)
    ensures Exact(ExecAll(t, AddRules(Dnat(h, v.ip, p))), v.(forwards := v.forwards[h := p]), up, bridgeIP)
      <==> up && h !in v.forwards
  {
    var cmds, v' := AddRules(Dnat(h, v.ip, p)), v.(forwards := v.forwards[h := p]);
    var u := ExecAll(t, cmds);
    forall c, r | Belongs(r, v.ip)
      ensures Count(u, c, r) == CountAfterAll(Want(v, up, bridgeIP, c, r), cmds, c, r)
    {
      ExecAllCounts(t, cmds, c, r);
    }
    if up && h !in v.forwards {
      forall c, r | Belongs(r, v.ip) ensures Count(u, c, r) == Want(v', up, bridgeIP, c, r) {
        AddCounts(v, h, p, bridgeIP, c, r);
      }
    } else {
      var old' := Dnat(h, v.ip, if up then v.forwards[h] else p);
      CountTwo(Want(v, up, bridgeIP, Output, old'), cmds, Output, old');
      assert Count(u, Output, old') != Want(v', up, bridgeIP, Output, old');
    }
  }

  lemma AfterCounts(t: Tables, v: VmRecord, up: bool, bridgeIP: string, cmds: seq<Command>, c: ChainName, r: Rule)
    requires Exact(t, v, up, bridgeIP) && Belongs(r, v.ip)
    ensures Count(ExecAll(t, cmds), c, r) == CountAfterAll(Want(v, up, bridgeIP, c, r), cmds, c, r)
  {
    ExecAllCounts(t, cmds, c, r);
  }

  /** When adding a forward fails after some of its rules, or before they are saved, the record stays as
      it was, and the rules are exact only if none had been added. */
  lemma FailedAddExactly(t: Tables, v: VmRecord, up: bool, bridgeIP: string, h: string, p: string, done: nat)
    requires Exact(t, v, up, bridgeIP) && done <= 2
    ensures Exact(ExecAll(t, AddRules(Dnat(h, v.ip, p))[..done]), v, up, bridgeIP) <==> done == 0
  {
    var x := Dnat(h, v.ip, p);
    if done > 0 {
      var cmds, n := AddRules(x)[..done], Want(v, up, bridgeIP, Prerouting, x);
      AfterCounts(t, v, up, bridgeIP, cmds, Prerouting, x);
      if done == 1 {
        assert cmds[1..] == [];
        assert CountAfterAll(n, cmds, Prerouting, x) == CountAfterAll(n + 1, [], Prerouting, x);
      } else {
        CountTwo(n, cmds, Prerouting, x);
      }
      assert Count(ExecAll(t, cmds), Prerouting, x) != n;
    }
  }

  /** How often a removal deletes a rule: the two rules of the forward, as far as the deletions succeed. */
  function Taken(x: Rule, ran: seq<bool>, c: ChainName, r: Rule): nat
    requires |ran| == 2
  {
    if r == x && ((c == Prerouting && ran[0]) || (c == Output && ran[1])) then 1 else 0
  }

  lemma RemoveCountsRan(t: Tables, x: Rule, ran: seq<bool>, c: ChainName, r: Rule)
    requires |ran| == 2
    ensures var n, m := Count(t, c, r), Taken(x, ran, c, r);
      Count(ExecAll(t, Performed(DeleteRules(x), ran)), c, r) == if n < m then 0 else n - m
  {
    var u := MaybeDelete(t, Prerouting, x, ran[0]);
    MaybeCounts(t, Prerouting, x, ran[0], c, r);
    MaybeCounts(u, Output, x, ran[1], c, r);
    RemovedAs(t, x, ran);
    hide ExecAll, Performed, Count, MaybeDelete, DeleteRules;
  }

  function MaybeDelete(t: Tables, c: ChainName, x: Rule, ran: bool): Tables {
    if ran then Exec(t, Command.Delete(c, x)) else t
  }

  lemma MaybeCounts(t: Tables, chain: ChainName, x: Rule, ran: bool, c: ChainName, r: Rule)
    ensures var n := Count(t, c, r);
      Count(MaybeDelete(t, chain, x, ran), c, r) == if ran && chain == c && x == r && n > 0 then n - 1 else n
  {
    ExecCounts(t, Command.Delete(chain, x), c, r);
    hide Exec, Count;
  }

  lemma RemovedAs(t: Tables, x: Rule, ran: seq<bool>)
    requires |ran| == 2
    ensures ExecAll(t, Performed(DeleteRules(x), ran))
      == MaybeDelete(MaybeDelete(t, Prerouting, x, ran[0]), Output, x, ran[1])
  {
    assert ran == [ran[0], ran[1]];
    ExecRan(t, DeleteRules(x), ran[0], ran[1]);
    hide Exec, ExecAll, Performed;
  }

  lemma WantWithout(v: VmRecord, up: bool, bridgeIP: string, h: string, c: ChainName, r: Rule)
    requires h in v.forwards
    ensures var x := Dnat(h, v.ip, v.forwards[h]);
      Want(v.(forwards := v.forwards - {h}), up, bridgeIP, c, r)
      == Want(v, up, bridgeIP, c, r) - if up then Taken(x, [true, true], c, r) else 0
  {
  }

  /** Removing a forward keeps a VM's rules exact if and only if the VM is down or both deletions succeed. */
  lemma RemoveForwardExactly(t: Tables, v: VmRecord, up: bool, bridgeIP: string, h: string, ran: seq<bool>)
    requires Exact(t, v, up, bridgeIP) && h in v.forwards && |ran| == 2
    ensures Exact(ExecAll(t, Performed(DeleteRules(Dnat(h, v.ip, v.forwards[h])), ran)),
                  v.(forwards := v.forwards - {h}), up, bridgeIP)
      <==> !up || AllRan(ran)
  {
    var x, v' := Dnat(h, v.ip, v.forwards[h]), v.(forwards := v.forwards - {h});
    var u := ExecAll(t, Performed(DeleteRules(x), ran));
    forall c, r | Belongs(r, v.ip)
      ensures Count(u, c, r) == Want(v', up, bridgeIP, c, r)
        + if up then Taken(x, [true, true], c, r) - Taken(x, ran, c, r) else 0
    {
      CountsWithout(t, v, up, bridgeIP, h, ran, c, r);
    }
    hide ExecAll, Performed, Count, Want;
    if up && !AllRan(ran) {
      var c := if ran[0] then Output else Prerouting;
      assert Count(u, c, x) != Want(v', up, bridgeIP, c, x);
    }
  }

  lemma CountsWithout(t: Tables, v: VmRecord, up: bool, bridgeIP: string, h: string, ran: seq<bool>,
                      c: ChainName, r: Rule)
    requires Exact(t, v, up, bridgeIP) && h in v.forwards && |ran| == 2 && Belongs(r, v.ip)
    ensures var x := Dnat(h, v.ip, v.forwards[h]);
      Count(ExecAll(t, Performed(DeleteRules(x), ran)), c, r)
      == Want(v.(forwards := v.forwards - {h}), up, bridgeIP, c, r)
        + if up then Taken(x, [true, true], c, r) - Taken(x, ran, c, r) else 0
  {
    var x := Dnat(h, v.ip, v.forwards[h]);
    assert Count(t, c, r) == Want(v, up, bridgeIP, c, r) && (!up ==> Want(v, up, bridgeIP, c, r) == 0);
    RemoveCountsRan(t, x, ran, c, r);
    WantWithout(v, up, bridgeIP, h, c, r);
    WantIsNothingDown(v.(forwards := v.forwards - {h}), bridgeIP, c, r);
    hide ExecAll, Performed, Count, Want;
  }

  lemma WantIsNothingDown(v: VmRecord, bridgeIP: string, c: ChainName, r: Rule)
    ensures Want(v, false, bridgeIP, c, r) == 0
  {
  }

  /** When it fails to save the record, the forward stays there: the rules are exact if and only if the
      VM is down or both deletions failed. */
  lemma UnsavedRemoveExactly(t: Tables, v: VmRecord, up: bool, bridgeIP: string, h: string, ran: seq<bool>)
    requires Exact(t, v, up, bridgeIP) && h in v.forwards && |ran| == 2
    ensures Exact(ExecAll(t, Performed(DeleteRules(Dnat(h, v.ip, v.forwards[h])), ran)), v, up, bridgeIP)
      <==> !up || (!ran[0] && !ran[1])
  {
    var x := Dnat(h, v.ip, v.forwards[h]);
    var u := ExecAll(t, Performed(DeleteRules(x), ran));
    forall c, r | Belongs(r, v.ip)
      ensures Count(u, c, r) == Want(v, up, bridgeIP, c, r) - if up then Taken(x, ran, c, r) else 0
    {
      RemoveCountsRan(t, x, ran, c, r);
      WantWithout(v, up, bridgeIP, h, c, r);
    }
    hide ExecAll, Performed, Count, Want;
    if up && (ran[0] || ran[1]) {
      var c := if ran[0] then Prerouting else Output;
      assert Count(u, c, x) != Want(v, up, bridgeIP, c, x);
    }
  }

  // ---------------------------------------------------------------- commands that fail

  /** How many commands of a list are about a rule. */
  function Matches(cmds: seq<Command>, c: ChainName, r: Rule): nat {
    if cmds == [] then 0
    else (if cmds[0].chain == c && cmds[0].rule == r then 1 else 0) + Matches(cmds[1..], c, r)
  }

  /** Commands that all add, or all delete. */
  predicate AllAdd(cmds: seq<Command>, add: bool) {
    forall i :: 0 <= i < |cmds| ==> cmds[i].Add? == add
  }

  lemma {:induction false} CountsByMatches(n: nat, cmds: seq<Command>, add: bool, c: ChainName, r: Rule)
    requires AllAdd(cmds, add)
    ensures var m := Matches(cmds, c, r);
      CountAfterAll(n, cmds, c, r) == if add then n + m else if n < m then 0 else n - m
    decreases cmds
  {
    if cmds != [] {
      CountsByMatches(CountAfter(n, cmds[0], c, r), cmds[1..], add, c, r);
    }
  }

  lemma MatchesCons(cmd: Command, rest: seq<Command>, c: ChainName, r: Rule)
    ensures Matches([cmd] + rest, c, r) == (if cmd.chain == c && cmd.rule == r then 1 else 0) + Matches(rest, c, r)
  {
    assert ([cmd] + rest)[1..] == rest;
  }

  lemma {:induction false} PerformedMatches(cmds: seq<Command>, ran: seq<bool>, add: bool, c: ChainName, r: Rule)
    requires |ran| == |cmds| && AllAdd(cmds, add)
    ensures AllAdd(Performed(cmds, ran), add)
    ensures Matches(Performed(cmds, ran), c, r) <= Matches(cmds, c, r)
  {
    if cmds != [] {
      var rest := Performed(cmds[1..], ran[1..]);
      PerformedMatches(cmds[1..], ran[1..], add, c, r);
      MatchesCons(cmds[0], rest, c, r);
    }
  }

  lemma {:induction false} FailureMatches(cmds: seq<Command>, ran: seq<bool>, add: bool, i: nat)
    requires |ran| == |cmds| && AllAdd(cmds, add) && i < |ran| && !ran[i]
    ensures Matches(Performed(cmds, ran), cmds[i].chain, cmds[i].rule) < Matches(cmds, cmds[i].chain, cmds[i].rule)
  {
    var c, r := cmds[i].chain, cmds[i].rule;
    var rest := Performed(cmds[1..], ran[1..]);
    PerformedMatches(cmds[1..], ran[1..], add, c, r);
    MatchesCons(cmds[0], rest, c, r);
    if i > 0 {
      FailureMatches(cmds[1..], ran[1..], add, i - 1);
    }
  }

  lemma {:induction false} ForwardsAllAdd(v: VmRecord, order: seq<string>, add: bool)
    requires forall h :: h in order ==> h in v.forwards
    ensures AllAdd(ForwardCommands(v, order, add), add)
  {
    if order != [] {
      ForwardsAllAdd(v, order[1..], add);
    }
  }

  lemma SetupMatches(v: VmRecord, bridgeIP: string, order: seq<string>, c: ChainName, r: Rule)
    requires Walk(order, v.forwards.Keys) && Belongs(r, v.ip)
    ensures AllAdd(SetupCommands(v, bridgeIP, order), true)
    ensures Matches(SetupCommands(v, bridgeIP, order), c, r) == Want(v, true, bridgeIP, c, r)
  {
    ForwardsAllAdd(v, order, true);
    SetupCounts(v, bridgeIP, order, c, r);
    CountsByMatches(0, SetupCommands(v, bridgeIP, order), true, c, r);
  }

  lemma CleanupCountsFrom(v: VmRecord, order: seq<string>, n: nat, c: ChainName, r: Rule)
    requires Walk(order, v.forwards.Keys) && Belongs(r, v.ip)
    ensures var w := Want(v, true, FixedGateway, c, r);
      CountAfterAll(n, CleanupCommands(v, order), c, r) == if n < w then 0 else n - w
  {
    var a, b := IsolationDeletes(v), ForwardCommands(v, order, false);
    CountAfterAllConcat(n, a, b, c, r);
    IsolationDeleteCounts(v, n, c, r);
    ForwardCounts(v, order, false, CountAfterAll(n, a, c, r), c, r);
    hide CountAfterAll, ForwardCommands, IsolationDeletes;
  }

  lemma CleanupMatches(v: VmRecord, order: seq<string>, c: ChainName, r: Rule)
    requires Walk(order, v.forwards.Keys) && Belongs(r, v.ip)
    ensures AllAdd(CleanupCommands(v, order), false)
    ensures Matches(CleanupCommands(v, order), c, r) == Want(v, true, FixedGateway, c, r)
  {
    ForwardsAllAdd(v, order, false);
    var n := Want(v, true, FixedGateway, c, r) + 1;
    CleanupCountsFrom(v, order, n, c, r);
    CountsByMatches(n, CleanupCommands(v, order), false, c, r);
    hide CountAfterAll, Matches, ForwardCommands, Want;
  }

  /** No failure is harmless: a start leads to the rules the VM should have if and only if every one of its
      commands succeeds, whatever the order of the forwards. And it never adds a rule too many. */
  lemma StartExactly(t: Tables, v: VmRecord, bridgeIP: string, order: seq<string>, ran: seq<bool>)
    requires Exact(t, v, false, bridgeIP) && Walk(order, v.forwards.Keys)
    requires |ran| == |SetupCommands(v, bridgeIP, order)|
    ensures var u := ExecAll(t, Performed(SetupCommands(v, bridgeIP, order), ran));
      && (Exact(u, v, true, bridgeIP) <==> AllRan(ran))
      && forall c, r :: Belongs(r, v.ip) ==> Count(u, c, r) <= Want(v, true, bridgeIP, c, r)
  {
    var cmds := SetupCommands(v, bridgeIP, order);
    var u := ExecAll(t, Performed(cmds, ran));
    forall c, r | Belongs(r, v.ip)
      ensures Count(u, c, r) == Matches(Performed(cmds, ran), c, r) <= Want(v, true, bridgeIP, c, r)
      ensures AllAdd(cmds, true) && Matches(cmds, c, r) == Want(v, true, bridgeIP, c, r)
    {
      SetupMatches(v, bridgeIP, order, c, r);
      AfterMatches(t, v, false, bridgeIP, cmds, ran, true, c, r);
    }
    if AllRan(ran) {
      PerformedAll(cmds, ran);
    } else {
      var i :| 0 <= i < |ran| && !ran[i];
      SetupOwn(v, bridgeIP, order);
      SetupMatches(v, bridgeIP, order, cmds[i].chain, cmds[i].rule);
      FailureMatches(cmds, ran, true, i);
    }
  }

  lemma AfterMatches(t: Tables, v: VmRecord, up: bool, bridgeIP: string, cmds: seq<Command>, ran: seq<bool>, add: bool,
                     c: ChainName, r: Rule)
    requires Exact(t, v, up, bridgeIP) && Belongs(r, v.ip) && |ran| == |cmds| && AllAdd(cmds, add)
    ensures var n, m := Want(v, up, bridgeIP, c, r), Matches(Performed(cmds, ran), c, r);
      Count(ExecAll(t, Performed(cmds, ran)), c, r) == if add then n + m else if n < m then 0 else n - m
    ensures Matches(Performed(cmds, ran), c, r) <= Matches(cmds, c, r)
  {
    PerformedMatches(cmds, ran, add, c, r);
    AfterCounts(t, v, up, bridgeIP, Performed(cmds, ran), c, r);
    CountsByMatches(Want(v, up, bridgeIP, c, r), Performed(cmds, ran), add, c, r);
  }

  lemma SetupOwn(v: VmRecord, bridgeIP: string, order: seq<string>)
    requires Walk(order, v.forwards.Keys)
    ensures forall i :: 0 <= i < |SetupCommands(v, bridgeIP, order)| ==>
      Belongs(SetupCommands(v, bridgeIP, order)[i].rule, v.ip)
  {
    OwnForwardCommands(v, order, true);
  }

  lemma CleanupOwn(v: VmRecord, order: seq<string>)
    requires Walk(order, v.forwards.Keys)
    ensures forall i :: 0 <= i < |CleanupCommands(v, order)| ==> Belongs(CleanupCommands(v, order)[i].rule, v.ip)
    ensures forall i :: 0 <= i < |DeleteCommands(v, order, false)| ==>
      Belongs(DeleteCommands(v, order, false)[i].rule, v.ip)
  {
    OwnForwardCommands(v, order, false);
  }

  /** Likewise a stop: the failures it ignores all leave a rule behind. */
  lemma StopExactly(t: Tables, v: VmRecord, order: seq<string>, ran: seq<bool>)
    requires Exact(t, v, true, FixedGateway) && Walk(order, v.forwards.Keys)
    requires |ran| == |CleanupCommands(v, order)|
    ensures Exact(ExecAll(t, Performed(CleanupCommands(v, order), ran)), v, false, FixedGateway) <==> AllRan(ran)
  {
    var cmds := CleanupCommands(v, order);
    var u := ExecAll(t, Performed(cmds, ran));
    forall c, r | Belongs(r, v.ip)
      ensures Count(u, c, r) == Want(v, true, FixedGateway, c, r) - Matches(Performed(cmds, ran), c, r)
      ensures AllAdd(cmds, false) && Matches(cmds, c, r) == Want(v, true, FixedGateway, c, r)
    {
      CleanupMatches(v, order, c, r);
      AfterMatches(t, v, true, FixedGateway, cmds, ran, false, c, r);
    }
    if AllRan(ran) {
      PerformedAll(cmds, ran);
    } else {
      var i :| 0 <= i < |ran| && !ran[i];
      CleanupOwn(v, order);
      CleanupMatches(v, order, cmds[i].chain, cmds[i].rule);
      FailureMatches(cmds, ran, false, i);
      assert Count(u, cmds[i].chain, cmds[i].rule) > 0;
    }
  }

  /** Starting and stopping a VM leaves no rule behind exactly when the VM is not isolated or the bridge
      has the address that the removal has in its text. */
  lemma StartStopExactly(t: Tables, v: VmRecord, bridgeIP: string, walk: seq<string>, back: seq<string>)
    requires Exact(t, v, false, bridgeIP) && Walk(walk, v.forwards.Keys) && Walk(back, v.forwards.Keys)
    ensures Exact(ExecAll(ExecAll(t, SetupCommands(v, bridgeIP, walk)), CleanupCommands(v, back)), v, false, bridgeIP)
      <==> (!v.isolated || bridgeIP == FixedGateway)
  {
    var up := ExecAll(t, SetupCommands(v, bridgeIP, walk));
    var down := ExecAll(up, CleanupCommands(v, back));
    forall c, r | Belongs(r, v.ip)
      ensures Count(down, c, r) == CountAfterAll(Want(v, true, bridgeIP, c, r), CleanupCommands(v, back), c, r)
    {
      ExecAllCounts(t, SetupCommands(v, bridgeIP, walk), c, r);
      ExecAllCounts(up, CleanupCommands(v, back), c, r);
      SetupCounts(v, bridgeIP, walk, c, r);
    }
    if !v.isolated || bridgeIP == FixedGateway {
      forall c, r | Belongs(r, v.ip) ensures Count(down, c, r) == 0 {
        CleanupCounts(v, true, back, c, r);
        assert Want(v, true, bridgeIP, c, r) == Want(v, true, FixedGateway, c, r);
      }
    } else {
      var r := AllowGateway(v.ip, bridgeIP);
      CountAfterAllConcat(1, IsolationDeletes(v), ForwardCommands(v, back, false), Forward, r);
      IsolationDeleteCounts(v, 1, Forward, r);
      ForwardCounts(v, back, false, 1, Forward, r);
      assert Count(down, Forward, r) == 1;
    }
  }
}
