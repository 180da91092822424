/** The operations on a VM's rules as the program runs them on the host's chains (cmd/fcm/forward.go,
    cmd/fcm/internal_cmds.go, cmd/fcm/isolation.go, cmd/fcm/delete.go), any command of which may
    fail. */
module LedgerCommands {
  import opened Text
  import opened Names
  import opened Firewall
  import opened Ledger
  import opened Exactness
  import Address

  /** The address that removing isolation rules has in its text is the one that init derives if and only if
      the bridge's network is the default one. */
  lemma FixedGatewayExactly(cfg: Address.Config)
    ensures Address.Format(Address.Gateway(cfg)) == FixedGateway
      <==> Address.Network(cfg) == Address.Quad(192, 168, 100, 0)
  {
    var q := Address.Quad(192, 168, 100, 1);
    FixedText();
    NextOctet(Address.Network(cfg).d);
    hide Address.Format, Address.Network;
    if Address.Format(Address.Gateway(cfg)) == FixedGateway {
      Address.FormatInjective(Address.Gateway(cfg), q);
    }
  }

  lemma NextOctet(n: Address.Octet)
    ensures (n + 1) % 256 == 1 <==> n == 0
  {
  }

  lemma FixedText()
    ensures Address.Format(Address.Quad(192, 168, 100, 1)) == FixedGateway
  {
    assert Decimal(19) == "19" && Decimal(16) == "16" && Decimal(10) == "10";
    assert Decimal(192) == "192" && Decimal(168) == "168" && Decimal(100) == "100" && Decimal(1) == "1";
    assert "192" + "." + "168" + "." + "100" + "." + "1" == "192.168.100.1";
  }

  /** A VM's record as a command has loaded it, beside the forwards that vm.json holds. */
  class VM {
    const ip: string
    const isolated: bool
    var forwards: map<string, string>
    var stored: map<string, string>

    constructor (ip: string, isolated: bool)
      ensures Record() == VmRecord(ip, isolated, map[]) && stored == map[]
    {
      this.ip, this.isolated, forwards, stored := ip, isolated, map[], map[];
    }

    function Record(): VmRecord
      reads this
    {
      VmRecord(ip, isolated, forwards)
    }
  }

  /** The second result counts the rules that were added before iptables failed. */
  method AddForwardRules(h: Host, hostPort: string, vmIP: string, vmPort: string) returns (ok: bool, done: nat)
    modifies h
    ensures done <= 2 && (ok <==> done == 2) && (h.reliable ==> ok)
    ensures h.State() == ExecAll(old(h.State()), AddRules(Dnat(hostPort, vmIP, vmPort))[..done])
  {
    ghost var before, cmds := h.State(), AddRules(Dnat(hostPort, vmIP, vmPort));
    done := 0;
    ok := h.Append(Prerouting, Dnat(hostPort, vmIP, vmPort));
    if !ok {
      return;
    }
    done := 1;
    ExecFirst(before, cmds);
    ok := h.Append(Output, Dnat(hostPort, vmIP, vmPort));
    if !ok {
      return;
    }
    done := 2;
    ExecTwo(before, cmds);
  }

  /** Failures are ignored; the ghost result says which commands did not fail. */
  method RemoveForwardRulesForPort(h: Host, hostPort: string, vmIP: string, vmPort: string)
    returns (ghost ran: seq<bool>)
    modifies h
    ensures |ran| == 2 && (h.reliable ==> AllRan(ran))
    ensures h.State() == ExecAll(old(h.State()), Performed(DeleteRules(Dnat(hostPort, vmIP, vmPort)), ran))
  {
    var first := h.Remove(Prerouting, Dnat(hostPort, vmIP, vmPort));
    var second := h.Remove(Output, Dnat(hostPort, vmIP, vmPort));
    ran := [first, second];
    ExecRan(old(h.State()), DeleteRules(Dnat(hostPort, vmIP, vmPort)), first, second);
  }

  datatype ForwardResult = Malformed | Unknown | RulesFailed(done: nat) | NotSaved | Saved

  /** addForward: the mapping is split at its first colon, the rules are added, then the map is changed
      and saved. A failure leaves what was done before it: when saving fails, the forward stays in the map
      in memory, and the next save of the same record stores it too. */
  method AddForward(h: Host, v: VM, mapping: string) returns (r: ForwardResult)
    modifies h, v`forwards, v`stored
    ensures r != Unknown && (r == Malformed <==> ':' !in mapping) && (r.RulesFailed? ==> r.done < 2)
    ensures r == Malformed ==> h.State() == old(h.State())
    ensures r == Malformed || r.RulesFailed? ==> v.forwards == old(v.forwards)
    ensures v.stored == if r == Saved then v.forwards else old(v.stored)
    ensures h.reliable ==> r == Malformed || r == Saved
    ensures OthersInOrder(old(h.State()), h.State(), v.ip)
    ensures forall hostPort, vmPort, bridgeIP ::
      ':' !in hostPort && mapping == hostPort + ":" + vmPort && hostPort !in old(v.forwards)
      && h.reliable && Exact(old(h.State()), old(v.Record()), true, bridgeIP)
      ==> Exact(h.State(), v.Record(), true, bridgeIP)
    ensures forall hostPort, vmPort :: ':' !in hostPort && mapping == hostPort + ":" + vmPort ==>
      && (var done := if r.RulesFailed? then r.done else 2;
          h.State() == ExecAll(old(h.State()), AddRules(Dnat(hostPort, v.ip, vmPort))[..done]))
      && (r == Saved || r == NotSaved ==> v.forwards == old(v.forwards)[hostPort := vmPort])
  {
    var idx := IndexOfChar(mapping, ':');
    if idx < 0 {
      return Malformed;
    }
    var hostPort, vmPort := mapping[..idx], mapping[idx + 1..];
    forall x, y | ':' !in x && mapping == x + ":" + y ensures x == hostPort && y == vmPort {
      SplitAtColon(mapping, x, y);
    }
    AddedForward(h.State(), v.Record(), hostPort, vmPort);
    hide ExecAll, AddRules, Exact, OthersInOrder;
    var ok, done := AddForwardRules(h, hostPort, v.ip, vmPort);
    if !ok {
      return RulesFailed(done);
    }
    v.forwards := v.forwards[hostPort := vmPort];
    // SaveVM
    ok := h.Try();
    if !ok {
      return NotSaved;
    }
    v.stored := v.forwards;
    return Saved;
  }

  /** What adding the rules of a forward, or some of them, does. */
  lemma AddedForward(t: Tables, v: VmRecord, hostPort: string, vmPort: string)
    ensures forall done :: 0 <= done <= 2 ==>
      OthersInOrder(t, ExecAll(t, AddRules(Dnat(hostPort, v.ip, vmPort))[..done]), v.ip)
    ensures forall bridgeIP :: hostPort !in v.forwards && Exact(t, v, true, bridgeIP) ==>
      Exact(ExecAll(t, AddRules(Dnat(hostPort, v.ip, vmPort))[..2]), v.(forwards := v.forwards[hostPort := vmPort]),
            true, bridgeIP)
  {
    var cmds := AddRules(Dnat(hostPort, v.ip, vmPort));
    forall done | 0 <= done <= 2 ensures OthersInOrder(t, ExecAll(t, cmds[..done]), v.ip) {
      PrefixRan(cmds, done);
      RanLeavesOthers(t, cmds, [done > 0, done > 1], v.ip);
    }
    assert cmds[..2] == cmds;
    forall bridgeIP | hostPort !in v.forwards && Exact(t, v, true, bridgeIP)
      ensures Exact(ExecAll(t, cmds), v.(forwards := v.forwards[hostPort := vmPort]), true, bridgeIP)
    {
      AddForwardExactly(t, v, true, bridgeIP, hostPort, vmPort);
    }
  }

  lemma SplitAtColon(mapping: string, x: string, y: string)
    requires ':' !in x && mapping == x + ":" + y
    ensures IndexOfChar(mapping, ':') == |x| && mapping[..|x|] == x && mapping[|x| + 1..] == y
  {
    var idx := IndexOfChar(mapping, ':');
    assert mapping[|x|] == ':';
  }

  /** removeForward: as far as the deletions do not fail, which is ignored, the rules go; then the map is
      changed and saved. */
  method RemoveForward(h: Host, v: VM, hostPort: string) returns (r: ForwardResult, ghost ran: seq<bool>)
    modifies h, v`forwards, v`stored
    ensures r == Unknown || r == NotSaved || r == Saved
    ensures r == Unknown <==> hostPort !in old(v.forwards)
    ensures r == Unknown ==> h.State() == old(h.State())
    ensures h.reliable ==> r != NotSaved
    ensures OthersInOrder(old(h.State()), h.State(), v.ip)
    ensures forall up, bridgeIP :: h.reliable && Exact(old(h.State()), old(v.Record()), up, bridgeIP) ==>
      Exact(h.State(), v.Record(), up, bridgeIP)
    ensures r != Unknown ==> |ran| == 2
    ensures r != Unknown ==>
      h.State() == ExecAll(old(h.State()), Performed(DeleteRules(Dnat(hostPort, v.ip, old(v.forwards)[hostPort])), ran))
    ensures v.forwards == old(v.forwards) - {hostPort}
    ensures v.stored == if r == Saved then v.forwards else old(v.stored)
  {
    ran := [];
    if hostPort !in v.forwards {
      assert v.forwards - {hostPort} == v.forwards;
      return Unknown, ran;
    }
    RemovedForward(h.State(), v.Record(), hostPort);
    hide ExecAll, DeleteRules, Exact, OthersInOrder, Performed;
    ran := RemoveForwardRulesForPort(h, hostPort, v.ip, v.forwards[hostPort]);
    v.forwards := v.forwards - {hostPort};
    // SaveVM
    var ok := h.Try();
    if !ok {
      return NotSaved, ran;
    }
    v.stored := v.forwards;
    return Saved, ran;
  }

  /** What removing the rules of a forward does, as far as it does not fail. */
  lemma RemovedForward(t: Tables, v: VmRecord, hostPort: string)
    requires hostPort in v.forwards
    ensures forall ran :: |ran| == 2 ==>
      OthersInOrder(t, ExecAll(t, Performed(DeleteRules(Dnat(hostPort, v.ip, v.forwards[hostPort])), ran)), v.ip)
    ensures forall ran, up, bridgeIP :: |ran| == 2 && AllRan(ran) && Exact(t, v, up, bridgeIP) ==>
      Exact(ExecAll(t, Performed(DeleteRules(Dnat(hostPort, v.ip, v.forwards[hostPort])), ran)),
            v.(forwards := v.forwards - {hostPort}), up, bridgeIP)
  {
    var cmds := DeleteRules(Dnat(hostPort, v.ip, v.forwards[hostPort]));
    forall ran | |ran| == 2 ensures OthersInOrder(t, ExecAll(t, Performed(cmds, ran)), v.ip) {
      RanLeavesOthers(t, cmds, ran, v.ip);
    }
    forall ran, up, bridgeIP | |ran| == 2 && AllRan(ran) && Exact(t, v, up, bridgeIP)
      ensures Exact(ExecAll(t, Performed(cmds, ran)), v.(forwards := v.forwards - {hostPort}), up, bridgeIP)
    {
      RemoveForwardExactly(t, v, up, bridgeIP, hostPort, ran);
    }
  }

  lemma {:induction false} ForwardCommandsLast(v: VmRecord, order: seq<string>, last: string, add: bool)
    requires forall h :: h in order ==> h in v.forwards
    requires last in v.forwards
    ensures var r := Dnat(last, v.ip, v.forwards[last]);
      ForwardCommands(v, order + [last], add) ==
      ForwardCommands(v, order, add) + (if add then AddRules(r) else DeleteRules(r))
  {
    if order == [] {
      assert order + [last] == [last] && [last][1..] == [];
    } else {
      assert (order + [last])[1..] == order[1..] + [last];
      ForwardCommandsLast(v, order[1..], last, add);
    }
  }

  /** The loop over the map that setup uses to add and cleanup to remove; the ghost results are the
      order in which the map happened to be walked, and which commands did not fail. A rule that could
      not be added only draws a warning. */
  method WalkForwards(h: Host, v: VM, add: bool) returns (ghost order: seq<string>, ghost ran: seq<bool>)
    modifies h
    ensures Walk(order, v.forwards.Keys)
    ensures |ran| == |ForwardCommands(v.Record(), order, add)| && (h.reliable ==> AllRan(ran))
    ensures h.State() == ExecAll(old(h.State()), Performed(ForwardCommands(v.Record(), order, add), ran))
  {
    order, ran := [], [];
    var left := v.forwards.Keys;
    while left != {}
      invariant left <= v.forwards.Keys
      invariant Walk(order, v.forwards.Keys - left)
      invariant |ran| == |ForwardCommands(v.Record(), order, add)| && (h.reliable ==> AllRan(ran))
      invariant h.State() == ExecAll(old(h.State()), Performed(ForwardCommands(v.Record(), order, add), ran))
      decreases left
    {
      var hostPort :| hostPort in left;
      ghost var pair := AddOrDelete(Dnat(hostPort, v.ip, v.forwards[hostPort]), add);
      ghost var before := ForwardCommands(v.Record(), order, add);
      ForwardCommandsLast(v.Record(), order, hostPort, add);
      ghost var more := WalkOne(h, hostPort, v.ip, v.forwards[hostPort], add);
      PerformedConcat(before, pair, ran, more);
      ExecAllConcat(old(h.State()), Performed(before, ran), Performed(pair, more));
      ran := ran + more;
      order := order + [hostPort];
      left := left - {hostPort};
    }
  }

  function AddOrDelete(r: Rule, add: bool): seq<Command> {
    if add then AddRules(r) else DeleteRules(r)
  }

  method WalkOne(h: Host, hostPort: string, vmIP: string, vmPort: string, add: bool) returns (ghost ran: seq<bool>)
    modifies h
    ensures |ran| == 2 && (h.reliable ==> AllRan(ran))
    ensures h.State() == ExecAll(old(h.State()), Performed(AddOrDelete(Dnat(hostPort, vmIP, vmPort), add), ran))
  {
    if add {
      var ok, done := AddForwardRules(h, hostPort, vmIP, vmPort);
      PrefixRan(AddRules(Dnat(hostPort, vmIP, vmPort)), done);
      ran := [done > 0, done > 1];
    } else {
      ran := RemoveForwardRulesForPort(h, hostPort, vmIP, vmPort);
    }
  }

  method ApplyIsolationRules(h: Host, v: VM, bridgeIP: string) returns (done: nat)
    requires v.isolated
    modifies h
    ensures done <= 2 && (h.reliable ==> done == 2)
    ensures h.State() == ExecAll(old(h.State()), IsolationAdds(v.Record(), bridgeIP)[..done])
  {
    ghost var before, cmds := h.State(), IsolationAdds(v.Record(), bridgeIP);
    var ok := h.Append(Forward, AllowGateway(v.ip, bridgeIP));
    if !ok {
      return 0;
    }
    ExecFirst(before, cmds);
    ok := h.Append(Forward, DropPeers(v.ip));
    if !ok {
      return 1;
    }
    ExecTwo(before, cmds);
    return 2;
  }

  method RemoveIsolationRules(h: Host, v: VM) returns (ghost ran: seq<bool>)
    requires v.isolated
    modifies h
    ensures |ran| == 2 && (h.reliable ==> AllRan(ran))
    ensures h.State() == ExecAll(old(h.State()), Performed(IsolationDeletes(v.Record()), ran))
  {
    var first := h.Remove(Forward, DropPeers(v.ip));
    var second := h.Remove(Forward, AllowGateway(v.ip, FixedGateway));
    ran := [first, second];
    ExecRan(old(h.State()), IsolationDeletes(v.Record()), first, second);
  }

  /** The rules part of _setup-vm. A failure in the isolation rules ends it before any forward. If nothing
      fails, a VM that had no rules has those it should have afterwards, with the exception for the
      gateway in front of the rule that drops. */
  method SetupVM(h: Host, v: VM, bridgeIP: string) returns (ok: bool, ghost order: seq<string>, ghost ran: seq<bool>)
    modifies h
    ensures h.reliable ==> ok
    ensures h.reliable && Exact(old(h.State()), v.Record(), false, bridgeIP) ==>
      Exact(h.State(), v.Record(), true, bridgeIP)
    ensures h.reliable ==>
      h.fwd == old(h.fwd) + if v.isolated then [AllowGateway(v.ip, bridgeIP), DropPeers(v.ip)] else []
    ensures OthersInOrder(old(h.State()), h.State(), v.ip)
    ensures Walk(order, v.forwards.Keys)
    ensures |ran| == |SetupCommands(v.Record(), bridgeIP, order)|
    ensures h.State() == ExecAll(old(h.State()), Performed(SetupCommands(v.Record(), bridgeIP, order), ran))
    ensures ok <==> v.isolated ==> ran[0] && ran[1]
    ensures !ok ==> !ran[1] && forall i :: 2 <= i < |ran| ==> !ran[i]
  {
    ghost var before := h.State();
    ok, order, ran := RunSetup(h, v, bridgeIP);
    SetupDone(before, v.Record(), bridgeIP, order, ran);
  }

  method RunSetup(h: Host, v: VM, bridgeIP: string) returns (ok: bool, ghost order: seq<string>, ghost ran: seq<bool>)
    modifies h
    ensures Walk(order, v.forwards.Keys)
    ensures |ran| == |SetupCommands(v.Record(), bridgeIP, order)| && (h.reliable ==> ok && AllRan(ran))
    ensures h.State() == ExecAll(old(h.State()), Performed(SetupCommands(v.Record(), bridgeIP, order), ran))
    ensures ok <==> v.isolated ==> ran[0] && ran[1]
    ensures !ok ==> !ran[1] && forall i :: 2 <= i < |ran| ==> !ran[i]
  {
    ghost var before, adds, first := h.State(), IsolationAdds(v.Record(), bridgeIP), [];
    ok := true;
    if v.isolated {
      var done := ApplyIsolationRules(h, v, bridgeIP);
      PrefixRan(adds, done);
      first := [done > 0, done > 1];
      ok := done == 2;
    }
    ghost var rest;
    if ok {
      order, rest := WalkForwards(h, v, true);
    } else {
      order := SomeWalk(v.forwards.Keys);
      rest := seq(|ForwardCommands(v.Record(), order, true)|, i => false);
      PerformedNone(ForwardCommands(v.Record(), order, true), rest);
    }
    ran := first + rest;
    RanInTurn(before, adds, ForwardCommands(v.Record(), order, true), first, rest);
  }

  lemma SetupDone(t: Tables, v: VmRecord, bridgeIP: string, order: seq<string>, ran: seq<bool>)
    requires Walk(order, v.forwards.Keys) && |ran| == |SetupCommands(v, bridgeIP, order)|
    ensures var u := ExecAll(t, Performed(SetupCommands(v, bridgeIP, order), ran));
      && OthersInOrder(t, u, v.ip)
      && (AllRan(ran) && Exact(t, v, false, bridgeIP) ==> Exact(u, v, true, bridgeIP))
      && (AllRan(ran) ==>
            u.fwd == t.fwd + if v.isolated then [AllowGateway(v.ip, bridgeIP), DropPeers(v.ip)] else [])
  {
    var cmds := SetupCommands(v, bridgeIP, order);
    SetupOwn(v, bridgeIP, order);
    RanLeavesOthers(t, cmds, ran, v.ip);
    if AllRan(ran) {
      PerformedAll(cmds, ran);
      IsolationInOrder(t, v, bridgeIP, order);
      if Exact(t, v, false, bridgeIP) {
        SetupExact(t, v, bridgeIP, order);
      }
    }
  }

  lemma {:induction false} SomeWalk(keys: set<string>) returns (order: seq<string>)
    ensures Walk(order, keys)
  {
    order := [];
    if h :| h in keys {
      order := SomeWalk(keys - {h});
      order := order + [h];
    }
  }

  /** The rules part of _cleanup-vm, which ignores every failure. If nothing fails, none of the VM's rules is
      left, whether it was up or down. */
  method CleanupVM(h: Host, v: VM) returns (ghost order: seq<string>, ghost ran: seq<bool>)
    modifies h
    ensures forall up :: h.reliable && Exact(old(h.State()), v.Record(), up, FixedGateway) ==>
      Exact(h.State(), v.Record(), false, FixedGateway)
    ensures OthersInOrder(old(h.State()), h.State(), v.ip)
    ensures Walk(order, v.forwards.Keys)
    ensures |ran| == |CleanupCommands(v.Record(), order)|
    ensures h.State() == ExecAll(old(h.State()), Performed(CleanupCommands(v.Record(), order), ran))
  {
    ghost var before, first, rest := h.State(), [], [];
    if v.isolated {
      first := RemoveIsolationRules(h, v);
    }
    order, rest := WalkForwards(h, v, false);
    ran := first + rest;
    RanInTurn(before, IsolationDeletes(v.Record()), ForwardCommands(v.Record(), order, false), first, rest);
    CleanupDone(before, v.Record(), order, ran);
    assert h.reliable ==> AllRan(ran);
  }

  /** The rules part of the CLI's delete, which ignores every failure. If nothing fails, none of the VM's
      rules is left, whether it was up or down. */
  method DeleteVMRules(h: Host, v: VM) returns (ghost order: seq<string>, ghost ran: seq<bool>)
    modifies h
    ensures forall up :: h.reliable && Exact(old(h.State()), v.Record(), up, FixedGateway) ==>
      Exact(h.State(), v.Record(), false, FixedGateway)
    ensures OthersInOrder(old(h.State()), h.State(), v.ip)
    ensures Walk(order, v.forwards.Keys)
    ensures |ran| == |DeleteCommands(v.Record(), order, false)|
    ensures h.State() == ExecAll(old(h.State()), Performed(DeleteCommands(v.Record(), order, false), ran))
  {
    ghost var before, first, rest := h.State(), [], [];
    order, first := WalkForwards(h, v, false);
    if v.isolated {
      rest := RemoveIsolationRules(h, v);
    }
    ran := first + rest;
    RanInTurn(before, ForwardCommands(v.Record(), order, false), IsolationDeletes(v.Record()), first, rest);
    DeleteDone(before, v.Record(), order, ran);
    assert h.reliable ==> AllRan(ran);
  }

  lemma CleanupDone(t: Tables, v: VmRecord, order: seq<string>, ran: seq<bool>)
    requires Walk(order, v.forwards.Keys) && |ran| == |CleanupCommands(v, order)|
    ensures Cleaned(t, v, ExecAll(t, Performed(CleanupCommands(v, order), ran)), ran)
  {
    CleanupOwn(v, order);
    RanLeavesOthers(t, CleanupCommands(v, order), ran, v.ip);
    forall up | AllRan(ran) && Exact(t, v, up, FixedGateway)
      ensures Exact(ExecAll(t, Performed(CleanupCommands(v, order), ran)), v, false, FixedGateway)
    {
      PerformedAll(CleanupCommands(v, order), ran);
      CleanupExact(t, v, up, order);
    }
    hide OthersInOrder, Exact, CleanupCommands, Performed, ExecAll;
  }

  lemma DeleteDone(t: Tables, v: VmRecord, order: seq<string>, ran: seq<bool>)
    requires Walk(order, v.forwards.Keys) && |ran| == |DeleteCommands(v, order, false)|
    ensures Cleaned(t, v, ExecAll(t, Performed(DeleteCommands(v, order, false), ran)), ran)
  {
    CleanupOwn(v, order);
    RanLeavesOthers(t, DeleteCommands(v, order, false), ran, v.ip);
    forall up | AllRan(ran) && Exact(t, v, up, FixedGateway)
      ensures Exact(ExecAll(t, Performed(DeleteCommands(v, order, false), ran)), v, false, FixedGateway)
    {
      PerformedAll(DeleteCommands(v, order, false), ran);
      CleanupExact(t, v, up, order);
    }
    hide OthersInOrder, Exact, DeleteCommands, Performed, ExecAll;
  }

  ghost predicate Cleaned(t: Tables, v: VmRecord, u: Tables, ran: seq<bool>) {
    && OthersInOrder(t, u, v.ip)
    && forall up :: AllRan(ran) && Exact(t, v, up, FixedGateway) ==> Exact(u, v, false, FixedGateway)
  }
}
