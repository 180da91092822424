/** Any number of VMs editing the same chains at once. An operation is begun with the commands it will
    run, read off the record at that moment; its commands are then run one by one, with those of other
    VMs' operations in between; finishing it saves the record. Each VM runs one operation at a time. */
module Interleaving {
  import opened Firewall
  import opened Ledger
  import opened Exactness

  /** What a VM is once its operation is finished. */
  datatype Fate = Keep(v: VmRecord, up: bool) | Gone

  datatype Operation = Operation(todo: seq<Command>, fate: Fate)

  datatype State = State(
    tables: Tables,
    vms: map<string, VmRecord>,
    up: set<string>,
    ops: map<string, Operation>)

  datatype Action =
    | Create(vm: string, rec: VmRecord)
    | BeginSetup(vm: string, order: seq<string>)
    | BeginCleanup(vm: string, order: seq<string>)
    | BeginAdd(vm: string, hostPort: string, vmPort: string)
    | BeginRemove(vm: string, hostPort: string)
    | BeginDelete(vm: string, order: seq<string>, api: bool)
    | ExecNext(vm: string)
    | Finish(vm: string)

  predicate Resting(s: State, n: string) {
    n in s.vms && n !in s.ops
  }

  function Begin(s: State, n: string, todo: seq<Command>, fate: Fate): State {
    s.(ops := s.ops[n := Operation(todo, fate)])
  }

  /** One step; an action that is not enabled changes nothing. */
  ghost function Step(bridgeIP: string, s: State, a: Action): State {
    var n := a.vm;
    match a
    case Create(_, rec) =>
      // addresses of different VMs are different, which the store guarantees
      if n !in s.vms && (forall m :: m in s.vms ==> s.vms[m].ip != rec.ip) then s.(vms := s.vms[n := rec]) else s
    case BeginSetup(_, order) =>
      if Resting(s, n) && n !in s.up && Walk(order, s.vms[n].forwards.Keys) then
        Begin(s, n, SetupCommands(s.vms[n], bridgeIP, order), Keep(s.vms[n], true))
      else s
    case BeginCleanup(_, order) =>
      if Resting(s, n) && n in s.up && Walk(order, s.vms[n].forwards.Keys) then
        Begin(s, n, CleanupCommands(s.vms[n], order), Keep(s.vms[n], false))
      else s
    case BeginAdd(_, h, p) =>
      if Resting(s, n) then
        Begin(s, n, AddRules(Dnat(h, s.vms[n].ip, p)),
              Keep(s.vms[n].(forwards := s.vms[n].forwards[h := p]), n in s.up))
      else s
    case BeginRemove(_, h) =>
      if Resting(s, n) && h in s.vms[n].forwards then
        Begin(s, n, DeleteRules(Dnat(h, s.vms[n].ip, s.vms[n].forwards[h])),
              Keep(s.vms[n].(forwards := s.vms[n].forwards - {h}), n in s.up))
      else s
    case BeginDelete(_, order, api) =>
      if Resting(s, n) && n !in s.up && Walk(order, s.vms[n].forwards.Keys) then
        Begin(s, n, DeleteCommands(s.vms[n], order, api), Gone)
      else s
    case ExecNext(_) =>
      if n in s.ops && s.ops[n].todo != [] then
        s.(tables := Exec(s.tables, s.ops[n].todo[0]), ops := s.ops[n := s.ops[n].(todo := s.ops[n].todo[1..])])
      else s
    case Finish(_) =>
      if n in s.ops && s.ops[n].todo == [] then
        match s.ops[n].fate
        case Keep(v, up) =>
          s.(vms := s.vms[n := v], up := if up then s.up + {n} else s.up - {n}, ops := s.ops - {n})
        case Gone => s.(vms := s.vms - {n}, up := s.up - {n}, ops := s.ops - {n})
      else s
  }

  ghost function Run(bridgeIP: string, s: State, actions: seq<Action>): State
    decreases actions
  {
    if actions == [] then s else Run(bridgeIP, Step(bridgeIP, s, actions[0]), actions[1..])
  }

  /** Forwards are added while the VM is up, on host ports it does not forward yet. */
  predicate Guarded(s: State, a: Action) {
    a.BeginAdd? && Resting(s, a.vm) ==> a.vm in s.up && a.hostPort !in s.vms[a.vm].forwards
  }

  ghost predicate GuardedRun(bridgeIP: string, s: State, actions: seq<Action>)
    decreases actions
  {
    actions == [] || (Guarded(s, actions[0]) && GuardedRun(bridgeIP, Step(bridgeIP, s, actions[0]), actions[1..]))
  }

  // ---------------------------------------------------------------- the invariant

  function Pending(s: State, n: string): Operation
    requires n in s.vms
  {
    if n in s.ops then s.ops[n] else Operation([], Keep(s.vms[n], n in s.up))
  }

  function Goal(fate: Fate, bridgeIP: string, c: ChainName, r: Rule): nat {
    match fate
    case Keep(v, up) => Want(v, up, bridgeIP, c, r)
    case Gone => 0
  }

  /** Running the commands still pending brings the VM's rules to what its operation is for. */
  ghost predicate OnTrack(s: State, n: string)
    requires n in s.vms
  {
    forall c, r :: Belongs(r, s.vms[n].ip) ==>
      CountAfterAll(Count(s.tables, c, r), Pending(s, n).todo, c, r) == Goal(Pending(s, n).fate, FixedGateway, c, r)
  }

  predicate OwnCommands(op: Operation, ip: string) {
    && (forall i :: 0 <= i < |op.todo| ==> Belongs(op.todo[i].rule, ip))
    && (op.fate.Keep? ==> op.fate.v.ip == ip)
  }

  /** Rules of VMs are rules of VMs that exist. */
  ghost predicate Accounted(s: State) {
    forall c, r :: Count(s.tables, c, r) > 0 && IsVmRule(r) ==> exists n :: n in s.vms && Belongs(r, s.vms[n].ip)
  }

  ghost predicate Inv(s: State) {
    && (forall m, n :: m in s.vms && n in s.vms && m != n ==> s.vms[m].ip != s.vms[n].ip)
    && s.ops.Keys <= s.vms.Keys && s.up <= s.vms.Keys
    && (forall n :: n in s.ops ==> OwnCommands(s.ops[n], s.vms[n].ip))
    && (forall n :: n in s.vms ==> OnTrack(s, n))
    && Accounted(s)
  }

  /** Beginning an operation on a VM whose rules are in order puts it on track. */
  lemma BeginKeeps(s: State, n: string, todo: seq<Command>, fate: Fate)
    requires Inv(s) && Resting(s, n) && OwnCommands(Operation(todo, fate), s.vms[n].ip)
    requires forall c, r :: Belongs(r, s.vms[n].ip) ==>
      CountAfterAll(Want(s.vms[n], n in s.up, FixedGateway, c, r), todo, c, r) == Goal(fate, FixedGateway, c, r)
    ensures Inv(Begin(s, n, todo, fate))
  {
    var t := Begin(s, n, todo, fate);
    forall m | m in t.vms ensures OnTrack(t, m) {
      assert OnTrack(s, m);
      if m == n {
        forall c, r | Belongs(r, s.vms[n].ip)
          ensures CountAfterAll(Count(t.tables, c, r), todo, c, r) == Goal(fate, FixedGateway, c, r)
        {
          assert Count(s.tables, c, r) == Want(s.vms[n], n in s.up, FixedGateway, c, r);
        }
      } else {
        assert Pending(t, m) == Pending(s, m);
      }
    }
  }

  lemma ExecKeeps(s: State, n: string)
    requires Inv(s) && n in s.ops && s.ops[n].todo != []
    ensures Inv(Step(FixedGateway, s, ExecNext(n)))
  {
    var t := Step(FixedGateway, s, ExecNext(n));
    var cmd := s.ops[n].todo[0];
    assert OwnCommands(s.ops[n], s.vms[n].ip) && Belongs(cmd.rule, s.vms[n].ip);
    forall m | m in t.vms ensures OnTrack(t, m) {
      ExecOnTrack(s, n, m);
    }
    forall c, r | Count(t.tables, c, r) > 0 && IsVmRule(r) ensures exists k :: k in t.vms && Belongs(r, t.vms[k].ip) {
      ExecCounts(s.tables, cmd, c, r);
      if r != cmd.rule {
        assert Count(s.tables, c, r) > 0;
      }
    }
  }

  lemma ExecOnTrack(s: State, n: string, m: string)
    requires Inv(s) && n in s.ops && s.ops[n].todo != [] && m in s.vms
    ensures OnTrack(Step(FixedGateway, s, ExecNext(n)), m)
  {
    var t := Step(FixedGateway, s, ExecNext(n));
    var cmd := s.ops[n].todo[0];
    assert OnTrack(s, m);
    assert OwnCommands(s.ops[n], s.vms[n].ip) && Belongs(cmd.rule, s.vms[n].ip);
    hide Exec, Count;
    forall c, r | Belongs(r, s.vms[m].ip)
      ensures CountAfterAll(Count(t.tables, c, r), Pending(t, m).todo, c, r)
        == Goal(Pending(t, m).fate, FixedGateway, c, r)
    {
      ExecCounts(s.tables, cmd, c, r);
      if m != n {
        assert Pending(t, m) == Pending(s, m);
        assert r != cmd.rule;
      }
    }
  }

  lemma FinishKeeps(s: State, n: string)
    requires Inv(s) && n in s.ops && s.ops[n].todo == []
    ensures Inv(Step(FixedGateway, s, Finish(n)))
  {
    var t := Step(FixedGateway, s, Finish(n));
    assert OnTrack(s, n);
    assert OwnCommands(s.ops[n], s.vms[n].ip);
    forall m | m in t.vms ensures OnTrack(t, m) {
      assert OnTrack(s, m);
      if m == n {
        assert Pending(t, n) == s.ops[n];
      } else {
        assert Pending(t, m) == Pending(s, m);
      }
    }
    forall c, r | Count(t.tables, c, r) > 0 && IsVmRule(r) ensures exists k :: k in t.vms && Belongs(r, t.vms[k].ip) {
      var k :| k in s.vms && Belongs(r, s.vms[k].ip);
      assert k == n && s.ops[n].fate.Gone? ==> Count(s.tables, c, r) == 0;
      assert k in t.vms && Belongs(r, t.vms[k].ip);
    }
  }

  lemma CreateKeeps(s: State, n: string, rec: VmRecord)
    requires Inv(s)
    ensures Inv(Step(FixedGateway, s, Create(n, rec)))
  {
    var t := Step(FixedGateway, s, Create(n, rec));
    if t != s {
      forall m | m in t.vms ensures OnTrack(t, m) {
        if m == n {
          assert forall c, r :: Belongs(r, rec.ip) ==> Count(s.tables, c, r) == 0;
        } else {
          assert OnTrack(s, m);
          assert Pending(t, m) == Pending(s, m);
        }
      }
      forall c, r | Count(t.tables, c, r) > 0 && IsVmRule(r) ensures exists k :: k in t.vms && Belongs(r, t.vms[k].ip) {
        var k :| k in s.vms && Belongs(r, s.vms[k].ip);
        assert k in t.vms && Belongs(r, t.vms[k].ip);
      }
    }
  }

  lemma StepKeeps(s: State, a: Action)
    requires Inv(s) && Guarded(s, a)
    ensures Inv(Step(FixedGateway, s, a))
  {
    var n := a.vm;
    match a
    case Create(_, rec) => CreateKeeps(s, n, rec);
    case ExecNext(_) => if n in s.ops && s.ops[n].todo != [] { ExecKeeps(s, n); }
    case Finish(_) => if n in s.ops && s.ops[n].todo == [] { FinishKeeps(s, n); }
    case BeginSetup(_, order) =>
      if Resting(s, n) && n !in s.up && Walk(order, s.vms[n].forwards.Keys) {
        var v := s.vms[n];
        OwnForwardCommands(v, order, true);
        forall c, r | Belongs(r, v.ip) { SetupCounts(v, FixedGateway, order, c, r); }
        BeginKeeps(s, n, SetupCommands(v, FixedGateway, order), Keep(v, true));
      }
    case BeginCleanup(_, order) =>
      if Resting(s, n) && n in s.up && Walk(order, s.vms[n].forwards.Keys) {
        var v := s.vms[n];
        OwnForwardCommands(v, order, false);
        forall c, r | Belongs(r, v.ip) { CleanupCounts(v, true, order, c, r); }
        BeginKeeps(s, n, CleanupCommands(v, order), Keep(v, false));
      }
    case BeginDelete(_, order, api) =>
      if Resting(s, n) && n !in s.up && Walk(order, s.vms[n].forwards.Keys) {
        var v := s.vms[n];
        OwnForwardCommands(v, order, false);
        forall c, r | Belongs(r, v.ip) { CleanupCounts(v, false, order, c, r); }
        BeginKeeps(s, n, DeleteCommands(v, order, api), Gone);
      }
    case BeginAdd(_, h, p) =>
      if Resting(s, n) {
        var v := s.vms[n];
        forall c, r | Belongs(r, v.ip) { AddCounts(v, h, p, FixedGateway, c, r); }
        BeginKeeps(s, n, AddRules(Dnat(h, v.ip, p)), Keep(v.(forwards := v.forwards[h := p]), true));
      }
    case BeginRemove(_, h) =>
      if Resting(s, n) && h in s.vms[n].forwards {
        var v := s.vms[n];
        forall c, r | Belongs(r, v.ip) { RemoveCounts(v, h, n in s.up, FixedGateway, c, r); }
        BeginKeeps(s, n, DeleteRules(Dnat(h, v.ip, v.forwards[h])), Keep(v.(forwards := v.forwards - {h}), n in s.up));
      }
  }

  lemma {:induction false} RunKeeps(s: State, actions: seq<Action>)
    requires Inv(s) && GuardedRun(FixedGateway, s, actions)
    ensures Inv(Run(FixedGateway, s, actions))
    decreases actions
  {
    hide Inv, Step;
    if actions != [] {
      StepKeeps(s, actions[0]);
      RunKeeps(Step(FixedGateway, s, actions[0]), actions[1..]);
    }
  }

  // ---------------------------------------------------------------- the main results

  /** Before any VM exists: chains with arbitrary other rules in them. */
  ghost predicate Initial(s: State) {
    s.vms == map[] && s.up == {} && s.ops == map[] && forall c, r :: r in Chain(s.tables, c) ==> !IsVmRule(r)
  }

  /** In every interleaving of the VMs' operations, every VM that is not in the middle of one has its
      rules in the chains, each exactly once while it is up and none while it is down; and no rule of a
      VM that does not exist is left. */
  lemma RulesStayExact(s: State, actions: seq<Action>)
    requires Initial(s) && GuardedRun(FixedGateway, s, actions)
    ensures var t := Run(FixedGateway, s, actions);
      (forall n :: Resting(t, n) ==> Exact(t.tables, t.vms[n], n in t.up, FixedGateway)) && Accounted(t)
  {
    InitialInv(s);
    RunKeeps(s, actions);
    var t := Run(FixedGateway, s, actions);
    hide Run;
    forall n | Resting(t, n) ensures Exact(t.tables, t.vms[n], n in t.up, FixedGateway) {
      RestingExact(t, n);
    }
  }

  lemma InitialInv(s: State)
    requires Initial(s)
    ensures Inv(s)
  {
    assert forall c, r :: Count(s.tables, c, r) > 0 ==> r in Chain(s.tables, c);
  }

  lemma RestingExact(t: State, n: string)
    requires Inv(t) && Resting(t, n)
    ensures Exact(t.tables, t.vms[n], n in t.up, FixedGateway)
  {
    assert OnTrack(t, n);
    forall c, r | Belongs(r, t.vms[n].ip)
      ensures Count(t.tables, c, r) == Want(t.vms[n], n in t.up, FixedGateway, c, r)
    {
      assert CountAfterAll(Count(t.tables, c, r), Pending(t, n).todo, c, r) == Count(t.tables, c, r);
    }
  }

  /** A step of one VM leaves the rules of everybody else where they are, in their order. */
  lemma StepLeavesOthersInOrder(s: State, a: Action, c: ChainName)
    requires Inv(s) && a.vm in s.vms
    ensures var p := r => !Belongs(r, s.vms[a.vm].ip);
      Select(Chain(Step(FixedGateway, s, a).tables, c), p) == Select(Chain(s.tables, c), p)
  {
    var n := a.vm;
    var p := r => !Belongs(r, s.vms[n].ip);
    if a.ExecNext? && n in s.ops && s.ops[n].todo != [] {
      assert OwnCommands(s.ops[n], s.vms[n].ip);
      ExecSelects(s.tables, s.ops[n].todo[0], c, p);
    }
  }

  /** Over whole runs, the rules that are no VM's, the bridge's and everybody else's, never move. */
  lemma {:induction false} OtherRulesNeverMove(s: State, actions: seq<Action>, c: ChainName)
    requires Inv(s) && GuardedRun(FixedGateway, s, actions)
    ensures var p := r => !IsVmRule(r);
      Select(Chain(Run(FixedGateway, s, actions).tables, c), p) == Select(Chain(s.tables, c), p)
    decreases actions
  {
    if actions != [] {
      var a := actions[0];
      var p := r => !IsVmRule(r);
      if a.ExecNext? && a.vm in s.ops && s.ops[a.vm].todo != [] {
        assert OwnCommands(s.ops[a.vm], s.vms[a.vm].ip);
        ExecSelects(s.tables, s.ops[a.vm].todo[0], c, p);
      }
      StepKeeps(s, a);
      hide Inv, Step;
      OtherRulesNeverMove(Step(FixedGateway, s, a), actions[1..], c);
    }
  }
}
