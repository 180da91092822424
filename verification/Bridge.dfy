/** The bridge and its NAT and forwarding rules (internal/network/bridge.go). */
module Bridge {
  import opened Firewall

  const BridgeRules: seq<Rule> := [Masquerade, BridgeToBridge, BridgeOut, BridgeIn]

  predicate IsBridgeRule(r: Rule) {
    r == Masquerade || r == BridgeToBridge || r == BridgeOut || r == BridgeIn
  }

  function ChainOf(i: nat): ChainName {
    if i == 0 then Postrouting else Forward
  }

  /** One mark for each of the four rules. */
  type Marks = m: seq<bool> | |m| == 4 witness [true, true, true, true]

  const None: Marks := [false, false, false, false]
  const All: Marks := [true, true, true, true]

  function AddMissing(t: Tables, i: nat): Tables
    requires i < 4
  {
    if BridgeRules[i] in Chain(t, ChainOf(i)) then t else Exec(t, Command.Add(ChainOf(i), BridgeRules[i]))
  }

  /** The first n rules, each added unless it is there. */
  function AddedTo(t: Tables, n: nat): Tables
    requires n <= 4
  {
    if n == 0 then t else AddMissing(AddedTo(t, n - 1), n - 1)
  }

  /** What ensureNAT leaves when it ends after the first n rules had their turn: nothing is touched when
      the NAT rule is already there. */
  function Partial(t: Tables, n: nat): Tables
    requires n <= 4
  {
    if Masquerade in t.post then t else AddedTo(t, n)
  }

  function Ensured(t: Tables): Tables {
    Partial(t, 4)
  }

  /** The first n rules deleted once each, as far as the deletions did not fail. */
  function DeletedFrom(t: Tables, ran: Marks, n: nat): Tables
    requires n <= 4
  {
    if n == 0 then t
    else
      var u := DeletedFrom(t, ran, n - 1);
      if ran[n - 1] then Exec(u, Command.Delete(ChainOf(n - 1), BridgeRules[n - 1])) else u
  }

  function Cleaned(t: Tables, ran: Marks): Tables {
    DeletedFrom(t, ran, 4)
  }

  // ---------------------------------------------------------------- the operations as methods

  /** The second result counts the rules whose turn was over when it ended. */
  method EnsureNAT(h: Host) returns (ok: bool, n: nat)
    modifies h
    ensures n <= 4 && (ok <==> n == 4) && h.link == old(h.link) && (h.reliable ==> ok)
    ensures h.State() == Partial(old(h.State()), n)
    ensures OthersAlike(old(h.State()), h.State())
    ensures ok && Unset(old(h.State())) ==>
      h.post == old(h.post) + [Masquerade] && h.fwd == old(h.fwd) + [BridgeToBridge, BridgeOut, BridgeIn]
    ensures ok ==> forall m: Marks :: Holds(old(h.State()), m) ==> Holds(h.State(), if m[0] then m else All)
  {
    ghost var before := h.State();
    hide Holds, OthersAlike, Partial;
    ok, n := AddRules(h);
    SetupDone(before, n);
  }

  method AddRules(h: Host) returns (ok: bool, n: nat)
    modifies h
    ensures n <= 4 && (ok <==> n == 4) && h.link == old(h.link) && (h.reliable ==> ok)
    ensures h.State() == Partial(old(h.State()), n)
  {
    if Masquerade in h.post {
      return true, 4;
    }
    ok := h.Append(Postrouting, Masquerade);
    if !ok {
      assert AddedTo(old(h.State()), 0) == h.State();
      return false, 0;
    }
    n := 1;
    assert AddedTo(old(h.State()), 1) == AddMissing(AddedTo(old(h.State()), 0), 0);
    while n < |BridgeRules|
      invariant 1 <= n <= 4 && h.link == old(h.link)
      invariant h.State() == AddedTo(old(h.State()), n)
    {
      var rule := BridgeRules[n];
      if rule !in h.fwd {
        ok := h.Append(Forward, rule);
        if !ok {
          return false, n;
        }
      }
      n := n + 1;
    }
    return true, 4;
  }

  /** No bridge rule is in its chain. */
  predicate Unset(t: Tables) {
    Masquerade !in t.post && BridgeToBridge !in t.fwd && BridgeOut !in t.fwd && BridgeIn !in t.fwd
  }

  lemma SetupDone(t: Tables, n: nat)
    requires n <= 4
    ensures OthersAlike(t, Partial(t, n))
    ensures Unset(t) ==>
      Ensured(t) == t.(post := t.post + [Masquerade], fwd := t.fwd + [BridgeToBridge, BridgeOut, BridgeIn])
    ensures forall m: Marks :: Holds(t, m) ==> Holds(Ensured(t), if m[0] then m else All)
  {
    if Unset(t) {
      AddedText(t, 4);
      assert Suffix(4) == [BridgeToBridge, BridgeOut, BridgeIn];
    }
    hide Holds, OthersAlike, AddedTo;
    OthersSame(t);
    AddedOthers(t, n);
    forall m: Marks | Holds(t, m) ensures Holds(Ensured(t), if m[0] then m else All) {
      EffectHolds(t, m, Setup);
    }
  }

  lemma CleanupDone(t: Tables, ran: Marks)
    ensures OthersAlike(t, Cleaned(t, ran))
    ensures var fwd := DeleteFirst(DeleteFirst(DeleteFirst(t.fwd, BridgeToBridge), BridgeOut), BridgeIn);
      ran == All ==> Cleaned(t, ran) == t.(post := DeleteFirst(t.post, Masquerade), fwd := fwd)
    ensures ran == All ==> forall m: Marks :: Holds(t, m) ==> Holds(Cleaned(t, ran), None)
  {
    DeletedOthers(t, ran, 4);
    CleanedText(t);
    assert forall m: Marks :: WithoutMarks(m, All) == None;
    forall m: Marks | Holds(t, m) ensures Holds(Cleaned(t, ran), WithoutMarks(m, ran)) {
      CleanedHolds(t, m, ran);
    }
    hide Holds, OthersAlike, DeletedFrom;
  }

  method RemoveNAT(h: Host) returns (ok: bool)
    modifies h
    ensures h.State() == if ok then Exec(old(h.State()), Command.Delete(Postrouting, Masquerade)) else old(h.State())
    ensures h.link == old(h.link) && (h.reliable ==> ok)
  {
    ok := h.Remove(Postrouting, Masquerade);
  }

  /** Failures are ignored; the ghost result says which deletions did not fail. */
  method RemoveForwardRules(h: Host, ghost before: Tables, ghost first: bool) returns (ghost ran: Marks)
    requires h.State() == DeletedFrom(before, [first, true, true, true], 1)
    modifies h
    ensures h.State() == Cleaned(before, ran) && ran[0] == first && h.link == old(h.link)
    ensures h.reliable && first ==> ran == All
  {
    ran := [first, true, true, true];
    var i := 1;
    while i < |BridgeRules|
      invariant 1 <= i <= 4 && ran[0] == first && h.link == old(h.link)
      invariant h.reliable && first ==> ran == All
      invariant h.State() == DeletedFrom(before, ran, i)
    {
      var ok := h.Remove(Forward, BridgeRules[i]);
      SameMarks(before, ran, ran[i := ok], i);
      ran := ran[i := ok];
      i := i + 1;
    }
  }

  lemma {:induction false} SameMarks(t: Tables, ran: Marks, ran': Marks, n: nat)
    requires n <= 4 && forall i :: 0 <= i < n ==> ran[i] == ran'[i]
    ensures DeletedFrom(t, ran, n) == DeletedFrom(t, ran', n)
  {
    if n > 0 {
      SameMarks(t, ran, ran', n - 1);
    }
  }

  /** Each step may fail and then ends the setup; the rules are touched last, on a bridge that is there,
      has its address and is up. */
  method SetupBridge(h: Host) returns (ok: bool, n: nat)
    modifies h
    ensures n <= 4 && (ok <==> n == 4) && (h.reliable ==> ok)
    ensures OthersAlike(old(h.State()), h.State())
    ensures ok ==> forall m: Marks :: Holds(old(h.State()), m) ==> Holds(h.State(), if m[0] then m else All)
    ensures h.State() == Partial(old(h.State()), n)
    ensures ok || n > 0 ==> h.link == LinkState(true, true, true, true)
    ensures old(h.link).present ==> h.link.present
    ensures h.link.up && !old(h.link).up ==> h.link == LinkState(true, true, true, true)
  {
    SetupDone(h.State(), 0);
    // sysctl
    ok := h.Try();
    if !ok {
      return false, 0;
    }
    h.link := h.link.(forwarding := true);
    if !h.link.present {
      ok := h.Try();
      if !ok {
        return false, 0;
      }
      h.link := LinkState(true, true, false, false);
    }
    if !h.link.addressed {
      // an address that turns out to be there already is no error
      ok := h.Try();
      if !ok {
        return false, 0;
      }
      h.link := h.link.(addressed := true);
    }
    ok := h.Try();
    if !ok {
      return false, 0;
    }
    h.link := h.link.(up := true);
    ok, n := EnsureNAT(h);
  }

  /** If no deletion fails, the first occurrence of each rule is gone, and chains that held each at most once
      hold none. */
  method CleanupNAT(h: Host) returns (ghost ran: Marks)
    modifies h
    ensures h.State() == Cleaned(old(h.State()), ran) && h.link == old(h.link)
    ensures OthersAlike(old(h.State()), h.State())
    ensures h.reliable ==>
      && h.post == DeleteFirst(old(h.post), Masquerade)
      && h.fwd == DeleteFirst(DeleteFirst(DeleteFirst(old(h.fwd), BridgeToBridge), BridgeOut), BridgeIn)
    ensures h.reliable ==> forall m: Marks :: Holds(old(h.State()), m) ==> Holds(h.State(), None)
  {
    ghost var before := h.State();
    var first := RemoveNAT(h);
    assert DeletedFrom(before, [first, true, true, true], 0) == before;
    ran := RemoveForwardRules(h, before, first);
    CleanupDone(before, ran);
    hide Holds, OthersAlike, DeletedFrom;
  }

  /** The rules go first, as far as they can be deleted, whatever then becomes of the link. */
  method TeardownBridge(h: Host) returns (ok: bool, ghost ran: Marks)
    modifies h
    ensures h.State() == Cleaned(old(h.State()), ran)
    ensures OthersAlike(old(h.State()), h.State())
    ensures h.reliable ==> ok && forall m: Marks :: Holds(old(h.State()), m) ==> Holds(h.State(), None)
    ensures ok ==> !h.link.present && h.link.forwarding == old(h.link).forwarding
    ensures !ok ==> old(h.link).present && (h.link == old(h.link) || h.link == old(h.link).(up := false))
  {
    ran := CleanupNAT(h);
    hide Holds, OthersAlike, Cleaned;
    if h.link.present {
      ok := h.Try();
      if !ok {
        return;
      }
      h.link := h.link.(up := false);
      ok := h.Try();
      if !ok {
        return;
      }
      h.link := LinkState(h.link.forwarding, false, false, false);
    }
    return true, ran;
  }

  // ---------------------------------------------------------------- sequences of operations

  /** A setup may end early, after the first n rules had their turn, and any deletion may fail. */
  datatype Operation = Setup | FailedSetup(n: nat) | Teardown(ran: Marks) | Cleanup(ran: Marks)

  function Effect(t: Tables, op: Operation): Tables {
    match op
    case Setup => Ensured(t)
    case FailedSetup(n) => Partial(t, if n < 4 then n else 3)
    case Teardown(ran) => Cleaned(t, ran)
    case Cleanup(ran) => Cleaned(t, ran)
  }

  function Effects(t: Tables, ops: seq<Operation>): Tables
    decreases ops
  {
    if ops == [] then t else Effects(Effect(t, ops[0]), ops[1..])
  }

  /** The marked rules stand once each in their chains, and the others not at all. */
  predicate Holds(t: Tables, m: Marks) {
    forall i :: 0 <= i < 4 ==> Count(t, ChainOf(i), BridgeRules[i]) == if m[i] then 1 else 0
  }

  /** Everything but the bridge's rules: the other chains, and the other rules in their order. */
  ghost predicate OthersAlike(t: Tables, u: Tables) {
    && t.pre == u.pre && t.out == u.out
    && Select(t.post, r => !IsBridgeRule(r)) == Select(u.post, r => !IsBridgeRule(r))
    && Select(t.fwd, r => !IsBridgeRule(r)) == Select(u.fwd, r => !IsBridgeRule(r))
  }

  lemma ExecOthers(t: Tables, cmd: Command)
    requires IsBridgeRule(cmd.rule) && (cmd.chain == Postrouting || cmd.chain == Forward)
    ensures OthersAlike(t, Exec(t, cmd))
  {
    var p := r => !IsBridgeRule(r);
    ExecSelects(t, cmd, Postrouting, p);
    ExecSelects(t, cmd, Forward, p);
  }

  lemma {:induction false} AddedOthers(t: Tables, n: nat)
    requires n <= 4
    ensures OthersAlike(t, AddedTo(t, n))
  {
    hide OthersAlike, Exec;
    if n > 0 {
      AddedOthers(t, n - 1);
      ExecOthers(AddedTo(t, n - 1), Command.Add(ChainOf(n - 1), BridgeRules[n - 1]));
      OthersTransitive(t, AddedTo(t, n - 1), AddedTo(t, n));
    } else {
      OthersSame(t);
    }
  }

  lemma {:induction false} DeletedOthers(t: Tables, ran: Marks, n: nat)
    requires n <= 4
    ensures OthersAlike(t, DeletedFrom(t, ran, n))
  {
    hide OthersAlike, Exec;
    if n > 0 {
      DeletedOthers(t, ran, n - 1);
      ExecOthers(DeletedFrom(t, ran, n - 1), Command.Delete(ChainOf(n - 1), BridgeRules[n - 1]));
      OthersTransitive(t, DeletedFrom(t, ran, n - 1), DeletedFrom(t, ran, n));
    } else {
      OthersSame(t);
    }
  }

  lemma OthersSame(t: Tables)
    ensures OthersAlike(t, t)
  {
  }

  lemma OthersTransitive(t: Tables, u: Tables, w: Tables)
    requires OthersAlike(t, u) && (OthersAlike(u, w) || w == u)
    ensures OthersAlike(t, w)
  {
  }

  lemma EffectOthers(t: Tables, op: Operation)
    ensures OthersAlike(t, Effect(t, op))
  {
    hide OthersAlike, AddedTo, DeletedFrom;
    OthersSame(t);
    match op
    case Setup => AddedOthers(t, 4);
    case FailedSetup(n) => AddedOthers(t, if n < 4 then n else 3);
    case Teardown(ran) => DeletedOthers(t, ran, 4);
    case Cleanup(ran) => DeletedOthers(t, ran, 4);
  }

  // Which rules are there after an operation, and after many.

  function First(n: nat): (m: Marks) {
    seq(4, i => i < n)
  }

  function WithoutMarks(m: Marks, ran: Marks): (r: Marks) {
    seq(4, i requires 0 <= i < 4 => m[i] && !ran[i])
  }

  /** A setup that finds the NAT rule goes no further. */
  function After(m: Marks, op: Operation): Marks {
    match op
    case Setup => if m[0] then m else All
    case FailedSetup(n) => if m[0] then m else Union(m, First(if n < 4 then n else 3))
    case Teardown(ran) => WithoutMarks(m, ran)
    case Cleanup(ran) => WithoutMarks(m, ran)
  }

  function Union(m: Marks, k: Marks): (r: Marks) {
    seq(4, i requires 0 <= i < 4 => m[i] || k[i])
  }

  function AfterAll(m: Marks, ops: seq<Operation>): Marks
    decreases ops
  {
    if ops == [] then m else AfterAll(After(m, ops[0]), ops[1..])
  }

  lemma MarkedIsThere(t: Tables, m: Marks, i: nat)
    requires Holds(t, m) && i < 4
    ensures BridgeRules[i] in Chain(t, ChainOf(i)) <==> m[i]
  {
    assert multiset(Chain(t, ChainOf(i)))[BridgeRules[i]] == if m[i] then 1 else 0;
  }

  lemma AddMissingHolds(t: Tables, m: Marks, i: nat)
    requires Holds(t, m) && i < 4
    ensures Holds(AddMissing(t, i), m[i := true])
  {
    MarkedIsThere(t, m, i);
    forall k | 0 <= k < 4
      ensures Count(AddMissing(t, i), ChainOf(k), BridgeRules[k]) == if k == i || m[k] then 1 else 0
    {
      ExecCounts(t, Command.Add(ChainOf(i), BridgeRules[i]), ChainOf(k), BridgeRules[k]);
    }
  }

  lemma {:induction false} AddedHolds(t: Tables, m: Marks, n: nat)
    requires Holds(t, m) && n <= 4
    ensures Holds(AddedTo(t, n), Union(m, First(n)))
  {
    if n == 0 {
      assert Union(m, First(0)) == m;
    } else {
      AddedHolds(t, m, n - 1);
      AddMissingHolds(AddedTo(t, n - 1), Union(m, First(n - 1)), n - 1);
      OneMore(m, n);
      hide Holds, AddMissing, Union, First;
    }
  }

  lemma OneMore(m: Marks, n: nat)
    requires 1 <= n <= 4
    ensures Union(m, First(n - 1))[n - 1 := true] == Union(m, First(n))
  {
  }

  lemma DeleteHolds(t: Tables, m: Marks, i: nat)
    requires Holds(t, m) && i < 4
    ensures Holds(Exec(t, Command.Delete(ChainOf(i), BridgeRules[i])), m[i := false])
  {
    var u := Exec(t, Command.Delete(ChainOf(i), BridgeRules[i]));
    forall k | 0 <= k < 4 ensures Count(u, ChainOf(k), BridgeRules[k]) == if k != i && m[k] then 1 else 0 {
      ExecCounts(t, Command.Delete(ChainOf(i), BridgeRules[i]), ChainOf(k), BridgeRules[k]);
    }
  }

  lemma {:induction false} DeletedHolds(t: Tables, m: Marks, ran: Marks, n: nat)
    requires Holds(t, m) && n <= 4
    ensures Holds(DeletedFrom(t, ran, n), FirstWithout(m, ran, n))
  {
    if n == 0 {
      assert FirstWithout(m, ran, 0) == m;
    } else {
      DeletedHolds(t, m, ran, n - 1);
      DeleteHolds(DeletedFrom(t, ran, n - 1), FirstWithout(m, ran, n - 1), n - 1);
      OneLess(m, ran, n);
      hide Holds, Exec, FirstWithout;
    }
  }

  function FirstWithout(m: Marks, ran: Marks, n: nat): (r: Marks) {
    seq(4, i requires 0 <= i < 4 => m[i] && !(i < n && ran[i]))
  }

  lemma OneLess(m: Marks, ran: Marks, n: nat)
    requires 1 <= n <= 4
    ensures var was := FirstWithout(m, ran, n - 1);
      FirstWithout(m, ran, n) == if ran[n - 1] then was[n - 1 := false] else was
  {
  }

  lemma EffectHolds(t: Tables, m: Marks, op: Operation)
    requires Holds(t, m)
    ensures Holds(Effect(t, op), After(m, op))
  {
    MarkedIsThere(t, m, 0);
    hide Holds, AddedTo, DeletedFrom;
    match op
    case Setup =>
      AddedHolds(t, m, 4);
      assert Union(m, First(4)) == All;
    case FailedSetup(n) => AddedHolds(t, m, if n < 4 then n else 3);
    case Teardown(ran) => CleanedHolds(t, m, ran);
    case Cleanup(ran) => CleanedHolds(t, m, ran);
  }

  lemma CleanedHolds(t: Tables, m: Marks, ran: Marks)
    requires Holds(t, m)
    ensures Holds(Cleaned(t, ran), WithoutMarks(m, ran))
  {
    DeletedHolds(t, m, ran, 4);
    assert FirstWithout(m, ran, 4) == WithoutMarks(m, ran);
  }

  /** Whatever is set up, torn down and cleaned, in any order and number, with setups and deletions failing
      anywhere: no bridge rule ever stands twice, which ones are there is as AfterAll says, and nothing
      else has moved. */
  lemma {:induction false} MarksExact(t: Tables, m: Marks, ops: seq<Operation>)
    requires Holds(t, m)
    ensures Holds(Effects(t, ops), AfterAll(m, ops)) && OthersAlike(t, Effects(t, ops))
    decreases ops
  {
    hide Holds, Effect, After, OthersAlike;
    OthersSame(t);
    if ops != [] {
      EffectHolds(t, m, ops[0]);
      EffectOthers(t, ops[0]);
      MarksExact(Effect(t, ops[0]), After(m, ops[0]), ops[1..]);
      OthersTransitive(t, Effect(t, ops[0]), Effects(t, ops));
    }
  }

  /** Nothing fails in the operation. */
  predicate Succeeds(op: Operation) {
    match op
    case Setup => true
    case FailedSetup(_) => false
    case Teardown(ran) => ran == All
    case Cleanup(ran) => ran == All
  }

  /** When nothing has failed, the four rules are all there once (after a setup) or all absent
      (otherwise). */
  lemma AllOrNone(t: Tables, ops: seq<Operation>)
    requires Holds(t, None) && forall op :: op in ops ==> Succeeds(op)
    ensures Holds(Effects(t, ops), if ops != [] && ops[|ops| - 1].Setup? then All else None)
  {
    MarksExact(t, None, ops);
    AllOrNoneMarks(None, ops);
    hide Holds, AfterAll;
  }

  lemma {:induction false} AllOrNoneMarks(m: Marks, ops: seq<Operation>)
    requires (m == None || m == All) && forall op :: op in ops ==> Succeeds(op)
    ensures AfterAll(m, ops) == if ops == [] then m else if ops[|ops| - 1].Setup? then All else None
    decreases ops
  {
    if ops != [] {
      assert Succeeds(ops[0]);
      assert WithoutMarks(m, All) == None;
      AllOrNoneMarks(After(m, ops[0]), ops[1..]);
    }
  }

  /** A setup that failed after the NAT rule is never made good by setting up again, however often: the
      rules stay as the first failure left them. */
  lemma SetupIsNoRepair(t: Tables, n: nat, more: seq<Operation>)
    requires Holds(t, None) && 1 <= n < 4
    requires forall op :: op in more ==> op.Setup? || op.FailedSetup?
    ensures Holds(Effects(t, [FailedSetup(n)] + more), First(n)) && First(n) != All
  {
    MarksExact(t, None, [FailedSetup(n)] + more);
    assert ([FailedSetup(n)] + more)[1..] == more;
    assert Union(None, First(n)) == First(n);
    StuckMarks(First(n), more);
    assert !First(n)[3];
    hide Holds, Effects;
  }

  lemma {:induction false} StuckMarks(m: Marks, ops: seq<Operation>)
    requires m[0] && forall op :: op in ops ==> op.Setup? || op.FailedSetup?
    ensures AfterAll(m, ops) == m
    decreases ops
  {
    if ops != [] {
      StuckMarks(m, ops[1..]);
    }
  }

  /** Chains of which the NAT rule is part but some rule is missing are repaired by a cleaning and a setup if
      and only if the cleaning manages to delete the NAT rule. */
  lemma RepairExactly(t: Tables, m: Marks, ran: Marks)
    requires Holds(t, m) && m[0] && m != All
    ensures Holds(Effects(t, [Cleanup(ran), Setup]), All) <==> ran[0]
  {
    MarksExact(t, m, [Cleanup(ran), Setup]);
    assert [Cleanup(ran), Setup][1..] == [Setup] && [Setup][1..] == [];
    var u, k := Effects(t, [Cleanup(ran), Setup]), AfterAll(m, [Cleanup(ran), Setup]);
    var i :| 0 <= i < 4 && !m[i];
    if !ran[0] {
      assert k == WithoutMarks(m, ran) && !k[i];
    }
    hide Effects, AfterAll;
    assert Count(u, ChainOf(i), BridgeRules[i]) == if k[i] then 1 else 0;
  }

  /** Setting up again changes nothing; tearing down what a setup added, whether it came to its end or
      not, restores the chains exactly. */
  lemma SetupIdempotentAndUndone(t: Tables, n: nat)
    requires Holds(t, None) && n <= 4
    ensures Ensured(Ensured(t)) == Ensured(t)
    ensures Cleaned(Partial(t, n), All) == t
  {
    AbsentRules(t);
    AddedText(t, 4);
    UndoneText(t, n);
  }

  lemma AbsentRules(t: Tables)
    requires Holds(t, None)
    ensures Unset(t)
  {
    MarkedIsThere(t, None, 0);
    MarkedIsThere(t, None, 1);
    MarkedIsThere(t, None, 2);
    MarkedIsThere(t, None, 3);
  }

  /** The first n of the three forwarding rules. */
  function Suffix(n: nat): seq<Rule>
    requires 1 <= n <= 4
  {
    BridgeRules[1..n]
  }

  lemma {:induction false} AddedText(t: Tables, n: nat)
    requires Unset(t)
    requires 1 <= n <= 4
    ensures AddedTo(t, n) == t.(post := t.post + [Masquerade], fwd := t.fwd + Suffix(n))
  {
    if n == 1 {
      assert AddedTo(t, 0) == t && t.fwd + Suffix(1) == t.fwd;
    } else {
      AddedText(t, n - 1);
      NextRule(t.fwd, n);
      hide Suffix;
    }
  }

  lemma NextRule(f: seq<Rule>, n: nat)
    requires BridgeToBridge !in f && BridgeOut !in f && BridgeIn !in f && 2 <= n <= 4
    ensures BridgeRules[n - 1] !in f + Suffix(n - 1)
    ensures f + Suffix(n - 1) + [BridgeRules[n - 1]] == f + Suffix(n)
  {
    assert Suffix(n - 1) + [BridgeRules[n - 1]] == Suffix(n);
  }

  lemma UndoneText(t: Tables, n: nat)
    requires Unset(t)
    requires n <= 4
    ensures Cleaned(AddedTo(t, n), All) == t
  {
    var u := AddedTo(t, n);
    if n > 0 {
      AddedText(t, n);
    }
    CleanedText(u);
    DeleteAppended(t.post, Masquerade);
    DeleteAbsent(t.post, Masquerade);
    var rest := if n < 1 then [] else Suffix(n);
    assert u.fwd == t.fwd + rest;
    UndoneForward(t.fwd, rest, n);
  }

  lemma CleanedText(u: Tables)
    ensures Cleaned(u, All) ==
      u.(post := DeleteFirst(u.post, Masquerade),
         fwd := DeleteFirst(DeleteFirst(DeleteFirst(u.fwd, BridgeToBridge), BridgeOut), BridgeIn))
  {
    assert DeletedFrom(u, All, 1) == u.(post := DeleteFirst(u.post, Masquerade));
    assert DeletedFrom(u, All, 2).fwd == DeleteFirst(u.fwd, BridgeToBridge);
    assert DeletedFrom(u, All, 3).fwd == DeleteFirst(DeleteFirst(u.fwd, BridgeToBridge), BridgeOut);
  }

  lemma UndoneForward(f: seq<Rule>, rest: seq<Rule>, n: nat)
    requires BridgeToBridge !in f && BridgeOut !in f && BridgeIn !in f && n <= 4
    requires rest == if n < 1 then [] else Suffix(n)
    ensures DeleteFirst(DeleteFirst(DeleteFirst(f + rest, BridgeToBridge), BridgeOut), BridgeIn) == f
  {
    assert |rest| <= 3 && forall i :: 0 <= i < |rest| ==> rest[i] == BridgeRules[i + 1];
    assert BridgeRules[1] == BridgeToBridge && BridgeRules[2] == BridgeOut && BridgeRules[3] == BridgeIn;
    DeleteRest(f, BridgeToBridge, rest);
    var second := if rest == [] then [] else rest[1..];
    assert second != [] ==> second[0] == rest[1];
    DeleteRest(f, BridgeOut, second);
    var third := if second == [] then [] else second[1..];
    assert third != [] ==> third[0] == rest[2];
    DeleteRest(f, BridgeIn, third);
    assert f + [] == f;
  }

  /** Deletes the rule after f, if anything stands there. */
  lemma DeleteRest(f: seq<Rule>, r: Rule, rest: seq<Rule>)
    requires r !in f && (rest != [] ==> rest[0] == r)
    ensures DeleteFirst(f + rest, r) == f + if rest == [] then [] else rest[1..]
  {
    if rest == [] {
      DeleteAbsent(f, r);
      assert f + rest == f;
    } else {
      DeleteMiddle(f, r, rest[1..]);
      assert f + [r] + rest[1..] == f + rest;
    }
  }

  lemma {:induction false} DeleteMiddle(a: seq<Rule>, r: Rule, b: seq<Rule>)
    requires r !in a
    ensures DeleteFirst(a + [r] + b, r) == a + b
  {
    if a == [] {
      assert [] + [r] + b == [r] + b && ([r] + b)[1..] == b && [] + b == b;
    } else {
      assert (a + [r] + b)[1..] == a[1..] + [r] + b;
      DeleteMiddle(a[1..], r, b);
      assert [a[0]] + (a[1..] + b) == a + b;
    }
  }

  /** From chains of any content, a setup ends with all four rules present exactly when the NAT rule was
      absent or the three others were there: the early return trusts the one rule it checks. */
  lemma SetupCompleteExactly(t: Tables)
    ensures (forall i :: 0 <= i < 4 ==> BridgeRules[i] in Chain(Ensured(t), ChainOf(i)))
      <==> (Masquerade !in t.post || forall i :: 1 <= i < 4 ==> BridgeRules[i] in t.fwd)
  {
    if Masquerade in t.post {
      assert forall i :: 1 <= i < 4 ==> Chain(t, ChainOf(i)) == t.fwd;
      assert BridgeRules[0] == Masquerade && Chain(t, ChainOf(0)) == t.post;
    } else {
      AddedPresent(t, 4);
    }
  }

  lemma {:induction false} AddedPresent(t: Tables, n: nat)
    requires n <= 4
    ensures forall i :: 0 <= i < n ==> BridgeRules[i] in Chain(AddedTo(t, n), ChainOf(i))
  {
    if n > 0 {
      AddedPresent(t, n - 1);
      var u := AddedTo(t, n - 1);
      forall i | 0 <= i < n ensures BridgeRules[i] in Chain(AddMissing(u, n - 1), ChainOf(i)) {
      }
    }
  }
}
