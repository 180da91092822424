/** The lifecycle commands as the program runs them, one effect after another on the VM's state. Each
    may be cut off before any effect, by an error or a kill, and lets the outside act before every
    effect; the ghost results list what happened. They run exactly the plans of module Lifecycle, and
    when they report success they have achieved what they are for. */
module LifecycleCommands {
  import opened Text
  import opened Lifecycle

  lemma OwnLast(events: seq<Event>, e: Event)
    ensures Own(events + [e]) == if Outside(e) then Own(events) else Own(events) + [e]
  {
    OwnConcat(events, [e]);
    assert [e][1..] == [];
  }

  /** The record and the files are the same. */
  predicate SameRecord(s: VM, t: VM) {
    s.stored == t.stored && s.diskGB == t.diskGB && s.rootfsGB == t.rootfsGB && s.snap == t.snap && s.mem == t.mem
  }

  /** An effect that asks the running VM for something. */
  predicate AsksVM(e: Event) {
    e.Pause? || e.Resume? || e.TakeSnapshot?
  }

  /** A VM that was running and is not, without having been stopped, has died. */
  lemma {:induction false} Died(s: VM, events: seq<Event>)
    requires s.active && !Run(s, events).active && Stop !in events
    ensures exists i :: 0 <= i < |events| && events[i].Die?
    decreases events
  {
    if !events[0].Die? {
      assert Step(s, events[0]).active;
      Died(Step(s, events[0]), events[1..]);
      var i :| 0 <= i < |events[1..]| && events[1..][i].Die?;
      assert events[i + 1].Die?;
    }
  }

  lemma {:induction false} StopIsOwn(events: seq<Event>)
    ensures Stop in events ==> Stop in Own(events)
  {
    if events != [] {
      StopIsOwn(events[1..]);
    }
  }

  /** A freeze, as it went: the events before it looked, and from then on; around its effects; and
      whether the snapshot was taken. */
  datatype Freezing = Freezing(
    wait: seq<Event>, events: seq<Event>,
    w0: seq<Event>, w1: seq<Event>, w2: seq<Event>, taken: bool)

  class Instance {
    var state: VM
    const fails: set<Event>  // effects that may fail although the VM does its part; the others do not

    constructor (state: VM, fails: set<Event>)
      ensures this.state == state && this.fails == fails
    {
      this.state, this.fails := state, fails;
    }

    /** Anything the guest and systemd may do while nobody is looking. */
    method Meanwhile() returns (ghost wait: seq<Event>)
      modifies this`state
      ensures Own(wait) == [] && state == Run(old(state), wait)
      ensures SameRecord(old(state), state) && (Quiet(old(state)) ==> state == old(state))
    {
      wait := [];
      ghost var start := state;
      var rounds: nat := *;
      while rounds > 0
        invariant Own(wait) == [] && state == Run(start, wait)
      {
        var e: Event := *;
        if Outside(e) {
          RunLast(start, wait, e);
          OwnLast(wait, e);
          state := Step(state, e);
          wait := wait + [e];
        }
        rounds := rounds - 1;
      }
      OutsideKeepsRecord(start, wait);
      if Quiet(start) {
        QuietStays(start, wait);
      }
    }

    /** One effect of a command, unless the command ends here: the outside acts, and what the VM is then is
        mid. What asks a dead VM fails without effect, and a start fails that leads to no running VM. */
    method Perform(e: Event, ghost start: VM, ghost before: seq<Event>)
      returns (ok: bool, ghost events: seq<Event>, ghost wait: seq<Event>, ghost mid: VM)
      requires state == Run(start, before) && !Outside(e)
      modifies this`state
      ensures Own(wait) == [] && mid == Run(old(state), wait) && mid == Run(start, before + wait)
      ensures SameRecord(old(state), mid) && (Quiet(old(state)) ==> mid == old(state))
      ensures state == Run(start, events)
      ensures (events == before + wait && state == mid) || (events == before + wait + [e] && state == Step(mid, e))
      ensures Own(events) == Own(before) || Own(events) == Own(before) + [e]
      ensures ok ==> events == before + wait + [e] && state == Step(mid, e) && Own(events) == Own(before) + [e]
      ensures ok ==> (AsksVM(e) ==> mid.active) && (e.Start? ==> state.active)
      ensures !ok && !e.Start? ==> events == before + wait && state == mid && Own(events) == Own(before)
      ensures !ok && e !in fails ==> (AsksVM(e) && !mid.active) || (e.Start? && !state.active && state == Step(mid, e))
    {
      wait := Meanwhile();
      RunConcat(start, before, wait);
      OwnConcat(before, wait);
      events, mid := before + wait, state;
      ok := *;
      ok := (ok || e !in fails) && (AsksVM(e) ==> state.active);
      if ok {
        RunLast(start, events, e);
        OwnLast(events, e);
        state := Step(state, e);
        events := events + [e];
        ok := e.Start? ==> state.active;
      }
    }

    // -------------------------------------------------------------- freeze and unfreeze

    /** Loading the record and asking systemd are not one instant: the outside may act in between. A freeze
        that reports success has paused the VM, taken a snapshot of the running VM, and stopped it, in
        this order: the VM is frozen with the snapshot of that moment, and if it was still paused then, of
        the moment it was paused. When the snapshot fails the VM is resumed, unless that fails too. If
        nothing fails, only a VM that was not running or has died is not frozen. */
    method RunFreeze() returns (ok: bool, ghost f: Freezing)
      modifies this`state
      ensures Own(f.wait) == [] && state == Run(Run(old(state), f.wait), f.events)
      ensures Own(f.events) <= Plan(Run(old(state), f.wait), Freeze(f.taken))
      ensures ok ==> Run(old(state), f.wait).active && FrozenBy(Run(old(state), f.wait), f)
      ensures ok && Consistent(old(state)) ==>
        && var start := Run(old(state), f.wait);
        var t := Run(start, f.w0 + [Pause] + f.w1);
        && Quiet(state) && state.snap == Some(Snapshot(t.running, t.guest)) && t.running == state.stored
        && Step(state, Start) == t.(snap := state.snap, mem := true, pending := false, paused := false)
        && (t.paused ==> t == Run(start, f.w0).(paused := true))
      ensures !Run(old(state), f.wait).active ==> !ok && f.events == []
      ensures !ok ==> Own(f.events) in [[], [Pause], [Pause, Resume], [Pause, TakeSnapshot]]
      ensures !ok && Own(f.events) == [Pause] && Resume !in fails ==> !state.active
      ensures !ok && fails == {} ==>
        !Run(old(state), f.wait).active || HasDeath(f.events)
    {
      ghost var wait := Meanwhile();
      f := Freezing(wait, [], [], [], [], true);
      if !state.active {
        return false, f;
      }
      hide Run, FrozenBy, Consistent;
      ok, f := FreezeRunning(wait);
      if ok && Consistent(old(state)) {
        FrozenState(old(state), f, state);
      }
    }

    /** The effects of a freeze. */
    method FreezeRunning(ghost wait: seq<Event>) returns (ok: bool, ghost f: Freezing)
      requires state.active
      modifies this`state
      ensures f.wait == wait && state == Run(old(state), f.events)
      ensures Own(f.events) <= if f.taken then [Pause, TakeSnapshot, Stop] else [Pause, Resume]
      ensures ok ==> f.taken && FrozenBy(old(state), f)
      ensures !ok ==> Own(f.events) in [[], [Pause], [Pause, Resume], [Pause, TakeSnapshot]]
      ensures !ok && Own(f.events) == [Pause] && Resume !in fails ==> !state.active
      ensures !ok && fails == {} ==> HasDeath(f.events)
    {
      ghost var start, events, mid, w0 := state, [], state, [];
      assert Run(start, []) == start && Own([]) == [];
      hide Run, Own, Step, Quiet, SameRecord, FrozenBy, HasDeath;
      ok, events, w0, mid := Perform(Pause, start, []);
      if !ok {
        NotStopped(start, events);
        return ok, Freezing(wait, events, w0, [], [], true);
      }
      assert events == w0 + [Pause];
      ok, f := TakeAndStop(wait, start, w0);
    }

    /** The effects after the pause. */
    method TakeAndStop(ghost wait: seq<Event>, ghost start: VM, ghost w0: seq<Event>)
      returns (ok: bool, ghost f: Freezing)
      requires start.active && state == Run(start, w0 + [Pause]) && Own(w0) == [] && Own(w0 + [Pause]) == [Pause]
      modifies this`state
      ensures f.wait == wait && state == Run(start, f.events)
      ensures Own(f.events) <= if f.taken then [Pause, TakeSnapshot, Stop] else [Pause, Resume]
      ensures ok ==> f.taken && FrozenBy(start, f)
      ensures !ok ==> Own(f.events) in [[Pause], [Pause, Resume], [Pause, TakeSnapshot]]
      ensures !ok && Own(f.events) == [Pause] && Resume !in fails ==> !state.active
      ensures !ok && fails == {} ==> HasDeath(f.events)
    {
      ghost var events, mid, w1, w2 := [], state, [], [];
      hide Run, Own, Step, Quiet, SameRecord, HasDeath;
      ok, events, w1, mid := Perform(TakeSnapshot, start, w0 + [Pause]);
      if !ok {
        NotStopped(start, events);
        events := ResumeAgain(start, events);
        return ok, Freezing(wait, events, w0, w1, [], false);
      }
      ok, events, w2, mid := Perform(Stop, start, events);
      f := Freezing(wait, events, w0, w1, w2, true);
      if ok {
        assert FrozenBy(start, f) by {
          assert Run(start, w0 + [Pause] + w1).active;
        }
      } else {
        assert Own(events) == [Pause, TakeSnapshot];
      }
    }

    /** Resumes after a failure; the error of the resume itself is ignored. */
    method ResumeAgain(ghost start: VM, ghost before: seq<Event>) returns (ghost events: seq<Event>)
      requires state == Run(start, before) && Own(before) == [Pause]
      modifies this`state
      ensures state == Run(start, events) && (Own(events) == [Pause] || Own(events) == [Pause, Resume])
      ensures Own(events) == [Pause] && Resume !in fails ==> !state.active
      ensures HasDeath(before) ==> HasDeath(events)
    {
      hide Run, Own;
      ghost var wait, mid;
      var ok;
      ok, events, wait, mid := Perform(Resume, start, before);
      assert forall i :: 0 <= i < |before| ==> events[i] == before[i];
    }

    static predicate HasDeath(events: seq<Event>) {
      exists i :: 0 <= i < |events| && events[i].Die?
    }

    static lemma NotStopped(start: VM, events: seq<Event>)
      requires Own(events) == [] || Own(events) == [Pause]
      ensures start.active && !Run(start, events).active ==> HasDeath(events)
    {
      StopIsOwn(events);
      if start.active && !Run(start, events).active {
        Died(start, events);
      }
    }

    static ghost predicate FrozenBy(start: VM, f: Freezing) {
      && f.events == f.w0 + [Pause] + f.w1 + [TakeSnapshot] + f.w2 + [Stop]
      && Own(f.w0) == [] && Own(f.w1) == [] && Own(f.w2) == []
      && Run(start, f.w0 + [Pause] + f.w1).active
    }

    static lemma FrozenState(s: VM, f: Freezing, frozen: VM)
      requires Consistent(s) && Own(f.wait) == [] && FrozenBy(Run(s, f.wait), f)
      requires frozen == Run(Run(s, f.wait), f.events)
      ensures var start := Run(s, f.wait);
        var t := Run(start, f.w0 + [Pause] + f.w1);
        && Quiet(frozen) && frozen.snap == Some(Snapshot(t.running, t.guest)) && t.running == frozen.stored
        && Step(frozen, Start) == t.(snap := frozen.snap, mem := true, pending := false, paused := false)
        && (t.paused ==> t == Run(start, f.w0).(paused := true))
    {
      WaitConsistent(s, f.wait);
      FreezeUnfreeze(Run(s, f.wait), f.w0, f.w1, f.w2, []);
      assert f.events + [] == f.events;
    }

    /** Starts the unit, only when there is a snapshot and the VM is not running. */
    method RunUnfreeze() returns (ok: bool, ghost wait: seq<Event>, ghost w: seq<Event>, ghost events: seq<Event>)
      modifies this`state
      ensures Own(wait) == [] && Own(w) == [] && state == Run(Run(old(state), wait), events)
      ensures Own(events) <= Plan(Run(old(state), wait), Unfreeze)
      ensures ok ==> old(state).snap.Some? && !Run(old(state), wait).active && events == w + [Start] && state.active
      ensures old(state).snap == None || Run(old(state), wait).active ==> !ok && events == []
      ensures fails == {} && old(state).snap.Some? && old(state).mem && !Run(old(state), wait).active ==> ok
      ensures Quiet(old(state)) && ok ==> state == Step(old(state), Start)
    {
      wait, w, events := [], [], [];
      var hasSnapshot := state.snap.Some?;
      if !hasSnapshot {
        return false, wait, w, events;
      }
      wait := Meanwhile();
      ghost var start := state;
      if state.active {
        return false, wait, w, events;
      }
      ghost var mid;
      ok, events, w, mid := Perform(Start, start, []);
      assert events == w || events == w + [Start];
    }

    // -------------------------------------------------------------- resize

    static function DiskPlan(grow: int, wasRunning: bool): seq<Event> {
      if grow != 0 then (if wasRunning then [Stop] else []) + [Truncate(grow)] else []
    }

    static function ConfPlan(restart: bool, stop: bool): seq<Event> {
      if restart then (if stop then [Stop] else []) + [WriteUnit] else []
    }

    /** The disk part: stop, truncate, then grow the file system, whose errors end the command. */
    method ResizeDisk(grow: int, wasRunning: bool, ghost start: VM) returns (ok: bool, ghost events: seq<Event>)
      requires state == start
      modifies this`state
      ensures state == Run(start, events) && Own(events) <= DiskPlan(grow, wasRunning)
      ensures ok ==> Own(events) == DiskPlan(grow, wasRunning)
      ensures fails == {} ==> ok
      ensures SameRecord(start.(rootfsGB := state.rootfsGB), state)
      ensures state.rootfsGB == start.rootfsGB || (grow != 0 && state.rootfsGB == grow)
      ensures ok ==> state.rootfsGB == if grow != 0 then grow else start.rootfsGB
      ensures grow == 0 ==> state == start
      ensures ok && grow != 0 && (wasRunning || Quiet(start)) ==> Quiet(state)
    {
      ok, events := true, [];
      ghost var wait, mid;
      assert Run(start, []) == start && Own([]) == [];
      hide Run, Own;
      if grow != 0 {
        if wasRunning {
          ok, events, wait, mid := Perform(Stop, start, events);
          if !ok {
            return;
          }
        }
        ok, events, wait, mid := Perform(Truncate(grow), start, events);
        if !ok {
          return;
        }
        // e2fsck and resize2fs, or xfs_growfs
        ok := *;
        ok := ok || Truncate(grow) !in fails;
      }
    }

    /** The CPU and memory part: stop unless that has been done, then rewrite the unit file. */
    method Reconfigure(restart: bool, stop: bool, ghost start: VM, ghost before: seq<Event>)
      returns (ok: bool, ghost events: seq<Event>)
      requires state == Run(start, before)
      modifies this`state
      ensures state == Run(start, events) && Own(events) <= Own(before) + ConfPlan(restart, stop)
      ensures ok ==> Own(events) == Own(before) + ConfPlan(restart, stop)
      ensures fails == {} ==> ok
      ensures SameRecord(old(state), state)
      ensures ok && ((restart && stop) || Quiet(old(state))) ==> Quiet(state)
    {
      ok, events := true, before;
      ghost var wait, mid;
      if restart {
        if stop {
          ok, events, wait, mid := Perform(Stop, start, events);
          if !ok {
            return;
          }
        }
        ok, events, wait, mid := Perform(WriteUnit, start, events);
      }
    }

    /** The stale snapshot goes before the new record comes. */
    method SaveRecord(conf: Conf, gb: int, ghost start: VM, ghost before: seq<Event>)
      returns (ok: bool, ghost events: seq<Event>)
      requires state == Run(start, before)
      modifies this`state
      ensures state == Run(start, events)
      ensures Own(events) <= Own(before) + [RemoveSnap, RemoveMem, Save(conf, gb)]
      ensures ok ==> Own(events) == Own(before) + [RemoveSnap, RemoveMem, Save(conf, gb)]
      ensures fails == {} ==> ok
      ensures state.rootfsGB == old(state).rootfsGB
      ensures if ok then state.stored == conf && state.diskGB == gb && state.snap == None && !state.mem
              else state.stored == old(state).stored && state.diskGB == old(state).diskGB
      ensures ok && Quiet(old(state)) ==> Quiet(state)
    {
      hide Run, Own;
      ghost var wait, mid;
      ok, events, wait, mid := Perform(RemoveSnap, start, before);
      if !ok {
        return;
      }
      ok, events, wait, mid := Perform(RemoveMem, start, events);
      if !ok {
        return;
      }
      ok, events, wait, mid := Perform(Save(conf, gb), start, events);
    }

    /** The last part, with the start of a VM that was running. */
    method SaveAndRestart(conf: Conf, gb: int, wasRunning: bool, ghost start: VM, ghost before: seq<Event>)
      returns (ok: bool, ghost events: seq<Event>)
      requires state == Run(start, before)
      modifies this`state
      ensures state == Run(start, events) && Own(events) <= Own(before) + SaveAndStart(conf, gb, wasRunning)
      ensures ok ==> Own(events) == Own(before) + SaveAndStart(conf, gb, wasRunning)
      ensures fails == {} ==> ok
      ensures state.rootfsGB == old(state).rootfsGB
      ensures (state.stored == old(state).stored && state.diskGB == old(state).diskGB)
        || (state.stored == conf && state.diskGB == gb)
      ensures ok ==> state.stored == conf && state.diskGB == gb && state.snap == None && !state.mem
      ensures ok && wasRunning ==> state.active
      ensures ok && wasRunning && Quiet(old(state)) ==> state.guest == Fresh && state.running == conf && !state.paused
    {
      hide Run, Own;
      ok, events := SaveRecord(conf, gb, start, before);
      if ok && wasRunning {
        ghost var wait, mid;
        ok, events, wait, mid := Perform(Start, start, events);
      }
    }

    /** What a resize reads of the record, and whether it accepts its arguments. */
    method Validate(cpus: int, memory: int, disk: int) returns (accepted: bool, grow: int)
      ensures accepted <==> ResizeAccepted(state, cpus, memory, disk)
      ensures accepted <==> (
        && (cpus != 0 || memory != 0 || disk != 0) && (cpus == 0 || 1 <= cpus <= 32)
        && (memory == 0 || memory >= 128) && (disk == 0 || disk >= state.diskGB))
      ensures accepted ==> grow == if disk == state.diskGB then 0 else disk
    {
      grow := disk;
      if cpus == 0 && memory == 0 && disk == 0 {
        return false, grow;
      }
      if cpus != 0 && (cpus < 1 || cpus > 32) {
        return false, grow;
      }
      if memory != 0 && memory < 128 {
        return false, grow;
      }
      if disk != 0 {
        if disk < state.diskGB {
          return false, grow;
        }
        if disk == state.diskGB {
          grow := 0;
        }
      }
      return true, grow;
    }

    /** A resize that reports success has stored what was asked for and left the rest; the root file system has
        the size asked for; the stale snapshot is gone; and a VM found running runs again, freshly booted with
        the new configuration if it had to be stopped. Refused arguments change nothing, and after a failure
        the record is the old or the new one. If nothing fails it succeeds. */
    method RunResize(cpus: int, memory: int, disk: int)
      returns (ok: bool, ghost wait: seq<Event>, ghost events: seq<Event>)
      modifies this`state
      ensures Own(wait) == [] && state == Run(Run(old(state), wait), events)
      ensures Own(events) <= Plan(Run(old(state), wait), Resize(cpus, memory, disk))
      ensures var s, running := old(state), Run(old(state), wait).active;
        var accepted := (cpus != 0 || memory != 0 || disk != 0) && (cpus == 0 || 1 <= cpus <= 32)
                        && (memory == 0 || memory >= 128) && (disk == 0 || disk >= s.diskGB);
        var grows := disk != 0 && disk != s.diskGB;
        var restarts := cpus != 0 || memory != 0;
        && (!accepted ==> !ok && state == s)
        && (accepted && fails == {} ==> ok)
        && (ok ==> state.stored.cpus == if cpus != 0 then cpus else s.stored.cpus)
        && (ok ==> state.stored.memoryMB == if memory != 0 then memory else s.stored.memoryMB)
        && (ok ==> state.diskGB == if disk != 0 then disk else s.diskGB)
        && (ok ==> state.rootfsGB == if grows then disk else s.rootfsGB)
        && (ok ==> state.snap == None && !state.mem)
        && (ok && running ==> state.active)
        && (ok && running && (grows || restarts) ==>
              state.guest == Fresh && state.running == state.stored && !state.paused)
      ensures var running := Run(old(state), wait).active;
        var grows, restarts := disk != 0 && disk != old(state).diskGB, cpus != 0 || memory != 0;
        var effects :=
          (if grows then (if running then [Stop] else []) + [Truncate(disk)] else [])
          + (if restarts then (if running && !grows then [Stop] else []) + [WriteUnit] else [])
          + [RemoveSnap, RemoveMem, Save(state.stored, state.diskGB)] + (if running then [Start] else []);
        ok ==> Own(events) == effects
      ensures (state.stored == old(state).stored && state.diskGB == old(state).diskGB)
        || (state.diskGB == (if disk != 0 then disk else old(state).diskGB)
            && state.stored == Conf(if cpus != 0 then cpus else old(state).stored.cpus,
                                    if memory != 0 then memory else old(state).stored.memoryMB))
    {
      wait, events := [], [];
      // LoadVM
      var conf, gb := state.stored, state.diskGB;
      var accepted, grow := Validate(cpus, memory, disk);
      if !accepted {
        return false, wait, events;
      }
      var needsRestart := cpus != 0 || memory != 0;
      wait := Meanwhile();
      ghost var start := state;
      var wasRunning := state.active;
      if grow != 0 {
        gb := grow;
      }
      if cpus != 0 {
        conf := conf.(cpus := cpus);
      }
      if memory != 0 {
        conf := conf.(memoryMB := memory);
      }
      PlanOfResize(start, cpus, memory, disk);
      hide Plan, Run, Own, ResizePlan;
      ok, events := ResizeAll(grow, needsRestart, conf, gb, wasRunning);
    }

    static lemma PlanOfResize(s: VM, cpus: int, memory: int, disk: int)
      requires ResizeAccepted(s, cpus, memory, disk)
      ensures var grow, restart := if disk == s.diskGB then 0 else disk, cpus != 0 || memory != 0;
        var conf := Conf(if cpus != 0 then cpus else s.stored.cpus, if memory != 0 then memory else s.stored.memoryMB);
        var gb := if grow != 0 then grow else s.diskGB;
        && Plan(s, Resize(cpus, memory, disk)) == ResizePlan(grow, restart, conf, gb, s.active)
        && ResizePlan(grow, restart, conf, gb, s.active)
          == (if grow != 0 then (if s.active then [Stop] else []) + [Truncate(grow)] else [])
            + (if restart then (if s.active && grow == 0 then [Stop] else []) + [WriteUnit] else [])
            + [RemoveSnap, RemoveMem, Save(conf, gb)] + (if s.active then [Start] else [])
    {
    }

    static function ResizePlan(grow: int, restart: bool, conf: Conf, gb: int, wasRunning: bool): seq<Event> {
      DiskPlan(grow, wasRunning) + ConfPlan(restart, wasRunning && grow == 0) + SaveAndStart(conf, gb, wasRunning)
    }

    method ResizeAll(grow: int, restart: bool, conf: Conf, gb: int, wasRunning: bool)
      returns (ok: bool, ghost events: seq<Event>)
      modifies this`state
      ensures state == Run(old(state), events)
      ensures Own(events) <= ResizePlan(grow, restart, conf, gb, wasRunning)
      ensures ok ==> Own(events) == ResizePlan(grow, restart, conf, gb, wasRunning)
      ensures fails == {} ==> ok
      ensures (state.stored == old(state).stored && state.diskGB == old(state).diskGB)
        || (state.stored == conf && state.diskGB == gb)
      ensures ok ==> state.stored == conf && state.diskGB == gb && state.snap == None && !state.mem
      ensures ok ==> state.rootfsGB == if grow != 0 then grow else old(state).rootfsGB
      ensures ok && wasRunning ==> state.active
      ensures ok && wasRunning && (grow != 0 || restart) ==>
        state.guest == Fresh && state.running == conf && !state.paused
    {
      ghost var start := state;
      hide DiskPlan, ConfPlan, SaveAndStart, Run, Own;
      ok, events := ResizeDisk(grow, wasRunning, start);
      if !ok {
        return;
      }
      ok, events := Reconfigure(restart, wasRunning && grow == 0, start, events);
      if !ok {
        return;
      }
      ok, events := SaveAndRestart(conf, gb, wasRunning, start, events);
    }
  }

  /** Freezing a VM and unfreezing it: the VM runs again as it was when the snapshot was taken, and that is as
      it was when it was paused if it was still paused then. If nothing fails, what has been frozen can be
      unfrozen. */
  method FreezeThenUnfreeze(vm: Instance) returns (frozen: bool, resumed: bool, ghost f: Freezing)
    requires Consistent(vm.state)
    modifies vm`state
    ensures frozen ==> Instance.FrozenBy(Run(old(vm.state), f.wait), f)
    ensures frozen && resumed ==>
      && var start := Run(old(vm.state), f.wait);
      var t := Run(start, f.w0 + [Pause] + f.w1);
      && vm.state.active && !vm.state.paused
      && vm.state.guest == t.guest && vm.state.running == t.running == vm.state.stored
      && (t.paused ==> vm.state.guest == Run(start, f.w0).guest)
    ensures frozen && vm.fails == {} ==> resumed
  {
    resumed := false;
    frozen, f := vm.RunFreeze();
    hide Run;
    if frozen {
      ghost var ice := vm.state;
      FrozenHasMemory(old(vm.state), f, ice);
      ghost var wait, w, events;
      resumed, wait, w, events := vm.RunUnfreeze();
      QuietStays(ice, wait);
    }
  }

  lemma FrozenHasMemory(s: VM, f: Freezing, frozen: VM)
    requires Consistent(s) && Own(f.wait) == [] && Instance.FrozenBy(Run(s, f.wait), f)
    requires frozen == Run(Run(s, f.wait), f.events)
    ensures frozen.mem
  {
    WaitConsistent(s, f.wait);
    FreezeUnfreeze(Run(s, f.wait), f.w0, f.w1, f.w2, []);
    assert f.events + [] == f.events;
  }
}
