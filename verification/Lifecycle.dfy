/** One VM through freeze, unfreeze, resize, starts, stops and restarts (cmd/fcm/freeze.go,
    cmd/fcm/resize.go, cmd/fcm/configure_vm.go, internal/systemd/unit.go, internal/images/manager.go).

    A command is the list of its effects in the order of the source. It may end after any of them,
    because a step returned an error or the process was killed, and between any two of them the guest
    may die and systemd may restart it. Commands on one VM do not overlap. */
module Lifecycle {
  import opened Text

  datatype Conf = Conf(cpus: int, memoryMB: int)

  /** What the guest is doing: freshly booted, or at some point of its work. */
  datatype Guest = Fresh | At(point: int)

  datatype Snapshot = Snapshot(conf: Conf, guest: Guest)

  datatype VM = VM(
    active: bool,            // the unit is active
    pending: bool,           // the unit has failed and systemd will restart it (Restart=on-failure)
    paused: bool,            // the vCPUs are paused
    guest: Guest,            // the state of the guest, while active
    running: Conf,           // what the Firecracker process runs with, while active
    stored: Conf,            // vm.json
    diskGB: int,             // vm.json
    rootfsGB: int,           // size of rootfs.ext4
    snap: Option<Snapshot>,  // snapshot.snap
    mem: bool)               // snapshot.mem is there

  datatype Event =
    // effects of a command
    | Stop | Start | Pause | Resume | TakeSnapshot
    | Truncate(gb: int) | WriteUnit | RemoveSnap | RemoveMem | Save(conf: Conf, gb: int)
    // not of a command
    | Work(point: int) | Die(failure: bool) | Restart

  predicate Outside(e: Event) {
    e.Work? || e.Die? || e.Restart?
  }

  /** Starting the unit: _configure-vm loads a snapshot if there is one and resumes it, and otherwise
      boots with the stored configuration. Loading needs the memory file; without it the start fails. */
  function Boot(s: VM): VM {
    match s.snap
    case None => s.(active := true, pending := false, paused := false, guest := Fresh, running := s.stored)
    case Some(x) =>
      if s.mem then s.(active := true, pending := false, paused := false, guest := x.guest, running := x.conf)
      else s.(pending := true)
  }

  function Step(s: VM, e: Event): VM {
    match e
    case Stop => s.(active := false, pending := false)
    case Start => if s.active then s else Boot(s)
    case Pause => s.(paused := true)
    case Resume => s.(paused := false)
    case TakeSnapshot => if s.active then s.(snap := Some(Snapshot(s.running, s.guest)), mem := true) else s
    case Truncate(gb) => s.(rootfsGB := gb)
    case WriteUnit => s
    case RemoveSnap => s.(snap := None)
    case RemoveMem => s.(mem := false)
    case Save(conf, gb) => s.(stored := conf, diskGB := gb)
    case Work(point) => if s.active && !s.paused then s.(guest := At(point)) else s
    case Die(failure) => if s.active then s.(active := false, pending := failure) else s
    case Restart => if !s.active && s.pending then Boot(s) else s
  }

  function Run(s: VM, events: seq<Event>): VM
    decreases events
  {
    if events == [] then s else Run(Step(s, events[0]), events[1..])
  }

  /** The effects of the command among the events. */
  function Own(events: seq<Event>): seq<Event> {
    if events == [] then []
    else if Outside(events[0]) then Own(events[1..])
    else [events[0]] + Own(events[1..])
  }

  // ---------------------------------------------------------------- the commands

  datatype Command =
    | Freeze(snapshotted: bool)  // false: CreateSnapshot returned an error and the VM is resumed
    | Unfreeze
    | Resize(cpus: int, memory: int, disk: int)  // 0: not given
    | Systemctl(effects: seq<Event>)             // the unit started, stopped or restarted by hand
    | Nothing

  predicate ValidCommand(cmd: Command) {
    cmd.Systemctl? ==> cmd.effects == [Start] || cmd.effects == [Stop] || cmd.effects == [Stop, Start]
  }

  predicate ResizeAccepted(s: VM, cpus: int, memory: int, disk: int) {
    && !(cpus == 0 && memory == 0 && disk == 0)
    && (cpus != 0 ==> 1 <= cpus <= 32)
    && (memory != 0 ==> memory >= 128)
    && (disk != 0 ==> disk >= s.diskGB)
  }

  function NewConf(s: VM, cpus: int, memory: int): Conf {
    Conf(if cpus != 0 then cpus else s.stored.cpus, if memory != 0 then memory else s.stored.memoryMB)
  }

  /** The effects of a command that reads state s. */
  function Plan(s: VM, cmd: Command): seq<Event> {
    match cmd
    case Nothing => []
    case Systemctl(effects) => effects
    case Freeze(snapshotted) =>
      if !s.active then [] else if snapshotted then [Pause, TakeSnapshot, Stop] else [Pause, Resume]
    case Unfreeze => if s.snap == None || s.active then [] else [Start]
    case Resize(cpus, memory, disk) =>
      if !ResizeAccepted(s, cpus, memory, disk) then []
      else
        var grow := if disk == s.diskGB then 0 else disk;
        var restart := cpus != 0 || memory != 0;
        (if grow != 0 then (if s.active then [Stop] else []) + [Truncate(grow)] else [])
        + (if restart then (if s.active && grow == 0 then [Stop] else []) + [WriteUnit] else [])
        + [RemoveSnap, RemoveMem, Save(NewConf(s, cpus, memory), if grow != 0 then grow else s.diskGB)]
        + (if s.active then [Start] else [])
  }

  // ---------------------------------------------------------------- what always holds

  /** A running VM runs with the stored CPUs and memory; a snapshot was taken with them; its memory file
      is there; and the root file system is at least as large as the stored disk size. */
  predicate Consistent(s: VM) {
    && (s.active ==> s.running == s.stored)
    && (s.snap.Some? ==> s.snap.value.conf == s.stored && s.mem)
    && s.diskGB <= s.rootfsGB
  }

  /** Neither running nor about to be restarted. */
  predicate Quiet(s: VM) {
    !s.active && !s.pending
  }

  /** Walks a list of effects and checks that whatever happens between them, saving happens only when
      the VM is quiet and its snapshot gone, or changes no configuration; that the memory file goes
      after the snapshot; and that sizes only grow. */
  predicate Safe(plan: seq<Event>, quiet: bool, gone: bool, stored: Conf, diskGB: int, rootfsGB: int)
    decreases plan
  {
    if plan == [] then true
    else
      var rest := plan[1..];
      match plan[0]
      case Stop => Safe(rest, true, gone, stored, diskGB, rootfsGB)
      case Start => Safe(rest, false, gone, stored, diskGB, rootfsGB)
      case Pause => Safe(rest, quiet, gone, stored, diskGB, rootfsGB)
      case Resume => Safe(rest, quiet, gone, stored, diskGB, rootfsGB)
      case TakeSnapshot => Safe(rest, quiet, false, stored, diskGB, rootfsGB)
      case Truncate(gb) => gb >= diskGB && Safe(rest, quiet, gone, stored, diskGB, gb)
      case WriteUnit => Safe(rest, quiet, gone, stored, diskGB, rootfsGB)
      case RemoveSnap => Safe(rest, quiet, true, stored, diskGB, rootfsGB)
      case RemoveMem => gone && Safe(rest, quiet, gone, stored, diskGB, rootfsGB)
      case Save(conf, gb) =>
        diskGB <= gb <= rootfsGB && (conf == stored || (quiet && gone)) && Safe(rest, quiet, gone, conf, gb, rootfsGB)
      case Work(_) => false
      case Die(_) => false
      case Restart => false
  }

  predicate Ready(s: VM, plan: seq<Event>) {
    Consistent(s) && Safe(plan, Quiet(s), s.snap == None, s.stored, s.diskGB, s.rootfsGB)
  }

  lemma {:induction false} SafeMonotone(plan: seq<Event>, quiet: bool, gone: bool, quiet': bool, gone': bool,
                                       stored: Conf, diskGB: int, rootfsGB: int)
    requires Safe(plan, quiet, gone, stored, diskGB, rootfsGB)
    requires (quiet ==> quiet') && (gone ==> gone')
    ensures Safe(plan, quiet', gone', stored, diskGB, rootfsGB)
    decreases plan
  {
    if plan != [] {
      match plan[0]
      case Stop => SafeMonotone(plan[1..], true, gone, true, gone', stored, diskGB, rootfsGB);
      case Start => SafeMonotone(plan[1..], false, gone, false, gone', stored, diskGB, rootfsGB);
      case TakeSnapshot => SafeMonotone(plan[1..], quiet, false, quiet', false, stored, diskGB, rootfsGB);
      case Truncate(gb) => SafeMonotone(plan[1..], quiet, gone, quiet', gone', stored, diskGB, gb);
      case RemoveSnap => SafeMonotone(plan[1..], quiet, true, quiet', true, stored, diskGB, rootfsGB);
      case Save(conf, gb) => SafeMonotone(plan[1..], quiet, gone, quiet', gone', conf, gb, rootfsGB);
      case Pause => SafeMonotone(plan[1..], quiet, gone, quiet', gone', stored, diskGB, rootfsGB);
      case Resume => SafeMonotone(plan[1..], quiet, gone, quiet', gone', stored, diskGB, rootfsGB);
      case WriteUnit => SafeMonotone(plan[1..], quiet, gone, quiet', gone', stored, diskGB, rootfsGB);
      case RemoveMem => SafeMonotone(plan[1..], quiet, gone, quiet', gone', stored, diskGB, rootfsGB);
      case Work(_) =>
      case Die(_) =>
      case Restart =>
    }
  }

  /** One event, the command's own or from outside, keeps the state ready for the rest of the plan. */
  lemma StepReady(s: VM, plan: seq<Event>, e: Event)
    requires Ready(s, plan)
    requires Outside(e) || (plan != [] && plan[0] == e)
    ensures Ready(Step(s, e), if Outside(e) then plan else plan[1..])
    ensures Step(s, e).diskGB >= s.diskGB
  {
    var t := Step(s, e);
    if Outside(e) {
      SafeMonotone(plan, Quiet(s), s.snap == None, Quiet(t), t.snap == None, t.stored, t.diskGB, t.rootfsGB);
    } else if e.Start? {
      SafeMonotone(plan[1..], false, s.snap == None, Quiet(t), t.snap == None, t.stored, t.diskGB, t.rootfsGB);
    } else if e.TakeSnapshot? {
      SafeMonotone(plan[1..], Quiet(s), false, Quiet(t), t.snap == None, t.stored, t.diskGB, t.rootfsGB);
    }
  }

  /** Every prefix of a safe plan, with any outside events in between, ends in a consistent state. */
  lemma {:induction false} ReadyRun(s: VM, plan: seq<Event>, events: seq<Event>)
    requires Ready(s, plan) && Own(events) <= plan
    ensures Consistent(Run(s, events)) && Run(s, events).diskGB >= s.diskGB
    decreases events
  {
    if events != [] {
      var e := events[0];
      if Outside(e) {
        StepReady(s, plan, e);
        ReadyRun(Step(s, e), plan, events[1..]);
      } else {
        assert Own(events)[0] == plan[0] == e && Own(events)[1..] == Own(events[1..]);
        assert Own(events[1..]) <= plan[1..];
        StepReady(s, plan, e);
        ReadyRun(Step(s, e), plan[1..], events[1..]);
      }
    }
  }

  // ---------------------------------------------------------------- the plans are safe

  predicate Changes(s: VM, cmd: Command) {
    cmd.Resize? && ResizeAccepted(s, cmd.cpus, cmd.memory, cmd.disk) && NewConf(s, cmd.cpus, cmd.memory) != s.stored
  }

  /** A resize that changes the configuration must not find the VM inactive with a restart pending. */
  predicate Guard(s: VM, cmd: Command) {
    Changes(s, cmd) ==> s.active || !s.pending
  }

  lemma SafeCons(e: Event, rest: seq<Event>, quiet: bool, gone: bool, stored: Conf, diskGB: int, rootfsGB: int)
    requires e.Stop? || e.Truncate? || e.WriteUnit?
    requires e.Truncate? ==> e.gb >= diskGB
    requires Safe(rest, quiet || e.Stop?, gone, stored, diskGB, if e.Truncate? then e.gb else rootfsGB)
    ensures Safe([e] + rest, quiet, gone, stored, diskGB, rootfsGB)
  {
    assert ([e] + rest)[1..] == rest;
    if e.Stop? {
      SafeMonotone(rest, quiet || e.Stop?, gone, true, gone, stored, diskGB, rootfsGB);
    } else {
      SafeMonotone(rest, quiet || e.Stop?, gone, quiet, gone, stored, diskGB, if e.Truncate? then e.gb else rootfsGB);
    }
  }

  function SaveAndStart(conf: Conf, gb: int, start: bool): seq<Event> {
    [RemoveSnap, RemoveMem, Save(conf, gb)] + (if start then [Start] else [])
  }

  /** The last part of a resize, whose order is what makes it safe. */
  lemma SaveSafe(conf: Conf, gb: int, start: bool, quiet: bool, gone: bool, stored: Conf, diskGB: int, rootfsGB: int)
    requires diskGB <= gb <= rootfsGB && (conf == stored || quiet)
    ensures Safe(SaveAndStart(conf, gb, start), quiet, gone, stored, diskGB, rootfsGB)
  {
    var p := SaveAndStart(conf, gb, start);
    var tail := if start then [Start] else [];
    assert p[1..] == [RemoveMem, Save(conf, gb)] + tail;
    assert p[1..][1..] == [Save(conf, gb)] + tail;
    assert p[1..][1..][1..] == tail;
    assert start ==> tail[1..] == [];
    assert Safe(tail, quiet, true, conf, gb, rootfsGB);
    assert Safe(p[1..][1..], quiet, true, stored, diskGB, rootfsGB);
    assert Safe(p[1..], quiet, true, stored, diskGB, rootfsGB);
  }

  lemma ResizeSafe(s: VM, cpus: int, memory: int, disk: int)
    requires Consistent(s) && ResizeAccepted(s, cpus, memory, disk) && Guard(s, Resize(cpus, memory, disk))
    ensures Ready(s, Plan(s, Resize(cpus, memory, disk)))
  {
    var grow := if disk == s.diskGB then 0 else disk;
    var restart := cpus != 0 || memory != 0;
    var conf, gb := NewConf(s, cpus, memory), if grow != 0 then grow else s.diskGB;
    var root := if grow != 0 then grow else s.rootfsGB;
    var tail := SaveAndStart(conf, gb, s.active);
    var stops := s.active && (grow != 0 || restart);
    var quiet := Quiet(s) || stops;
    var gone := s.snap == None;
    SaveSafe(conf, gb, s.active, quiet, gone, s.stored, s.diskGB, root);
    var b := if restart then [WriteUnit] + tail else tail;
    if restart {
      SafeCons(WriteUnit, tail, quiet, gone, s.stored, s.diskGB, root);
    }
    var c := if grow != 0 then [Truncate(grow)] + b else b;
    if grow != 0 {
      SafeCons(Truncate(grow), b, quiet, gone, s.stored, s.diskGB, s.rootfsGB);
    }
    if stops {
      SafeCons(Stop, c, Quiet(s), gone, s.stored, s.diskGB, s.rootfsGB);
    }
    assert Plan(s, Resize(cpus, memory, disk)) == if stops then [Stop] + c else c;
  }

  lemma SafeShort(s: VM, plan: seq<Event>)
    requires Consistent(s)
    requires plan in [[], [Start], [Stop], [Stop, Start], [Pause, TakeSnapshot, Stop], [Pause, Resume]]
    ensures Ready(s, plan)
  {
    if plan != [] {
      assert plan[1..] == [] || plan[1..] == [Start] || plan[1..] == [TakeSnapshot, Stop] || plan[1..] == [Resume];
      if |plan| > 1 {
        assert plan[1..][1..] == [] || plan[1..][1..] == [Stop];
        if |plan| > 2 {
          assert plan[1..][1..][1..] == [];
        }
      }
    }
  }

  lemma PlanReady(s: VM, cmd: Command)
    requires Consistent(s) && ValidCommand(cmd) && Guard(s, cmd)
    ensures Ready(s, Plan(s, cmd))
  {
    if cmd.Resize? && ResizeAccepted(s, cmd.cpus, cmd.memory, cmd.disk) {
      ResizeSafe(s, cmd.cpus, cmd.memory, cmd.disk);
    } else {
      SafeShort(s, Plan(s, cmd));
    }
  }

  // ---------------------------------------------------------------- the main results

  /** Outside events touch neither the record nor the files. */
  lemma {:induction false} OutsideKeepsRecord(s: VM, wait: seq<Event>)
    requires Own(wait) == []
    ensures var t := Run(s, wait);
      t.stored == s.stored && t.diskGB == s.diskGB && t.rootfsGB == s.rootfsGB && t.snap == s.snap && t.mem == s.mem
    decreases wait
  {
    if wait != [] {
      OutsideKeepsRecord(Step(s, wait[0]), wait[1..]);
    }
  }

  lemma {:induction false} QuietStays(s: VM, wait: seq<Event>)
    requires Quiet(s) && Own(wait) == []
    ensures Run(s, wait) == s
    decreases wait
  {
    if wait != [] {
      QuietStays(Step(s, wait[0]), wait[1..]);
    }
  }

  /** One command, cut off anywhere: what happens between its start and its reading of the unit's
      state, and what happens from then on. */
  datatype Session = Session(cmd: Command, wait: seq<Event>, events: seq<Event>)

  predicate Possible(s: VM, x: Session) {
    && ValidCommand(x.cmd) && Own(x.wait) == []
    && Guard(Run(s, x.wait), x.cmd) && Own(x.events) <= Plan(Run(s, x.wait), x.cmd)
  }

  function RunSession(s: VM, x: Session): VM {
    Run(Run(s, x.wait), x.events)
  }

  function RunSessions(s: VM, xs: seq<Session>): VM
    decreases xs
  {
    if xs == [] then s else RunSessions(RunSession(s, xs[0]), xs[1..])
  }

  predicate AllPossible(s: VM, xs: seq<Session>)
    decreases xs
  {
    xs == [] || (Possible(s, xs[0]) && AllPossible(RunSession(s, xs[0]), xs[1..]))
  }

  lemma WaitConsistent(s: VM, wait: seq<Event>)
    requires Consistent(s) && Own(wait) == []
    ensures Consistent(Run(s, wait)) && Run(s, wait).diskGB == s.diskGB
  {
    ReadyRun(s, [], wait);
    OutsideKeepsRecord(s, wait);
  }

  lemma SessionConsistent(s: VM, x: Session)
    requires Consistent(s) && Possible(s, x)
    ensures Consistent(RunSession(s, x)) && RunSession(s, x).diskGB >= s.diskGB
  {
    hide Consistent, Plan, Guard, Own, Run;
    var t := Run(s, x.wait);
    WaitConsistent(s, x.wait);
    PlanReady(t, x.cmd);
    ReadyRun(t, Plan(t, x.cmd), x.events);
  }

  /** Over any history of commands, each of which may have been killed or have failed after any of its
      steps, and of deaths and restarts in between: a running VM has the stored configuration, a
      snapshot was taken under it and is complete, the root file system holds the stored disk size, and
      the stored disk size has never shrunk. */
  lemma {:induction false} HistoryConsistent(s: VM, xs: seq<Session>)
    requires Consistent(s) && AllPossible(s, xs)
    ensures Consistent(RunSessions(s, xs)) && RunSessions(s, xs).diskGB >= s.diskGB
    decreases xs
  {
    hide Consistent, Possible, RunSession;
    if xs != [] {
      SessionConsistent(s, xs[0]);
      HistoryConsistent(RunSession(s, xs[0]), xs[1..]);
    }
  }

  /** What create leaves: the record saved, the image copied and truncated to the disk size, no
      snapshot, the unit not started yet. */
  function Created(conf: Conf, diskGB: int): VM {
    VM(false, false, false, Fresh, conf, conf, diskGB, diskGB, None, false)
  }

  lemma CreatedConsistent(conf: Conf, diskGB: int, xs: seq<Session>)
    requires AllPossible(Created(conf, diskGB), xs)
    ensures var t := RunSessions(Created(conf, diskGB), xs); Consistent(t) && t.diskGB >= diskGB
  {
    HistoryConsistent(Created(conf, diskGB), xs);
  }

  /** The guard at the moment of reading is exact: whatever happens from then on, a command keeps the
      state consistent if and only if it is not a configuration change that finds the VM inactive with a
      restart pending. */
  lemma CommandSafeExactly(s: VM, cmd: Command)
    requires Consistent(s) && ValidCommand(cmd)
    ensures (forall events :: Own(events) <= Plan(s, cmd) ==> Consistent(Run(s, events))) <==> Guard(s, cmd)
  {
    if Guard(s, cmd) {
      PlanReady(s, cmd);
      forall events | Own(events) <= Plan(s, cmd) ensures Consistent(Run(s, events)) {
        ReadyRun(s, Plan(s, cmd), events);
      }
    } else {
      var bad := [Restart] + Plan(s, cmd);
      OwnPlan(Plan(s, cmd));
      assert bad[1..] == Plan(s, cmd);
      RestartedResize(s, cmd);
    }
  }

  /** What the caller of a resize must ensure. A VM that is running when the command starts may die
      before the command looks, and is then found with a restart pending. */
  predicate EntryGuard(s: VM, cmd: Command) {
    Changes(s, cmd) ==> Quiet(s)
  }

  lemma EntryGuardHolds(s: VM, cmd: Command, wait: seq<Event>)
    requires EntryGuard(s, cmd) && Own(wait) == []
    ensures Guard(Run(s, wait), cmd)
  {
    OutsideKeepsRecord(s, wait);
    if Quiet(s) {
      QuietStays(s, wait);
    }
  }

  /** The guard at entry is exact: whatever happens before a command looks at the unit and from then
      on, it keeps the state consistent if and only if it changes no configuration or the VM is neither
      running nor about to be restarted when it starts. */
  lemma EntrySafeExactly(s: VM, cmd: Command)
    requires Consistent(s) && ValidCommand(cmd)
    ensures (forall wait, events :: Own(wait) == [] && Own(events) <= Plan(Run(s, wait), cmd) ==>
              Consistent(Run(Run(s, wait), events)))
      <==> EntryGuard(s, cmd)
  {
    if EntryGuard(s, cmd) {
      forall wait, events | Own(wait) == [] && Own(events) <= Plan(Run(s, wait), cmd)
        ensures Consistent(Run(Run(s, wait), events))
      {
        EntryGuardHolds(s, cmd, wait);
        hide Plan, Own, Run, Consistent, Guard;
        SessionConsistent(s, Session(cmd, wait, events));
      }
    } else {
      var wait, events := UnguardedEntry(s, cmd);
    }
  }

  lemma UnguardedEntry(s: VM, cmd: Command) returns (wait: seq<Event>, events: seq<Event>)
    requires Consistent(s) && ValidCommand(cmd) && !EntryGuard(s, cmd)
    ensures Own(wait) == [] && Own(events) <= Plan(Run(s, wait), cmd)
    ensures !Consistent(Run(Run(s, wait), events))
  {
    wait := if s.active then [Die(true)] else [];
    assert s.active ==> wait[1..] == [];
    var t := Run(s, wait);
    assert t == if s.active then s.(active := false, pending := true) else s;
    events := [Restart] + Plan(t, cmd);
    OwnPlan(Plan(t, cmd));
    assert events[1..] == Plan(t, cmd);
    RestartedResize(t, cmd);
  }

  lemma {:induction false} OwnPlan(plan: seq<Event>)
    requires forall i :: 0 <= i < |plan| ==> !Outside(plan[i])
    ensures Own(plan) == plan
  {
    if plan != [] {
      OwnPlan(plan[1..]);
    }
  }

  /** The VM is restarted right after the resize found it inactive, and keeps the old configuration
      while the new one is saved. */
  lemma RestartedResize(s: VM, cmd: Command)
    requires Consistent(s) && Changes(s, cmd) && !s.active && s.pending
    ensures !Consistent(Run(s, [Restart] + Plan(s, cmd)))
  {
    var plan := Plan(s, cmd);
    assert ([Restart] + plan)[1..] == plan;
    var t := Step(s, Restart);
    assert t.active && t.running == s.stored;
    RunKeepsRunning(t, plan);
    var conf, gb := NewConf(s, cmd.cpus, cmd.memory), plan[|plan| - 1].gb;
    assert plan == plan[..|plan| - 1] + [Save(conf, gb)];
    RunLast(t, plan[..|plan| - 1], Save(conf, gb));
  }

  lemma {:induction false} RunKeepsRunning(s: VM, plan: seq<Event>)
    requires s.active
    requires forall i :: 0 <= i < |plan| ==> !plan[i].Stop? && !plan[i].Die?
    ensures Run(s, plan).active && Run(s, plan).running == s.running
    decreases plan
  {
    if plan != [] {
      RunKeepsRunning(Step(s, plan[0]), plan[1..]);
    }
  }

  lemma {:induction false} RunLast(s: VM, events: seq<Event>, e: Event)
    ensures Run(s, events + [e]) == Step(Run(s, events), e)
    decreases events
  {
    if events == [] {
      assert events + [e] == [e] && [e][1..] == [];
    } else {
      assert (events + [e])[1..] == events[1..] + [e];
      RunLast(Step(s, events[0]), events[1..], e);
    }
  }

  // ---------------------------------------------------------------- freezing and unfreezing

  lemma {:induction false} RunConcat(s: VM, a: seq<Event>, b: seq<Event>)
    ensures Run(s, a + b) == Run(Run(s, a), b)
    decreases a
  {
    if a == [] {
      assert a + b == b;
    } else {
      assert (a + b)[1..] == a[1..] + b;
      RunConcat(Step(s, a[0]), a[1..], b);
    }
  }

  /** Only a pause pauses: what has died or been restarted since is not paused. */
  lemma {:induction false} NotPausedAgain(s: VM, w: seq<Event>)
    requires (!s.active || !s.paused) && Own(w) == []
    ensures !Run(s, w).active || !Run(s, w).paused
    decreases w
  {
    if w != [] {
      NotPausedAgain(Step(s, w[0]), w[1..]);
    }
  }

  /** A VM that runs and is paused, whatever happened since, has not moved since. */
  lemma {:induction false} StillPaused(s: VM, w: seq<Event>)
    requires Own(w) == [] && Run(s, w).active && Run(s, w).paused
    ensures Run(s, w) == s
    decreases w
  {
    if !s.active || !s.paused {
      NotPausedAgain(s, w);
    } else if w != [] {
      var t := Step(s, w[0]);
      if t != s {
        NotPausedAgain(t, w[1..]);
      } else {
        StillPaused(t, w[1..]);
      }
    }
  }

  /** A frozen VM resumes exactly where it left off. Anything may happen around the steps of the freeze
      and after it, deaths and restarts included. If the VM runs when the snapshot is taken, it ends up
      frozen and stays so; unfreezing it yields the VM as it was when the snapshot was taken, with the
      configuration it had, working again. And if it was still paused then, that is the VM as it was
      when it was paused: a guest that died and came back is not taken for the paused one. */
  lemma FreezeUnfreeze(s: VM, w0: seq<Event>, w1: seq<Event>, w2: seq<Event>, w3: seq<Event>)
    requires Consistent(s) && Own(w0) == [] && Own(w1) == [] && Own(w2) == [] && Own(w3) == []
    requires Run(s, w0 + [Pause] + w1).active
    ensures Own(w0 + [Pause] + w1 + [TakeSnapshot] + w2 + [Stop]) == [Pause, TakeSnapshot, Stop]
    ensures var t := Run(s, w0 + [Pause] + w1);
      var frozen := Run(s, w0 + [Pause] + w1 + [TakeSnapshot] + w2 + [Stop] + w3);
      var snapshot := Some(Snapshot(t.running, t.guest));
      && Quiet(frozen) && frozen.snap == snapshot && t.running == frozen.stored
      && Plan(frozen, Unfreeze) == [Start]
      && Step(frozen, Start) == t.(snap := snapshot, mem := true, pending := false, paused := false)
      && (t.paused ==> Run(s, w0).active && t == Run(s, w0).(paused := true))
  {
    var t := Run(s, w0 + [Pause] + w1);
    PausedState(s, w0, w1);
    var frozen := Step(Run(Step(t, TakeSnapshot), w2), Stop);
    FrozenState(t, w2);
    QuietStays(frozen, w3);
    OwnOfFreeze(w0, w1, w2);
    hide Step, Run, Own, Plan;
    RunLast(s, w0 + [Pause] + w1, TakeSnapshot);
    RunConcat(s, w0 + [Pause] + w1 + [TakeSnapshot], w2);
    RunLast(s, w0 + [Pause] + w1 + [TakeSnapshot] + w2, Stop);
    RunConcat(s, w0 + [Pause] + w1 + [TakeSnapshot] + w2 + [Stop], w3);
  }

  lemma PausedState(s: VM, w0: seq<Event>, w1: seq<Event>)
    requires Consistent(s) && Own(w0) == [] && Own(w1) == []
    ensures var t := Run(s, w0 + [Pause] + w1);
      Consistent(t) && (t.active && t.paused ==> Run(s, w0).active && t == Run(s, w0).(paused := true))
  {
    var t := Run(s, w0 + [Pause] + w1);
    RunLast(s, w0, Pause);
    RunConcat(s, w0 + [Pause], w1);
    if t.active && t.paused {
      StillPaused(Step(Run(s, w0), Pause), w1);
    }
    OwnConcat(w0 + [Pause], w1);
    OwnConcat(w0, [Pause]);
    OwnPlan([Pause]);
    SafeShort(s, [Pause, Resume]);
    ReadyRun(s, [Pause, Resume], w0 + [Pause] + w1);
  }

  lemma FrozenState(t: VM, w: seq<Event>)
    requires Consistent(t) && t.active && Own(w) == []
    ensures var frozen, snapshot := Step(Run(Step(t, TakeSnapshot), w), Stop), Some(Snapshot(t.running, t.guest));
      && Quiet(frozen) && frozen.snap == snapshot && t.running == frozen.stored
      && Plan(frozen, Unfreeze) == [Start]
      && Step(frozen, Start) == t.(snap := snapshot, mem := true, pending := false, paused := false)
  {
    OutsideKeepsRecord(Step(t, TakeSnapshot), w);
  }

  lemma {:induction false} OwnConcat(a: seq<Event>, b: seq<Event>)
    ensures Own(a + b) == Own(a) + Own(b)
  {
    if a == [] {
      assert a + b == b;
    } else {
      assert (a + b)[1..] == a[1..] + b;
      OwnConcat(a[1..], b);
    }
  }

  lemma OwnOfFreeze(w0: seq<Event>, w1: seq<Event>, w2: seq<Event>)
    requires Own(w0) == [] && Own(w1) == [] && Own(w2) == []
    ensures Own(w0 + [Pause] + w1 + [TakeSnapshot] + w2 + [Stop]) == [Pause, TakeSnapshot, Stop]
  {
    OwnConcat(w0 + [Pause] + w1 + [TakeSnapshot] + w2, [Stop]);
    OwnConcat(w0 + [Pause] + w1 + [TakeSnapshot], w2);
    OwnConcat(w0 + [Pause] + w1, [TakeSnapshot]);
    OwnConcat(w0 + [Pause], w1);
    OwnConcat(w0, [Pause]);
    OwnPlan([Pause]);
    OwnPlan([TakeSnapshot]);
    OwnPlan([Stop]);
  }

  /** A freeze whose snapshot fails leaves the VM as it was when it was paused, if it is still paused. */
  lemma FailedFreezeResumes(s: VM, w0: seq<Event>, w1: seq<Event>)
    requires Own(w0) == [] && Own(w1) == []
    requires Run(s, w0 + [Pause] + w1).active && Run(s, w0 + [Pause] + w1).paused
    ensures Run(s, w0 + [Pause] + w1 + [Resume]) == Run(s, w0).(paused := false)
  {
    var p := Step(Run(s, w0), Pause);
    RunLast(s, w0, Pause);
    RunConcat(s, w0 + [Pause], w1);
    StillPaused(p, w1);
    RunLast(s, w0 + [Pause] + w1, Resume);
  }
}
