/** The VM store as many processes use it at once: a directory of vm.json files, a lock file, and
    steps of the granularity of one system call (internal/vm/state.go, cmd/fcm/create.go,
    cmd/fcm/forward.go, cmd/fcm/resize.go, cmd/fcm/delete.go, api/server.go).

    A creator checks outside the lock that its name is free, takes the lock, lists the directory
    entry by entry, stats the listed names, loads them one by one, chooses an address, writes
    vm.json.tmp, renames it and gives the lock back. Deleters, rollbacks and the unlocked rewrites of
    `forward` and `resize` run between any two of these steps, and any process may be killed
    anywhere, which frees the lock. */
module Store {
  import opened Text
  import opened Records
  import opened Address

  type Pid = nat

  datatype Process =
    | Idle
    | Waiting(name: string, req: Request)
    | Listing(name: string, req: Request, left: set<string>, listed: set<string>)
    | Stating(name: string, req: Request, todo: set<string>, kept: set<string>)
    | Loading(name: string, req: Request, todo: set<string>, used: set<string>)
    | Chosen(name: string, rec: Record)    // address chosen, VM directory made
    | Writing(name: string, rec: Record)   // vm.json.tmp truncated, not yet complete
    | Written(name: string, rec: Record)   // vm.json.tmp complete, not yet renamed
    | Finished                             // saved or given up, lock still held
    | Rewriting(rec: Record)               // forward or resize between LoadVM and SaveVM

  datatype State = State(
    json: map<string, Content>,
    tmp: map<string, Content>,
    owner: Option<Pid>,
    procs: map<Pid, Process>)

  datatype Action =
    | Begin(p: Pid, name: string, req: Request)
    | Acquire(p: Pid)
    | ListOne(p: Pid, name: string)
    | ListDone(p: Pid)
    | StatOne(p: Pid, name: string)
    | StatDone(p: Pid)
    | LoadOne(p: Pid, name: string)
    | Choose(p: Pid, fields: Record)
    | OpenTmp(p: Pid)
    | FillTmp(p: Pid)
    | Rename(p: Pid)
    | GiveUp(p: Pid)
    | Release(p: Pid)
    | Crash(p: Pid)
    | Unlink(name: string)     // RemoveAll of a deletion or a rollback reaches vm.json
    | UnlinkTmp(name: string)  // ... or vm.json.tmp
    | Load(p: Pid, name: string)
    | Save(p: Pid, rec: Record)

  function Pc(s: State, p: Pid): Process {
    if p in s.procs then s.procs[p] else Idle
  }

  function Goto(s: State, p: Pid, pc: Process): State {
    s.(procs := s.procs[p := pc])
  }

  /** What a scan adds for one vm.json: its address, unless the file is gone, unreadable or without one. */
  function ScanName(json: map<string, Content>, name: string, used: set<string>): set<string> {
    if name in json && json[name].Good? && json[name].rec.ip != "" then used + {json[name].rec.ip} else used
  }

  /** The record create writes: the requested resources, with the name, address and MAC filled in. */
  function NewRecord(fields: Record, name: string, ip: string): Record {
    fields.(name := name, ip := ip, mac := MACFromIP(ip))
  }

  /** An entry that is removed while the directory is read need not be returned any more, even if it is
      added again. */
  function Unlisted(s: State, name: string): State {
    if s.owner.Some? && Pc(s, s.owner.value).Listing? then
      Goto(s, s.owner.value, Pc(s, s.owner.value).(left := Pc(s, s.owner.value).left - {name}))
    else s
  }

  /** One step; an action that is not enabled changes nothing. */
  ghost function Step(cfg: Config, s: State, a: Action): State
    requires ValidConfig(cfg)
  {
    match a
    case Begin(p, name, req) =>
      if Pc(s, p).Idle? && name !in s.json then Goto(s, p, Waiting(name, req)) else s
    case Acquire(p) =>
      if Pc(s, p).Waiting? && s.owner == None then
        Goto(s, p, Listing(Pc(s, p).name, Pc(s, p).req, s.json.Keys, {})).(owner := Some(p))
      else s
    case ListOne(p, name) =>
      if Pc(s, p).Listing? then
        Goto(s, p, Pc(s, p).(left := Pc(s, p).left - {name}, listed := Pc(s, p).listed + {name}))
      else s
    case ListDone(p) =>
      // every entry that has been there since the listing began has been returned
      if Pc(s, p).Listing? && Pc(s, p).left !! s.json.Keys then
        Goto(s, p, Stating(Pc(s, p).name, Pc(s, p).req, Pc(s, p).listed, {}))
      else s
    case StatOne(p, name) =>
      if Pc(s, p).Stating? && name in Pc(s, p).todo then
        var kept := if name in s.json then Pc(s, p).kept + {name} else Pc(s, p).kept;
        Goto(s, p, Pc(s, p).(todo := Pc(s, p).todo - {name}, kept := kept))
      else s
    case StatDone(p) =>
      if Pc(s, p).Stating? && Pc(s, p).todo == {} then
        Goto(s, p, Loading(Pc(s, p).name, Pc(s, p).req, Pc(s, p).kept, {}))
      else s
    case LoadOne(p, name) =>
      if Pc(s, p).Loading? && name in Pc(s, p).todo then
        Goto(s, p, Pc(s, p).(todo := Pc(s, p).todo - {name}, used := ScanName(s.json, name, Pc(s, p).used)))
      else s
    case Choose(p, fields) =>
      if Pc(s, p).Loading? && Pc(s, p).todo == {} then
        match ChosenIP(cfg, Pc(s, p).used, Pc(s, p).req)
        case None => Goto(s, p, Finished)
        case Some(ip) => Goto(s, p, Chosen(Pc(s, p).name, NewRecord(fields, Pc(s, p).name, ip)))
      else s
    case OpenTmp(p) =>
      if Pc(s, p).Chosen? then
        Goto(s, p, Writing(Pc(s, p).name, Pc(s, p).rec)).(tmp := s.tmp[Pc(s, p).name := Broken])
      else s
    case FillTmp(p) =>
      if Pc(s, p).Writing? then
        var t := Goto(s, p, Written(Pc(s, p).name, Pc(s, p).rec));
        // an unlinked file is filled in vain
        if Pc(s, p).name in s.tmp then t.(tmp := s.tmp[Pc(s, p).name := Good(Pc(s, p).rec)]) else t
      else s
    case Rename(p) =>
      if Pc(s, p).Written? then
        var name := Pc(s, p).name;
        if name in s.tmp then
          Goto(s, p, Finished).(json := s.json[name := s.tmp[name]], tmp := s.tmp - {name})
        else Goto(s, p, Finished)
      else s
    case GiveUp(p) =>
      if InLock(Pc(s, p)) then Goto(s, p, Finished) else s
    case Release(p) =>
      if Pc(s, p).Finished? then Goto(s, p, Idle).(owner := None) else s
    case Crash(p) =>
      var t := Goto(s, p, Idle);
      if s.owner == Some(p) then t.(owner := None) else t
    case Unlink(name) => Unlisted(s, name).(json := s.json - {name})
    case UnlinkTmp(name) => s.(tmp := s.tmp - {name})
    case Load(p, name) =>
      if Pc(s, p).Idle? && name in s.json && s.json[name].Good? then
        Goto(s, p, Rewriting(s.json[name].rec))
      else s
    case Save(p, rec) =>
      // forwards, CPUs, memory or disk changed; SaveVM writes under the record's own name
      if Pc(s, p).Rewriting? && SameIdentity(rec, Pc(s, p).rec) then
        Goto(s, p, Idle).(json := s.json[rec.name := Good(rec)], tmp := s.tmp - {rec.name})
      else s
  }

  predicate SameIdentity(x: Record, y: Record) {
    x.name == y.name && x.ip == y.ip && x.mac == y.mac
  }

  /** Between taking the lock and giving it back. */
  predicate InLock(pc: Process) {
    !pc.Idle? && !pc.Waiting? && !pc.Rewriting?
  }

  ghost function Run(cfg: Config, s: State, actions: seq<Action>): State
    requires ValidConfig(cfg)
    decreases actions
  {
    if actions == [] then s else Run(cfg, Step(cfg, s, actions[0]), actions[1..])
  }

  // ---------------------------------------------------------------- what every step keeps

  predicate Readable(json: map<string, Content>, name: string) {
    name in json && json[name].Good?
  }

  /** All readable records that have an address have different ones. */
  predicate DistinctIPs(json: map<string, Content>) {
    forall m, n :: m in json && n in json && m != n && json[m].Good? && json[n].Good? && json[m].rec.ip != ""
      ==> json[m].rec.ip != json[n].rec.ip
  }

  predicate Fresh(json: map<string, Content>, ip: string) {
    ip != "" && forall n :: n in json && json[n].Good? ==> json[n].rec.ip != ip
  }

  /** What the lock holder knows: every name still in the store that it has scanned already has its
      address in the used set, and the address it chose is not in the store. */
  predicate HolderKnows(json: map<string, Content>, tmp: map<string, Content>, pc: Process) {
    match pc
    case Listing(_, _, left, listed) => json.Keys <= left + listed
    case Stating(_, _, todo, kept) => json.Keys <= todo + kept
    case Loading(_, _, todo, used) =>
      forall n :: n in json && json[n].Good? && n !in todo ==> json[n].rec.ip == "" || json[n].rec.ip in used
    case Chosen(_, rec) => Fresh(json, rec.ip)
    case Writing(name, rec) => Fresh(json, rec.ip)
    case Written(name, rec) => Fresh(json, rec.ip) && (name in tmp ==> tmp[name] == Good(rec))
    case _ => true
  }

  /** The lock is held by exactly the process that is between taking it and giving it back. */
  predicate LockInv(s: State) {
    && (forall p :: p in s.procs && InLock(s.procs[p]) ==> s.owner == Some(p))
    && (s.owner.Some? ==> InLock(Pc(s, s.owner.value)))
  }

  predicate HolderInv(s: State) {
    forall p :: p in s.procs ==> HolderKnows(s.json, s.tmp, s.procs[p])
  }

  predicate Inv(s: State) {
    DistinctIPs(s.json) && LockInv(s) && HolderInv(s)
  }

  /** No other readable record has the address. */
  predicate Unclaimed(json: map<string, Content>, rec: Record) {
    rec.ip == "" || forall n :: n in json && json[n].Good? && n != rec.name ==> json[n].rec.ip != rec.ip
  }

  /** The lock holder will see the record before it chooses, or has seen its address, or has chosen
      another one. */
  predicate HolderAdmits(pc: Process, rec: Record) {
    match pc
    case Listing(_, _, left, listed) => rec.name in left + listed
    case Stating(_, _, todo, kept) => rec.name in todo + kept
    case Loading(_, _, todo, used) => rec.name in todo || rec.ip == "" || rec.ip in used
    case Chosen(_, chosen) => rec.ip != chosen.ip
    case Writing(_, chosen) => rec.ip != chosen.ip
    case Written(_, chosen) => rec.ip != chosen.ip
    case _ => true
  }

  /** A rewrite is saved only when no other readable record has its address and it does not come in the
      way of a create. */
  predicate Guarded(s: State, a: Action) {
    a.Save? && Pc(s, a.p).Rewriting? && SameIdentity(a.rec, Pc(s, a.p).rec) ==>
      && Unclaimed(s.json, a.rec)
      && (s.owner.Some? ==> HolderAdmits(Pc(s, s.owner.value), a.rec))
  }

  /** Steps of the process itself that leave every file alone. */
  predicate FileNeutral(a: Action) {
    !a.OpenTmp? && !a.FillTmp? && !a.Rename? && !a.Unlink? && !a.UnlinkTmp? && !a.Save?
  }

  lemma NeutralStepKeeps(cfg: Config, s: State, a: Action)
    requires ValidConfig(cfg) && Inv(s) && FileNeutral(a)
    ensures Inv(Step(cfg, s, a))
  {
    hide ChosenIP, MACFromIP;
    if a.Choose? {
      ChooseKeeps(cfg, s, a.p, a.fields);
    } else if a.ListDone? || a.StatOne? || a.StatDone? || a.LoadOne? {
      ScanKeeps(cfg, s, a);
    }
  }

  lemma ScanKeeps(cfg: Config, s: State, a: Action)
    requires ValidConfig(cfg) && Inv(s) && (a.ListDone? || a.StatOne? || a.StatDone? || a.LoadOne?)
    ensures Inv(Step(cfg, s, a))
  {
    hide ChosenIP, MACFromIP;
  }

  lemma ChooseKeeps(cfg: Config, s: State, p: Pid, fields: Record)
    requires ValidConfig(cfg) && Inv(s)
    ensures Inv(Step(cfg, s, Choose(p, fields)))
  {
    hide ChosenIP, MACFromIP;
    if Pc(s, p).Loading? && Pc(s, p).todo == {} {
      var r := ChosenIP(cfg, Pc(s, p).used, Pc(s, p).req);
      assert HolderKnows(s.json, s.tmp, s.procs[p]);
      if r.Some? {
        ChosenIsFresh(cfg, Pc(s, p).used, Pc(s, p).req);
        assert Fresh(s.json, r.value);
      }
    }
  }

  lemma OpenTmpKeeps(cfg: Config, s: State, p: Pid)
    requires ValidConfig(cfg) && Inv(s)
    ensures Inv(Step(cfg, s, OpenTmp(p)))
  {
    hide ChosenIP, MACFromIP;
  }

  lemma FillTmpKeeps(cfg: Config, s: State, p: Pid)
    requires ValidConfig(cfg) && Inv(s)
    ensures Inv(Step(cfg, s, FillTmp(p)))
  {
    hide ChosenIP, MACFromIP;
  }

  lemma RenameKeeps(cfg: Config, s: State, p: Pid)
    requires ValidConfig(cfg) && Inv(s)
    ensures Inv(Step(cfg, s, Rename(p)))
  {
    hide ChosenIP, MACFromIP;
  }

  lemma UnlinkKeeps(cfg: Config, s: State, name: string)
    requires ValidConfig(cfg) && Inv(s)
    ensures Inv(Step(cfg, s, Unlink(name))) && Inv(Step(cfg, s, UnlinkTmp(name)))
  {
    hide ChosenIP, MACFromIP;
  }

  lemma SaveKeeps(cfg: Config, s: State, p: Pid, rec: Record)
    requires ValidConfig(cfg) && Inv(s) && Guarded(s, Save(p, rec))
    ensures Inv(Step(cfg, s, Save(p, rec)))
  {
    hide ChosenIP, MACFromIP;
  }

  lemma FileStepKeeps(cfg: Config, s: State, a: Action)
    requires ValidConfig(cfg) && Inv(s) && !FileNeutral(a) && Guarded(s, a)
    ensures Inv(Step(cfg, s, a))
  {
    hide Inv, Step, Guarded;
    match a {
      case OpenTmp(p) => OpenTmpKeeps(cfg, s, p);
      case FillTmp(p) => FillTmpKeeps(cfg, s, p);
      case Rename(p) => RenameKeeps(cfg, s, p);
      case Unlink(name) => UnlinkKeeps(cfg, s, name);
      case UnlinkTmp(name) => UnlinkKeeps(cfg, s, name);
      case Save(p, rec) => SaveKeeps(cfg, s, p, rec);
      case _ =>
    }
  }

  lemma StepKeeps(cfg: Config, s: State, a: Action)
    requires ValidConfig(cfg) && Inv(s) && Guarded(s, a)
    ensures Inv(Step(cfg, s, a))
  {
    if FileNeutral(a) {
      NeutralStepKeeps(cfg, s, a);
    } else {
      FileStepKeeps(cfg, s, a);
    }
  }

  lemma UnguardedSaveBreaks(cfg: Config, s: State, p: Pid, rec: Record)
    requires ValidConfig(cfg) && Inv(s) && !Guarded(s, Save(p, rec))
    ensures !Inv(Step(cfg, s, Save(p, rec)))
    ensures !Unclaimed(s.json, rec) ==> !DistinctIPs(Step(cfg, s, Save(p, rec)).json)
  {
    var t := Step(cfg, s, Save(p, rec));
    var json := s.json[rec.name := Good(rec)];
    assert t.json == json && t.procs == s.procs[p := Idle] && t.owner == s.owner;
    hide Step;
    if !Unclaimed(s.json, rec) {
      var n :| n in s.json && s.json[n].Good? && n != rec.name && s.json[n].rec.ip == rec.ip;
      assert json[n] == s.json[n] && json[rec.name] == Good(rec);
    } else {
      var q := s.owner.value;
      assert InLock(Pc(s, q)) && q in t.procs && t.procs[q] == s.procs[q];
      assert json[rec.name] == Good(rec) && rec.name in json.Keys;
      assert !HolderKnows(t.json, t.tmp, t.procs[q]);
    }
  }

  /** The guard is exact: a step keeps what always holds if and only if it is not a rewrite saved
      against it. */
  lemma StepKeepsExactly(cfg: Config, s: State, a: Action)
    requires ValidConfig(cfg) && Inv(s)
    ensures Inv(Step(cfg, s, a)) <==> Guarded(s, a)
  {
    hide Inv, Step, Unclaimed, HolderAdmits;
    if Guarded(s, a) {
      StepKeeps(cfg, s, a);
    } else {
      UnguardedSaveBreaks(cfg, s, a.p, a.rec);
    }
  }

  /** A rewrite over the record it loaded, as far as its address goes, is guarded: nobody has deleted
      and recreated the VM. */
  lemma UnmovedIsGuarded(s: State, p: Pid, rec: Record)
    requires Inv(s) && Readable(s.json, rec.name) && s.json[rec.name].rec.ip == rec.ip
    ensures Guarded(s, Save(p, rec))
  {
  }

  /** With the lock free, the condition is one that a rewrite could check: no other readable record has
      the address. */
  lemma SaveUnderLockExactly(cfg: Config, s: State, p: Pid, rec: Record)
    requires ValidConfig(cfg) && Inv(s) && s.owner == None
    requires Pc(s, p).Rewriting? && SameIdentity(rec, Pc(s, p).rec)
    ensures Inv(Step(cfg, s, Save(p, rec))) <==> Unclaimed(s.json, rec)
    ensures DistinctIPs(Step(cfg, s, Save(p, rec)).json) <==> Unclaimed(s.json, rec)
  {
    StepKeepsExactly(cfg, s, Save(p, rec));
    hide Step;
    if !Unclaimed(s.json, rec) {
      UnguardedSaveBreaks(cfg, s, p, rec);
    }
  }

  ghost predicate GuardedRun(cfg: Config, s: State, actions: seq<Action>)
    requires ValidConfig(cfg)
    decreases actions
  {
    actions == [] || (Guarded(s, actions[0]) && GuardedRun(cfg, Step(cfg, s, actions[0]), actions[1..]))
  }

  lemma {:induction false} RunKeeps(cfg: Config, s: State, actions: seq<Action>)
    requires ValidConfig(cfg) && Inv(s) && GuardedRun(cfg, s, actions)
    ensures Inv(Run(cfg, s, actions))
    decreases actions
  {
    hide Inv, Step;
    if actions != [] {
      StepKeeps(cfg, s, actions[0]);
      RunKeeps(cfg, Step(cfg, s, actions[0]), actions[1..]);
    }
  }

  /** A store at rest: nobody is running, and the readable records have different addresses. */
  predicate AtRest(s: State) {
    s.owner == None && s.procs == map[] && DistinctIPs(s.json)
  }

  /** In every run of any number of creators, deleters, rollbacks and rewrites, at every point, all
      readable records have pairwise different addresses, at most one process is in the lock, and the
      lock is taken only while one is: no crash leaves it taken. */
  lemma AddressesStayDistinct(cfg: Config, s: State, actions: seq<Action>)
    requires ValidConfig(cfg) && AtRest(s) && GuardedRun(cfg, s, actions)
    ensures DistinctIPs(Run(cfg, s, actions).json)
    ensures forall p, q :: InLock(Pc(Run(cfg, s, actions), p)) && InLock(Pc(Run(cfg, s, actions), q)) ==> p == q
    ensures Run(cfg, s, actions).owner.Some? ==> exists p :: InLock(Pc(Run(cfg, s, actions), p))
  {
    RunKeeps(cfg, s, actions);
    hide Run, Step;
  }

  // ---------------------------------------------------------------- derived fields

  /** The MAC is derived from the address, and an address the program chose lies in the subnet. */
  ghost predicate Derived(cfg: Config, rec: Record) {
    rec.mac == MACFromIP(rec.ip) && (cfg.prefix >= 16 && cfg.start >= 0 ==> InSixteen(cfg, rec.ip))
  }

  ghost predicate DerivedIn(cfg: Config, files: map<string, Content>) {
    forall n :: n in files && files[n].Good? ==> Derived(cfg, files[n].rec) && files[n].rec.name == n
  }

  ghost predicate ProcessDerived(cfg: Config, pc: Process) {
    match pc
    case Chosen(name, rec) => Derived(cfg, rec) && rec.name == name
    case Writing(name, rec) => Derived(cfg, rec) && rec.name == name
    case Written(name, rec) => Derived(cfg, rec) && rec.name == name
    case Rewriting(rec) => Derived(cfg, rec)
    case _ => true
  }

  ghost predicate DerivedInv(cfg: Config, s: State) {
    && DerivedIn(cfg, s.json) && DerivedIn(cfg, s.tmp)
    && forall p :: p in s.procs ==> ProcessDerived(cfg, s.procs[p])
  }

  lemma ChooseKeepsDerived(cfg: Config, s: State, p: Pid, fields: Record)
    requires ValidConfig(cfg) && DerivedInv(cfg, s)
    ensures DerivedInv(cfg, Step(cfg, s, Choose(p, fields)))
  {
    hide ChosenIP, MACFromIP, InSixteen;
    if Pc(s, p).Loading? && Pc(s, p).todo == {} {
      var r := ChosenIP(cfg, Pc(s, p).used, Pc(s, p).req);
      if r.Some? && cfg.prefix >= 16 && cfg.start >= 0 {
        ChosenInSixteen(cfg, Pc(s, p).used, Pc(s, p).req);
      }
    }
  }

  lemma StepKeepsDerived(cfg: Config, s: State, a: Action)
    requires ValidConfig(cfg) && DerivedInv(cfg, s)
    ensures DerivedInv(cfg, Step(cfg, s, a))
  {
    hide ChosenIP, MACFromIP, InSixteen;
    if a.Choose? {
      ChooseKeepsDerived(cfg, s, a.p, a.fields);
    } else {
      hide Derived;
    }
  }

  lemma {:induction false} RunKeepsDerived(cfg: Config, s: State, actions: seq<Action>)
    requires ValidConfig(cfg) && DerivedInv(cfg, s)
    ensures DerivedInv(cfg, Run(cfg, s, actions))
    decreases actions
  {
    hide DerivedInv, Step;
    if actions != [] {
      StepKeepsDerived(cfg, s, actions[0]);
      RunKeepsDerived(cfg, Step(cfg, s, actions[0]), actions[1..]);
    }
  }

  /** In every run every readable record stands under its own name and has the MAC of its address;
      with at least sixteen prefix bits, different VMs also have different MACs. */
  lemma MACsFollowAddresses(cfg: Config, s: State, actions: seq<Action>)
    requires ValidConfig(cfg) && AtRest(s) && GuardedRun(cfg, s, actions)
    requires DerivedIn(cfg, s.json) && DerivedIn(cfg, s.tmp)
    ensures var json := Run(cfg, s, actions).json;
      forall n :: Readable(json, n) ==> json[n].rec.mac == MACFromIP(json[n].rec.ip) && json[n].rec.name == n
    ensures var json := Run(cfg, s, actions).json;
      cfg.prefix >= 16 && cfg.start >= 0 ==>
        forall m, n :: Readable(json, m) && Readable(json, n) && m != n ==> json[m].rec.mac != json[n].rec.mac
  {
    RunKeepsDerived(cfg, s, actions);
    AddressesStayDistinct(cfg, s, actions);
    var json := Run(cfg, s, actions).json;
    hide Run, Step, MACFromIP;
    if cfg.prefix >= 16 && cfg.start >= 0 {
      forall m, n | Readable(json, m) && Readable(json, n) && m != n
        ensures json[m].rec.mac != json[n].rec.mac
      {
        if json[m].rec.mac == json[n].rec.mac {
          MACInjectiveInSixteen(cfg, json[m].rec.ip, json[n].rec.ip);
        }
      }
    }
  }

  /** The records a scan of the directory can return. */
  ghost function ReadableRecords(json: map<string, Content>): set<Record> {
    set n | n in json && Readable(json, n) :: json[n].rec
  }

  /** The DHCP server's answer never depends on the order in which it reads the directory. */
  lemma LookupIsDeterministic(cfg: Config, s: State, actions: seq<Action>, mac: string, x: seq<Record>, y: seq<Record>)
    requires ValidConfig(cfg) && AtRest(s) && GuardedRun(cfg, s, actions)
    requires DerivedIn(cfg, s.json) && DerivedIn(cfg, s.tmp) && cfg.prefix >= 16 && cfg.start >= 0
    requires ScanOf(x, ReadableRecords(Run(cfg, s, actions).json))
    requires ScanOf(y, ReadableRecords(Run(cfg, s, actions).json))
    ensures Lookup(x, mac) == Lookup(y, mac)
  {
    MACsFollowAddresses(cfg, s, actions);
    var json := Run(cfg, s, actions).json;
    hide Run, Step, Derived, MACFromIP, ScanOf, Lookup;
    var vms := ReadableRecords(json);
    forall v, w | v in vms && w in vms && v.mac == mac && w.mac == mac ensures v == w {
      var m :| Readable(json, m) && json[m].rec == v;
      var n :| Readable(json, n) && json[n].rec == w;
    }
    LookupIgnoresOrder(vms, mac);
  }

  // ---------------------------------------------------------------- what a create achieves

  /** All addresses in the store, as a scan without interference finds them. */
  ghost function StoredAddresses(json: map<string, Content>): set<string> {
    set n | n in json && json[n].Good? && json[n].rec.ip != "" :: json[n].rec.ip
  }

  lemma {:induction false} RunConcat(cfg: Config, s: State, a: seq<Action>, b: seq<Action>)
    requires ValidConfig(cfg)
    ensures Run(cfg, s, a + b) == Run(cfg, Run(cfg, s, a), b)
    decreases a
  {
    hide Step;
    if a == [] {
      assert a + b == b;
    } else {
      assert (a + b)[1..] == a[1..] + b;
      RunConcat(cfg, Step(cfg, s, a[0]), a[1..], b);
    }
  }

  predicate Undisturbed(actions: seq<Action>, p: Pid) {
    forall i :: 0 <= i < |actions| ==>
      match actions[i]
      case Unlink(_) => false
      case UnlinkTmp(_) => false
      case _ => actions[i].p == p && !actions[i].Save? && !actions[i].Crash? && !actions[i].GiveUp?
  }

  lemma GotoTwice(s: State, p: Pid, x: Process, y: Process)
    ensures Goto(Goto(s, p, x), p, y) == Goto(s, p, y) && Pc(Goto(s, p, x), p) == x
  {
    assert s.procs[p := x][p := y] == s.procs[p := y];
  }

  lemma RunCons(cfg: Config, s: State, a: Action, rest: seq<Action>)
    requires ValidConfig(cfg)
    ensures Run(cfg, s, [a] + rest) == Run(cfg, Step(cfg, s, a), rest)
  {
    hide Step;
    assert ([a] + rest)[1..] == rest;
  }

  lemma RunOne(cfg: Config, s: State, a: Action)
    requires ValidConfig(cfg)
    ensures Run(cfg, s, [a]) == Step(cfg, s, a)
  {
    hide Step;
    assert [a][1..] == [];
  }

  lemma RunTwo(cfg: Config, s: State, a: Action, b: Action)
    requires ValidConfig(cfg)
    ensures Run(cfg, s, [a, b]) == Step(cfg, Step(cfg, s, a), b)
  {
    hide Step;
    assert [a, b] == [a] + [b];
    RunCons(cfg, s, a, [b]);
    RunOne(cfg, Step(cfg, s, a), b);
  }

  lemma ListAll(cfg: Config, s: State, p: Pid, name: string, req: Request, left: set<string>, listed: set<string>)
    returns (actions: seq<Action>)
    requires ValidConfig(cfg)
    ensures Undisturbed(actions, p)
    ensures Run(cfg, Goto(s, p, Listing(name, req, left, listed)), actions)
      == Goto(s, p, Listing(name, req, {}, listed + left))
    decreases left
  {
    actions := [];
    if n :| n in left {
      var a, here := ListOne(p, n), Listing(name, req, left, listed);
      var next := Listing(name, req, left - {n}, listed + {n});
      var rest := ListAll(cfg, s, p, name, req, left - {n}, listed + {n});
      actions := [a] + rest;
      GotoTwice(s, p, here, next);
      RunCons(cfg, Goto(s, p, here), a, rest);
      assert listed + {n} + (left - {n}) == listed + left;
    } else {
      assert listed + left == listed && left == {};
    }
  }

  lemma StatAll(cfg: Config, s: State, p: Pid, name: string, req: Request, todo: set<string>, kept: set<string>)
    returns (actions: seq<Action>)
    requires ValidConfig(cfg) && todo <= s.json.Keys
    ensures Undisturbed(actions, p)
    ensures Run(cfg, Goto(s, p, Stating(name, req, todo, kept)), actions)
      == Goto(s, p, Stating(name, req, {}, kept + todo))
    decreases todo
  {
    actions := [];
    if n :| n in todo {
      var a := StatOne(p, n);
      var rest := StatAll(cfg, s, p, name, req, todo - {n}, kept + {n});
      actions := [a] + rest;
      GotoTwice(s, p, Stating(name, req, todo, kept), Stating(name, req, todo - {n}, kept + {n}));
      RunCons(cfg, Goto(s, p, Stating(name, req, todo, kept)), a, rest);
      assert kept + {n} + (todo - {n}) == kept + todo;
    } else {
      assert kept + todo == kept && todo == {};
    }
  }

  ghost function AddressesUnder(json: map<string, Content>, names: set<string>): set<string> {
    set n | n in names && n in json && json[n].Good? && json[n].rec.ip != "" :: json[n].rec.ip
  }

  lemma LoadAll(cfg: Config, s: State, p: Pid, name: string, req: Request, todo: set<string>, used: set<string>)
    returns (actions: seq<Action>)
    requires ValidConfig(cfg)
    ensures Undisturbed(actions, p)
    ensures Run(cfg, Goto(s, p, Loading(name, req, todo, used)), actions)
      == Goto(s, p, Loading(name, req, {}, used + AddressesUnder(s.json, todo)))
    decreases todo
  {
    actions := [];
    if n :| n in todo {
      var a, more := LoadOne(p, n), ScanName(s.json, n, used);
      var rest := LoadAll(cfg, s, p, name, req, todo - {n}, more);
      actions := [a] + rest;
      GotoTwice(s, p, Loading(name, req, todo, used), Loading(name, req, todo - {n}, more));
      RunCons(cfg, Goto(s, p, Loading(name, req, todo, used)), a, rest);
      assert more + AddressesUnder(s.json, todo - {n}) == used + AddressesUnder(s.json, todo);
    } else {
      assert used + AddressesUnder(s.json, todo) == used && todo == {};
    }
  }

  /** The part of a create that scans the store. */
  lemma ScanSteps(cfg: Config, s: State, p: Pid, name: string, req: Request) returns (actions: seq<Action>)
    requires ValidConfig(cfg) && Pc(s, p).Idle? && name !in s.json && s.owner == None
    ensures Undisturbed(actions, p)
    ensures Run(cfg, s, actions) == Goto(s.(owner := Some(p)), p, Loading(name, req, {}, StoredAddresses(s.json)))
  {
    var t, names := s.(owner := Some(p)), s.json.Keys;
    var front := [Begin(p, name, req), Acquire(p)];
    BeginSteps(cfg, s, p, name, req);
    var list := ListSteps(cfg, t, p, name, req);
    var stat := StatSteps(cfg, t, p, name, req);
    var load := LoadAll(cfg, t, p, name, req, names, {});
    assert {} + AddressesUnder(t.json, names) == StoredAddresses(s.json);
    hide Step, Goto, StoredAddresses, AddressesUnder, Run, Undisturbed;
    RunConcat(cfg, s, front, list);
    RunConcat(cfg, s, front + list, stat);
    RunConcat(cfg, s, front + list + stat, load);
    UndisturbedBegin(p, name, req);
    UndisturbedConcat(front, list, p);
    UndisturbedConcat(front + list, stat, p);
    UndisturbedConcat(front + list + stat, load, p);
    actions := front + list + stat + load;
  }

  lemma UndisturbedBegin(p: Pid, name: string, req: Request)
    ensures Undisturbed([Begin(p, name, req), Acquire(p)], p)
  {
  }

  lemma BeginSteps(cfg: Config, s: State, p: Pid, name: string, req: Request)
    requires ValidConfig(cfg) && Pc(s, p).Idle? && name !in s.json && s.owner == None
    ensures Run(cfg, s, [Begin(p, name, req), Acquire(p)])
      == Goto(s.(owner := Some(p)), p, Listing(name, req, s.json.Keys, {}))
  {
    hide ChosenIP, MACFromIP;
    RunTwo(cfg, s, Begin(p, name, req), Acquire(p));
    GotoTwice(s, p, Waiting(name, req), Listing(name, req, s.json.Keys, {}));
  }

  lemma ListSteps(cfg: Config, t: State, p: Pid, name: string, req: Request) returns (actions: seq<Action>)
    requires ValidConfig(cfg)
    ensures Undisturbed(actions, p)
    ensures Run(cfg, Goto(t, p, Listing(name, req, t.json.Keys, {})), actions)
      == Goto(t, p, Stating(name, req, t.json.Keys, {}))
  {
    var names := t.json.Keys;
    var list := ListAll(cfg, t, p, name, req, names, {});
    assert {} + names == names;
    RunOne(cfg, Goto(t, p, Listing(name, req, {}, names)), ListDone(p));
    GotoTwice(t, p, Listing(name, req, {}, names), Stating(name, req, names, {}));
    actions := list + [ListDone(p)];
    hide Run;
    RunConcat(cfg, Goto(t, p, Listing(name, req, names, {})), list, [ListDone(p)]);
  }

  lemma StatSteps(cfg: Config, t: State, p: Pid, name: string, req: Request) returns (actions: seq<Action>)
    requires ValidConfig(cfg)
    ensures Undisturbed(actions, p)
    ensures Run(cfg, Goto(t, p, Stating(name, req, t.json.Keys, {})), actions)
      == Goto(t, p, Loading(name, req, t.json.Keys, {}))
  {
    var names := t.json.Keys;
    var stat := StatAll(cfg, t, p, name, req, names, {});
    assert {} + names == names;
    RunOne(cfg, Goto(t, p, Stating(name, req, {}, names)), StatDone(p));
    GotoTwice(t, p, Stating(name, req, {}, names), Loading(name, req, names, {}));
    actions := stat + [StatDone(p)];
    hide Run;
    RunConcat(cfg, Goto(t, p, Stating(name, req, names, {})), stat, [StatDone(p)]);
  }

  /** From any state with the lock free, a creator that nobody disturbs can run to its end: it saves
      one record, with the address chosen against exactly the stored ones, and changes nothing else;
      if no address can be chosen it changes no file. */
  lemma UndisturbedCreate(cfg: Config, s: State, p: Pid, name: string, req: Request, fields: Record)
    returns (actions: seq<Action>)
    requires ValidConfig(cfg) && Pc(s, p).Idle? && name !in s.json && s.owner == None
    ensures Undisturbed(actions, p)
    ensures Run(cfg, s, actions) ==
      match ChosenIP(cfg, StoredAddresses(s.json), req)
      case None => Goto(s, p, Idle)
      case Some(ip) =>
        Goto(s, p, Idle).(json := s.json[name := Good(NewRecord(fields, name, ip))], tmp := s.tmp - {name})
  {
    hide Run, Step, Goto, Pc, Undisturbed, ChosenIP, MACFromIP, StoredAddresses;
    var scan := ScanSteps(cfg, s, p, name, req);
    var tail := ChooseAndSave(cfg, s, p, name, req, StoredAddresses(s.json), fields);
    RunConcat(cfg, s, scan, tail);
    actions := scan + tail;
    UndisturbedConcat(scan, tail, p);
  }

  /** The part of a create that follows the scan. */
  lemma ChooseAndSave(cfg: Config, s: State, p: Pid, name: string, req: Request, used: set<string>, fields: Record)
    returns (tail: seq<Action>)
    requires ValidConfig(cfg) && s.owner == None
    ensures Undisturbed(tail, p)
    ensures Run(cfg, Goto(s.(owner := Some(p)), p, Loading(name, req, {}, used)), tail) ==
      match ChosenIP(cfg, used, req)
      case None => Goto(s, p, Idle)
      case Some(ip) =>
        Goto(s, p, Idle).(json := s.json[name := Good(NewRecord(fields, name, ip))], tmp := s.tmp - {name})
  {
    var t := s.(owner := Some(p));
    hide Run, Step, Undisturbed, ChosenIP, MACFromIP;
    if ChosenIP(cfg, used, req) == None {
      tail := [Choose(p, fields), Release(p)];
      UndisturbedFail(p, fields);
      FailSteps(cfg, t, p, name, req, used, fields);
    } else {
      tail := [Choose(p, fields), OpenTmp(p), FillTmp(p), Rename(p), Release(p)];
      UndisturbedSave(p, fields);
      SaveSteps(cfg, t, p, name, req, used, fields);
      var file := Good(NewRecord(fields, name, ChosenIP(cfg, used, req).value));
      assert s.tmp[name := file] - {name} == s.tmp - {name};
    }
  }

  lemma UndisturbedFail(p: Pid, fields: Record)
    ensures Undisturbed([Choose(p, fields), Release(p)], p)
  {
  }

  lemma UndisturbedSave(p: Pid, fields: Record)
    ensures Undisturbed([Choose(p, fields), OpenTmp(p), FillTmp(p), Rename(p), Release(p)], p)
  {
  }

  lemma UndisturbedConcat(a: seq<Action>, b: seq<Action>, p: Pid)
    requires Undisturbed(a, p) && Undisturbed(b, p)
    ensures Undisturbed(a + b, p)
  {
  }

  lemma FailSteps(cfg: Config, t: State, p: Pid, name: string, req: Request, used: set<string>, fields: Record)
    requires ValidConfig(cfg) && ChosenIP(cfg, used, req) == None
    ensures Run(cfg, Goto(t, p, Loading(name, req, {}, used)), [Choose(p, fields), Release(p)])
      == Goto(t, p, Idle).(owner := None)
  {
    hide ChosenIP, MACFromIP;
    var pc := Loading(name, req, {}, used);
    RunTwo(cfg, Goto(t, p, pc), Choose(p, fields), Release(p));
    GotoTwice(t, p, pc, Finished);
    GotoTwice(t, p, Finished, Idle);
  }

  lemma SaveSteps(cfg: Config, t: State, p: Pid, name: string, req: Request, used: set<string>, fields: Record)
    requires ValidConfig(cfg) && ChosenIP(cfg, used, req).Some?
    ensures var rec := NewRecord(fields, name, ChosenIP(cfg, used, req).value);
      var actions := [Choose(p, fields), OpenTmp(p), FillTmp(p), Rename(p), Release(p)];
      Run(cfg, Goto(t, p, Loading(name, req, {}, used)), actions)
      == Goto(t, p, Idle).(json := t.json[name := Good(rec)], tmp := t.tmp[name := Good(rec)] - {name}, owner := None)
  {
    var rec := NewRecord(fields, name, ChosenIP(cfg, used, req).value);
    var s0 := Goto(t, p, Loading(name, req, {}, used));
    var s2 := Goto(t.(tmp := t.tmp[name := Broken]), p, Writing(name, rec));
    var s4 := Goto(t.(tmp := t.tmp[name := Good(rec)] - {name}, json := t.json[name := Good(rec)]), p, Finished);
    OpenSteps(cfg, t, p, name, req, used, fields);
    RenameSteps(cfg, t, p, name, rec);
    RunOne(cfg, s4, Release(p));
    assert Step(cfg, s4, Release(p)) == Goto(t, p, Idle).(json := s4.json, tmp := s4.tmp, owner := None) by {
      hide ChosenIP;
      GotoTwice(t.(tmp := s4.tmp, json := s4.json), p, Finished, Idle);
    }
    hide Step, Goto, Run, ChosenIP, MACFromIP;
    var x, y := [Choose(p, fields), OpenTmp(p)], [FillTmp(p), Rename(p)];
    RunConcat(cfg, s0, x, y);
    RunConcat(cfg, s0, x + y, [Release(p)]);
    assert x + y + [Release(p)] == [Choose(p, fields), OpenTmp(p), FillTmp(p), Rename(p), Release(p)];
  }

  lemma OpenSteps(cfg: Config, t: State, p: Pid, name: string, req: Request, used: set<string>, fields: Record)
    requires ValidConfig(cfg) && ChosenIP(cfg, used, req).Some?
    ensures var rec := NewRecord(fields, name, ChosenIP(cfg, used, req).value);
      Run(cfg, Goto(t, p, Loading(name, req, {}, used)), [Choose(p, fields), OpenTmp(p)])
      == Goto(t.(tmp := t.tmp[name := Broken]), p, Writing(name, rec))
  {
    hide ChosenIP, MACFromIP;
    var rec := NewRecord(fields, name, ChosenIP(cfg, used, req).value);
    GotoTwice(t, p, Loading(name, req, {}, used), Chosen(name, rec));
    GotoTwice(t, p, Chosen(name, rec), Writing(name, rec));
    RunTwo(cfg, Goto(t, p, Loading(name, req, {}, used)), Choose(p, fields), OpenTmp(p));
  }

  lemma RenameSteps(cfg: Config, t: State, p: Pid, name: string, rec: Record)
    requires ValidConfig(cfg)
    ensures Run(cfg, Goto(t.(tmp := t.tmp[name := Broken]), p, Writing(name, rec)), [FillTmp(p), Rename(p)])
      == Goto(t.(tmp := t.tmp[name := Good(rec)] - {name}, json := t.json[name := Good(rec)]), p, Finished)
  {
    hide ChosenIP, MACFromIP;
    var t2, t3 := t.(tmp := t.tmp[name := Broken]), t.(tmp := t.tmp[name := Good(rec)]);
    GotoTwice(t2, p, Writing(name, rec), Written(name, rec));
    GotoTwice(t3, p, Written(name, rec), Finished);
    assert t2.tmp[name := Good(rec)] == t3.tmp;
    RunTwo(cfg, Goto(t2, p, Writing(name, rec)), FillTmp(p), Rename(p));
  }

  /** The guard on rewrites is needed. Whenever the allocator can serve an empty store there is a run
      without it that ends in two VMs with one address: a rewrite loads VM "a", "a" is deleted, "b" is
      created and given the address of "a", and the rewrite saves "a" again. */
  lemma StaleRewriteDuplicates(cfg: Config, fields: Record) returns (actions: seq<Action>)
    requires ValidConfig(cfg) && Allocated(cfg, {}).Some?
    ensures !DistinctIPs(Run(cfg, State(map[], map[], None, map[]), actions).json)
  {
    var ip := Allocated(cfg, {}).value;
    var s0 := State(map[], map[], None, map[]);
    var a, b := NewRecord(fields, "a", ip), NewRecord(fields, "b", ip);
    ChosenIsFresh(cfg, {}, Automatic);
    assert StoredAddresses(map[]) == {};
    assert ChosenIP(cfg, {}, Automatic) == Some(ip);
    var createA := UndisturbedCreate(cfg, s0, 1, "a", Automatic, fields);
    var s1 := Run(cfg, s0, createA);
    var steal := [Load(2, "a"), Unlink("a")];
    LoadThenDelete(cfg, s1, 2, "a", a);
    var s2 := Run(cfg, s1, steal);
    hide Step, Run;
    assert s2.json == map[];
    var createB := UndisturbedCreate(cfg, s2, 1, "b", Automatic, fields);
    var s3 := Run(cfg, s2, createB);
    SaveBack(cfg, s3, 2, a);
    var s4 := Run(cfg, s3, [Save(2, a)]);
    assert s4.json == map["b" := Good(b)]["a" := Good(a)];
    RunConcat(cfg, s0, createA, steal);
    RunConcat(cfg, s0, createA + steal, createB);
    RunConcat(cfg, s0, createA + steal + createB, [Save(2, a)]);
    actions := createA + steal + createB + [Save(2, a)];
    assert s4.json["a"] == Good(a) && s4.json["b"] == Good(b);
  }

  /** Nor is it enough to check the address outside the lock. Here nobody has the address when the rewrite
      saves "a" again, but "b" is being created, its listing need not return the entry that was removed
      and added again, and "b" is given the address of "a". */
  lemma UnlockedCheckIsNotEnough(cfg: Config, fields: Record, rec: Record)
    returns (front: seq<Action>, back: seq<Action>)
    requires ValidConfig(cfg) && Allocated(cfg, {}).Some?
    requires rec == NewRecord(fields, "a", Allocated(cfg, {}).value)
    ensures var s := State(map["a" := Good(rec)], map[], None, map[]);
      var t := Run(cfg, s, front);
      AtRest(s) && Pc(t, 2) == Rewriting(rec) && Unclaimed(t.json, rec)
      && !DistinctIPs(Run(cfg, Step(cfg, t, Save(2, rec)), back).json)
  {
    var s := State(map["a" := Good(rec)], map[], None, map[]);
    front := [Begin(1, "b", Automatic), Acquire(1), Load(2, "a"), Unlink("a")];
    RemovedWhileListing(cfg, rec);
    back := CreateGoesOn(cfg, fields, rec);
  }

  /** "b" is being created and has still to list the store, from which "a" has just gone. */
  function CreateUnderWay(rec: Record): State {
    State(map[], map[], Some(1), map[1 := Listing("b", Automatic, {}, {}), 2 := Rewriting(rec)])
  }

  lemma RemovedWhileListing(cfg: Config, rec: Record)
    requires ValidConfig(cfg) && rec.name == "a"
    ensures Run(cfg, State(map["a" := Good(rec)], map[], None, map[]),
                [Begin(1, "b", Automatic), Acquire(1), Load(2, "a"), Unlink("a")]) == CreateUnderWay(rec)
  {
    var s := State(map["a" := Good(rec)], map[], None, map[]);
    var t := Goto(s.(owner := Some(1)), 1, Listing("b", Automatic, s.json.Keys, {}));
    BeginSteps(cfg, s, 1, "b", Automatic);
    assert s.json.Keys == {"a"};
    LoadThenRemove(cfg, rec, t);
    hide Run, Step, Goto;
    RunConcat(cfg, s, [Begin(1, "b", Automatic), Acquire(1)], [Load(2, "a"), Unlink("a")]);
    assert [Begin(1, "b", Automatic), Acquire(1)] + [Load(2, "a"), Unlink("a")]
        == [Begin(1, "b", Automatic), Acquire(1), Load(2, "a"), Unlink("a")];
  }

  lemma LoadThenRemove(cfg: Config, rec: Record, t: State)
    requires ValidConfig(cfg) && rec.name == "a"
    requires t.json == map["a" := Good(rec)] && t.tmp == map[] && t.owner == Some(1)
    requires t.procs == map[1 := Listing("b", Automatic, {"a"}, {})]
    ensures Run(cfg, t, [Load(2, "a"), Unlink("a")]) == CreateUnderWay(rec)
  {
    hide ChosenIP, MACFromIP;
    var u := Goto(t, 2, Rewriting(rec));
    assert Step(cfg, t, Load(2, "a")) == u;
    assert {"a"} - {"a"} == {};
    RunTwo(cfg, t, Load(2, "a"), Unlink("a"));
  }

  lemma CreateGoesOn(cfg: Config, fields: Record, rec: Record) returns (back: seq<Action>)
    requires ValidConfig(cfg) && Allocated(cfg, {}).Some?
    requires rec == NewRecord(fields, "a", Allocated(cfg, {}).value)
    ensures !DistinctIPs(Run(cfg, Step(cfg, CreateUnderWay(rec), Save(2, rec)), back).json)
  {
    var saved := State(map["a" := Good(rec)], map[], None, map[1 := Idle, 2 := Idle]);
    SavedWhileListing(cfg, rec, saved);
    SameAddressTwice(cfg, fields, rec);
    hide Run, Step, Goto, ChosenIP, MACFromIP, DistinctIPs, CreateUnderWay, NewRecord;
    var tail := ChooseAndSave(cfg, saved, 1, "b", Automatic, {}, fields);
    back := [ListDone(1), StatDone(1)] + tail;
    RunConcat(cfg, Step(cfg, CreateUnderWay(rec), Save(2, rec)), [ListDone(1), StatDone(1)], tail);
  }

  lemma SavedWhileListing(cfg: Config, rec: Record, saved: State)
    requires ValidConfig(cfg) && rec.name == "a"
    requires saved == State(map["a" := Good(rec)], map[], None, map[1 := Idle, 2 := Idle])
    ensures Run(cfg, Step(cfg, CreateUnderWay(rec), Save(2, rec)), [ListDone(1), StatDone(1)])
      == Goto(saved.(owner := Some(1)), 1, Loading("b", Automatic, {}, {}))
  {
    hide ChosenIP, MACFromIP;
    var t := CreateUnderWay(rec);
    var u := State(map["a" := Good(rec)], map[], Some(1), map[1 := Listing("b", Automatic, {}, {}), 2 := Idle]);
    assert Step(cfg, t, Save(2, rec)) == u;
    RunTwo(cfg, u, ListDone(1), StatDone(1));
  }

  lemma SameAddressTwice(cfg: Config, fields: Record, rec: Record)
    requires ValidConfig(cfg) && Allocated(cfg, {}).Some?
    requires rec == NewRecord(fields, "a", Allocated(cfg, {}).value)
    ensures rec.name == "a" && ChosenIP(cfg, {}, Automatic) == Allocated(cfg, {})
    ensures !DistinctIPs(map["a" := Good(rec)]["b" := Good(NewRecord(fields, "b", Allocated(cfg, {}).value))])
  {
    ChosenIsFresh(cfg, {}, Automatic);
    var json := map["a" := Good(rec)]["b" := Good(NewRecord(fields, "b", Allocated(cfg, {}).value))];
    assert json["a"] == Good(rec) && json["b"].rec.ip == rec.ip;
  }

  lemma LoadThenDelete(cfg: Config, s: State, p: Pid, name: string, rec: Record)
    requires ValidConfig(cfg) && Pc(s, p).Idle? && name in s.json && s.json[name] == Good(rec) && s.owner == None
    ensures Run(cfg, s, [Load(p, name), Unlink(name)]) == Goto(s, p, Rewriting(rec)).(json := s.json - {name})
  {
    hide ChosenIP, MACFromIP;
    RunTwo(cfg, s, Load(p, name), Unlink(name));
  }

  lemma SaveBack(cfg: Config, s: State, p: Pid, rec: Record)
    requires ValidConfig(cfg) && Pc(s, p) == Rewriting(rec)
    ensures Run(cfg, s, [Save(p, rec)]) ==
      Goto(s, p, Idle).(json := s.json[rec.name := Good(rec)], tmp := s.tmp - {rec.name})
  {
    hide ChosenIP, MACFromIP;
    RunOne(cfg, s, Save(p, rec));
  }
}
