/** Creating and deleting a VM as one process does it (cmd/fcm/create.go, cmd/fcm/delete.go,
    api/server.go, internal/vm/state.go, internal/systemd/unit.go): the VM directories and unit files
    are fields that the methods change, and every step that can fail may fail. */
module Create {
  import opened Text
  import opened Records
  import opened Address
  import opened Names
  import Store

  /** The resources asked for; 0 means not given. */
  datatype Resources = Resources(cpus: int, memory: int, disk: int)

  /** A template's values and the configured defaults. */
  datatype Defaults = Defaults(template: Option<Resources>, config: Resources)

  datatype CreateResult =
    | InvalidName
    | AlreadyExists
    | InvalidResources
    | NoAddress
    | Failed(reserved: bool)  // a later step failed; reserved: after the record had been saved
    | CreatedVM(rec: Record)

  datatype DeleteResult =
    | NotFound
    | NotConfirmed               // running, and not forced
    | StopFailed
    | UnitRemains                // the API gives up here, the command only warns
    | DataRemains
    | Deleted(unitRemoved: bool)

  /** The system calls and programs that may fail. */
  datatype Effect =
    | Prepare | MakeDir | Save | CopyImage | CloudInit | WriteUnit | EnableUnit | StartUnit
    | StopUnit | RemoveUnit | RemoveData

  /** Explicit values win over the template's, and these over the configuration's. */
  predicate Effective(given: Resources, d: Defaults, res: Resources) {
    && (given.cpus != 0 ==> res.cpus == given.cpus)
    && (given.cpus == 0 && d.template.Some? && d.template.value.cpus > 0 ==> res.cpus == d.template.value.cpus)
    && (given.cpus == 0 && (d.template == None || d.template.value.cpus <= 0) ==> res.cpus == d.config.cpus)
    && (given.memory != 0 ==> res.memory == given.memory)
    && (given.memory == 0 && d.template.Some? && d.template.value.memory > 0 ==> res.memory == d.template.value.memory)
    && (given.memory == 0 && (d.template == None || d.template.value.memory <= 0) ==> res.memory == d.config.memory)
    && (given.disk != 0 ==> res.disk == given.disk)
    && (given.disk == 0 && d.template.Some? && d.template.value.disk > 0 ==> res.disk == d.template.value.disk)
    && (given.disk == 0 && (d.template == None || d.template.value.disk <= 0) ==> res.disk == d.config.disk)
  }

  method Resolve(given: Resources, d: Defaults) returns (res: Resources)
    ensures Effective(given, d, res)
    ensures forall other :: Effective(given, d, other) ==> other == res
  {
    var cpus, memory, disk := given.cpus, given.memory, given.disk;
    if cpus == 0 {
      if d.template.Some? && d.template.value.cpus > 0 {
        cpus := d.template.value.cpus;
      } else {
        cpus := d.config.cpus;
      }
    }
    if memory == 0 {
      if d.template.Some? && d.template.value.memory > 0 {
        memory := d.template.value.memory;
      } else {
        memory := d.config.memory;
      }
    }
    if disk == 0 {
      if d.template.Some? && d.template.value.disk > 0 {
        disk := d.template.value.disk;
      } else {
        disk := d.config.disk;
      }
    }
    return Resources(cpus, memory, disk);
  }

  // ---------------------------------------------------------------- outcomes

  /** Everything the node holds of its VMs. */
  datatype Files = Files(
    dirs: set<string>,
    json: map<string, Content>,
    tmp: map<string, Content>,
    units: set<string>,
    enabled: set<string>,
    active: set<string>)

  function DataCleared(x: Files, name: string): Files {
    x.(dirs := x.dirs - {name}, json := x.json - {name}, tmp := x.tmp - {name})
  }

  function UnitCleared(x: Files, name: string): Files {
    x.(units := x.units - {name}, enabled := x.enabled - {name})
  }

  /** Everything of the other VMs. */
  function Others(x: Files, name: string): Files {
    UnitCleared(DataCleared(x, name), name).(active := x.active - {name})
  }

  /** A create is a transaction. The refusals, in the source's order, change nothing. A failure means that an
      effect failed; the store is then as it was and so are the unit files, unless a stale one of that
      name was lying there when the rollback came; if the rollback itself fails, what is left bears the
      new name, and a record among it is the one that was to be created. A success adds exactly one record,
      with the resources and the isolation asked for and the address chosen against everything stored,
      and its unit is written, enabled and started. */
  ghost predicate CreateOutcome(cfg: Config, name: string, req: Request, res: Resources, isolated: bool,
                                fails: set<Effect>, x: Files, r: CreateResult, y: Files)
    requires ValidConfig(cfg)
  {
    var chosen := ChosenIP(cfg, Store.StoredAddresses(x.json), req);
    var acceptable := 1 <= res.cpus <= 32 && res.memory >= 128 && res.disk >= 1;
    var mayGoOn := Label(name) && name !in x.json && acceptable;
    match r
    case InvalidName => !Label(name) && y == x
    case AlreadyExists => Label(name) && name in x.json && y == x
    case InvalidResources => Label(name) && name !in x.json && !acceptable && y == x
    case NoAddress => mayGoOn && chosen == None && y == x
    case Failed(reserved) =>
      && mayGoOn && fails != {} && y.active == x.active && Others(y, name) == Others(x, name)
      && (reserved ==> chosen.Some?)
      && (RemoveData !in fails && RemoveUnit !in fails ==>
            if reserved then y == UnitCleared(DataCleared(x, name), name)
            else y == x || y == DataCleared(x, name))
      && (y.json != x.json ==>
            reserved && RemoveData in fails && y.json == x.json[name := Good(NewVM(name, chosen.value, res, isolated))])
    case CreatedVM(rec) =>
      && mayGoOn && chosen.Some?
      && rec == NewVM(name, chosen.value, res, isolated)
      && y == Files(x.dirs + {name}, x.json[name := Good(rec)], x.tmp - {name},
                    x.units + {name}, x.enabled + {name}, x.active + {name})
  }

  function NewVM(name: string, ip: string, res: Resources, isolated: bool): Record {
    Record(name, ip, MACFromIP(ip), res.cpus, res.memory, res.disk, map[], isolated)
  }

  /** For a name without leftovers a failure changes nothing at all when the rollback succeeds. */
  lemma FailureUndone(cfg: Config, name: string, req: Request, res: Resources, isolated: bool,
                      fails: set<Effect>, x: Files, r: CreateResult, y: Files)
    requires ValidConfig(cfg) && CreateOutcome(cfg, name, req, res, isolated, fails, x, r, y) && !r.CreatedVM?
    requires RemoveData !in fails && RemoveUnit !in fails
    requires x.tmp.Keys <= x.dirs && x.enabled <= x.units && name !in x.dirs && name !in x.units
    ensures y == x
  {
    hide ChosenIP, Label, Store.StoredAddresses;
    if r.Failed? {
      assert x.json - {name} == x.json && x.tmp - {name} == x.tmp && x.dirs - {name} == x.dirs;
      assert x.units - {name} == x.units && x.enabled - {name} == x.enabled;
    }
  }

  /** However a create ends, addresses that were different are still different. */
  lemma OutcomeDistinct(cfg: Config, name: string, req: Request, res: Resources, isolated: bool,
                        fails: set<Effect>, x: Files, r: CreateResult, y: Files)
    requires ValidConfig(cfg) && CreateOutcome(cfg, name, req, res, isolated, fails, x, r, y)
    requires Store.DistinctIPs(x.json)
    ensures Store.DistinctIPs(y.json)
  {
    var used := Store.StoredAddresses(x.json);
    var chosen := ChosenIP(cfg, used, req);
    if chosen.Some? {
      ChosenIsFresh(cfg, used, req);
      AddedDistinct(x.json, NewVM(name, chosen.value, res, isolated));
    }
    hide ChosenIP, Label, Store.StoredAddresses, Store.DistinctIPs, MACFromIP;
  }

  lemma AddedDistinct(json: map<string, Content>, rec: Record)
    requires rec.ip !in Store.StoredAddresses(json) && rec.ip != ""
    ensures Store.DistinctIPs(json) ==> Store.DistinctIPs(json[rec.name := Good(rec)])
  {
    assert forall n :: n in json && json[n].Good? && json[n].rec.ip != "" ==>
      json[n].rec.ip in Store.StoredAddresses(json);
  }

  class Node {
    var dirs: set<string>            // VM directories
    var json: map<string, Content>   // vm.json in them
    var tmp: map<string, Content>    // vm.json.tmp in them
    var units: set<string>           // unit files, by VM
    var enabled: set<string>
    var active: set<string>
    const fails: set<Effect>         // what may fail; everything else succeeds

    method Try(e: Effect) returns (ok: bool)
      ensures e !in fails ==> ok
    {
      ok := *;
      ok := ok || e !in fails;
    }

    /** Files lie in directories, and only units that exist are enabled. */
    predicate Valid()
      reads this
    {
      json.Keys <= dirs && tmp.Keys <= dirs && enabled <= units
    }

    function All(): Files
      reads this
    {
      Files(dirs, json, tmp, units, enabled, active)
    }

    // -------------------------------------------------------------- the store

    /** SaveVM is atomic: it replaces the record or leaves vm.json as it was, whatever fails. */
    method SaveVM(v: Record) returns (ok: bool)
      requires Valid()
      modifies `dirs, `json, `tmp
      ensures Valid() && (Save !in fails ==> ok)
      ensures json == if ok then old(json)[v.name := Good(v)] else old(json)
      ensures dirs == old(dirs) || dirs == old(dirs) + {v.name}
      ensures v.name in dirs && ok ==> tmp == old(tmp) - {v.name}
      ensures tmp - {v.name} == old(tmp) - {v.name}
    {
      ok := Try(Save);
      if !ok {
        return;
      }
      dirs := dirs + {v.name};
      tmp := tmp[v.name := Broken];
      ok := Try(Save);
      if !ok {
        return;
      }
      tmp := tmp[v.name := Good(v)];
      ok := Try(Save);
      if !ok {
        tmp := tmp - {v.name};
        return;
      }
      json, tmp := json[v.name := tmp[v.name]], tmp - {v.name};
    }

    method LoadVM(name: string) returns (r: Option<Record>)
      ensures r == if Store.Readable(json, name) then Some(json[name].rec) else None
    {
      if name !in json {
        return None;
      }
      match json[name]
      case Broken => return None;
      case Good(rec) => return Some(rec);
    }

    /** ListVMs: the directories that have a vm.json, each once. */
    method ListVMs() returns (names: seq<string>)
      requires Valid()
      ensures forall n :: n in names <==> n in json
      ensures forall i, j :: 0 <= i < j < |names| ==> names[i] != names[j]
    {
      names := [];
      var left := dirs;
      while left != {}
        invariant left <= dirs
        invariant forall n :: n in names <==> n in json && n !in left
        invariant forall i, j :: 0 <= i < j < |names| ==> names[i] != names[j]
        decreases left
      {
        var n :| n in left;
        left := left - {n};
        if n in json {
          names := names + [n];
        }
      }
    }

    /** LoadAllVMs: the readable records, broken state files being skipped. */
    method LoadAllVMs() returns (vms: seq<Record>)
      requires Valid()
      ensures forall v :: v in vms <==> exists n :: Store.Readable(json, n) && json[n].rec == v
      ensures AddressesOf(vms) == Store.StoredAddresses(json)
    {
      var names := ListVMs();
      vms := [];
      for i := 0 to |names|
        invariant forall v :: v in vms <==>
          exists j :: 0 <= j < i && Store.Readable(json, names[j]) && json[names[j]].rec == v
      {
        var r := LoadVM(names[i]);
        if r.Some? {
          vms := vms + [r.value];
        }
      }
      forall v ensures v in vms <==> exists n :: Store.Readable(json, n) && json[n].rec == v {
        if n :| Store.Readable(json, n) && json[n].rec == v {
          assert n in names;
        }
      }
      SameAddresses(json, vms);
    }

    static lemma SameAddresses(json: map<string, Content>, vms: seq<Record>)
      requires forall v :: v in vms <==> exists n :: Store.Readable(json, n) && json[n].rec == v
      ensures AddressesOf(vms) == Store.StoredAddresses(json)
    {
      forall ip | ip in Store.StoredAddresses(json) ensures ip in AddressesOf(vms) {
        var n :| n in json && json[n].Good? && json[n].rec.ip != "" && json[n].rec.ip == ip;
        assert Store.Readable(json, n) && json[n].rec in vms;
      }
    }

    /** os.RemoveAll of a VM directory; when it fails, any part of the directory may already be gone. */
    method RemoveAll(name: string) returns (ok: bool)
      requires Valid()
      modifies `dirs, `json, `tmp
      ensures Valid() && (RemoveData !in fails ==> ok)
      ensures ok ==> dirs == old(dirs) - {name} && json == old(json) - {name} && tmp == old(tmp) - {name}
      ensures !ok ==> dirs == old(dirs)
      ensures json == old(json) || json == old(json) - {name}
      ensures tmp == old(tmp) || tmp == old(tmp) - {name}
    {
      ok := Try(RemoveData);
      if !ok {
        if * {
          json := json - {name};
        }
        if * {
          tmp := tmp - {name};
        }
        return;
      }
      json, tmp := json - {name}, tmp - {name};
      dirs := dirs - {name};
    }

    // -------------------------------------------------------------- units

    /** Disables the unit and removes its file; the file may stay, or the daemon reload fail. */
    method RemoveVMUnit(name: string) returns (ok: bool)
      requires Valid()
      modifies `units, `enabled
      ensures Valid() && (RemoveUnit !in fails ==> ok)
      ensures name !in old(units) ==> ok
      ensures ok ==> units == old(units) - {name}
      ensures units == old(units) || units == old(units) - {name}
      ensures enabled == old(enabled) - {name}
    {
      if name !in units {
        return true;
      }
      enabled := enabled - {name};
      ok := Try(RemoveUnit);
      if ok {
        units := units - {name};
        ok := Try(RemoveUnit);
      }
    }

    /** The unit file may have been written although the daemon reload failed. */
    method WriteVMUnit(name: string) returns (ok: bool)
      requires Valid()
      modifies `units
      ensures Valid() && (WriteUnit !in fails ==> ok)
      ensures units == old(units) || units == old(units) + {name}
      ensures ok ==> name in units
    {
      ok := Try(WriteUnit);
      if ok {
        units := units + {name};
        ok := Try(WriteUnit);
      }
    }

    method Enable(name: string) returns (ok: bool)
      requires Valid() && name in units
      modifies `enabled
      ensures Valid() && (EnableUnit !in fails ==> ok)
      ensures enabled == if ok then old(enabled) + {name} else old(enabled)
    {
      ok := Try(EnableUnit);
      if ok {
        enabled := enabled + {name};
      }
    }

    method Start(name: string) returns (ok: bool)
      modifies `active
      ensures StartUnit !in fails ==> ok
      ensures active == if ok then old(active) + {name} else old(active)
    {
      ok := Try(StartUnit);
      if ok {
        active := active + {name};
      }
    }

    // -------------------------------------------------------------- create

    /** The address for a new VM, against everything stored: allocated, or given and checked. */
    method ChooseAddress(cfg: Config, req: Request) returns (r: Option<string>)
      requires Valid() && ValidConfig(cfg)
      ensures r == ChosenIP(cfg, Store.StoredAddresses(json), req)
    {
      var vms := LoadAllVMs();
      var used := UsedIPs(vms);
      hide Accepts, Allocated, AddressesOf, Store.StoredAddresses;
      match req {
        case Static(text) =>
          var verdict := ValidateIP(text, cfg, used);
          r := if verdict == Accepted then Some(text) else None;
        case Automatic =>
          r := AllocateIP(cfg, used);
      }
    }

    /** The part of a create under the lock: the address is chosen against everything stored, and the
        record saved to reserve it; if saving fails the directory goes again. */
    method Reserve(cfg: Config, req: Request, fields: Record) returns (r: CreateResult)
      requires Valid() && ValidConfig(cfg) && fields.name !in json
      modifies `dirs, `json, `tmp
      ensures Valid()
      ensures var x, name, chosen := old(All()), fields.name, ChosenIP(cfg, Store.StoredAddresses(old(json)), req);
        match r
        case NoAddress => chosen == None && All() == x
        case Failed(reserved) =>
          && !reserved && fails != {} && json == x.json && Others(All(), name) == Others(x, name)
          && (RemoveData !in fails ==> All() == x || All() == DataCleared(x, name))
        case CreatedVM(rec) =>
          && chosen.Some? && rec == fields.(ip := chosen.value, mac := MACFromIP(chosen.value))
          && All() == x.(dirs := x.dirs + {name}, json := x.json[name := Good(rec)], tmp := x.tmp - {name})
        case _ => false
    {
      hide ChosenIP, Store.StoredAddresses, MACFromIP;
      var chosen := ChooseAddress(cfg, req);
      if chosen == None {
        return NoAddress;
      }
      var ip := chosen.value;
      var v := fields.(ip := ip, mac := MACFromIP(ip));
      var ok := Try(MakeDir);
      if !ok {
        return Failed(false);
      }
      dirs := dirs + {v.name};
      ok := SaveVM(v);
      if !ok {
        var removed := RemoveAll(v.name);
        assert old(json) - {v.name} == old(json);
        return Failed(false);
      }
      return CreatedVM(v);
    }

    /** Removes the directory and the unit, ignoring failures of either. */
    method Rollback(name: string)
      requires Valid()
      modifies `dirs, `json, `tmp, `units, `enabled
      ensures Valid()
      ensures RemoveData !in fails && RemoveUnit !in fails ==>
        All() == UnitCleared(DataCleared(old(All()), name), name)
      ensures json == old(json) - {name} || (RemoveData in fails && json == old(json))
      ensures Others(All(), name) == Others(old(All()), name)
    {
      var removed := RemoveAll(name);
      var disabled := RemoveVMUnit(name);
    }

    /** From the saved record to the started unit. */
    method TryFinish(v: Record) returns (ok: bool)
      requires Valid() && v.name in json && v.name in dirs
      modifies `units, `enabled, `active
      ensures Valid() && (fails == {} ==> ok)
      ensures units == old(units) || units == old(units) + {v.name}
      ensures enabled == old(enabled) || enabled == old(enabled) + {v.name}
      ensures ok ==> units == old(units) + {v.name} && enabled == old(enabled) + {v.name}
      ensures active == if ok then old(active) + {v.name} else old(active)
    {
      // the image is copied and grown: CopyForVM
      ok := Try(CopyImage);
      if !ok {
        return;
      }
      // cloud-init is fetched or merged, and written to its disk
      ok := Try(CloudInit);
      if !ok {
        return;
      }
      ok := WriteVMUnit(v.name);
      if !ok {
        return;
      }
      ok := Enable(v.name);
      if !ok {
        return;
      }
      ok := Start(v.name);
    }

    /** The same, with a rollback after any failure. */
    method Finish(v: Record) returns (r: CreateResult)
      requires Valid() && v.name in json && v.name in dirs
      modifies this
      ensures Valid()
      ensures r == CreatedVM(v) || (r == Failed(true) && fails != {})
      ensures r == Failed(true) ==> (
        active == old(active) && Others(All(), v.name) == Others(old(All()), v.name)
        && (json == old(json) - {v.name} || (RemoveData in fails && json == old(json)))
        && (RemoveData !in fails && RemoveUnit !in fails ==>
              All() == UnitCleared(DataCleared(old(All()), v.name), v.name)))
      ensures r == CreatedVM(v) ==>
        All() == old(All()).(units := old(units) + {v.name}, enabled := old(enabled) + {v.name},
                             active := old(active) + {v.name})
    {
      var ok := TryFinish(v);
      if !ok {
        Rollback(v.name);
        return Failed(true);
      }
      return CreatedVM(v);
    }

    /** Reserving and finishing, as the command and the API both do it. */
    method ReserveAndFinish(cfg: Config, name: string, req: Request, res: Resources, isolated: bool)
      returns (r: CreateResult)
      requires Valid() && ValidConfig(cfg) && Label(name) && name !in json
      requires 1 <= res.cpus <= 32 && res.memory >= 128 && res.disk >= 1
      modifies this
      ensures Valid()
      ensures CreateOutcome(cfg, name, req, res, isolated, fails, old(All()), r, All())
    {
      hide ChosenIP, Store.StoredAddresses, MACFromIP, Label;
      r := Reserve(cfg, req, Record(name, "", "", res.cpus, res.memory, res.disk, map[], isolated));
      if r.CreatedVM? {
        ghost var rec := r.rec;
        r := Finish(r.rec);
        assert old(json)[name := Good(rec)] - {name} == old(json);
      }
    }

    /** create, with the resources resolved; on success the record holds what was asked for. */
    method RunCreate(cfg: Config, name: string, req: Request, given: Resources, defaults: Defaults, isolated: bool)
      returns (r: CreateResult)
      requires Valid() && ValidConfig(cfg)
      modifies this
      ensures Valid()
      ensures forall res :: Effective(given, defaults, res) ==>
        CreateOutcome(cfg, name, req, res, isolated, fails, old(All()), r, All())
      ensures r.CreatedVM? ==> RecordAsAsked(cfg, name, req, given, defaults, isolated, old(json), r.rec)
    {
      hide ChosenIP, Store.StoredAddresses, MACFromIP, Label;
      var valid := ValidateName(name);
      if valid != NameError.Valid {
        return InvalidName;
      }
      if name in json {
        return AlreadyExists;
      }
      var res := Resolve(given, defaults);
      hide Effective;
      if res.cpus < 1 || res.cpus > 32 {
        return InvalidResources;
      }
      if res.memory < 128 {
        return InvalidResources;
      }
      if res.disk < 1 {
        return InvalidResources;
      }
      // reading the key, pulling the image
      var ok := Try(Prepare);
      if !ok {
        return Failed(false);
      }
      ghost var x := All();
      r := ReserveAndFinish(cfg, name, req, res, isolated);
      CreatedAsAsked(cfg, name, req, given, defaults, res, isolated, fails, x, r, All());
    }

    /** The API's create: an empty name is refused first, the address is always allocated, and the VM
        is not isolated. */
    method HandleCreateVM(cfg: Config, name: string, given: Resources, defaults: Defaults) returns (r: CreateResult)
      requires Valid() && ValidConfig(cfg)
      modifies this
      ensures Valid()
      ensures forall res :: Effective(given, defaults, res) ==>
        CreateOutcome(cfg, name, Automatic, res, false, fails, old(All()), r, All())
      ensures r.CreatedVM? ==> RecordAsAsked(cfg, name, Automatic, given, defaults, false, old(json), r.rec)
    {
      hide ChosenIP, Store.StoredAddresses, MACFromIP;
      if name == "" {
        return InvalidName;
      }
      var valid := ValidateName(name);
      hide Label;
      if valid != NameError.Valid {
        return InvalidName;
      }
      if name in json {
        return AlreadyExists;
      }
      var res := Resolve(given, defaults);
      hide Effective;
      if !(1 <= res.cpus <= 32) || res.memory < 128 || res.disk < 1 {
        return InvalidResources;
      }
      // pulling the image
      var ok := Try(Prepare);
      if !ok {
        return Failed(false);
      }
      ghost var x := All();
      r := ReserveAndFinish(cfg, name, Automatic, res, false);
      CreatedAsAsked(cfg, name, Automatic, given, defaults, res, false, fails, x, r, All());
    }

    // -------------------------------------------------------------- delete

    /** Stopping a running VM before it is deleted, if that is confirmed or forced. */
    method StopForDelete(name: string, confirmed: bool) returns (r: Option<DeleteResult>)
      modifies `active
      ensures r == None ==> active == old(active) - {name}
      ensures r.Some? ==> active == old(active) && name in active
      ensures r.Some? ==> r.value == if confirmed then StopFailed else NotConfirmed
      ensures r == Some(StopFailed) ==> StopUnit in fails
      ensures !confirmed && name in old(active) ==> r.Some?
    {
      if name in active {
        if !confirmed {
          return Some(NotConfirmed);
        }
        var ok := Try(StopUnit);
        if !ok {
          return Some(StopFailed);
        }
        active := active - {name};
      }
      return None;
    }

    /** The command's delete: a unit that cannot be removed only draws a warning. */
    method RunDelete(name: string, confirmed: bool) returns (r: DeleteResult)
      requires Valid()
      modifies this
      ensures Valid()
      ensures DeleteOutcome(name, confirmed, fails, old(All()), r, All()) && r != UnitRemains
    {
      if name !in json {
        return NotFound;
      }
      var refused := StopForDelete(name, confirmed);
      if refused.Some? {
        return refused.value;
      }
      var unitRemoved := RemoveVMUnit(name);
      var ok := RemoveAll(name);
      r := if ok then Deleted(unitRemoved) else DataRemains;
    }

    /** The API's delete: it ends with an error where the command warns. */
    method HandleDeleteVM(name: string, force: bool) returns (r: DeleteResult)
      requires Valid()
      modifies this
      ensures Valid()
      ensures DeleteOutcome(name, force, fails, old(All()), r, All()) && r != Deleted(false)
    {
      if name !in json {
        return NotFound;
      }
      var refused := StopForDelete(name, force);
      if refused.Some? {
        return refused.value;
      }
      var unitRemoved := RemoveVMUnit(name);
      if !unitRemoved {
        return UnitRemains;
      }
      var ok := RemoveAll(name);
      r := if ok then Deleted(true) else DataRemains;
    }
  }

  /** What a created record holds: the name, the resources and the isolation asked for, no forwards; the
      address given by hand, which the checker accepts, or else the first free candidate; its MAC. */
  ghost predicate RecordAsAsked(cfg: Config, name: string, req: Request, given: Resources, defaults: Defaults,
                                isolated: bool, json: map<string, Content>, rec: Record)
    requires ValidConfig(cfg)
  {
    && rec.name == name && rec.isolated == isolated && rec.forwards == map[]
    && Effective(given, defaults, Resources(rec.cpus, rec.memoryMB, rec.diskGB))
    && rec.mac == MACFromIP(rec.ip)
    && match req
       case Static(ip) => rec.ip == ip && Accepts(cfg, Store.StoredAddresses(json), ip)
       case Automatic => FirstCandidate(cfg, Store.StoredAddresses(json), rec.ip)
  }

  lemma CreatedAsAsked(cfg: Config, name: string, req: Request, given: Resources, defaults: Defaults,
                       res: Resources, isolated: bool, fails: set<Effect>, x: Files, r: CreateResult, y: Files)
    requires ValidConfig(cfg) && Effective(given, defaults, res)
    requires CreateOutcome(cfg, name, req, res, isolated, fails, x, r, y)
    ensures r.CreatedVM? ==> RecordAsAsked(cfg, name, req, given, defaults, isolated, x.json, r.rec)
  {
    if r.CreatedVM? && req.Automatic? {
      AllocatedIsFirst(cfg, Store.StoredAddresses(x.json));
    }
    hide Label, MACFromIP, Effective, Allocated, Accepts, FirstCandidate, Store.StoredAddresses;
  }

  /** However a delete ends, the other VMs are untouched. A refusal or a failed stop changes nothing; from
      then on the VM is down; a unit that cannot be removed leaves the data to the API's caller; and a
      delete that reports success has removed the directory, and the unit unless it warned. Each
      complaint means that what it names has failed. */
  predicate DeleteOutcome(name: string, confirmed: bool, fails: set<Effect>, x: Files, r: DeleteResult, y: Files) {
    && Others(y, name) == Others(x, name)
    && (r == NotFound <==> name !in x.json)
    && (r == NotConfirmed <==> name in x.json && name in x.active && !confirmed)
    && match r
       case NotFound => y == x
       case NotConfirmed => y == x
       case StopFailed => StopUnit in fails && name in x.active && y == x
       case UnitRemains =>
         && RemoveUnit in fails && name in x.units && y.active == x.active - {name} && y.enabled == x.enabled - {name}
         && y.dirs == x.dirs && y.json == x.json && y.tmp == x.tmp
       case DataRemains =>
         && RemoveData in fails && y.active == x.active - {name}
         && y.dirs == x.dirs && (y.json == x.json || y.json == x.json - {name})
       case Deleted(unitRemoved) =>
         && name !in y.dirs && name !in y.json && name !in y.tmp && name !in y.active && name !in y.enabled
         && (if unitRemoved then name !in y.units else name in x.units && RemoveUnit in fails)
  }

  /** Deleting undoes creating. */
  lemma DeleteUndoesCreate(name: string, confirmed: bool, fails: set<Effect>, x: Files, rec: Record, y: Files, z: Files)
    requires x.json.Keys <= x.dirs && x.tmp.Keys <= x.dirs && x.enabled <= x.units
    requires name !in x.dirs && name !in x.units && name !in x.active
    requires Others(y, name) == Others(x, name) && DeleteOutcome(name, confirmed, fails, y, Deleted(true), z)
    ensures z == x
  {
    assert Others(x, name) == x by {
      assert x.json - {name} == x.json && x.tmp - {name} == x.tmp && x.dirs - {name} == x.dirs;
      assert x.units - {name} == x.units && x.enabled - {name} == x.enabled && x.active - {name} == x.active;
    }
    assert Others(z, name) == z by {
      assert z.json - {name} == z.json && z.tmp - {name} == z.tmp && z.dirs - {name} == z.dirs;
      assert z.units - {name} == z.units && z.enabled - {name} == z.enabled && z.active - {name} == z.active;
    }
  }

  /** Creating a VM and deleting it again restores the store, the directories and the units, for a name
      without leftovers, whatever happened inside the create, when nothing fails while removing. If
      nothing fails at all, it does so whether or not the create was refused. */
  method CreateThenDelete(node: Node, cfg: Config, name: string, req: Request, given: Resources, defaults: Defaults)
    returns (created: CreateResult, deleted: DeleteResult)
    requires node.Valid() && ValidConfig(cfg)
    requires name !in node.dirs && name !in node.units && name !in node.active
    modifies node
    ensures RemoveData !in node.fails && RemoveUnit !in node.fails ==>
      (created.CreatedVM? ==> deleted == Deleted(true) || StopUnit in node.fails)
      && (!created.CreatedVM? || deleted == Deleted(true) ==> node.All() == old(node.All()))
  {
    hide ChosenIP, Store.StoredAddresses, MACFromIP, Label, RecordAsAsked;
    ghost var x := node.All();
    ghost var res := Resources(0, 0, 0);
    res := Resolve(given, defaults);
    hide Effective;
    created := node.RunCreate(cfg, name, req, given, defaults, false);
    deleted := NotFound;
    if created.CreatedVM? {
      ghost var y := node.All();
      deleted := node.RunDelete(name, true);
      if deleted == Deleted(true) {
        AddedLeavesOthers(x, name, created.rec, y);
        DeleteUndoesCreate(name, true, node.fails, x, created.rec, y, node.All());
      }
    } else if RemoveData !in node.fails && RemoveUnit !in node.fails {
      FailureUndone(cfg, name, req, res, false, node.fails, x, created, node.All());
    }
  }

  lemma AddedLeavesOthers(x: Files, name: string, rec: Record, y: Files)
    requires y == Files(x.dirs + {name}, x.json[name := Good(rec)], x.tmp - {name},
                        x.units + {name}, x.enabled + {name}, x.active + {name})
    ensures Others(y, name) == Others(x, name)
  {
    assert x.json[name := Good(rec)] - {name} == x.json - {name} && x.tmp - {name} - {name} == x.tmp - {name};
  }
}
