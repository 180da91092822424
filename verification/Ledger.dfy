/** The rules of the VMs (cmd/fcm/forward.go, cmd/fcm/internal_cmds.go, cmd/fcm/isolation.go,
    cmd/fcm/delete.go): the iptables commands of every operation, and the rules they should lead to. The
    methods of module LedgerCommands run them on the host's chains; module Interleaving runs them one
    by one among those of other VMs. */
module Ledger {
  import opened Firewall

  /** The parts of a VM's record that decide its rules. */
  datatype VmRecord = VmRecord(ip: string, isolated: bool, forwards: map<string, string>)

  /** The gateway address that removeIsolationRules has in its text. */
  const FixedGateway := "192.168.100.1"

  predicate Belongs(r: Rule, ip: string) {
    (r.Dnat? || r.AllowGateway? || r.DropPeers?) && r.vmIP == ip
  }

  predicate IsVmRule(r: Rule) {
    r.Dnat? || r.AllowGateway? || r.DropPeers?
  }

  // ---------------------------------------------------------------- the operations as commands

  function AddRules(r: Rule): seq<Command> {
    [Command.Add(Prerouting, r), Command.Add(Output, r)]
  }

  function DeleteRules(r: Rule): seq<Command> {
    [Command.Delete(Prerouting, r), Command.Delete(Output, r)]
  }

  /** Adding or deleting the rules of all forwards, in the order the map is walked. */
  function ForwardCommands(v: VmRecord, order: seq<string>, add: bool): seq<Command>
    requires forall h :: h in order ==> h in v.forwards
  {
    if order == [] then []
    else
      var r := Dnat(order[0], v.ip, v.forwards[order[0]]);
      (if add then AddRules(r) else DeleteRules(r)) + ForwardCommands(v, order[1..], add)
  }

  function IsolationAdds(v: VmRecord, bridgeIP: string): seq<Command> {
    if v.isolated then
      [Command.Add(Forward, AllowGateway(v.ip, bridgeIP)), Command.Add(Forward, DropPeers(v.ip))]
    else []
  }

  function IsolationDeletes(v: VmRecord): seq<Command> {
    if v.isolated then
      [Command.Delete(Forward, DropPeers(v.ip)), Command.Delete(Forward, AllowGateway(v.ip, FixedGateway))]
    else []
  }

  /** One way of walking a map: every key once. */
  ghost predicate Walk(order: seq<string>, keys: set<string>) {
    && (forall h :: h in order <==> h in keys)
    && forall i, j :: 0 <= i < j < |order| ==> order[i] != order[j]
  }

  function SetupCommands(v: VmRecord, bridgeIP: string, order: seq<string>): seq<Command>
    requires forall h :: h in order ==> h in v.forwards
  {
    IsolationAdds(v, bridgeIP) + ForwardCommands(v, order, true)
  }

  function CleanupCommands(v: VmRecord, order: seq<string>): seq<Command>
    requires forall h :: h in order ==> h in v.forwards
  {
    IsolationDeletes(v) + ForwardCommands(v, order, false)
  }

  /** delete repeats the cleanup, in the other order; the API's delete leaves it to the unit. */
  function DeleteCommands(v: VmRecord, order: seq<string>, api: bool): seq<Command>
    requires forall h :: h in order ==> h in v.forwards
  {
    if api then [] else ForwardCommands(v, order, false) + IsolationDeletes(v)
  }

  // ---------------------------------------------------------------- what the rules should be

  predicate Forwarded(v: VmRecord, r: Rule) {
    r.Dnat? && r.vmIP == v.ip && r.hostPort in v.forwards && v.forwards[r.hostPort] == r.vmPort
  }

  /** How often a rule should stand in a chain: once for every forward and every isolation rule of a VM
      that is up, and not at all otherwise. */
  function Want(v: VmRecord, up: bool, bridgeIP: string, c: ChainName, r: Rule): nat {
    if !up then 0
    else match c
      case Postrouting => 0
      case Prerouting => if Forwarded(v, r) then 1 else 0
      case Output => if Forwarded(v, r) then 1 else 0
      case Forward => if v.isolated && (r == AllowGateway(v.ip, bridgeIP) || r == DropPeers(v.ip)) then 1 else 0
  }

  /** The chains hold exactly the rules a VM should have, each exactly once. */
  ghost predicate Exact(t: Tables, v: VmRecord, up: bool, bridgeIP: string) {
    forall c, r :: Belongs(r, v.ip) ==> Count(t, c, r) == Want(v, up, bridgeIP, c, r)
  }
}
