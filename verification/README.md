# fcm: a verified model

`fcm` manages Firecracker microVMs on one host. Each VM is a directory with a `vm.json` record, a root
file system, perhaps a snapshot, a systemd unit, and rules in the host's iptables chains. Many processes
work on these at once: the command line, the API server, and the commands systemd runs around a VM.

This project models the parts of `fcm` in which things can go wrong silently, and proves what the program
relies on there.

| file | what it models |
|---|---|
| `Store.dfy` | the directory of records under concurrent creators, deleters, rollbacks and rewrites, one system call at a time, with crashes anywhere |
| `Create.dfy` | create and delete as one process runs them, from the command line and from the API, with every failure point, the rollback, and failures of the rollback itself |
| `Address.dfy` | dotted quads, subnets, the address allocator and checker, MAC addresses, lookup by MAC |
| `Firewall.dfy`, `Ledger.dfy`, `Exactness.dfy` | the iptables chains as sequences; the VMs' rules as lists of commands; what one operation does to them |
| `LedgerCommands.dfy`, `Interleaving.dfy` | the operations run on the chains; any interleaving of many VMs' operations |
| `Bridge.dfy` | the bridge and its NAT and forwarding rules in the same chains, with setups that fail anywhere |
| `Lifecycle.dfy`, `LifecycleCommands.dfy` | one VM through freeze, unfreeze, resize, start, stop, deaths and restarts, with commands cut off anywhere |
| `CloudInit.dfy` | the parser and printer inside `MergeCloudInit`, and what merging means |
| `Documents.dfy` | the language that parser reads, as a grammar of documents |
| `UserData.dfy` | the user-data that templates are merged into |
| `Fstab.dfy`, `Bandwidth.dfy`, `Names.dfy`, `Search.dfy`, `Text.dfy`, `Records.dfy` | text algorithms and shared definitions |

Protocols are step functions over values: a run is a list of actions, and a theorem about every run is a
theorem about every list. Code that changes things in place is a class whose methods follow the source
statement by statement and are proved against functions or command lists, about which the theorems are
stated. `*` in a method stands for a system call that may succeed or fail, or for a process that is killed. A
constant of the class that no method can change says what may fail, so that every operation is also shown to
achieve what it is for when nothing fails.

Where the code and what is promised about it part ways, the code is modelled as it is, and a lemma gives the
exact condition or a run that fails:

- A rewrite by `forward` or `resize` that spans a deletion and a new create puts two VMs on one address
  (`Store.StaleRewriteDuplicates`). The exact guard is that no other readable record has the address and that
  a create under way has seen the record, is certain to see it, or has chosen another address
  (`Store.StepKeepsExactly`). That no other record has the address is not enough without the lock, since a
  listing need not return an entry that was removed and added again (`Store.UnlockedCheckIsNotEnough`). Saving
  over the record that was loaded meets it (`Store.UnmovedIsGuarded`), and a rewrite that takes the lock need only
  check that no other record has the address (`Store.SaveUnderLockExactly`).
- `forward` on a VM that is down, or on a host port already forwarded, breaks the correspondence between
  records and rules, and in no other case (`Exactness.AddForwardExactly`). A forward whose rules were added but
  not saved breaks it always, a removal that was not saved exactly when the VM is up and a rule was deleted
  (`Exactness.FailedAddExactly`, `Exactness.UnsavedRemoveExactly`).
- The failures of iptables that start, stop and `forward --remove` pass over are never harmless: the rules of
  a VM that is started, or that is up, are exact afterwards if and only if no command failed (`Exactness.StartExactly`, `Exactness.StopExactly`,
  `Exactness.RemoveForwardExactly`).
- Stopping an isolated VM leaves a rule behind exactly when the bridge does not have the address that
  `removeIsolationRules` has in its text (`Exactness.StartStopExactly`).
- `resize` asks systemd whether the VM runs some time after it was started. It breaks "runs with what is stored"
  when it changes the configuration and finds the VM inactive with a restart pending
  (`Lifecycle.CommandSafeExactly`, an exact condition at the moment of asking). A VM that runs when the command
  starts may be in that state by then. So at the start the exact condition is stronger: a configuration change
  is safe if and only if the VM is neither running nor about to be restarted (`Lifecycle.EntrySafeExactly`).
- The allocator's addresses all pass the checker exactly under `Address.AllocatesUsable`
  (`Address.AllocatorMeetsChecker`); prefixes up to 24 bits with a start of at least 2 meet it, longer ones mostly do not
  (`Address.UsualConfigurations`).
- `ensureNAT` trusts one rule: a setup is complete exactly when that rule was absent or the others were
  there (`Bridge.SetupCompleteExactly`). So a setup that failed after that rule is never made good by setting up
  again (`Bridge.SetupIsNoRepair`); a cleanup before it helps exactly when it manages to delete that rule
  (`Bridge.RepairExactly`).
- Merging a template glues its first key to the base's last line. The lists are concatenated if and only if nothing
  is printed, or that last line is empty or blank, or the line so made is an indented one that the parser passes over
  while it is already in that key's section (`CloudInit.MergeHomomorphismExactly`). A base whose last line
  starts in column zero and has no newline loses the first list (`CloudInit.MergeNeedsCompleteLines`).

## Model

| member | source | states |
|---|---|---|
| Store.AddressesStayDistinct | cmd/fcm/create.go:168-223 | in every run of any number of processes, crashes included, whose rewrites are guarded, readable records have pairwise different addresses, at most one process is in the lock, and no crash leaves it taken |
| Store.StepKeeps | internal/vm/state.go:94-169 | every guarded step keeps the invariant: the listing misses no name that has been there since it began, because only the lock holder adds names; what the holder has scanned and is still stored is in its used set, its chosen address is not in the store, its temporary file is its own |
| Store.StepKeepsExactly | cmd/fcm/forward.go:41-96 | a step keeps the invariant if and only if it is not a rewrite saved against the guard |
| Store.SaveUnderLockExactly | cmd/fcm/forward.go:41-96 | with the lock free, saving a rewrite keeps distinctness, and the whole invariant, if and only if no other readable record has the address |
| Store.UnlockedCheckIsNotEnough | cmd/fcm/forward.go:41-96 | a run in which nobody has the address when a rewrite saves a deleted VM again, and a create under way still chooses it |
| Store.MACsFollowAddresses | internal/network/ip.go:44-53 | in every run every record has the MAC of its address and stands under its own name; from 16 prefix bits on, different VMs have different MACs |
| Store.LookupIsDeterministic | internal/network/dhcp.go:122-134 | after every guarded run, from 16 prefix bits on, the DHCP server finds the same record for a MAC in whatever order it reads the directory |
| Store.UndisturbedCreate | cmd/fcm/create.go:168-223 | a creator that nobody disturbs can finish: it adds exactly one record, with the address chosen against exactly the stored ones, or changes no file |
| Store.StaleRewriteDuplicates | cmd/fcm/forward.go:41-96 | a run in which an unguarded rewrite ends with two VMs on one address, for every configuration that can allocate at all |
| Create.Node.SaveVM | internal/vm/state.go:70-91 | saving is atomic whatever fails: the record is replaced or vm.json is as before |
| Create.Node.ListVMs | internal/vm/state.go:94-115 | exactly the directories with a vm.json, each once |
| Create.Node.LoadAllVMs | internal/vm/state.go:118-133 | exactly the readable records; their addresses are the stored ones |
| Create.Node.Reserve | cmd/fcm/create.go:167-226 | the locked part: no address, or a failed save that leaves every record as it was, or one new record with the chosen address |
| Create.Node.Finish | cmd/fcm/create.go:228-320 | after the reservation every failure rolls back directory, record and unit, as far as the removals succeed; otherwise the unit is written, enabled and started |
| Create.Resolve | cmd/fcm/create.go:105-131 | a value given by hand wins over a positive one of the template, and that over the configuration's, for each of the three resources |
| Create.Node.RunCreate | cmd/fcm/create.go:64-320 | which refusal, in the source's order, and that it changes nothing; it fails only if an effect failed, and then leaves store and units as they were if the rollback succeeds, and otherwise only things under the new name; success adds exactly one record that holds the name, resources and isolation asked for, no forwards, and the address given or the first free one |
| Create.OutcomeDistinct | cmd/fcm/create.go:167-235 | however a create ends, a failed rollback included, addresses that were different stay different |
| Create.FailureUndone | cmd/fcm/create.go:228-235 | for a name without leftovers a failure with a clean rollback changes nothing at all |
| Create.Node.HandleCreateVM | api/server.go:168-414 | the same outcomes for the API, which refuses the empty name first, always allocates and never isolates |
| Create.Node.RunDelete | cmd/fcm/delete.go:18-71 | which result, each complaint only if what it names has failed; refusals and a failed stop change nothing; a unit that cannot be removed is passed over and data that cannot be removed is an error; nothing of other VMs is touched |
| Create.Node.HandleDeleteVM | api/server.go:435-473 | the same, but a unit that cannot be removed ends it and leaves the data |
| Create.DeleteUndoesCreate | cmd/fcm/delete.go:18-71 | a complete delete restores what a create found, for a name without leftovers |
| Create.CreateThenDelete | cmd/fcm/delete.go:18-71 | the two commands in turn, whatever happened inside the create, when nothing fails while removing |
| Address.ParseQuadExact | internal/network/ip.go:70-74 | a text denotes a quad if and only if it is how the quad is printed |
| Address.SubnetIsInterval | internal/network/ip.go:75-105 | containment by masked octets is membership in the interval from network to broadcast address, of 2^(32-prefix) addresses |
| Address.NetworkAligned | internal/network/ip.go:90-91 | the network address is a multiple of the subnet's size |
| Address.ValidateIP | internal/network/ip.go:69-117 | every verdict exactly: accepted are the unused usable addresses other than the gateway's, in dotted form; which of the others are outside, the gateway's, the network's, the broadcast address or in use |
| Address.AllocateIP | internal/network/ip.go:14-40 | fails exactly when every candidate is used, otherwise returns the smallest free one, the subnet's first three octets with that last octet |
| Address.FewUsedSuffice | internal/network/ip.go:30-39 | fewer than 255 - start used addresses guarantee success |
| Address.AllocatorMeetsChecker | internal/network/ip.go:14-117 | with the gateway derived by init, everything the allocator can return passes the checker if and only if the configuration meets a stated condition |
| Address.GatewayUsable | cmd/fcm/init.go:119-129 | the bridge address that init derives is usable in its subnet exactly for prefixes up to 30 bits |
| Address.UsualConfigurations | cmd/fcm/init.go:99-129 | prefixes up to 24 bits with a start above the gateway meet that condition; longer ones only if the subnet ends at 255 |
| Address.UsedIPs | internal/network/ip.go:119-132 | the addresses of all records that have one |
| Address.MACOfQuad | internal/network/ip.go:42-53 | the MAC is the fixed prefix and the last two octets, each as its two upper-case hexadecimal digits |
| Address.MACDistinguishes | internal/network/ip.go:42-53 | two addresses have the same MAC exactly when their last two octets agree |
| Address.FindVMByMAC | internal/network/dhcp.go:122-134 | the first record with the MAC, none exactly when there is none |
| Address.LookupIgnoresOrder | internal/network/dhcp.go:122-134 | the answer does not depend on the directory order exactly when no two records share the MAC |
| LedgerCommands.AddForward | cmd/fcm/forward.go:74-98 | the mapping is split at its first colon; two rules are appended, the map is changed and then saved; a failure leaves what was done before it; if nothing fails, rules that were exact for the VM up are exact with the new forward; all other rules stay in place and order |
| LedgerCommands.RemoveForward | cmd/fcm/forward.go:100-116 | the rules of the forward are deleted, the port leaves the map, and the map is saved; if nothing fails, exact rules are exact without the forward; an unknown port changes nothing; all other rules stay in place and order |
| LedgerCommands.WalkForwards | cmd/fcm/forward.go:147-151 | the commands of every forward, in some order of the map, those that do not fail; all of them if nothing fails |
| LedgerCommands.SetupVM | cmd/fcm/internal_cmds.go:86-98 | if nothing fails, a VM without rules has exactly those it should have, the exception for the gateway in front of the rule that drops; a failing isolation rule ends it before any forward, a failing forward only warns; all other rules stay in place and order |
| LedgerCommands.CleanupVM | cmd/fcm/internal_cmds.go:121-127 | if nothing fails, none of the VM's rules is left, whether it was up or down; otherwise the record's cleanup commands that do not fail; all other rules stay in place and order |
| LedgerCommands.DeleteVMRules | cmd/fcm/delete.go:45-53 | the same for the command line's delete |
| LedgerCommands.ApplyIsolationRules | cmd/fcm/isolation.go:10-26 | appends the two isolation rules in order, up to the first failure |
| LedgerCommands.RemoveIsolationRules | cmd/fcm/isolation.go:29-38 | deletes them, both if nothing fails, the gateway rule under the fixed address |
| LedgerCommands.FixedGatewayExactly | cmd/fcm/isolation.go:35-37 | that address is the one init derives if and only if the bridge's network is 192.168.100.0 |
| Exactness.SetupCounts | cmd/fcm/internal_cmds.go:86-98 | from a VM that is down, setup leads to each of its rules exactly once |
| Exactness.CleanupCounts | cmd/fcm/internal_cmds.go:121-127 | stop and delete lead to none of its rules, from up and from down |
| Interleaving.RulesStayExact | cmd/fcm/forward.go:74-151 | in every interleaving of many VMs' operations, each resting VM has each of its rules once while up and none while down, and no rule of a deleted VM is left |
| Interleaving.StepLeavesOthersInOrder | cmd/fcm/forward.go:118-144 | a step of one VM leaves all other rules in place and order |
| Interleaving.OtherRulesNeverMove | cmd/fcm/internal_cmds.go:86-127 | over whole runs the rules that are no VM's keep their order |
| Exactness.AddForwardExactly | cmd/fcm/forward.go:82-91 | adding a forward keeps the rules exact if and only if the VM is up and the port is new |
| Exactness.FailedAddExactly | cmd/fcm/forward.go:82-94 | an add that fails keeps the rules exact if and only if it had added none |
| Exactness.RemoveForwardExactly | cmd/fcm/forward.go:106-110 | a removal keeps the rules exact if and only if the VM is down or both deletions succeed |
| Exactness.UnsavedRemoveExactly | cmd/fcm/forward.go:106-112 | a removal that is not saved keeps them exact if and only if the VM is down or both deletions failed |
| Exactness.StartExactly | cmd/fcm/internal_cmds.go:86-98 | from a VM that is down, a start leads to its rules if and only if no command failed, and to no rule too many in any case |
| Exactness.StopExactly | cmd/fcm/internal_cmds.go:121-127 | from a VM that is up, a stop leaves no rule if and only if no command failed |
| Exactness.StartStopExactly | cmd/fcm/isolation.go:29-38 | start and stop leave nothing behind if and only if the VM is not isolated or the bridge has the fixed address |
| Bridge.EnsureNAT | internal/network/bridge.go:78-114 | chains without the rules get all four, in the source's order; the NAT rule being there ends it; a failure leaves the rules whose turn it had been; everything else is in place; if nothing fails it succeeds |
| Bridge.SetupBridge | internal/network/bridge.go:14-49 | on success forwarding is on, the link is there, addressed and up, and the rules are ensured; each step may fail, and no rule is touched before the link is up; if nothing fails it succeeds |
| Bridge.TeardownBridge | internal/network/bridge.go:52-71 | the rules are cleaned as in the next row; the link is gone, or there and perhaps down when that fails |
| Bridge.CleanupNAT | internal/network/bridge.go:117-137 | the first occurrence of each rule is deleted if nothing fails, and chains that held each at most once hold none; otherwise those that can be deleted; everything else is in place |
| Bridge.MarksExact | internal/network/bridge.go:78-137 | after any sequence of setups, teardowns and cleanups, with setups and deletions failing anywhere, no bridge rule stands twice, exactly the stated ones are there, and everything else is in place |
| Bridge.AllOrNone | internal/network/bridge.go:78-137 | without failures the four rules are all there once or all absent, as the last operation says |
| Bridge.SetupIsNoRepair | internal/network/bridge.go:79-113 | a setup that failed after the NAT rule leaves the chains incomplete, and any number of further setups leaves them so |
| Bridge.RepairExactly | internal/network/bridge.go:79-137 | incomplete chains with the NAT rule are repaired by a cleanup and a setup if and only if the cleanup deletes the NAT rule |
| Bridge.SetupIdempotentAndUndone | internal/network/bridge.go:78-137 | a second setup changes nothing; a teardown after a setup, complete or failed anywhere, restores the chains exactly |
| Bridge.SetupCompleteExactly | internal/network/bridge.go:79-113 | from arbitrary chains, when a setup is complete |
| Lifecycle.StepReady | cmd/fcm/configure_vm.go:34-64 | every single effect or outside event, a start from a snapshot or afresh among them, keeps the state consistent and ready for the rest of the command |
| Lifecycle.HistoryConsistent | cmd/fcm/resize.go:41-158 | over any history of commands whose configuration changes meet the guard, cut off anywhere, and of deaths and restarts, also between a command's start and its look at the unit: running equals stored, snapshots match and are complete, the root file system holds the stored size, the stored size never shrinks |
| Lifecycle.ReadyRun | cmd/fcm/resize.go:144-148 | every prefix of a safe plan, with outside events in between, ends consistent |
| Lifecycle.ResizeSafe | cmd/fcm/resize.go:71-158 | the plan of a resize is safe: it saves only when quiet with the snapshot gone, removes the memory file after the snapshot, and only grows sizes |
| Lifecycle.CommandSafeExactly | cmd/fcm/resize.go:73-158 | from the moment a command asks for the unit's state, it is safe under all interruptions if and only if it is not a configuration change that finds a restart pending |
| Lifecycle.EntrySafeExactly | cmd/fcm/resize.go:41-158 | from the moment a command starts, whatever happens before it asks included, it is safe if and only if it changes no configuration or the VM is neither running nor about to be restarted |
| Lifecycle.CreatedConsistent | internal/images/manager.go:388-401 | the same from the moment creation has finished, with the disk size never below the created one |
| Lifecycle.FreezeUnfreeze | cmd/fcm/freeze.go:35-114 | with any deaths, restarts and work before, between and after the steps: a VM that runs when its snapshot is taken ends up frozen with the snapshot of that moment, stays so, and unfreeze resumes exactly that; if it is then still paused, that is the guest as it was when it was paused |
| Lifecycle.FailedFreezeResumes | cmd/fcm/freeze.go:69-72 | a freeze whose snapshot fails leaves a VM that is still paused as it was |
| LifecycleCommands.Instance.RunResize | cmd/fcm/resize.go:35-162 | on success CPUs, memory and disk are stored as asked and otherwise as they were, the root file system has the size asked for, the snapshot is gone, and a VM found running runs again, freshly booted with the stored configuration if it had to be stopped; the effects in order; refused arguments change nothing; a failure leaves the old or the new record; if nothing fails it succeeds; in any case a prefix of the plan for the state found |
| LifecycleCommands.Instance.RunFreeze | cmd/fcm/freeze.go:35-81 | on success the VM was paused, its snapshot taken while it ran, and it was stopped, in this order: it is frozen with the snapshot of that moment; when the snapshot fails it is resumed; if nothing fails, only a VM that was not running or has died is not frozen |
| LifecycleCommands.Instance.RunUnfreeze | cmd/fcm/freeze.go:83-114 | starts the unit only when there is a snapshot and the VM is not running, and on success it runs |
| LifecycleCommands.FreezeThenUnfreeze | cmd/fcm/freeze.go:35-114 | the two commands in turn: the VM runs again with the guest and configuration of the moment of the snapshot, and of the pause if it was still paused then; what has been frozen can be unfrozen if nothing fails |
| CloudInit.MergeCloudInit | internal/templates/templates.go:153-209 | the result is the base followed by the printed lists of the parsed template |
| Documents.MergePrints | internal/templates/templates.go:193-208 | what is appended is the text of a document with one block for each list that has items, packages first, every item behind two spaces and a dash |
| CloudInit.ParseTemplate | internal/templates/templates.go:158-191 | the loop computes the parse of the text |
| CloudInit.ParseRendered | internal/templates/templates.go:163-206 | parsing undoes printing |
| CloudInit.MergeHomomorphismExactly | internal/templates/templates.go:153-209 | over all bases and templates: the merge parses to the base's lists followed by the template's if and only if the first printed key survives behind the base's last line |
| CloudInit.MergeIsHomomorphism | internal/templates/templates.go:153-209 | so it does for every base of complete lines |
| CloudInit.MergeFixedPoint | internal/templates/templates.go:153-209 | merging into the empty text is idempotent, for every text |
| CloudInit.MergeNormalForm | internal/templates/templates.go:153-209 | a template may be replaced by its normal form under any base |
| CloudInit.MergeNeedsCompleteLines | internal/templates/templates.go:194-200 | and does not for any base whose last line starts in column zero and lacks its newline, when the template has a list |
| Documents.ParseDocument | internal/templates/templates.go:163-191 | any document, with or without a last newline, parses to what stands under its two list keys, in order, and nothing else |
| Documents.EveryTextIsADocument | internal/templates/templates.go:153-191 | every text is the text of a document, so that is what parsing means for all texts |
| UserData.DefaultSettings | internal/cloudinit/iso.go:134-171 | the text sets the host name, the user root with the password, and the trimmed key under root and once more for everybody |
| UserData.NoKeyNoSetting | internal/cloudinit/iso.go:145-157 | without a key no key is set |
| UserData.OneLineKeyIsHarmless | internal/cloudinit/iso.go:145-149 | a key on one line meets the condition of the next row |
| UserData.MergeIntoDefault | internal/cloudinit/iso.go:134-171 | with the program's base text, for a valid name and a key without list headings, the result carries exactly the template's lists |
| Fstab.RewriteFstab | internal/images/manager.go:298-312 | the loop computes the rewrite |
| Fstab.RewriteIdempotent | internal/images/manager.go:299-312 | rewriting twice is rewriting once, for every text |
| Fstab.SurvivorsExactly | internal/images/manager.go:300-311 | a line survives if and only if it is blank, a comment or a root mount |
| Fstab.SecondFieldIsRoot | internal/images/manager.go:306-307 | the field test recognises exactly the entries that mount the root |
| Fstab.FilterKeepsOrder | internal/images/manager.go:299-311 | survivors keep their order |
| Bandwidth.ParseInt64 | cmd/fcm/configure_vm.go:177-185 | the value of the digits, wrapped to 64 bits |
| Bandwidth.NoIntermediateOverflow | cmd/fcm/configure_vm.go:177-185 | if the whole fits, so does every intermediate value |
| Bandwidth.ParseBandwidth | cmd/fcm/configure_vm.go:154-175 | every text is read as its digits times the unit it ends in, wrapped, whatever the case of the letters and the white space around; a decimal number with a unit in any spelling is read exactly if and only if the product is below 2^63 |
| Bandwidth.SuffixExactly | cmd/fcm/configure_vm.go:155-170 | the suffix the program looks for is found exactly when the text ends in a spelling of it |
| Bandwidth.BandwidthExact | cmd/fcm/configure_vm.go:154-185 | a number with a unit is read exactly if and only if the product is below 2^63 |
| Names.ValidateName | internal/vm/state.go:172-197 | accepts exactly the lower-case labels of section 2.3.1 of RFC 1035, and names the first reason otherwise, the length counted in bytes of UTF-8 |
| Names.Utf8SizeLeast | internal/vm/state.go:176-178 | a character counts as the fewest bytes that can hold it, section 3 of RFC 3629 |
| Names.ParseVMPathExact | cmd/fcm/cp.go:30-43 | when an argument is a path inside a VM |
| Names.AcceptedNameRoundTrip | cmd/fcm/cp.go:30-43 | every accepted name works in a path |
| Search.IndexOf | internal/update/updater.go:100-107 | the first occurrence, or -1 exactly when there is none |
| Search.ExtractTagName | internal/update/updater.go:86-98 | the tag of every body that has one, otherwise the empty text |

## Left out

- Two rewrites of one VM at the same time, and a rewrite's own write-then-rename, are one step in `Store.dfy`; commands on one VM are not serialised by the program, so a temporary file shared by two of them is not covered.
- `Store.AddressesStayDistinct`: assumes that rewrites are guarded as `Store.Guarded` says; the program does not check this.
- `Address.ValidateIP`: IPv4-mapped spellings of IPv6 are refused as not IPv4; the source takes them for the address they map to.
- `Address.ParseQuadExact`: dotted quads only; IPv4-mapped spellings of IPv6, which the source also accepts by hand, are other texts for the same address.
- `Address.Gateway`: the bridge address given with `--bridge-ip` and the text of the subnet are not parsed; the subnet is a base address and a prefix length.
- `Interleaving.RulesStayExact`: iptables commands and saves do not fail (what failures do to one operation is stated apart), one operation per VM runs at a time, the bridge has the fixed gateway address, and forwards are added as `Interleaving.Guarded` says.
- iptables -C, which decides whether a bridge rule is there, does not fail on a rule that is.
- The loop in which create adds several forwards and warns about those that fail; it is `LedgerCommands.AddForward` on one record in memory, again and again.
- TAP devices, sockets and e2fsck in the setup and cleanup of a VM; their names and effects do not meet the rules.
- `Lifecycle.HistoryConsistent`: removing the snapshot files does not fail, CreateSnapshot writes both files or none, and commands on one VM do not overlap.
- Whether the file system inside the root image survives a truncation to less than an earlier, unsaved size.
- Whether a snapshot is fresh, and whether it agrees with the disk: it stays after an unfreeze, and the disk grows before it is removed.
- `Create.Node.RunCreate`: errors that come before the resources are checked (loading the configuration, the missing bridge, an unknown template) change nothing and are not distinguished; `systemctl disable` does not fail; forwards given to create are the operation of `LedgerCommands.AddForward`.
- Whether isolation rules stop packets: only the bookkeeping of the rules is modelled.
- The DHCP exchange itself, JSON and YAML, downloads, images, SSH, progress output, HTTP routing and authentication.
- The rate limiters and the order of the API calls of a fresh boot, apart from the parsing of bandwidths; the status words of a VM.
- The freeze and unfreeze handlers of the API server, which take the same steps as the commands.
- TAP names, which are hashes, and their uniqueness.
- Template and image tables, backup timers, hints, configuration defaults.
- Invalid UTF-8 in texts: strings are sequences of characters.
