# A verified model of kube-dtn's links

kube-dtn emulates networks on Kubernetes. A custom resource, the *topology* of a pod, lists the pod's links; a daemon
on every node plumbs them, as veth pairs within a node and VXLAN devices between nodes, and shapes them with qdiscs; a
controller applies later changes of the spec; three eBPF programs let TCP traffic between local sockets skip the stack.

The project models the parts in which several actors change shared state step by step, and proves what holds over
whole runs, for every interleaving and every stop. `dafny verify dfyconfig.toml` checks all of it.

| modules | what they model |
|---|---|
| `Bringup`, `BringupInvariant`, `BringupLinks`, `BringupTheorems`, `BringupProgress`, `BringupConfluence`, `BringupSchedules`, `BringupCounterexamples` | `SetupPod` for any number of pods on any number of nodes, as a transition system: published statuses, interface tables, VNI indexes, link mutexes and a program counter per run |
| `Net`, `Daemon` | the kernel's interface tables, `CreateOrUpdate`, `SetupVeth`, the VXLAN manager and the handlers `Update`, `addLink` (VXLAN branch) and `delLink` |
| `Qdisc`, `Rate`, `Decimal` | qdisc programming, rate strings and decimal numbers |
| `Bypass`, `BypassRuns`, `BypassFastPath` | the eBPF maps and programs, and runs of connect, accept, close, send and egress events |
| `Diff`, `Reconcile`, `ReconcileRuns`, `ReconcileAdds`, `ReconcileOutcomes`, `ReconcileTheorems` | `CalcDiff`, and runs of `Reconcile` attempts, each cut short anywhere |
| `Status` | the topology object at the API server under concurrent writers |
| `Ids`, `Names`, `Options` | UIDs, VNIs and mutex keys; generated interface names; optional values |

Code that updates objects is modelled by classes and methods (`Daemon.Kernel`, `Daemon.KubeDTN`, `Qdisc.Interface`,
`Bypass.BypassMaps`, `Reconcile.Topology`, `Names.Index`), each method tied to a function of the old state; the
theorems are about those functions. Failures of the kernel, the network and the API server are parameters or
nondeterministic choices.

## Where the code does not do what one would expect

Each of these is a lemma here, and the exact condition under which the code does behave is another.

- Bring-up is complete only if status reads are fresh. Reads go through an informer; with lagging reads every cluster
  has a run that sets up all pods and no link (`StaleReadsCanLoseEveryLink`).
- Equal properties at both ends do not make the outcome independent of timing: the remote `Update` runs without the
  bypass setting in its context, so with the bypass on, a shaped link between nodes ends up with or without the filter
  that keeps it off the bypass (`EqualPropertiesAgreeExactlyWhen`). With different properties the last pod to run
  decides between nodes, but the first one within a node.
- `SetupVeth` does nothing if both interfaces exist. A veth whose shaping was cut short, or whose properties did not
  parse, is therefore accepted by the next reconcile attempt and never shaped (`HalfMadeVethIsForgotten`,
  `ConvergesExactlyWhen`).
- A macvlan that a stopped attempt has made blocks all later attempts (`MacvlanBlocksEveryRetry`); one that asks for
  shaping never gets it when it is added. Changed properties of a link whose peer is not up block all attempts as well,
  unless they ask for nothing (`CleanAttemptConvergesExactlyWhen`).
- A spec edit that arrives during an attempt is recorded as done without being carried out (`EditMeanwhileIsForgotten`,
  `EditMeanwhileConvergesExactlyWhen`).
- `delLink` ignores a refused removal, so an attempt can report success and leave an interface behind
  (`IgnoredRemovalIsForgotten`), or leave a veth with its old address because both its names exist
  (`ReaddressedVethIsNotRemade`), although a mere change of the local name still works out (`RenamedLinkIsMoved`).
  `IgnoredErrorsConvergeExactlyWhen` has the exact condition.
- It also drops the index entry of the device that it failed to remove, after which every `Update` of the link into
  another namespace fails (`RefusedDeleteBlocksUpdates`, `RefusedDeleteKeepsTheIndexExactlyWhen`).
- `vxlanEqual` ignores the address, so a changed address on an equal device is kept (`AddressIsFreshExactlyWhen`).
- `addLink`, unlike `Update`, does not evict a device of another namespace that holds its VNI (`UpdateIsNeverBlocked`).
- `delLink` takes no mutex and can drop the index entry of a device that an `Update` has just made, in the namespace of
  the deleted link or, between the look into the index and the deletion, in any other
  (`UnlockedDeleteLosesTheIndex`, `UnlockedDeleteKeepsTheIndexExactlyWhen`).
- `SetVethQdiscs` ignores errors while clearing, so it can report success over old shaping
  (`IgnoredClearErrorKeepsOldShaping`, `SuccessIsTrueExactlyWhen`).
- The validation pattern of the custom resource admits fractional rates and numbers of any length, which `ParseRate`
  refuses (`CrdRateIsAcceptedExactlyWhen`); a VXLAN device is then left behind without an index entry
  (`FailedShapingLosesTheIndex`, `FailureKeepsTheIndexExactlyWhen`).
- Beyond 32 bits the two ends of a link lock different mutexes (`WideUidsCollide`, `BothEndsLockTheSameKey`).
- Once the 64-bit counter has wrapped, generated interface names can repeat, because the sign of a negative number looks
  like the dash before it (`WrappedCounterCollides`, `NamesCollideExactlyWhen`).

## Model

| member | source | states |
|---|---|---|
| `BringupTheorems.EveryStateIsInOrder` | daemon/kubedtn/handler.go:316-459 | in every interleaving of any number of `SetupPod` runs, with crashes and stale reads, each state satisfies the invariant of locks, per-link progress, interfaces, index and untouched rest; without crashes no run fails |
| `BringupTheorems.StepKeepsInv` | daemon/kubedtn/handler.go:316-459 | every enabled step, crashes and stale reads included, keeps the whole invariant, and only a crash makes a run fail |
| `BringupTheorems.LinkIsUpExactlyWhenSeen` | daemon/kubedtn/handler.go:375-395 | once both pods are set up, their link is up at both ends if and only if at least one of them read the other as alive; otherwise neither end exists |
| `BringupTheorems.BringUpIsComplete` | daemon/kubedtn/handler.go:495-535 | with fresh reads, in every interleaving and on one node or several, every link whose two pods are set up has both ends with the right kind of interface, peer and address, both indexed, and the qdiscs that one of its two declarations calls for, with the bypass filter where the pod's own daemon shapes and without it where the peer's does; interfaces of no link are as they were |
| `BringupTheorems.ShaperShapes` | daemon/kubedtn/handler.go:321 | `addLink` shapes with the bypass setting, the remote `Update` without it |
| `BringupTheorems.StepKeepsLinks` | daemon/kubedtn/handler.go:399-453 | every enabled step of any run keeps every link of the cluster in order, and only a crash makes a run fail |
| `BringupLinks.VethStepKeepsLinks` | common/veth.go:65-93 | every stage of `SetupVeth` under the link mutex keeps all links in order and touches only the two ends of its own link |
| `BringupLinks.VxlanStepKeepsLinks` | daemon/kubedtn/handler.go:419-453 | every stage of the local VXLAN setup and of the remote `Update` keeps all links in order and touches only its own link |
| `BringupProgress.RunsAreBounded` | daemon/kubedtn/handler.go:592-611 | every run of the cluster, crashes included, is no longer than a measure of its first state |
| `BringupProgress.HoldersAreNeverBlocked` | daemon/kubedtn/handler.go:432-451 | a run that holds a link mutex can take its next step, and one that waits for the peer's daemon holds none |
| `BringupProgress.SomeRunCanStep` | daemon/kubedtn/handler.go:172-174 | while any run is unfinished, some run can take a step: there is no deadlock |
| `BringupInvariant.MutexTellsLink` | daemon/kubedtn/handler.go:172-174 | two pieces of work take the same mutex if and only if they are for the same UID on the same node |
| `BringupProgress.MaximalRunsBringEverythingUp` | daemon/kubedtn/handler.go:495-535 | total correctness: a crash-free run with fresh reads that cannot go on has set up every pod, and every link of the cluster is up |
| `BringupCounterexamples.HoldingTheMutexDeadlocks` | daemon/kubedtn/handler.go:442-446 | the variant that keeps the mutex across the remote call reaches, on every two-node link, a state in which neither run can step |
| `BringupCounterexamples.StaleReadsCanLoseEveryLink` | daemon/kubedtn/handler.go:27-41 | with lagging reads every cluster has a run that sets up all pods and leaves the interface tables as they were |
| `BringupConfluence.AgreedClustersConverge` | daemon/kubedtn/handler.go:149-198 | if whoever shapes an end of a link shapes it alike, all complete runs from one start end with the same interfaces |
| `BringupConfluence.EqualPropertiesAgreeExactlyWhen` | daemon/kubedtn/handler.go:321 | for equal properties, the two shapers of an end agree if and only if the bypass is off, the link is within a node, or it asks for no qdiscs |
| `BringupConfluence.RepeatsChangeNothing` | daemon/vxlan/vxlan.go:101-113 | once a link is up and its declarations agree, repeating `addLink` or the remote `Update` succeeds, finds nothing to evict, and changes neither the interfaces nor the index |
| `BringupSchedules.ConfluentExactlyWhenAgreed` | daemon/kubedtn/handler.go:399-453 | the final interfaces are the same for all schedules if and only if the two declarations of every link shape it alike |
| `BringupSchedules.DisagreementShows` | common/utils.go:39-51 | for any disagreeing link there are two complete schedules that end with different interfaces |
| `BringupSchedules.LastPodShapes` | common/utils.go:42-51 | between nodes there is a complete schedule in which a chosen pod's properties shape both ends of a link, its own with the bypass setting and the far one without |
| `BringupSchedules.FirstPodShapes` | common/veth.go:74-77 | within a node there is a complete schedule in which the properties of the pod that runs first shape both ends, and nobody reshapes them |
| `Ids.BothEndsLockTheSameKey` | common/utils.go:29-36 | for every 64-bit UID, the mutex key rebuilt from the VNI equals the UID if and only if the UID fits 32 bits, wrapping included |
| `Ids.SupportedUids` | common/utils.go:29-36 | UIDs from 0 to 16772215 have the distinct VNIs 5000 + UID, which are valid under section 5 of RFC 7348 and lead back to the UID |
| `Ids.SupportedRangeIsMaximal` | common/utils.go:29-31 | the next UID has no valid VNI |
| `Ids.WideUidsCollide` | common/utils.go:29-36 | every UID of more than 32 bits is locked under another key by the remote end, and shares its VNI with the link of that other UID |
| `Net.CreateOrUpdateEstablishes` | daemon/vxlan/vxlan.go:101-151 | from any kernel table, success is equivalent to a condition on the table; then the named interface is a VXLAN with the requested VNI and group, it is the node's only device with that VNI, and only the displaced interfaces are gone |
| `Net.CreateOrUpdateIsIdempotent` | daemon/vxlan/vxlan.go:101-113 | a second call after a successful one changes nothing |
| `Net.NoFaultsNoDifference` | daemon/vxlan/vxlan.go:31-52 | setting up a VXLAN link without faults succeeds if and only if the device can be had and the properties parse, and leaves the wanted tree, whatever was there before |
| `Net.AddressIsFreshExactlyWhen` | daemon/vxlan/vxlan.go:223-231 | after success the address is the requested one if and only if no equal device was there or it had that address already |
| `Net.RebuildOutcome` | daemon/vxlan/vxlan.go:115-151 | remove, create, drop a same-namespace conflict and retry amount to one step with an exact success condition |
| `Net.SetupVethOutcome` | common/veth.go:65-93 | a shaped pair results unless both names were taken, in which case nothing changes; nothing is gone but the other end of what had one of the names |
| `Daemon.Kernel.CreateOrUpdate` | daemon/vxlan/vxlan.go:54-151 | the code computes the specified table and success, also on a kernel whose operations may fail |
| `Daemon.Kernel.RemoveLinkWithVni` | daemon/vxlan/vxlan.go:234-266 | scanning for the first device with the VNI removes every device of that VNI from the namespace, and nothing else |
| `Daemon.Kernel.SetVethQdiscs` | common/qdisc.go:201-290 | the new tree and the result as a function of the old tree and of the faults while clearing and adding; without the interface only an empty list succeeds |
| `Daemon.Kernel.SetupVxLan` | daemon/vxlan/vxlan.go:31-52 | device, then shaping; on a kernel without faults the outcome is exactly the specified one, on a flaky one success means the device is there and its tree is what the ignored faults left |
| `Daemon.Kernel.SetupVeth` | common/veth.go:65-93 | the code computes the specified table and success, also on a kernel whose operations may fail |
| `Daemon.Kernel.CreateVeth` | common/veth.go:44-62 | success means the pair exists and both ends are shaped; unparsable properties leave an unshaped pair |
| `Daemon.VxlanManager.Add` | daemon/vxlan/manager.go:57-59 | records the namespace of a VNI, replacing any earlier one |
| `Daemon.VxlanManager.Delete` | daemon/vxlan/manager.go:61-63 | forgets the VNI and no other |
| `Daemon.VxlanManager.Get` | daemon/vxlan/manager.go:65-71 | the recorded namespace, or none |
| `Daemon.KubeDTN.Update` | daemon/kubedtn/handler.go:177-198 | evict, set up, index: the new kernel and index are a function of the old ones and the faults of the shaping, even though a failed eviction is only logged |
| `Daemon.KubeDTN.AddVxlanLink` | daemon/kubedtn/handler.go:419-440 | the same without the eviction |
| `Daemon.KubeDTN.DelLink` | daemon/kubedtn/handler.go:461-492 | the interface goes unless the kernel refuses, and the index entry if it names this namespace, refused or not |
| `Daemon.DeletedSpelledOut` | daemon/kubedtn/handler.go:461-492 | an unrefused deletion removes the interface, and the other end of a veth, and nothing else; the index loses the VNI exactly if it is recorded for this namespace |
| `Daemon.IndexCoversKernel` | daemon/kubedtn/handler.go:177-192 | in every run of successful, well-named operations, every VXLAN device's VNI is indexed under its namespace, across replacement, migration and deletion, as long as no deletion leaves its own device behind |
| `Daemon.RefusedDeleteKeepsTheIndexExactlyWhen` | daemon/kubedtn/handler.go:477-486 | a deletion whose removal is refused keeps coverage if and only if the interface is not the link's VXLAN device |
| `Daemon.RefusedDeleteBlocksUpdates` | daemon/kubedtn/handler.go:477-486 | where it does not, every later `Update` of the link into another namespace fails |
| `Daemon.UpdateIsNeverBlocked` | daemon/kubedtn/handler.go:176-186 | given coverage, `Update` into a live namespace never fails on a VNI conflict, while `addLink` does exactly when another namespace holds the VNI |
| `Daemon.UnlockedDeleteLosesTheIndex` | daemon/kubedtn/handler.go:476-486 | if `Update` runs between the two halves of `delLink`, coverage is lost and every later `Update` into another namespace fails |
| `Daemon.UnlockedDeleteKeepsTheIndexExactlyWhen` | daemon/kubedtn/handler.go:476-486 | for an `Update` between removal and look, coverage is kept if and only if the device goes to another namespace; between look and deletion, if and only if the namespace was not the recorded one |
| `Daemon.FailedShapingLosesTheIndex` | daemon/kubedtn/handler.go:435-440 | properties that do not parse leave a device out of the index, unless its namespace was recorded already |
| `Daemon.FailureKeepsTheIndexExactlyWhen` | daemon/kubedtn/handler.go:435-440 | a failed setup keeps coverage if and only if the address does not parse, the device is neither there nor can be made, or its namespace was recorded already |
| `Qdisc.MakeQdiscs` | common/qdisc.go:20-126 | exactly the planned list: none for default properties, netem, and a token bucket if and only if the rate is nonzero; an error if a field does not parse |
| `Qdisc.WantedSpelledOut` | common/qdisc.go:94-125 | the wanted tree part by part: nothing for default properties; else netem, a token bucket with the parsed rate exactly if it is nonzero, and the filter exactly if the bypass is on |
| `Qdisc.PlanExistsExactlyWhen` | common/qdisc.go:20-126 | the properties are refused if and only if a netem field or the rate does not parse |
| `Qdisc.Interface.ClearVethQdiscs` | common/qdisc.go:292-339 | whatever order the kernel lists qdiscs in, what is left is a function of the old tree and the failures |
| `Qdisc.Interface.SetVethQdiscs` | common/qdisc.go:201-290 | the new tree and the result as a function of what clearing left, the list, the bypass setting and the additions that are refused |
| `Qdisc.ForgetsHistory` | common/qdisc.go:201-290 | from any tree, programming succeeds and leaves the tree that the properties and the bypass setting call for |
| `Qdisc.SuccessIsTrueExactlyWhen` | common/qdisc.go:204-288 | from the old tree and the faults: success is reported if and only if the list is empty or nothing stale is in the way and no addition is refused, and it is right if and only if nothing stale stays behind |
| `Qdisc.IgnoredClearErrorKeepsOldShaping` | common/qdisc.go:204-211 | dropping all properties while listing fails reports success and keeps any old tree |
| `Rate.ParseRate` | common/qdisc.go:162-199 | a string is accepted if and only if the grammar of number, SI or IEC prefix and unit gives it a meaning, and the result is that meaning modulo 2^64 |
| `Rate.StripPrefix` | common/qdisc.go:184-192 | strips at most one prefix and multiplies by the right power |
| `Rate.RenderingIsRead` | common/qdisc.go:162-199 | every rendering of a number in a scale, in any letter case, is read as number times unit times base power modulo 2^64 |
| `Rate.RenderingMeans` | common/qdisc.go:162-199 | a rendering of any digits is accepted if and only if they fit 64 bits, and then read as that amount |
| `Rate.RatesSpelledOut` | common/qdisc.go:162-199 | the meaning of every rate with its units written out: bits alone or in "bit", eight per "bps", powers of 1000 or with "i" of 1024 for k, m, g and t, modulo 2^64 |
| `Rate.CaseIsIgnored` | common/qdisc.go:163 | rates that differ only in the case of ASCII letters are read alike |
| `Rate.SpaceIsIgnored` | common/qdisc.go:163 | white space before and after a rate is ignored |
| `Rate.GreedyIsForced` | common/qdisc.go:164-192 | stripping suffixes greedily finds the only reading a string has |
| `Rate.CrdRateIsAcceptedExactlyWhen` | api/v1/topology_types.go:145 | of all strings of the validation pattern, exactly those without a fraction whose number fits 64 bits are accepted, as number times unit times base power modulo 2^64 |
| `Rate.FractionsAreRefused` | common/qdisc.go:194-198 | no string with a fraction has a meaning |
| `Rate.TbfBurst` | common/qdisc.go:361-370 | the burst is rate/250 or 5000, whichever is larger, as long as rate/250 fits 32 bits, and at least 5000 always |
| `Decimal.ValueOfDigits` | common/qdisc.go:194-198 | reading the decimal text of a number gives the number |
| `Bypass.BypassMaps.ActiveEstablished` | bpf/lib/sockops.c:10-26 | the three maps after an active connection, full maps included |
| `Bypass.BypassMaps.PassiveEstablished` | bpf/lib/sockops.c:28-66 | the three maps after a passive connection, full maps included |
| `Bypass.BypassMaps.StateClosed` | bpf/lib/sockops.c:68-75 | the proxy entry of the tuple and the record of its local address are gone |
| `Bypass.BypassMaps.RedirProxy` | bpf/lib/redir.c:11-60 | the verdict on a message and the flag it leaves |
| `Bypass.BypassMaps.RedirDisable` | bpf/lib/redir_disable.c:35-48 | a packet seen at egress disables the redirection of its tuple |
| `Bypass.KeysAgree` | bpf/lib/sockops.h:42-59 | for every 16-bit port the socket and the header extraction yield the port itself |
| `Bypass.PacketHasMessageKey` | bpf/lib/redir_disable.c:22-40 | a TCP over IPv4 packet of at least 54 bytes has the key of its message; every other packet is left alone |
| `BypassRuns.BypassDeliversLikeTcp` | bpf/lib/redir.c:23-59 | without address translation and with each client address in one connection at a time, every run delivers every message once, to the socket TCP would have delivered it to |
| `BypassFastPath.EstablishedIsRedirected` | bpf/lib/sockops.c:22-65 | in every run, once both ends of a connection are recorded and as long as they are left alone, the first message of each end goes down the stack and every later one straight to the other end's socket |
| `BypassFastPath.EnvoyIsRedirected` | bpf/lib/redir.c:25-26 | a message to a live socket that was recorded because of 127.0.0.6 is redirected to it from the first one on |
| `BypassFastPath.EnvoyAddress` | bpf/lib/sockops.h:14 | the special address is 127.0.0.6, first byte lowest |
| `BypassRuns.SharedAddressMisdelivers` | bpf/lib/sockops.c:38-59 | a client address in two connections, to a far and to a local server, makes the bypass hand messages for the far server to the local one |
| `BypassRuns.ProxyEntriesAreLinked` | bpf/lib/sockops.c:14-25 | in all runs every proxy entry shares an address with its key, and no recorded connection starts at 127.0.0.6 or stays on one IP address |
| `BypassRuns.ProxyPairsAreMutual` | bpf/lib/sockops.c:42-74 | in every run that re-establishes a tuple only after both ends of its earlier connection were closed, entries whose partner is present point back at each other |
| `BypassRuns.EntriesStem` | bpf/lib/sockops.c:42-74 | in all runs every proxy entry was recorded together with its partner by an accepted connection, and its key was not closed since |
| `BypassRuns.FlagTellsHistory` | bpf/lib/redir.c:28-41 | in all runs the flag of an entry is determined by what happened since it was recorded: disabled once a packet went out, else enabled once a message was sent |
| `BypassRuns.RedirectedExactlyWhen` | bpf/lib/redir.c:28-41 | a message is redirected if and only if one was sent before it, no packet was seen at egress, and the socket hash holds the other end |
| `BypassRuns.ShapedTrafficIsNeverRedirected` | bpf/lib/redir_disable.c:42-47 | if a packet of each message that was passed to the stack reaches egress before the next message on the tuple, no message on it is ever redirected through the proxy map |
| `BypassRuns.UnseenPacketsAreRedirected` | bpf/lib/redir.c:33-41 | without that hypothesis the second of two messages is redirected |
| `Diff.EqualWithoutPropertiesIsIdentity` | controllers/topology_controller.go:342-351 | two links are equal without properties if and only if they differ in nothing but the properties |
| `Diff.CalcDiff` | controllers/topology_controller.go:288-318 | the nested loops compute the links missing on either side and the changed ones, in order |
| `Diff.DiffIsAPatch` | controllers/topology_controller.go:288-318 | with distinct new links, applying the diff to the old list gives the new one, as maps from identity to properties |
| `Diff.DiffIsAPatchExactlyWhen` | controllers/topology_controller.go:288-318 | for any two lists, the diff is a correct patch if and only if no link that stays has a first and a last new version that differ |
| `Diff.DiffIsAPartition` | controllers/topology_controller.go:288-318 | an identity is added, deleted or changed exactly if it is only new, only old, or in both with different properties |
| `Diff.CountsBalance` | controllers/topology_controller.go:288-318 | old count minus deletions plus additions is the new count |
| `Diff.DiffIsEmptyExactlyWhen` | controllers/topology_controller.go:288-318 | the diff is empty if and only if the two lists hold the same links, in whatever order |
| `Diff.DiffsCompose` | controllers/topology_controller.go:288-318 | a chain of diffs does what the one diff between its ends does |
| `Diff.DuplicatesGoUnseen` | controllers/topology_controller.go:292-300 | of a link that stays, the patched list keeps the first new version, so a later one that differs is missed |
| `Reconcile.Topology.AddLink` | daemon/kubedtn/handler.go:316-459 | what `addLink` leaves under the link's name, which interface of another name that has the far end or the VNI it takes away, and whether it reports success, for every kind of peer and every way of failing |
| `ReconcileTheorems.AddVethSpelledOut` | common/veth.go:65-93 | for a pod on this host: nothing if the near name exists and one of the pod's interfaces leads to the named far end, else a new shaped pair, and what led there is gone |
| `ReconcileTheorems.AddVxlanSpelledOut` | daemon/kubedtn/handler.go:419-440 | for a pod elsewhere: the device with the VNI of the UID and the VTEP of the peer's host is kept and shaped, else made, and another device with the VNI is gone |
| `Reconcile.Topology.Make` | common/veth.go:78-93 | clearing the name and the far end or VNI, making the interface and shaping it |
| `Reconcile.Topology.DelLink` | daemon/kubedtn/handler.go:461-492 | the same for `delLink`, which ignores a refused removal |
| `Reconcile.Topology.UpdateLink` | daemon/kubedtn/handler.go:644-666 | the same for one turn of `UpdateLinks`; without an interface only an empty list of qdiscs succeeds |
| `Reconcile.Topology.SetQdiscs` | daemon/kubedtn/handler.go:653-662 | building and programming the qdiscs of one interface |
| `Reconcile.Topology.RunBatch` | daemon/kubedtn/handler.go:592-671 | the loops of `AddLinks`, `DelLinks` and `UpdateLinks` stop at the first failure |
| `Reconcile.Topology.Reconcile` | controllers/topology_controller.go:61-156 | one attempt, with its early return, first-sight branch, three batches and status write |
| `ReconcileRuns.BatchAt` | daemon/kubedtn/handler.go:613-671 | what a batch of deletions or updates, complete or cut short, did to one interface name |
| `ReconcileRuns.BatchesStayBetween` | controllers/topology_controller.go:81-117 | wherever it is cut short, an attempt leaves unchanged links as they were, changed ones in place, and new names free or taken by their link |
| `ReconcileAdds.AddsReplay` | daemon/kubedtn/handler.go:592-611 | a batch of additions succeeds if and only if each would on the interfaces it starts from, and leaves under every name the outcome of its own addition, or nothing if another one took its far end or VNI |
| `ReconcileOutcomes.CompletedExactlyWhen` | controllers/topology_controller.go:81-117 | a completed sequence of batches, whatever errors it ignored, leaves exactly what the spec describes if and only if it spoils no name: by a misshaped, unshaped or half-made interface, a veth or VXLAN kept from another link, or one left behind and not taken over |
| `ReconcileOutcomes.OrderOfAdditionsMatters` | daemon/kubedtn/handler.go:592-611 | where a left interface has the far end of an added link and a macvlan is to get its name, one order of the two additions succeeds and the other fails |
| `ReconcileOutcomes.CompletedCleanly` | controllers/topology_controller.go:81-117 | when no error is ignored, that is if and only if no added link is neglected |
| `ReconcileOutcomes.BatchGoesThroughExactlyWhen` | daemon/kubedtn/handler.go:613-671 | a batch of deletions or updates succeeds if and only if each of its operations would on the interfaces it starts from |
| `ReconcileOutcomes.CleanBatchesGoThroughExactlyWhen` | controllers/topology_controller.go:81-117 | wherever earlier attempts stopped, batches in which nothing fails on its own account go through if and only if every added link can be added and every changed one updated |
| `ReconcileTheorems.ConvergesExactlyWhen` | controllers/topology_controller.go:76-138 | after any number of stopped attempts on an unchanged spec, the first completed one leaves the interfaces as the spec describes if and only if it finds no new veth that is there but not shaped as asked and no new macvlan that asks for shaping; the next reconcile is a no-op |
| `ReconcileTheorems.ConvergedSpelledOut` | daemon/kubedtn/handler.go:332-430 | what "as the spec describes" means for each kind of peer: a macvlan on the named parent, a VXLAN to the physical host, a veth to a pod on this host, a VXLAN to the host of a pod elsewhere, nothing for one that is not up; each made for its link, shaped by its own properties; and no other interface |
| `ReconcileTheorems.IgnoredErrorsConvergeExactlyWhen` | controllers/topology_controller.go:76-138 | the same for an attempt that ignored errors: it reaches the spec if and only if it spoils no name, and writes the status regardless |
| `ReconcileTheorems.CleanAttemptConvergesExactlyWhen` | controllers/topology_controller.go:76-138 | total correctness: after any stopped attempts, a clean attempt completes if and only if peers exist, macvlan names are free and properties that matter parse, and reaches the spec if and only if it also neglects no link |
| `ReconcileTheorems.CleanRetrySucceeds` | controllers/topology_controller.go:76-138 | if earlier attempts stopped between operations and the spec is sound, the first clean attempt completes and reaches it |
| `ReconcileTheorems.OtherHostsAndMovedNamesConverge` | controllers/topology_controller.go:76-138 | if all added links go to other hosts or take over the name of a deleted link, every stopped run converges |
| `ReconcileTheorems.StopsBetweenOperationsConverge` | controllers/topology_controller.go:76-138 | if attempts stop only between operations and properties parse, every stopped run converges |
| `ReconcileTheorems.HalfMadeNeverConverges` | common/veth.go:74-77 | once a new veth is there and not shaped as asked, no run of attempts on that spec converges |
| `ReconcileTheorems.HalfMadeVethIsForgotten` | common/veth.go:44-62 | for every veth that asks for shaping, a stop while shaping it followed by a clean attempt reports success, writes the status and leaves it unshaped |
| `ReconcileTheorems.MacvlanBlocksEveryRetry` | daemon/kubedtn/handler.go:333-346 | a new macvlan made by a stopped attempt makes every later attempt fail |
| `ReconcileTheorems.IgnoredRemovalIsForgotten` | daemon/kubedtn/handler.go:476-480 | from any stopped run, a refused removal of a link that the spec no longer names leaves its interface under a successful attempt, unless an added link needs its far end or VNI |
| `ReconcileTheorems.RenamedLinkIsMoved` | common/veth.go:78-83 | a link that changes its local name loses its old interface even if the removal was refused, because making it anew takes the far end or VNI |
| `ReconcileTheorems.ReaddressedVethIsNotRemade` | common/veth.go:73-76 | a veth that keeps its two names but changes otherwise stays as it was if its removal was refused, under a successful attempt |
| `ReconcileTheorems.RunKeepsOneHolder` | daemon/vxlan/vxlan.go:128-142 | no run of attempts ever has two interfaces with the same far end or the same VNI |
| `ReconcileTheorems.SharedHandlesNeverConverge` | common/veth.go:65-93 | a list in which two links need the same far end or the same VNI is never reached |
| `ReconcileTheorems.FirstSightIsTrusted` | controllers/topology_controller.go:81-85 | no run of attempts ever touches the interfaces of a topology without status links: it is as described afterwards if and only if it was before |
| `ReconcileTheorems.EditMeanwhileIsForgotten` | controllers/topology_controller.go:125-138 | a link that only an edit made during the attempt asks for stays missing, while the status equals the edited spec |
| `ReconcileTheorems.EditMeanwhileConvergesExactlyWhen` | controllers/topology_controller.go:125-138 | after an edit during an attempt that reaches its spec, the interfaces are those of the edited spec if and only if both specs ask for the same under every name; no later attempt does anything |
| `Status.EveryRunIsConsistent` | daemon/kubedtn/handler.go:101-117 | in every interleaving each daemon copy, although changed in place and shared, keeps the links and spec of its version, and each controller copy the pod's place |
| `Status.NoLostUpdate` | controllers/topology_controller.go:125-138 | in every interleaving with reads of any age, `SrcIP` and `NetNs` hold the last successful daemon write and `Links` the last successful controller write |
| `Status.FreshDaemonWriteSucceeds` | daemon/kubedtn/handler.go:101-117 | a daemon that reads, marks and writes the current version undisturbed succeeds, and exactly its values are stored |
| `Status.FreshControllerWriteSucceeds` | controllers/topology_controller.go:125-138 | a controller that reads, copies and writes the current version undisturbed succeeds, and the recorded links are the spec's |
| `Status.AcceptedExactlyWhenFresh` | controllers/topology_controller.go:125-138 | a write is accepted if and only if its copy is of the current version |
| `Status.WritesOwnPart` | daemon/kubedtn/handler.go:113-116 | an accepted write of the whole status changes only the writer's own part |
| `Status.EveryVersionHasOneWriter` | daemon/kubedtn/handler.go:101-141 | no two consecutive versions of the object differ in more than one of spec, place and links |
| `Status.FinalizersKeepTheSpec` | daemon/kubedtn/handler.go:124-141 | the finalizer write, which sends the whole object, never changes the spec |
| `Status.BlindWritesLoseTheDaemonsWrite` | controllers/topology_controller.go:125-138 | without the version check a controller's old copy wipes out where the pod lives; with it that write is refused |
| `Names.Index.NextIndex` | daemon/grpcwire/grpcwire.go:45-50 | the next value of a wrapping 64-bit counter |
| `Names.Index.GenNodeIfaceName` | daemon/grpcwire/grpcwire.go:270-288 | the name made from five characters each of pod and interface name and the padded counter |
| `Names.NameSpelledOut` | daemon/grpcwire/grpcwire.go:283-287 | a name is up to five characters of the pod's name, up to five of the interface's, a dash, and at least four digits that read back as the number |
| `Names.NameTellsNumber` | daemon/grpcwire/grpcwire.go:270-288 | equal names carry equal numbers, whatever pod and interface names they were made from |
| `Names.NamesNeverCollide` | daemon/grpcwire/grpcwire.go:270-288 | over any sequence of calls that a 64-bit counter can count, calls with equal names are the same call |
| `Names.WrappedCounterCollides` | daemon/grpcwire/grpcwire.go:45-50 | every number from 1000 on meets its opposite once the counter has wrapped, and the two can give the same name |
| `Names.NamesCollideExactlyWhen` | daemon/grpcwire/grpcwire.go:283-287 | two numbers can give the same name, for some pod and interface names, if and only if they are equal or opposite with at least four digits |
| `Names.NamesFitExactlyWhen` | daemon/grpcwire/grpcwire.go:283-287 | names of ASCII characters stay within 15 bytes for the first 9999 calls, and for long pod and interface names no further |

## Left out

- Bring-up covers veth and VXLAN links: macvlan and physical peers appear in `Reconcile` only, and clusters with
  unparsable addresses or properties, whose runs fail at once, are excluded.
- Bring-up starts from interface tables that do not yet hold the cluster's links; namespaces that migrate are covered
  by `Daemon.IndexCoversKernel` instead.
- Qdisc.Interface.SetVethQdiscs: specified for the lists that `MakeQdiscs` builds, a netem possibly followed by a token
  bucket, because no caller passes any other.
- Reconcile.Topology.AddLink: only the pod's own interfaces are tracked. A far end is taken to exist exactly when one of
  them is a veth to it, the VNI index is not tracked, and a VNI held by another namespace is one of the failures before an
  operation. `Net.SetupVethOutcome`, `Daemon.IndexCoversKernel` and `Daemon.UpdateIsNeverBlocked` cover these.
- ReconcileTheorems.IgnoredErrorsConvergeExactlyWhen: not stated where a left interface has the far end or VNI of an added
  link and the new list makes an interface under its name, because the outcome then depends on the order of the additions
  (`ReconcileOutcomes.OrderOfAdditionsMatters`).
- Reconcile.Topology.DelLink: the VNI index is not tracked; `Daemon.KubeDTN.DelLink` covers it.
- Daemon.Kernel.SetVethQdiscs: the qdiscs of interfaces that are neither veth nor VXLAN are not tracked, because the
  handlers only shape what they have made.
- The first read of an attempt (controllers/topology_controller.go:67) is taken as current; a read from the controller's
  cache may be older.
- `Reconcile` treats an unparsable address as one of the failures before an operation, and does not model a batch that
  goes on in the daemon after the controller gave up on the call, nor peers that move while attempts are repeated.
- The netem texts are parsed by library wrappers (`ParseDuration`, `ParseFloatPercentage`); the model takes their
  result as given.
- The lookup of the VXLAN source interface, and VTEP addresses beyond their text.
- `VxlanManager.Init`, `DestroyPod` and the contents of finalizers.
- The eBPF programs run one at a time, IPv4 headers have no options, a closed socket leaves the socket hash, and the
  debug map is ignored.
- gRPC wires, metrics, the topology manager, the CNI plugin, the command line and all loaders: plumbing and reporting,
  with little behaviour of their own.
- Kubernetes internals beyond resource versions: informers deliver some earlier version of an object, of any age.
