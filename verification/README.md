# andler: a verified model of the QEMU backend and its data paths

andler runs Linux and Android guests under QEMU. This project models, in Dafny,
the stateful core of its QEMU backend and the storage and stream algorithms
beside it, and proves what holds over every run, whichever step fails.

| file | what it models |
|---|---|
| `Qemu.dfy` | QEMU's named block nodes, netdevs and hot-plugged devices; each QMP command meets a fate (applied, refused, lost before or after taking effect, garbled) |
| `Snapshots.dfy` | live snapshots of one instance and the copy-on-write chain, with the guest writing between any two commands |
| `Hotplug.dfy` | connecting, the retry of `run_qmp_operation`, attach and detach |
| `HostNetwork.dfy` | host taps, set-up and tear-down of NICs |
| `Backend.dfy` | the class `QemuBackend` with its map of instances |
| `BackendCalls.dfy` | what each backend call answers, exactly, and what it leaves on the host, in QEMU and in the records |
| `BackendRuns.dfy`, `BackendGuests.dfy` | the tap ledger, isolation and guest disks over every run |
| `BackendDevices.dfy`, `HotplugOps.dfy` | which devices can be detached in which state; the daemon's list index |
| `QmpClient.dfy` | request/reply pairing on the QMP stream |
| `BaseImageCache.dfy` | the base-image cache, `resolve` and garbage collection |
| `OciLayout.dfy` | the OCI layout builder and verifier |
| `LogRing.dfy`, `LogFollow.dfy` | the daemon's log ring, its writer and follow mode |
| `Metrics.dfy`, `Console.dfy`, `Sizes.dfy`, `Readiness.dfy` | RPC metrics, console relay, size parsing, readiness ladder |
| `Cmdline.dfy` | device ids, ports and tap names at boot and on hot-plug |
| `Basics.dfy`, `Sorting.dfy` | numerals, bounded windows, string order, stable sort |

Code that changes state is a class or a method with loops, proved against a
specification function; the properties are lemmas about those functions. What
the environment decides (I/O results, fates of commands, the clock, poll
results) is a parameter, and every theorem holds for all of them. Guests act on
their own, writing their disk and letting go of devices they were asked for,
between any two commands of an operation as well as between operations; every
command and every act is on the log of the instance's wire.

## Where a plain promise fails, and exactly when

- `snapshot` records the new head only after both QMP answers arrived. The
  recorded head is the node the guest writes if and only if no switch command
  took effect with its answer lost or garbled; from then on every snapshot of
  that instance is refused, while the guest's data stays intact.
- `setup_bridge` fails without cleaning up when a call after `tuntap add` fails,
  `teardown_bridge` ignores the exit code of `ip link del`, and `stop` returns at
  the first tear-down error. Records account for every new tap if and only if
  none of these, and no spawn over a live handle, happened.
- `attach_network` has no roll-back in QEMU: a failed attach leaves QEMU as it
  was if and only if no `netdev_add` took effect; a netdev left behind makes its
  index unusable.
- `attach_disk` rolls back, but a device whose `device_add` answer is lost stays
  attached although the call reports a failure.
- An unplug time-out is treated as a lost connection, so the unplug runs twice.
- A NIC can be detached if and only if it was hot-plugged since the spawn and has
  not gone since. One that exists since boot has no device id, so no detach of it
  ever succeeds, in any state of any run.
- A disk can be detached if and only if its device is in and its node is named,
  and only hot-plugging names a node: one that exists since boot stands on a
  `-drive`. Detaching such a disk always fails, and yet takes the disk away once
  the guest lets go of it.
- The index of a NIC in the configured list moves when an earlier one is detached,
  its ids do not: after a detach another NIC can be attached if and only if the
  detached one was the last of the list, or the last one's netdev was gone.
- One read time-out on the QMP stream leaves the connection one reply behind for
  good.
- One round of cache cleaning is not always enough; two always are, whatever the
  listing order in between.
- Extra tap names fit 15 characters only for indices below 100, although the
  comment at backends/andler-qemu/src/cmdline.rs:93-97 promises it for all.
- The comment at backends/andler-qemu/src/backend.rs:573-576 speaks of 24 hex
  digits in a node name; the code keeps 24 characters, which for a hyphenated
  uuid are 20 digits and 4 hyphens. The model follows the code.
- `qemu_size_suffix` rounds sizes down to 1 MiB.

## Model

| member | source | states |
|---|---|---|
| `Snapshots.SnapshotRuns` | backends/andler-qemu/src/backend.rs:1161-1189 | over every run of snapshots, other QMP commands and guest acts with any fates, the guest's writes during a snapshot included: the overlay chain is well formed from `drive-disk0` to the written node, the recorded head is the written node iff no switch was lost, and with empty overlays the guest reads what a plain disk would hold and each frozen layer reads as the disk did at the switch that froze it |
| `Snapshots.SnapshotSucceedsIff` | backends/andler-qemu/src/backend.rs:1161-1189 | after any run a snapshot succeeds iff no switch was ever lost, it connects, its node name is free and both commands are carried out |
| `Snapshots.SnapshotOutcome` | backends/andler-qemu/src/backend.rs:1176-1187 | from an agreeing record one snapshot moves the disk iff it succeeds or loses the answer; from a disagreeing record nothing ever moves |
| `Snapshots.BackingWalksEnd` | backends/andler-qemu/src/qmp.rs:253-262 | any walk along backing links from the written node goes down the recorded chain node by node and is no longer than it, so no backing link leads anywhere else or in a circle |
| `Snapshots.NonEmptyOverlay` | backends/andler-qemu/src/qmp.rs:196-222 | a successful snapshot changes what the guest reads exactly where the overlay file disagrees with the disk as it was at the switch, so an empty one changes nothing |
| `Snapshots.LostSwitchWitness` | backends/andler-qemu/src/backend.rs:1184-1187 | one lost answer on a fresh instance already makes record and QEMU disagree |
| `Qemu.ExecKeepsContent` | backends/andler-qemu/src/qmp.rs:196-262 | no QMP command changes the chain below the written node, and none that switches in no content of its own changes the guest-visible disk |
| `Qemu.WalksFollowTheChain` | backends/andler-qemu/src/qmp.rs:253-262 | a backing walk and the chain visit the same nodes in opposite order |
| `Cmdline.SnapshotNodeNames` | backends/andler-qemu/src/backend.rs:573-585 | overlay node names fit 31 characters and clash iff the first 24 characters of the bare stems agree |
| `Hotplug.EnsureQmpConnected` | backends/andler-qemu/src/backend.rs:159-192 | connected iff a client was there or some attempt among 300 gets through after refusals by a live process; at most 300 attempts |
| `Hotplug.RunQmpOperation` | backends/andler-qemu/src/backend.rs:381-428 | no run iff it cannot connect, one where QEMU answered, a second iff the first lost the connection and QEMU is reached again; the result, the wire and the connection are those of the last run, and the reconnect count moves by one iff the first run lost it |
| `Hotplug.UnplugTraffic` | backends/andler-qemu/src/qmp.rs:448-502 | one hot-unplug with its retry sends at most 2 device deletes and 2*(ceil(timeout/250 ms)+1) backend deletes, and nothing else |
| `Hotplug.TimeoutIsRetried` | backends/andler-qemu/src/backend.rs:411-425 | a guest that never releases its device makes the whole unplug run twice |
| `Hotplug.DetachDevice` | backends/andler-qemu/src/qmp.rs:448-502 | success iff `device_del` was carried out and some delete of the poll loop was accepted, every earlier one having been refused as in use before the deadline; that delete ends the loop |
| `Hotplug.UnplugEndsIff` | backends/andler-qemu/src/qmp.rs:448-502 | with `device_del` accepted, an attempt succeeds iff some delete is carried out and every earlier one was refused as in use before the deadline, and it ends lost iff an answer was lost or a delete was refused as in use at or after the deadline |
| `Hotplug.ObeyedUnplugIff` | backends/andler-qemu/src/qmp.rs:448-502 | against an obedient QEMU an attempt on a device that alone holds its backend succeeds iff the guest lets go during some wait k with every earlier look at the clock before the deadline, and then after exactly k+1 deletes |
| `Hotplug.DetachOutcome` | backends/andler-qemu/src/backend.rs:1295-1313 | success means the target was there and it and every device on it are gone; on either outcome nothing else changed but by the guest |
| `Hotplug.AttachDiskOutcome` | backends/andler-qemu/src/backend.rs:1255-1293 | success iff both commands are carried out, at once or after a connection lost without leaving anything; the machine then has the disk, and a failure leaves nothing iff neither the node nor the device stayed |
| `Hotplug.AttachNetOutcome` | backends/andler-qemu/src/backend.rs:1351-1366 | success iff both commands are carried out, at once or after a connection lost before the first took effect; the machine then has the NIC, and a failure leaves nothing iff no `netdev_add` took effect: a netdev is never rolled back |
| `Hotplug.PoisonedIndex` | backends/andler-qemu/src/backend.rs:1351-1377 | a netdev left behind makes every later attach at its index fail and change nothing |
| `Hotplug.UnplugCanWork` | backends/andler-qemu/src/qmp.rs:448-502 | an unplug succeeds when QEMU obeys, the guest lets go and nothing else holds the target |
| `HostNetwork.Host.SetupBridge` | services/andler-net/src/lib.rs:81-111 | the taps after set-up and when it succeeds, for every failing `ip` call |
| `HostNetwork.Host.TeardownBridge` | services/andler-net/src/lib.rs:113-128 | the taps after tear-down and when it reports success, including the ignored exit code |
| `HostNetwork.SetupExtrasMakes` | backends/andler-qemu/src/backend.rs:790-809 | the set-up loop makes exactly the recorded taps, all new and distinct, plus at most the one whose set-up failed late; nothing isolated is recorded |
| `HostNetwork.TeardownAllRemoves` | backends/andler-qemu/src/backend.rs:360-374 | roll-back leaves exactly the taps whose tear-down does not delete them |
| `HostNetwork.StopLeaves` | backends/andler-qemu/src/backend.rs:1051-1085 | after `stop` the host holds everybody else's taps and those it leaked |
| `HostNetwork.StopForgetsTheRest` | backends/andler-qemu/src/backend.rs:1051-1085 | after the first tear-down error every later NIC's tap is forgotten |
| `Backend.QemuBackend.Spawn` | backends/andler-qemu/src/backend.rs:737-853 | the new state and error equal the specification for every failing step |
| `Backend.QemuBackend.Stop` | backends/andler-qemu/src/backend.rs:1026-1088 | the record goes first, then NICs are torn down up to the first error |
| `Backend.QemuBackend.AttachNetwork` | backends/andler-qemu/src/backend.rs:1315-1378 | refusals, host set-up, QMP operation, record or roll-back, as specified |
| `Backend.QemuBackend.DetachNetwork` | backends/andler-qemu/src/backend.rs:1380-1409 | a record is removed and its tap torn down only after QEMU let go |
| `Backend.QemuBackend.AttachDisk` | backends/andler-qemu/src/backend.rs:1255-1293 | runs the attach operation on the instance with one retry |
| `Backend.QemuBackend.DetachDisk` | backends/andler-qemu/src/backend.rs:1295-1313 | runs the detach operation on the instance with one retry |
| `Backend.QemuBackend.Snapshot` | backends/andler-qemu/src/backend.rs:1161-1189 | one instance changes as the one-instance snapshot does |
| `BackendCalls.AttachDiskCall` | backends/andler-qemu/src/backend.rs:1255-1293 | on a free slot the call succeeds iff QEMU is reached and both commands are carried out; then the instance's machine has the disk, and nothing else of the backend changes; a failure leaves nothing, the node, or both, and nothing iff no command's effect stayed |
| `BackendCalls.DetachDiskCall` | backends/andler-qemu/src/backend.rs:1295-1313 | the call succeeds iff the detach does on the first run, or on the second after a lost connection; device and node were in and are out |
| `BackendCalls.DetachDiskInTime` | backends/andler-qemu/src/backend.rs:1295-1313 | with an obedient QEMU and a guest that lets go before the deadline the call succeeds |
| `BackendCalls.AttachNetworkCall` | backends/andler-qemu/src/backend.rs:1315-1378 | on a free slot the call succeeds iff the primary NIC is not isolated, the host side comes up and both commands are carried out; then tap, record and NIC are those of the index; a failure leaves the record as it was |
| `BackendCalls.DetachNetworkCall` | backends/andler-qemu/src/backend.rs:1380-1409 | the call succeeds iff the detach does; then netdev and device are out, the first record of the id is gone and its tap as far as the host deletes it; a failure leaves record and taps |
| `BackendCalls.HotplugAnswers` | backends/andler-qemu/src/backend.rs:381-428 | an error past the host side is `ProcessNotRunning` iff a lost connection found the process gone and `Io` otherwise; the reconnect count moves iff a connection was lost |
| `BackendCalls.UnknownHandles` | backends/andler-qemu/src/backend.rs:1261-1264 | a hot-plug call on an unknown handle is refused and changes nothing |
| `BackendCalls.SnapshotCallIff` | backends/andler-qemu/src/backend.rs:1161-1189 | after every run the call succeeds iff no switch was lost since the spawn, QEMU is reached, the node name is free and both commands are carried out; the new node is then written and recorded |
| `BackendCalls.SpawnCall` | backends/andler-qemu/src/backend.rs:737-853 | the call succeeds iff configuration, directories, every NIC's host side and the launch do; the new instance runs the boot machine and records each NIC under its own id and tap, and a failure leaves all instances as they were |
| `BackendCalls.StopCallIff` | backends/andler-qemu/src/backend.rs:1026-1088 | after every run `stop` succeeds iff the handle is known, the process goes and each NIC goes down; the record is gone once the process is |
| `BackendCalls.RecordsOverRuns` | backends/andler-qemu/src/backend.rs:1366-1409 | in every reachable state each record names one NIC of its instance: id and tap belong to one index |
| `BackendRuns.TapConservation` | backends/andler-qemu/src/backend.rs:771-834 | over every run of all calls with any failures, the host's taps are the disjoint union of the original, the recorded and the leaked ones, each recorded once; records account for all new taps iff no call leaked |
| `BackendRuns.CleanRunsConserve` | backends/andler-qemu/src/backend.rs:1026-1088 | with unused handles, deleting tear-downs and no set-up failing after `tuntap add`, no other failure ever loses a tap |
| `BackendRuns.SpawnLedger` | backends/andler-qemu/src/backend.rs:767-853 | one spawn keeps the ledger, its roll-backs included |
| `BackendRuns.AttachLedger` | backends/andler-qemu/src/backend.rs:1335-1377 | one network attach keeps the ledger |
| `BackendRuns.DetachLedger` | backends/andler-qemu/src/backend.rs:1390-1409 | one network detach keeps the ledger |
| `BackendRuns.LateSetupLeaks` | services/andler-net/src/lib.rs:103-108 | a primary tap whose set-up fails after it was added stays on the host unrecorded |
| `BackendGuests.RunsReplay` | backends/andler-qemu/src/backend.rs:835-848 | every reachable instance is the machine its spawn launched with the events on its wire replayed: the backend refines the one-instance model |
| `BackendGuests.StepKeepsDisks` | backends/andler-qemu/src/backend.rs:1161-1410 | no backend call changes what a running guest reads except for what the guest writes during it |
| `BackendGuests.DisksConsistent` | backends/andler-qemu/src/backend.rs:835-848 | in every reachable state each guest reads its boot disk plus its own writes since its spawn, through a well-formed chain holding the recorded head, and each frozen layer reads as the disk did at its switch |
| `BackendGuests.HeadsExact` | backends/andler-qemu/src/backend.rs:1184-1187 | in every reachable state an instance's recorded head is the node its guest writes iff no switch was lost since its spawn |
| `BackendGuests.IsolationRuns` | backends/andler-qemu/src/backend.rs:1326-1331 | in every reachable state an isolated guest has no extra NIC and no extra NIC is isolated |
| `BackendGuests.SpawnNeverMeetsIsolatedExtra` | backends/andler-qemu/src/backend.rs:337-358 | after `build_args` succeeded the isolated case is unreachable: `InvalidConfig` only comes before anything was set up |
| `BackendDevices.DevicesOverRuns` | backends/andler-qemu/src/backend.rs:1255-1410 | in every reachable state what QEMU holds at an index is what boot put there, changed by the commands that took effect and the guest's letting go |
| `BackendDevices.NicDetachableIff` | backends/andler-qemu/src/backend.rs:1380-1409 | after every run some environment lets the detach of a NIC succeed iff one was hot-plugged at its index since the spawn and has not gone |
| `BackendDevices.BootNicsCannotBeDetached` | backends/andler-qemu/src/cmdline.rs:473-478 | in every state until stop or respawn, detaching a NIC that exists since boot fails in every environment and leaves record, tap and QEMU as they are |
| `BackendDevices.DiskDetachableIff` | backends/andler-qemu/src/backend.rs:1295-1313 | after every run some environment lets the detach of a disk succeed iff its device is in and its node is named |
| `BackendDevices.OnlyByHotplug` | backends/andler-qemu/src/qmp.rs:369-400 | a node is named, and a NIC is in, only by a hot-plug command of this session that took effect |
| `BackendDevices.BootDiskGoesYetFails` | backends/andler-qemu/src/cmdline.rs:352-372 | with no named node every detach of a disk fails, and removes the device where QEMU obeys and the guest lets go |
| `HotplugOps.CanAttachIff` | apps/daemon/src/daemon/hotplug_ops.rs:138-145 | some environment lets the next attach through iff the primary is not isolated, the mode can be attached and neither QEMU nor the host uses the list index |
| `HotplugOps.DetachThenAttachIff` | apps/daemon/src/daemon/hotplug_ops.rs:153-177 | after every run and a successful detach another NIC can be attached iff the detached one was the last of the list or the last one's netdev was gone |
| `HotplugOps.UsedIndexIsRefused` | apps/daemon/src/daemon/hotplug_ops.rs:138-145 | a bridged attach at a list index whose tap is still recorded fails and changes nothing |
| `HotplugOps.AttachTakesTheEnd` | apps/daemon/src/daemon/hotplug_ops.rs:126-152 | a NIC is attached at the index that is the list's length, and the list grows iff the backend succeeds |
| `HotplugOps.DetachNeedsAnIndex` | apps/daemon/src/daemon/hotplug_ops.rs:154-176 | an index outside the list is refused with nothing changed; inside it the NIC of that index is unplugged and the list shrinks iff that succeeds |
| `Cmdline.DiskArgs` | backends/andler-qemu/src/cmdline.rs:352-372 | disk i gets drive `drive-extra`i, device `extra`i and `root-port-`(i mod 8): the device id, port and name of the hot-plug path, on a `-drive` where hot-plug makes a named node |
| `Cmdline.NetworkArgs` | backends/andler-qemu/src/cmdline.rs:428-482 | an error iff an isolated NIC is not alone; otherwise NIC i has netdev `net-extra`i, port 8 + i mod 8 and, when bridged, its tap, as on hot-plug, but no device id |
| `Cmdline.MachinePorts` | backends/andler-qemu/src/cmdline.rs:160-172 | the sixteen root ports are declared in order |
| `Cmdline.IdsInjective` | backends/andler-qemu/src/cmdline.rs:70-82 | disk, device, netdev and port ids are injective in the index |
| `Cmdline.PortsDeclared` | backends/andler-qemu/src/qmp.rs:369-400 | every port named is declared: disks on 0-7, NICs on 8-15 |
| `Cmdline.PortsShared` | backends/andler-qemu/src/qmp.rs:369-400 | a disk and a NIC never share a port; two of a kind do iff their indices agree modulo 8 |
| `Cmdline.FirstEightApart` | backends/andler-qemu/src/cmdline.rs:162-163 | the first 8 devices of each kind never share a port |
| `Cmdline.TapNamesCollide` | backends/andler-qemu/src/cmdline.rs:84-101 | taps coincide iff prefix and slot agree; a primary tap is never an extra one |
| `Cmdline.TapNameFitsIfnamsiz` | backends/andler-qemu/src/cmdline.rs:93-101 | an extra tap name fits 15 characters iff its index is below 100 |
| `QmpClient.QmpClient.ReadReplySkippingEvents` | backends/andler-qemu/src/qmp.rs:644-653 | returns the first line that is no event and leaves what follows it |
| `QmpClient.QmpClient.ExecuteRaw` | backends/andler-qemu/src/qmp.rs:593-642 | one request written; the answer is `Ok(v)` iff the first reply among the lines is a return of v, the command's failure iff it is an error, a parse error iff it is neither; time-out and end of stream exactly when no reply comes; the later replies stay unread |
| `QmpClient.RepliesAre` | backends/andler-qemu/src/qmp.rs:644-653 | the replies of a stream are its lines that are no events, in order |
| `QmpClient.RepliesPair` | backends/andler-qemu/src/qmp.rs:593-653 | against a server that answers each command once among any events, the k-th command gets the k-th reply and none is left unread |
| `QmpClient.BehindByOne` | backends/andler-qemu/src/qmp.rs:612-625 | after the first time-out every later command gets the reply to the one before, for good |
| `BaseImageCache.GcCandidates` | core/andler-core/src/base_image.rs:399-475 | exactly both files of each complete image that is not the freshest of its version and variant, and each file whose stem no file of the other kind has, each once, ordered by label; empty iff every file is kept |
| `BaseImageCache.CollectCacheFiles` | core/andler-core/src/base_image.rs:284-332 | exactly the files of the root and of readable subdirectories, split by kind; an error iff the root cannot be listed |
| `BaseImageCache.ResolveImage` | core/andler-core/src/base_image.rs:227-241 | `None` iff no complete image has this version and variant; otherwise the place of one that none of them is newer than, the first listed among equals |
| `BaseImageCache.BestIsFreshest` | core/andler-core/src/base_image.rs:477-487 | the chosen image is in its group and none is fresher; none is chosen iff the group is empty |
| `BaseImageCache.TailIsStale` | core/andler-core/src/base_image.rs:415-429 | sorting a group and skipping one leaves exactly the images that are not its best |
| `BaseImageCache.CleanKeepsResolve` | core/andler-core/src/base_image.rs:477-487 | cleaning never changes the resolved image under stable listing order |
| `BaseImageCache.CleanKeepsBuildTime` | core/andler-core/src/base_image.rs:227-241 | under any listing orders the resolved build time stays the same |
| `BaseImageCache.CompleteIsNoOrphan` | core/andler-core/src/base_image.rs:431-471 | no file of a complete image is an orphan |
| `BaseImageCache.TwoRoundsSuffice` | core/andler-core/src/base_image.rs:399-475 | after two rounds there is nothing to remove, whatever order the directory is listed in for the second round and after it |
| `BaseImageCache.NothingWantedIff` | core/andler-core/src/base_image.rs:399-475 | there is nothing to remove iff no removal is wanted |
| `BaseImageCache.OneRoundIff` | core/andler-core/src/base_image.rs:431-471 | one round is enough iff no kept file has only stale counterparts |
| `BaseImageCache.OneRoundForDistinctStems` | core/andler-core/src/base_image.rs:431-471 | one round is enough when no stem occurs in two directories |
| `BaseImageCache.OneRoundWitness` | core/andler-core/src/base_image.rs:431-450 | a cache for which one round is not enough |
| `BaseImageCache.WantedIsNotKept` | apps/cli/src/cache.rs:129-148 | a file goes iff some wanted removal names it |
| `OciLayout.BuildLayer` | core/andler-core/src/oci_export.rs:268-367 | success iff every step succeeds; then exactly the finished layout and a report that is true of it; every failure is an I/O error; in every state on the way digest-named blobs hold their bytes, and from a start without blobs no layer verifies in any state before the rename |
| `OciLayout.StreamLayer` | core/andler-core/src/oci_export.rs:287-330 | the temporary file is the payload and the hasher absorbed its chunks in order |
| `OciLayout.AbsorbedIsWhole` | core/andler-core/src/oci_export.rs:295-318 | hashing by chunks is hashing the whole, for every chunking |
| `OciLayout.BuiltVerifies` | core/andler-core/src/oci_export.rs:373-462 | verifying a built directory returns the builder's report |
| `OciLayout.BuiltReportIsTrue` | core/andler-core/src/oci_export.rs:268-367 | in a built layout the index names the manifest and the manifest names config and layer, each by the digest and size of the bytes it holds |
| `OciLayout.AcceptedReportIsTrue` | core/andler-core/src/oci_export.rs:373-462 | an accepted report names the digests and sizes of the blobs that are there and chain from index to layer |
| `OciLayout.VerifyErrorsAre` | core/andler-core/src/oci_export.rs:373-462 | which error a directory that is not accepted gets |
| `OciLayout.NothingVerifiesBeforeTheRename` | core/andler-core/src/oci_export.rs:350-353 | in no state of a history that shows no new blob does a layer verify, from a start without blobs |
| `OciLayout.BlobsStaySound` | core/andler-core/src/oci_export.rs:262-264 | in every state of such a history each digest-named blob holds bytes with that digest |
| `OciLayout.BeforeTheRenameIff` | core/andler-core/src/oci_export.rs:336-353 | exporting over an older layout, the state just before the rename verifies for the new layer iff that was there already and for no other layer |
| `OciLayout.AcceptedIff` | core/andler-core/src/oci_export.rs:373-462 | compared with the built layout, a directory is accepted iff it can be read, marker and blob are the same, and config.json and the index digest are both the same or both changed and still fitting |
| `OciLayout.TamperingIsRejected` | core/andler-core/src/oci_export.rs:400-452 | without collisions an accepted directory has the built blob, and config.json and the index digest are changed both or not at all |
| `LogRing.Ring.Push` | apps/daemon/src/log_ring.rs:27-35 | the ring stays the last min(k, 4096) of k pushes and the channel gets every line |
| `LogRing.Ring.Snapshot` | apps/daemon/src/log_ring.rs:37-45 | exactly the ring's lines not older than the bound, in order |
| `LogRing.SinceAre` | apps/daemon/src/log_ring.rs:37-45 | filtering by time keeps each line as often as it stands in the ring iff it is not older, and no other |
| `LogRing.RingWriter.Write` | apps/daemon/src/log_ring.rs:85-99 | find-and-drain equals cutting character by character; non-blank completed lines are pushed in order |
| `LogRing.RingWriter.Flush` | apps/daemon/src/log_ring.rs:101-108 | an unfinished line is pushed as it is |
| `LogRing.ChunkingIndependence` | apps/daemon/src/log_ring.rs:85-99 | for every split into writes the pushed lines and the pending tail depend on the whole text only |
| `LogRing.LinesPartition` | apps/daemon/src/log_ring.rs:89-95 | lines and tail make up the text; each line ends at its only newline |
| `LogFollow.StreamIsOrderly` | apps/daemon/src/service.rs:754-788 | under every interleaving the streamed lines are pushed lines in order, none twice |
| `LogFollow.ReceiveMovesOn` | apps/daemon/src/service.rs:768-788 | a receive yields the next line, or after a lag goes on at the oldest line the channel still holds |
| `LogFollow.OnlyOverwrittenIsSkipped` | apps/daemon/src/service.rs:768-788 | a line skipped after the subscription was no longer among the last 1024 pushed |
| `LogFollow.SnapshotComesFirst` | apps/daemon/src/service.rs:754-768 | the stream starts with the ring as the snapshot found it, filtered by time; all that follows was pushed after the subscription |
| `LogFollow.StreamIsCompleteIff` | apps/daemon/src/service.rs:754-788 | with `since` 0 nothing is missing iff no push fell between snapshot and subscription and the receiver never lagged |
| `LogFollow.CaughtUpSeesEverything` | apps/daemon/src/service.rs:754-788 | a caught-up reader has seen the ring at the snapshot and every later push |
| `LogFollow.SnapshotIsTheRings` | apps/daemon/src/log_ring.rs:37-45 | the snapshot part of the stream is what the ring returns |
| `Metrics.DaemonMetrics.RecordRpc` | apps/daemon/src/metrics.rs:38-51 | each method keeps its last 4096 latencies and the counts by code sum to the calls |
| `Metrics.DaemonMetrics.Snapshot` | apps/daemon/src/metrics.rs:60-87 | exactly one entry for each method seen, with its percentiles, most calls first |
| `Metrics.ReportedPercentiles` | apps/daemon/src/metrics.rs:65-83 | both percentiles are members and order statistics of the window, p50 at most p99 |
| `Metrics.PercentileIsOrderStatistic` | apps/daemon/src/metrics.rs:67-76 | with rank the integer part of (n-1)*percent/100, at least rank+1 samples at or below and n-rank at or above |
| `Metrics.TotalBump` | apps/daemon/src/metrics.rs:47-50 | counting a call adds one to the sum over all codes |
| `Metrics.LatenciesAre` | apps/daemon/src/metrics.rs:38-46 | a method's latencies are those of its calls, each at its place in call order |
| `Metrics.CountsAre` | apps/daemon/src/metrics.rs:47-50 | a code's count is the number of calls with it, where a call without a code is `OK` |
| `Console.PumpConsole` | apps/cli/src/connect.rs:383-448 | every serial byte read is relayed once and in order and the guest gets exactly the bytes read before the first detach key, for every schedule; each outcome says what the last poll met and how many bytes each side had read; failed writes deliver prefixes |
| `Console.ReadsAllOffered` | apps/cli/src/connect.rs:421-432 | over polls that end nothing the bytes read add up to those offered, so the session stays attached and relays them |
| `Console.DetachAt` | apps/cli/src/connect.rs:379-381 | the first detach key, if there is one |
| `Console.KeyNeverSent` | apps/cli/src/connect.rs:432-440 | the key is never sent and what is sent depends on what was typed only |
| `Sizes.ParseIsExact` | apps/cli/src/helpers.rs:85-132 | `Ok(v)` iff the text is digits and a unit and v is number times 1024^p below 2^64, where p is 0 for no unit or B and 1 to 4 for K, M, G, T alone, with B or with IB |
| `Sizes.ParseErrors` | apps/cli/src/helpers.rs:85-132 | which error each rejected text gets, exactly |
| `Sizes.PaddingIgnored` | apps/cli/src/helpers.rs:85-89 | white space around a text changes nothing |
| `Sizes.SizeRoundTrip` | apps/cli/src/helpers.rs:142-163 | printed sizes are read back as themselves iff below 1 KiB or a multiple of 1 MiB, and rejected otherwise |
| `Sizes.FractionForm` | apps/cli/src/helpers.rs:142-163 | a size that is no multiple of 1 MiB is shown with one decimal in the largest unit up to GiB that it reaches |
| `Sizes.QemuSizeRoundsDown` | backends/andler-qemu/src/cmdline.rs:595-604 | the argument means the size rounded down to 1 MiB |
| `Readiness.ReadinessLadder.Observe` | core/andler-core/src/events.rs:185-204 | one probe raises the position or leaves it, and reports only a rise |
| `Readiness.ReadinessLadder.Pending` | core/andler-core/src/events.rs:233-251 | the levels above the position |
| `Readiness.ClimbIsTheJoin` | core/andler-core/src/events.rs:157-205 | after any run the position is the strongest accepted level ever ready |
| `Readiness.OrderIrrelevant` | core/andler-core/src/events.rs:157-165 | order and repetition of observations do not matter |
| `Readiness.AdvancesIncrease` | core/andler-core/src/events.rs:183-204 | advances are strictly increasing and end at the position |
| `Readiness.AdvancesBounded` | core/andler-core/src/events.rs:183-204 | a run advances at most once per level of its profile |
| `Readiness.PendingIsTheRest` | core/andler-core/src/events.rs:229-251 | pending is exactly the suffix above the position and empty iff terminal |
| `Readiness.TheLadder` | core/andler-core/src/events.rs:96-140 | the five levels in order, the last accepted for Waydroid only, and which of them is terminal |

## Left out

- `adopt` and `resolve_owner_pid`: they scan `/proc` and match file names; every
  instance of the model was spawned.
- Sockets, processes, signals, timers and locks: success, failure and time are
  parameters; backend calls are serial because the instance map is locked.
- `HotplugOps.DetachThenAttachIff`: storing the changed configuration always
  succeeds, and the instance states that allow hot-plugging are not modelled.
- QEMU reserves the id of a boot-time `-drive` for node names; here only the fate of
  a command can refuse a clashing `blockdev-add`.
- `pause`, `resume`, `status`, guest-agent commands, block jobs and event readers.
- The interface of an isolated guest: its set-up and tear-down are an outcome,
  and the taps of the model are bridge taps only.
- `Snapshots.SnapshotRuns`: other operations may send any command except
  `blockdev-snapshot`, which only `snapshot` sends; a guest act is a write to the
  disk or letting go of a device, and guests of other instances act between calls.
- `Hotplug.UnplugTraffic`: the clock after k sleeps is k times 250 ms plus any
  amount; message texts behind "in use" are an answer of the environment.
- `QmpClient.BehindByOne`: a time-out that cuts a line in half is not modelled;
  lines are whole.
- Cache entries with names that are not UTF-8, and directories named like files.
- `BaseImageCache.GcCandidates`: lower-casing of the variant in labels is ASCII;
  one listing serves both scans of a call.
- SHA-256 and JSON: abstract functions with stated laws; the conformance of the
  layout to the OCI Image Specification is not claimed.
- `LogRing.RingWriter.Write`: text is already decoded and stdout takes each write
  whole.
- `Metrics.DaemonMetrics.Snapshot`: the percentile index is the integer part of
  (n-1)*q, and the list of counts by code and the gauges are not built.
- `Sizes.SizeRoundTrip`: the rounding of `{:.1}` is any function, and upper-casing
  beyond ASCII is any mapping of characters to strings.
- The rest of the QEMU command line, configuration parsing and validation, the
  supervisor, snapshot restore and delete, and all CLI presentation.
