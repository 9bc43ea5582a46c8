/** Which extra NICs and disks of a running instance can be detached: what is
    plugged in at each index is a matter of the commands sent and the guest's
    acts since the spawn, and devices that exist since boot are another matter
    than hot-plugged ones. */
module BackendDevices {
  import opened Basics
  import opened Cmdline
  import opened Qemu
  import opened Hotplug
  import opened HostNetwork
  import opened Backend
  import opened BackendRuns
  import opened BackendGuests
  import S = Snapshots

  lemma DeviceIdsApart(i: nat, j: nat)
    ensures ExtraNetId(i) != ExtraDiskDeviceId(j)
  {
    assert ExtraNetId(i)[0] == 'n' && ExtraDiskDeviceId(j)[0] == 'e';
  }

  // ----- the shape of the device table -----

  ghost predicate DiskPair(node: string, device: string) {
    exists i: nat :: node == ExtraDiskDriveId(i) && device == ExtraDiskDeviceId(i)
  }

  ghost predicate WellBacked(m: Machine, d: string)
    requires d in m.devices
  {
    match m.devices[d].backend
    case Net(n) => n == d && d in m.netdevs && exists i: nat :: d == ExtraNetId(i)
    case Block(n) => DiskPair(n, d)
    case BootDrive(n) => DiskPair(n, d)
  }

  /** Nodes the main disk consists of. */
  ghost predicate MainDiskNode(n: string) {
    n == DISK_DEVICE || exists stem :: n == SnapshotNodeName(stem)
  }

  ghost predicate Shaped(m: Machine) {
    && MainDiskNode(m.root)
    && (forall p :: p in m.nodes && m.nodes[p].backing.Some? ==> MainDiskNode(m.nodes[p].backing.value))
    && (forall d :: d in m.devices ==> WellBacked(m, d))
  }

  /** Extra disks stand apart from the main disk's chain. */
  lemma ExtraNodesApart(m: Machine, i: nat)
    requires Shaped(m)
    ensures ExtraDiskDriveId(i) != m.root && !IsBacking(m, ExtraDiskDriveId(i))
  {
    forall n | MainDiskNode(n) ensures n != ExtraDiskDriveId(i) {
      NodeNamesApart(i, "");
      if stem :| n == SnapshotNodeName(stem) { NodeNamesApart(i, stem); }
    }
  }

  lemma HoldersOfNet(m: Machine, i: nat, d: string)
    requires Shaped(m) && d in m.devices
    ensures m.devices[d].backend == Net(ExtraNetId(i)) <==> d == ExtraNetId(i)
  {
    assert WellBacked(m, d);
    if d == ExtraNetId(i) && !m.devices[d].backend.Net? {
      var j: nat :| d == ExtraDiskDeviceId(j);
      DeviceIdsApart(i, j);
    }
  }

  lemma HoldersOfNode(m: Machine, i: nat, d: string)
    requires Shaped(m) && d in m.devices && m.devices[d].backend == Block(ExtraDiskDriveId(i))
    ensures d == ExtraDiskDeviceId(i)
  {
    assert WellBacked(m, d);
    var j: nat :| ExtraDiskDriveId(i) == ExtraDiskDriveId(j) && d == ExtraDiskDeviceId(j);
    IdsInjective(i, j);
  }

  // ----- one NIC index -----

  datatype Slot = Out | In | Leaving

  datatype NicState = NicState(netdev: bool, device: Slot)

  ghost function SlotOf(m: Machine, d: string): Slot {
    if d !in m.devices then Out else if m.devices[d].unplugging then Leaving else In
  }

  ghost function NicOf(m: Machine, i: nat): NicState {
    NicState(ExtraNetId(i) in m.netdevs, SlotOf(m, ExtraNetId(i)))
  }

  /** The same told by commands and their fates alone. */
  ghost function NicTold(n: NicState, i: nat, c: Command, f: Fate): NicState {
    if !TookEffect(f) then n
    else if c == NetdevAdd(ExtraNetId(i)) then n.(netdev := true)
    else if c == NetdevDel(ExtraNetId(i)) && n.device.Out? then n.(netdev := false)
    else if c.DeviceAdd? && c.id == ExtraNetId(i) && n.netdev && n.device.Out? then n.(device := In)
    else if c == DeviceDel(ExtraNetId(i)) && !n.device.Out? then n.(device := Leaving)
    else n
  }

  ghost function NicActs(n: NicState, i: nat, acts: seq<GuestAct>): NicState {
    if n.device.Leaving? && LetGo(ExtraNetId(i)) in acts then n.(device := Out) else n
  }

  /** What hot-plugging has made of the NIC at index `i`, from the log. */
  ghost function NicHistory(boot: NicState, i: nat, log: seq<S.Event>): NicState {
    if log == [] then boot
    else
      var n, e := NicHistory(boot, i, log[..|log| - 1]), log[|log| - 1];
      if e.Other? then NicTold(n, i, e.command, e.fate) else NicActs(n, i, S.ActsOf(e))
  }

  // ----- one disk index -----

  datatype Seat = Empty | OnDrive(leaving: bool) | OnNode(leaving: bool)

  /** Whether the node name of hot-plugged disk `i` exists, and what its device
      stands on. */
  datatype DiskState = DiskState(named: bool, device: Seat)

  ghost function DiskAt(m: Machine, i: nat): DiskState {
    var d := ExtraDiskDeviceId(i);
    DiskState(ExtraDiskDriveId(i) in m.nodes,
              if d !in m.devices then Empty
              else if m.devices[d].backend.Block? then OnNode(m.devices[d].unplugging) else OnDrive(m.devices[d].unplugging))
  }

  ghost function DiskTold(s: DiskState, i: nat, c: Command, f: Fate): DiskState {
    if !TookEffect(f) then s
    else if c.BlockdevAdd? && c.node == ExtraDiskDriveId(i) then s.(named := true)
    else if c == BlockdevDel(ExtraDiskDriveId(i)) && !s.device.OnNode? then s.(named := false)
    else if c.DeviceAdd? && c.id == ExtraDiskDeviceId(i) && s.named && s.device.Empty? then s.(device := OnNode(false))
    else if c == DeviceDel(ExtraDiskDeviceId(i)) && !s.device.Empty? then s.(device := s.device.(leaving := true))
    else s
  }

  ghost function DiskActs(s: DiskState, i: nat, acts: seq<GuestAct>): DiskState {
    if !s.device.Empty? && s.device.leaving && LetGo(ExtraDiskDeviceId(i)) in acts then s.(device := Empty) else s
  }

  ghost function DiskHistory(boot: DiskState, i: nat, log: seq<S.Event>): DiskState {
    if log == [] then boot
    else
      var s, e := DiskHistory(boot, i, log[..|log| - 1]), log[|log| - 1];
      if e.Other? then DiskTold(s, i, e.command, e.fate) else DiskActs(s, i, S.ActsOf(e))
  }

  // ----- one command, one stretch of guest acts -----

  lemma {:induction false} IssueShaped(m: Machine, c: Command, f: Fate)
    requires Shaped(m) && HotplugCommand(c)
    ensures Shaped(Issue(m, c, f).machine)
  {
    var n := Issue(m, c, f).machine;
    forall d | d in n.devices ensures WellBacked(n, d) {
      if d in m.devices {
        assert WellBacked(m, d);
        if c.NetdevDel? && n != m && c.id == d {
          assert m.devices[d].backend == Net(d) ==> HasDevice(m, Net(d));
        }
      } else {
        var i: nat :| (c.id == ExtraNetId(i) && c.backend == Net(c.id))
                      || (c.id == ExtraDiskDeviceId(i) && c.backend == Block(ExtraDiskDriveId(i)));
      }
    }
  }

  lemma IssueNic(m: Machine, c: Command, f: Fate, i: nat)
    requires Shaped(m) && HotplugCommand(c)
    ensures NicOf(Issue(m, c, f).machine, i) == NicTold(NicOf(m, i), i, c, f)
  {
    if c.DeviceAdd? { IssueNicAdd(m, c, f, i); } else if c.NetdevDel? { NicHolder(m, i); }
  }

  lemma IssueNicAdd(m: Machine, c: Command, f: Fate, i: nat)
    requires Shaped(m) && HotplugCommand(c) && c.DeviceAdd?
    ensures NicOf(Issue(m, c, f).machine, i) == NicTold(NicOf(m, i), i, c, f)
  {
    if c.id == ExtraNetId(i) {
      forall j: nat ensures c.id != ExtraDiskDeviceId(j) { DeviceIdsApart(i, j); }
      assert c.backend == Net(c.id);
      NicHolder(m, i);
    }
  }

  lemma NicHolder(m: Machine, i: nat)
    requires Shaped(m)
    ensures HasDevice(m, Net(ExtraNetId(i))) <==> ExtraNetId(i) in m.devices
  {
    if ExtraNetId(i) in m.devices { HoldersOfNet(m, i, ExtraNetId(i)); }
    forall d | d in m.devices && m.devices[d].backend == Net(ExtraNetId(i)) ensures d == ExtraNetId(i) {
      HoldersOfNet(m, i, d);
    }
  }

  lemma {:induction false} IssueDisk(m: Machine, c: Command, f: Fate, i: nat)
    requires Shaped(m) && HotplugCommand(c)
    ensures DiskAt(Issue(m, c, f).machine, i) == DiskTold(DiskAt(m, i), i, c, f)
  {
    if c.DeviceAdd? {
      IssueDeviceAdd(m, c, f, i);
    } else if c.BlockdevDel? {
      ExtraNodesApart(m, i);
      DiskHolder(m, i);
    }
  }

  lemma IssueDeviceAdd(m: Machine, c: Command, f: Fate, i: nat)
    requires Shaped(m) && HotplugCommand(c) && c.DeviceAdd?
    ensures DiskAt(Issue(m, c, f).machine, i) == DiskTold(DiskAt(m, i), i, c, f)
  {
    var drive, device := ExtraDiskDriveId(i), ExtraDiskDeviceId(i);
    if c.id == device {
      forall j: nat | c.id == ExtraDiskDeviceId(j) ensures j == i { IdsInjective(i, j); }
      forall j: nat ensures c.id != ExtraNetId(j) { DeviceIdsApart(j, i); }
      assert c.backend == Block(drive);
      DiskHolder(m, i);
    }
  }

  lemma DiskHolder(m: Machine, i: nat)
    requires Shaped(m)
    ensures HasDevice(m, Block(ExtraDiskDriveId(i))) <==> DiskAt(m, i).device.OnNode?
  {
    var device := ExtraDiskDeviceId(i);
    forall d | d in m.devices && m.devices[d].backend == Block(ExtraDiskDriveId(i)) ensures d == device {
      HoldersOfNode(m, i, d);
    }
    if DiskAt(m, i).device.OnNode? {
      assert WellBacked(m, device);
      var j: nat :| m.devices[device].backend == Block(ExtraDiskDriveId(j)) && device == ExtraDiskDeviceId(j);
      IdsInjective(i, j);
    }
  }

  lemma GuestShaped(m: Machine, acts: seq<GuestAct>, i: nat)
    requires Shaped(m)
    ensures var n := AfterGuest(m, acts);
            && Shaped(n) && NicOf(n, i) == NicActs(NicOf(m, i), i, acts) && DiskAt(n, i) == DiskActs(DiskAt(m, i), i, acts)
  {
    var n := AfterGuest(m, acts);
    GuestsKeep(m, acts);
    forall d | d in n.devices ensures WellBacked(n, d) { assert WellBacked(m, d); }
    Lets(m, acts, ExtraNetId(i));
    Lets(m, acts, ExtraDiskDeviceId(i));
  }

  lemma Lets(m: Machine, acts: seq<GuestAct>, d: string)
    ensures d in AfterGuest(m, acts).devices <==> d in m.devices && !(m.devices[d].unplugging && LetGo(d) in acts)
    ensures d in AfterGuest(m, acts).devices ==> AfterGuest(m, acts).devices[d] == m.devices[d]
  {
    GuestsKeep(m, acts);
    if d in m.devices && m.devices[d].unplugging && LetGo(d) in acts { LetGoGoes(m, acts, d); }
  }

  /** Adding an overlay and switching to it touch no extra device. */
  lemma OverlayBesideExtras(m: Machine, c: Command, f: Fate, stem: string, i: nat)
    requires Shaped(m)
    requires (c.BlockdevAdd? && c.node == SnapshotNodeName(stem))
             || (c.BlockdevSnapshot? && MainDiskNode(c.node) && c.overlay == SnapshotNodeName(stem))
    ensures var n := Issue(m, c, f).machine;
            && Shaped(n) && NicOf(n, i) == NicOf(m, i) && DiskAt(n, i) == DiskAt(m, i)
  {
    NodeNamesApart(i, stem);
    if c.BlockdevAdd? {
      OverlayAddShaped(m, c, f, stem);
    } else {
      OverlaySwitchShaped(m, c, f, stem);
    }
  }

  lemma OverlayAddShaped(m: Machine, c: Command, f: Fate, stem: string)
    requires Shaped(m) && c.BlockdevAdd? && c.node == SnapshotNodeName(stem)
    ensures Shaped(Issue(m, c, f).machine)
  {
    var n := Issue(m, c, f).machine;
    forall d | d in n.devices ensures WellBacked(n, d) { assert WellBacked(m, d); }
  }

  lemma {:induction false} OverlaySwitchShaped(m: Machine, c: Command, f: Fate, stem: string)
    requires Shaped(m) && c.BlockdevSnapshot? && MainDiskNode(c.node) && c.overlay == SnapshotNodeName(stem)
    ensures var n := Issue(m, c, f).machine;
            Shaped(n) && n.devices == m.devices && n.netdevs == m.netdevs && n.nodes.Keys == m.nodes.Keys
  {
    var n := Issue(m, c, f).machine;
    assert MainDiskNode(c.overlay);
    forall d | d in m.devices ensures m.devices[d].backend != Block(c.node) { NotOnTheMainDisk(m, d, c.node); }
    assert n.devices == m.devices;
    forall d | d in n.devices ensures WellBacked(n, d) { assert WellBacked(m, d); }
  }

  lemma NotOnTheMainDisk(m: Machine, d: string, n: string)
    requires Shaped(m) && d in m.devices && MainDiskNode(n)
    ensures m.devices[d].backend != Block(n)
  {
    assert WellBacked(m, d);
    if m.devices[d].backend == Block(n) {
      var i: nat :| n == ExtraDiskDriveId(i) && d == ExtraDiskDeviceId(i);
      NodeNamesApart(i, "");
      if stem :| n == SnapshotNodeName(stem) { NodeNamesApart(i, stem); }
    }
  }

  // ----- every run of one instance -----

  ghost predicate SessionShaped(s: S.Session) { Shaped(s.machine) && MainDiskNode(s.head) }

  lemma SnapshotBesideExtras(s: S.Session, e: S.Event, i: nat)
    requires SessionShaped(s) && e.Snapshot?
    ensures var n := S.Step(s, e);
            && SessionShaped(n) && NicOf(n.machine, i) == NicActs(NicOf(s.machine, i), i, S.ActsOf(e))
            && DiskAt(n.machine, i) == DiskActs(DiskAt(s.machine, i), i, S.ActsOf(e))
  {
    if e.connects {
      var name := SnapshotNodeName(e.stem);
      var added := Issue(s.machine, BlockdevAdd(name, e.file), e.add).machine;
      OverlayBesideExtras(s.machine, BlockdevAdd(name, e.file), e.add, e.stem, i);
      GuestShaped(added, e.acts, i);
      OverlayBesideExtras(AfterGuest(added, e.acts), BlockdevSnapshot(s.head, name), e.switch, e.stem, i);
      assert MainDiskNode(name);
    }
  }

  lemma EventTells(s: S.Session, e: S.Event, i: nat)
    requires SessionShaped(s) && BackendEvent(e)
    ensures var n := S.Step(s, e);
            && SessionShaped(n)
            && NicOf(n.machine, i) == (if e.Other? then NicTold(NicOf(s.machine, i), i, e.command, e.fate)
                                       else NicActs(NicOf(s.machine, i), i, S.ActsOf(e)))
            && DiskAt(n.machine, i) == (if e.Other? then DiskTold(DiskAt(s.machine, i), i, e.command, e.fate)
                                        else DiskActs(DiskAt(s.machine, i), i, S.ActsOf(e)))
  {
    match e
    case Snapshot(_, _, _, _, _, _) => SnapshotBesideExtras(s, e, i);
    case Guest(acts) => GuestShaped(s.machine, acts, i);
    case Other(c, f) =>
      IssueShaped(s.machine, c, f);
      IssueNic(s.machine, c, f, i);
      IssueDisk(s.machine, c, f, i);
  }

  lemma {:induction false} HistoriesTell(boot: S.Session, log: seq<S.Event>, i: nat)
    requires SessionShaped(boot) && forall e :: e in log ==> BackendEvent(e)
    ensures var n := S.Run(boot, log);
            && SessionShaped(n)
            && NicOf(n.machine, i) == NicHistory(NicOf(boot.machine, i), i, log)
            && DiskAt(n.machine, i) == DiskHistory(DiskAt(boot.machine, i), i, log)
  {
    if log != [] {
      HistoriesTell(boot, log[..|log| - 1], i);
      EventTells(S.Run(boot, log[..|log| - 1]), log[|log| - 1], i);
    }
  }

  // ----- every run of the backend -----

  ghost function BootNic(cfg: InstanceConfig, i: nat): NicState { NicState(i < |cfg.extraNetworks|, Out) }

  ghost function BootDisk(cfg: InstanceConfig, i: nat): DiskState {
    DiskState(false, if i < cfg.extraDisks then OnDrive(false) else Empty)
  }

  lemma {:induction false} BootNetdevsAre(nics: nat, i: nat)
    ensures ExtraNetId(i) in BootNetdevs(nics) <==> i < nics
  {
    if nics > 0 {
      BootNetdevsAre(nics - 1, i);
      IdsInjective(i, nics - 1);
    }
  }

  lemma {:induction false} BootDevicesAre(disks: nat, i: nat)
    ensures forall d :: d in BootDevices(disks) ==>
              exists j: nat :: j < disks && d == ExtraDiskDeviceId(j) && BootDevices(disks)[d] == Device(BootDrive(ExtraDiskDriveId(j)), false)
    ensures ExtraDiskDeviceId(i) in BootDevices(disks) <==> i < disks
  {
    if disks > 0 {
      BootDevicesAre(disks - 1, i);
      IdsInjective(i, disks - 1);
      assert disks - 1 < disks;
    }
  }

  lemma BootShaped(cfg: InstanceConfig, i: nat)
    ensures SessionShaped(Boot(cfg))
    ensures NicOf(Boot(cfg).machine, i) == BootNic(cfg, i) && DiskAt(Boot(cfg).machine, i) == BootDisk(cfg, i)
  {
    var m := BootMachine(cfg);
    BootNetdevsAre(|cfg.extraNetworks|, i);
    BootDevicesAre(cfg.extraDisks, i);
    NodeNamesApart(i, "");
    if ExtraNetId(i) in m.devices {
      var j: nat :| ExtraNetId(i) == ExtraDiskDeviceId(j);
      DeviceIdsApart(i, j);
    }
    forall d | d in m.devices ensures WellBacked(m, d) {
      var j: nat :| d == ExtraDiskDeviceId(j) && m.devices[d] == Device(BootDrive(ExtraDiskDriveId(j)), false);
      assert DiskPair(ExtraDiskDriveId(j), d);
    }
  }

  /** The NIC at index `i` as the log tells it. */
  ghost function NicNow(taps: set<string>, calls: seq<Call>, h: string, i: nat): NicState
    requires h in Run(Start(taps), calls).instances && Config(taps, calls, h).Some?
  {
    NicHistory(BootNic(Config(taps, calls, h).value, i), i, Run(Start(taps), calls).instances[h].wire.log)
  }

  ghost function DiskNow(taps: set<string>, calls: seq<Call>, h: string, i: nat): DiskState
    requires h in Run(Start(taps), calls).instances && Config(taps, calls, h).Some?
  {
    DiskHistory(BootDisk(Config(taps, calls, h).value, i), i, Run(Start(taps), calls).instances[h].wire.log)
  }

  /** In every reachable state, what QEMU holds at an index is what boot put
      there as changed by the commands that took effect since and by the
      guest's letting go. */
  lemma DevicesOverRuns(taps: set<string>, calls: seq<Call>, h: string, i: nat)
    requires h in Run(Start(taps), calls).instances
    ensures Config(taps, calls, h).Some?
    ensures var inst, cfg := Run(Start(taps), calls).instances[h], Config(taps, calls, h).value;
            && Shaped(inst.wire.machine)
            && NicOf(inst.wire.machine, i) == NicNow(taps, calls, h, i)
            && DiskAt(inst.wire.machine, i) == DiskNow(taps, calls, h, i)
  {
    RunsReplay(taps, calls, h);
    BootShaped(Config(taps, calls, h).value, i);
    HistoriesTell(Boot(Config(taps, calls, h).value), Run(Start(taps), calls).instances[h].wire.log, i);
  }

  // ----- detaching -----

  /** A connection that comes up at once. */
  ghost function GoodLink(): Link {
    var dial := Dial((k: nat) => Connected, (k: nat) => true);
    Link(dial, true, dial)
  }

  /** An environment in which QEMU obeys and the guest lets go of `device`. */
  ghost function GoodEnv(device: string): Env {
    Env((a: nat, k: nat) => Applied, (a: nat, k: nat) => [LetGo(device)], (a: nat, k: nat) => false, (a: nat, k: nat) => 0)
  }

  lemma GoodLinkConnects()
    ensures Connects(GoodLink().first)
  {
    assert GoodLink().first.attempt(0).Connected?;
  }

  lemma DetachCanWork(w: Wire, client: bool, device: string, del: Command)
    requires (del.BlockdevDel? || del.NetdevDel?) && device in w.machine.devices && OnlyHeldBy(w.machine, device, del)
    ensures RunOp(w, client, GoodLink(), DetachOp(device, del, UNPLUG_TIMEOUT_MS, GoodEnv(device))).ok
  {
    GoodLinkConnects();
    assert LetGo(device) in GoodEnv(device).acts(0, 0);
    UnplugCanWork(w, client, GoodLink(), device, del, UNPLUG_TIMEOUT_MS, GoodEnv(device));
  }

  /** A NIC can be detached at all, whatever the guest and QEMU do, exactly when
      one was hot-plugged at its index since the spawn and has not gone since. */
  lemma NicDetachableIff(taps: set<string>, calls: seq<Call>, h: string, i: nat, host: HostEnv)
    requires h in Run(Start(taps), calls).instances && Config(taps, calls, h).Some?
    ensures (exists link, env :: DetachNetworkSpec(Run(Start(taps), calls), h, i, host, link, env).error.None?)
       <==> NicNow(taps, calls, h, i).device != Out
  {
    DevicesOverRuns(taps, calls, h, i);
    NicDetachable(Run(Start(taps), calls), h, i, host);
  }

  lemma NicDetachable(s: State, h: string, i: nat, host: HostEnv)
    requires h in s.instances && Shaped(s.instances[h].wire.machine)
    ensures (exists link, env :: DetachNetworkSpec(s, h, i, host, link, env).error.None?)
       <==> ExtraNetId(i) in s.instances[h].wire.machine.devices
  {
    var id, inst := ExtraNetId(i), s.instances[h];
    if id in inst.wire.machine.devices {
      HoldersOfNet(inst.wire.machine, i, id);
      assert WellBacked(inst.wire.machine, id);
      forall d | d in inst.wire.machine.devices && inst.wire.machine.devices[d].backend == Net(id) ensures d == id {
        HoldersOfNet(inst.wire.machine, i, d);
      }
      DetachCanWork(inst.wire, inst.client, id, NetdevDel(id));
      assert DetachNetworkSpec(s, h, i, host, GoodLink(), GoodEnv(id)).error.None?;
    }
    forall link, env | DetachNetworkSpec(s, h, i, host, link, env).error.None? ensures id in inst.wire.machine.devices {
      DetachOutcome(inst.wire, inst.client, link, id, NetdevDel(id), UNPLUG_TIMEOUT_MS, env);
    }
  }

  /** A disk can be detached at all exactly when its device is in and its node is
      named, and only hot-plugging names a node. */
  lemma DiskDetachableIff(taps: set<string>, calls: seq<Call>, h: string, i: nat)
    requires h in Run(Start(taps), calls).instances && Config(taps, calls, h).Some?
    ensures (exists link, env :: DetachDiskSpec(Run(Start(taps), calls), h, i, link, env).error.None?)
       <==> DiskNow(taps, calls, h, i).named && DiskNow(taps, calls, h, i).device != Empty
  {
    DevicesOverRuns(taps, calls, h, i);
    DiskDetachable(Run(Start(taps), calls), h, i);
  }

  lemma DiskDetachable(s: State, h: string, i: nat)
    requires h in s.instances && Shaped(s.instances[h].wire.machine)
    ensures (exists link, env :: DetachDiskSpec(s, h, i, link, env).error.None?)
       <==> ExtraDiskDriveId(i) in s.instances[h].wire.machine.nodes && ExtraDiskDeviceId(i) in s.instances[h].wire.machine.devices
  {
    var drive, device, inst := ExtraDiskDriveId(i), ExtraDiskDeviceId(i), s.instances[h];
    var m := inst.wire.machine;
    if drive in m.nodes && device in m.devices {
      ExtraNodesApart(m, i);
      forall d | d in m.devices && m.devices[d].backend == Block(drive) ensures d == device { HoldersOfNode(m, i, d); }
      DetachCanWork(inst.wire, inst.client, device, BlockdevDel(drive));
      assert DetachDiskSpec(s, h, i, GoodLink(), GoodEnv(device)).error.None?;
    }
    forall link, env | DetachDiskSpec(s, h, i, link, env).error.None? ensures drive in m.nodes && device in m.devices {
      DetachOutcome(inst.wire, inst.client, link, device, BlockdevDel(drive), UNPLUG_TIMEOUT_MS, env);
    }
  }

  /** A node is named, and a NIC is in, only by a command of a hot-plug in this
      session that took effect. */
  lemma {:induction false} OnlyByHotplug(nic: NicState, disk: DiskState, i: nat, log: seq<S.Event>)
    requires nic.device.Out? && !disk.named
    ensures DiskHistory(disk, i, log).named ==>
      exists e :: e in log && e.Other? && e.command.BlockdevAdd? && e.command.node == ExtraDiskDriveId(i) && TookEffect(e.fate)
    ensures !NicHistory(nic, i, log).device.Out? ==>
      exists e :: e in log && e.Other? && e.command.DeviceAdd? && e.command.id == ExtraNetId(i) && TookEffect(e.fate)
  {
    if log != [] {
      OnlyByHotplug(nic, disk, i, log[..|log| - 1]);
      assert log[|log| - 1] in log && forall x :: x in log[..|log| - 1] ==> x in log;
    }
  }

  /** A disk that stands on its boot-time `-drive` and has no named node: every
      detach fails, and yet, where QEMU obeys and the guest lets go, takes the
      disk away. */
  lemma BootDiskGoesYetFails(s: State, h: string, i: nat, link: Link, env: Env)
    requires h in s.instances && ExtraDiskDriveId(i) !in s.instances[h].wire.machine.nodes
    ensures DetachDiskSpec(s, h, i, link, env).error.Some?
    ensures (s.instances[h].client || Connects(link.first)) && env.fate(0, 0).Applied? && LetGo(ExtraDiskDeviceId(i)) in env.acts(0, 0)
            ==> ExtraDiskDeviceId(i) !in DetachDiskSpec(s, h, i, link, env).state.instances[h].wire.machine.devices
  {
    var inst, drive, device := s.instances[h], ExtraDiskDriveId(i), ExtraDiskDeviceId(i);
    var op, w := DetachOp(device, BlockdevDel(drive), UNPLUG_TIMEOUT_MS, env), inst.wire;
    DetachOutcome(w, inst.client, link, device, BlockdevDel(drive), UNPLUG_TIMEOUT_MS, env);
    if (inst.client || Connects(link.first)) && env.fate(0, 0).Applied? && LetGo(device) in env.acts(0, 0) {
      var asked := Send(w, DeviceDel(device), Applied, env.acts(0, 0)).wire;
      Lets(Issue(w.machine, DeviceDel(device), Applied).machine, env.acts(0, 0), device);
      assert device !in asked.machine.devices;
      UnplugLoopKeeps(asked, device, BlockdevDel(drive), UNPLUG_TIMEOUT_MS, env, 0, 0);
      var first := op(w, 0);
      assert device !in first.wire.machine.devices;
      DetachAttemptKeeps(first.wire, device, BlockdevDel(drive), UNPLUG_TIMEOUT_MS, env, 1);
    }
  }

  // ----- NICs that exist since boot -----

  /** A netdev with no device of its name, as boot leaves an extra NIC. */
  ghost predicate BootLike(m: Machine, id: string) { id in m.netdevs && id !in m.devices }

  lemma IssueKeepsBootLike(m: Machine, c: Command, f: Fate, id: string)
    requires BootLike(m, id) && c != NetdevDel(id) && !(c.DeviceAdd? && c.id == id)
    ensures BootLike(Issue(m, c, f).machine, id)
  {}

  lemma SendKeepsBootLike(w: Wire, c: Command, f: Fate, acts: seq<GuestAct>, id: string)
    requires BootLike(w.machine, id) && c != NetdevDel(id) && !(c.DeviceAdd? && c.id == id)
    ensures BootLike(Send(w, c, f, acts).wire.machine, id)
  {
    IssueKeepsBootLike(w.machine, c, f, id);
    GuestsKeep(Issue(w.machine, c, f).machine, acts);
  }

  lemma AttachNetKeepsBootLike(w: Wire, index: nat, env: Env, a: nat, i: nat)
    requires BootLike(w.machine, ExtraNetId(i))
    ensures BootLike(AttachNetAttempt(w, index, env, a).wire.machine, ExtraNetId(i))
  {
    var netdev, id := ExtraNetId(index), ExtraNetId(i);
    if netdev == id {
      TakenNetdevRefused(w, index, env, a);
      GuestsKeep(w.machine, env.acts(a, 0));
    } else {
      SendKeepsBootLike(w, NetdevAdd(netdev), env.fate(a, 0), env.acts(a, 0), id);
      SendKeepsBootLike(Send(w, NetdevAdd(netdev), env.fate(a, 0), env.acts(a, 0)).wire,
                        DeviceAdd(netdev, Net(netdev)), env.fate(a, 1), env.acts(a, 1), id);
    }
  }

  lemma AttachDiskKeepsBootLike(w: Wire, index: nat, file: Content, env: Env, a: nat, i: nat)
    requires BootLike(w.machine, ExtraNetId(i))
    ensures BootLike(AttachDiskAttempt(w, index, file, env, a).wire.machine, ExtraNetId(i))
  {
    var drive, device, id := ExtraDiskDriveId(index), ExtraDiskDeviceId(index), ExtraNetId(i);
    var added := Send(w, BlockdevAdd(drive, file), env.fate(a, 0), env.acts(a, 0)).wire;
    var plugged := Send(added, DeviceAdd(device, Block(drive)), env.fate(a, 1), env.acts(a, 1)).wire;
    DeviceIdsApart(i, index);
    SendKeepsBootLike(w, BlockdevAdd(drive, file), env.fate(a, 0), env.acts(a, 0), id);
    SendKeepsBootLike(added, DeviceAdd(device, Block(drive)), env.fate(a, 1), env.acts(a, 1), id);
    SendKeepsBootLike(plugged, BlockdevDel(drive), env.fate(a, 2), env.acts(a, 2), id);
  }

  lemma DetachKeepsBootLike(w: Wire, device: string, del: Command, timeout: nat, env: Env, a: nat, id: string)
    requires BootLike(w.machine, id)
    requires del.BlockdevDel? || del == NetdevDel(device)
    ensures BootLike(DetachAttempt(w, device, del, timeout, env, a).wire.machine, id)
  {
    if device == id {
      NamelessRefused(w, device, del, timeout, env, a);
      GuestsKeep(w.machine, env.acts(a, 0));
    } else {
      DetachAttemptKeeps(w, device, del, timeout, env, a);
    }
  }

  lemma AttemptKeepsBootLike(w: Wire, c: Call, a: nat, i: nat)
    requires Hotplugs(c) && BootLike(w.machine, ExtraNetId(i))
    ensures BootLike(OpOf(c)(w, a).wire.machine, ExtraNetId(i))
  {
    match c
    case AttachNetwork(_, _, index, _, _, env) => AttachNetKeepsBootLike(w, index, env, a, i);
    case DetachNetwork(_, index, _, _, env) =>
      DetachKeepsBootLike(w, ExtraNetId(index), NetdevDel(ExtraNetId(index)), UNPLUG_TIMEOUT_MS, env, a, ExtraNetId(i));
    case AttachDisk(_, index, file, _, env) => AttachDiskKeepsBootLike(w, index, file, env, a, i);
    case DetachDisk(_, index, _, env) =>
      DetachKeepsBootLike(w, ExtraDiskDeviceId(index), BlockdevDel(ExtraDiskDriveId(index)), UNPLUG_TIMEOUT_MS, env, a, ExtraNetId(i));
  }

  lemma SnapshotKeepsBootLike(s: S.Session, e: S.Event, id: string)
    requires e.Snapshot? && BootLike(s.machine, id)
    ensures BootLike(S.Step(s, e).machine, id)
  {
    var name := SnapshotNodeName(e.stem);
    BothKeepBootLike(s, name, e, BlockdevAdd(name, e.file), BlockdevSnapshot(s.head, name), id);
  }

  lemma BothKeepBootLike(s: S.Session, name: string, e: S.Event, first: Command, second: Command, id: string)
    requires e.Snapshot? && BootLike(s.machine, id) && first.BlockdevAdd? && second.BlockdevSnapshot?
    ensures BootLike(S.Both(s, name, e.connects, first, e.add, e.acts, second, e.switch).session.machine, id)
  {
    var added := Issue(s.machine, first, e.add).machine;
    var between := AfterGuest(added, e.acts);
    assert BootLike(between, id) by {
      IssueKeepsBootLike(s.machine, first, e.add, id);
      GuestsKeep(added, e.acts);
    }
    IssueKeepsBootLike(between, second, e.switch, id);
  }

  /** No call ever gives a boot-time NIC a device id or takes its netdev. */
  lemma {:induction false} StepKeepsBootLike(s: State, c: Call, h: string, i: nat)
    requires h in s.instances && BootLike(s.instances[h].wire.machine, ExtraNetId(i))
    requires h in Step(s, c).instances && !Spawns(s, c, h)
    ensures BootLike(Step(s, c).instances[h].wire.machine, ExtraNetId(i))
  {
    var was := s.instances[h];
    if c.Spawn? { SpawnIsolation(s, c.cfg, c.host); }
    else if c.handle != h { OtherInstances(s, c, h); }
    else if c.Stop? { StopForgets(s, c); }
    else if c.Snapshot? {
      SnapshotIsSessionStep(s, c);
      SnapshotKeepsBootLike(SessionOf(was), SnapshotEvent(s, c), ExtraNetId(i));
    }
    else if c.Guest? { GuestsKeep(was.wire.machine, c.acts); }
    else {
      HotplugRuns(s, c, h);
      AttemptKeepsBootLike(was.wire, c, 0, i);
      AttemptKeepsBootLike(OpOf(c)(was.wire, 0).wire, c, 1, i);
    }
  }

  lemma {:induction false} BootNicsStay(taps: set<string>, calls: seq<Call>, h: string, i: nat)
    requires h in Run(Start(taps), calls).instances
    requires Config(taps, calls, h).Some? && i < |Config(taps, calls, h).value.extraNetworks|
    ensures BootLike(Run(Start(taps), calls).instances[h].wire.machine, ExtraNetId(i))
  {
    var before, c := calls[..|calls| - 1], calls[|calls| - 1];
    var s := Run(Start(taps), before);
    if Spawns(s, c, h) {
      BootShaped(c.cfg, i);
      assert NicOf(BootMachine(c.cfg), i) == NicState(true, Out);
    } else {
      NewOrKept(s, c, h);
      BootNicsStay(taps, before, h, i);
      StepKeepsBootLike(s, c, h, i);
    }
  }

  /** A NIC that exists since boot can never be detached: in every state up to
      the instance's stop or next spawn, whatever happened since, the call fails
      in every environment; the record, the tap and QEMU stay as they are but
      for what the guest does meanwhile. */
  lemma BootNicsCannotBeDetached(taps: set<string>, calls: seq<Call>, h: string, i: nat, host: HostEnv, link: Link, env: Env)
    requires h in Run(Start(taps), calls).instances
    requires Config(taps, calls, h).Some? && i < |Config(taps, calls, h).value.extraNetworks|
    ensures var s := Run(Start(taps), calls);
            var d := DetachNetworkSpec(s, h, i, host, link, env);
            && d.error.Some? && d.state.taps == s.taps && h in d.state.instances
            && Nics(d.state.instances[h]) == Nics(s.instances[h])
            && GuestOnly(s.instances[h].wire.machine, d.state.instances[h].wire.machine)
            && NicNow(taps, calls, h, i) == NicState(true, Out)
  {
    var inst, id := Run(Start(taps), calls).instances[h], ExtraNetId(i);
    BootNicsStay(taps, calls, h, i);
    DevicesOverRuns(taps, calls, h, i);
    NamelessDeviceStays(inst.wire, inst.client, link, id, NetdevDel(id), UNPLUG_TIMEOUT_MS, env);
  }
}
