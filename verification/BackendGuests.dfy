/** What a guest can rely on in every reachable state of the backend: isolated
    guests stay isolated, and every guest reads its boot disk and its own writes,
    whatever calls run meanwhile and whichever of their steps fail. */
module BackendGuests {
  import opened Basics
  import opened Cmdline
  import opened Qemu
  import opened Hotplug
  import opened HostNetwork
  import opened Backend
  import opened BackendRuns
  import S = Snapshots

  // ----- isolation -----

  /** An isolated guest has no second NIC, and no second NIC is isolated. */
  ghost predicate IsolationHolds(i: RunningInstance) {
    (i.network.IsolatedInfo? ==> i.extras == []) && NoneIsolated(i.extras)
  }

  /** After `build_args` accepted a configuration, the isolated case of
      `setup_extra_network` cannot be reached from `spawn`: the only
      `InvalidConfig` is the one raised before anything was set up. */
  lemma SpawnNeverMeetsIsolatedExtra(s: State, cfg: InstanceConfig, host: HostEnv)
    ensures SpawnSpec(s, cfg, host).error == Some(InvalidConfig)
       <==> !cfg.renderImplemented || (host.dirs && BuildArgsFails(cfg))
    ensures SpawnSpec(s, cfg, host).error == Some(InvalidConfig) ==> SpawnSpec(s, cfg, host).state == s
  {
    if cfg.renderImplemented && host.dirs && !BuildArgsFails(cfg) {
      PrimaryMakes(s, cfg, host);
      if SetupPrimary(s.taps, cfg, host).1.Ok? { SpawnMakes(s, cfg, host); }
    }
  }

  lemma SpawnIsolation(s: State, cfg: InstanceConfig, host: HostEnv)
    ensures var d, h := SpawnSpec(s, cfg, host), HandleFor(cfg.id);
            && (forall g :: g in d.state.instances && g != h ==> g in s.instances && d.state.instances[g] == s.instances[g])
            && (d.error.Some? ==> d.state.instances == s.instances)
            && (d.error.None? ==> h in d.state.instances && IsolationHolds(d.state.instances[h]))
  {
    if SpawnSpec(s, cfg, host).error.None? {
      PrimaryMakes(s, cfg, host);
      SpawnMakes(s, cfg, host);
    }
  }

  lemma {:induction false} StepIsolation(s: State, c: Call)
    requires forall h :: h in s.instances ==> IsolationHolds(s.instances[h])
    ensures forall h :: h in Step(s, c).instances ==> IsolationHolds(Step(s, c).instances[h])
  {
    match c
    case Spawn(cfg, host) => SpawnIsolation(s, cfg, host);
    case AttachNetwork(handle, mode, index, host, link, env) =>
      if IdFromHandle(handle).Ok? { SetupOneMakes(s.taps, IdFromHandle(handle).value, mode, index, host); }
    case _ =>
  }

  lemma {:induction false} IsolationRuns(taps: set<string>, calls: seq<Call>)
    ensures forall h :: h in Run(Start(taps), calls).instances ==> IsolationHolds(Run(Start(taps), calls).instances[h])
  {
    if calls != [] {
      IsolationRuns(taps, calls[..|calls| - 1]);
      StepIsolation(Run(Start(taps), calls[..|calls| - 1]), calls[|calls| - 1]);
    }
  }

  // ----- every instance is its log replayed -----

  /** QEMU and the recorded head right after launch. */
  ghost function Boot(cfg: InstanceConfig): S.Session { S.Session(BootMachine(cfg), DISK_DEVICE) }

  /** Commands of the hot-plug operations: every id and node name belongs to one
      index, and no command is `blockdev-snapshot`. */
  ghost predicate HotplugCommand(c: Command) {
    match c
    case BlockdevAdd(node, _) => exists i: nat :: node == ExtraDiskDriveId(i)
    case BlockdevDel(node) => exists i: nat :: node == ExtraDiskDriveId(i)
    case BlockdevSnapshot(_, _) => false
    case DeviceAdd(id, backend) =>
      exists i: nat :: (id == ExtraNetId(i) && backend == Net(id)) || (id == ExtraDiskDeviceId(i) && backend == Block(ExtraDiskDriveId(i)))
    case DeviceDel(_) => true
    case NetdevAdd(id) => exists i: nat :: id == ExtraNetId(i)
    case NetdevDel(id) => exists i: nat :: id == ExtraNetId(i)
  }

  ghost predicate BackendEvent(e: S.Event) {
    && (e.Other? ==> HotplugCommand(e.command))
    && (e.Snapshot? ==> e.file == map[])
  }

  /** The wire is what its log made of the boot state, and the log continues
      `base` with events the backend causes. */
  ghost predicate Follows(w: Wire, boot: S.Session, head: string, base: seq<S.Event>) {
    && S.Session(w.machine, head) == S.Run(boot, w.log)
    && base <= w.log && forall e :: e in w.log ==> BackendEvent(e)
  }

  lemma EventFollows(w: Wire, e: S.Event, boot: S.Session, head: string, base: seq<S.Event>)
    requires Follows(w, boot, head, base) && BackendEvent(e)
    ensures var n := S.Step(S.Session(w.machine, head), e);
            Follows(Wire(n.machine, w.log + [e]), boot, n.head, base)
  {
    assert (w.log + [e])[..|w.log|] == w.log;
  }

  lemma SendFollows(w: Wire, c: Command, fate: Fate, acts: seq<GuestAct>, boot: S.Session, head: string, base: seq<S.Event>)
    requires Follows(w, boot, head, base) && HotplugCommand(c)
    ensures Follows(Send(w, c, fate, acts).wire, boot, head, base)
  {
    var told := Wire(Issue(w.machine, c, fate).machine, w.log + [S.Other(c, fate)]);
    EventFollows(w, S.Other(c, fate), boot, head, base);
    EventFollows(told, S.Guest(acts), boot, head, base);
    assert told.log + [S.Guest(acts)] == w.log + [S.Other(c, fate), S.Guest(acts)];
  }

  lemma AttachDiskFollows(w: Wire, index: nat, file: Content, env: Env, a: nat, boot: S.Session, head: string, base: seq<S.Event>)
    requires Follows(w, boot, head, base)
    ensures Follows(AttachDiskAttempt(w, index, file, env, a).wire, boot, head, base)
  {
    var drive, device := ExtraDiskDriveId(index), ExtraDiskDeviceId(index);
    var added := Send(w, BlockdevAdd(drive, file), env.fate(a, 0), env.acts(a, 0)).wire;
    var plugged := Send(added, DeviceAdd(device, Block(drive)), env.fate(a, 1), env.acts(a, 1)).wire;
    SendFollows(w, BlockdevAdd(drive, file), env.fate(a, 0), env.acts(a, 0), boot, head, base);
    SendFollows(added, DeviceAdd(device, Block(drive)), env.fate(a, 1), env.acts(a, 1), boot, head, base);
    SendFollows(plugged, BlockdevDel(drive), env.fate(a, 2), env.acts(a, 2), boot, head, base);
  }

  lemma AttachNetFollows(w: Wire, index: nat, env: Env, a: nat, boot: S.Session, head: string, base: seq<S.Event>)
    requires Follows(w, boot, head, base)
    ensures Follows(AttachNetAttempt(w, index, env, a).wire, boot, head, base)
  {
    var netdev := ExtraNetId(index);
    var added := Send(w, NetdevAdd(netdev), env.fate(a, 0), env.acts(a, 0)).wire;
    SendFollows(w, NetdevAdd(netdev), env.fate(a, 0), env.acts(a, 0), boot, head, base);
    SendFollows(added, DeviceAdd(netdev, Net(netdev)), env.fate(a, 1), env.acts(a, 1), boot, head, base);
  }

  lemma {:induction false} UnplugFollows(w: Wire, device: string, del: Command, timeout: nat, env: Env, a: nat, k: nat,
                                         boot: S.Session, head: string, base: seq<S.Event>)
    requires Follows(w, boot, head, base) && HotplugCommand(del)
    ensures Follows(UnplugLoop(w, device, del, timeout, env, a, k).wire, boot, head, base)
    decreases if POLL_MS * k < timeout then timeout - POLL_MS * k else 0
  {
    SendFollows(w, del, env.fate(a, k + 1), env.acts(a, k + 1), boot, head, base);
    var r := Send(w, del, env.fate(a, k + 1), env.acts(a, k + 1));
    if r.reply.Rejected? && InUseAnswer(w.machine, del, env, a, k) && POLL_MS * k + env.jitter(a, k) < timeout {
      UnplugFollows(r.wire, device, del, timeout, env, a, k + 1, boot, head, base);
    }
  }

  lemma DetachFollows(w: Wire, device: string, del: Command, timeout: nat, env: Env, a: nat,
                      boot: S.Session, head: string, base: seq<S.Event>)
    requires Follows(w, boot, head, base) && HotplugCommand(del)
    ensures Follows(DetachAttempt(w, device, del, timeout, env, a).wire, boot, head, base)
  {
    SendFollows(w, DeviceDel(device), env.fate(a, 0), env.acts(a, 0), boot, head, base);
    var asked := Send(w, DeviceDel(device), env.fate(a, 0), env.acts(a, 0));
    if asked.reply.Done? { UnplugFollows(asked.wire, device, del, timeout, env, a, 0, boot, head, base); }
  }

  ghost predicate Hotplugs(c: Call) { c.AttachNetwork? || c.DetachNetwork? || c.AttachDisk? || c.DetachDisk? }

  /** The operation each hot-plug call runs. */
  ghost function OpOf(c: Call): Operation
    requires Hotplugs(c)
  {
    match c
    case AttachNetwork(_, _, index, _, _, env) => AttachNetOp(index, env)
    case DetachNetwork(_, index, _, _, env) => DetachOp(ExtraNetId(index), NetdevDel(ExtraNetId(index)), UNPLUG_TIMEOUT_MS, env)
    case AttachDisk(_, index, file, _, env) => AttachDiskOp(index, file, env)
    case DetachDisk(_, index, _, env) =>
      DetachOp(ExtraDiskDeviceId(index), BlockdevDel(ExtraDiskDriveId(index)), UNPLUG_TIMEOUT_MS, env)
  }

  lemma AttemptFollows(w: Wire, c: Call, a: nat, boot: S.Session, head: string, base: seq<S.Event>)
    requires Hotplugs(c) && Follows(w, boot, head, base)
    ensures Follows(OpOf(c)(w, a).wire, boot, head, base)
  {
    match c
    case AttachNetwork(_, _, index, _, _, env) => AttachNetFollows(w, index, env, a, boot, head, base);
    case DetachNetwork(_, index, _, _, env) =>
      DetachFollows(w, ExtraNetId(index), NetdevDel(ExtraNetId(index)), UNPLUG_TIMEOUT_MS, env, a, boot, head, base);
    case AttachDisk(_, index, file, _, env) => AttachDiskFollows(w, index, file, env, a, boot, head, base);
    case DetachDisk(_, index, _, env) =>
      DetachFollows(w, ExtraDiskDeviceId(index), BlockdevDel(ExtraDiskDriveId(index)), UNPLUG_TIMEOUT_MS, env, a, boot, head, base);
  }

  /** The call gets as far as talking to its instance's QEMU: all do but an
      attach whose host side is refused or fails. */
  ghost predicate ReachesQmp(s: State, c: Call)
    requires Hotplugs(c)
  {
    && c.handle in s.instances
    && (c.AttachNetwork? ==> Attaching(s, c) && AttachSetup(s, c).1.Ok?)
  }

  /** What a hot-plug call does to an instance's QEMU: one run of its operation
      if it reaches it, and nothing otherwise. */
  lemma HotplugRuns(s: State, c: Call, h: string)
    requires Hotplugs(c) && h in s.instances
    ensures h in Step(s, c).instances
    ensures var was, i := s.instances[h], Step(s, c).instances[h];
            && i.headNodeName == was.headNodeName
            && (h != c.handle ==> i == was)
            && (h == c.handle && ReachesQmp(s, c) ==> i.wire == RunOp(was.wire, was.client, c.link, OpOf(c)).wire)
            && (h != c.handle || !ReachesQmp(s, c) ==> i.wire == was.wire)
  {}

  ghost predicate InstanceFollows(i: RunningInstance, boot: S.Session, base: seq<S.Event>) {
    Follows(i.wire, boot, i.headNodeName, base)
  }

  lemma HotplugFollows(s: State, c: Call, boot: S.Session, base: seq<S.Event>)
    requires Hotplugs(c) && c.handle in s.instances && InstanceFollows(s.instances[c.handle], boot, base)
    ensures c.handle in Step(s, c).instances && InstanceFollows(Step(s, c).instances[c.handle], boot, base)
  {
    var was := s.instances[c.handle];
    HotplugRuns(s, c, c.handle);
    AttemptFollows(was.wire, c, 0, boot, was.headNodeName, base);
    AttemptFollows(OpOf(c)(was.wire, 0).wire, c, 1, boot, was.headNodeName, base);
  }

  ghost function SnapshotEvent(s: State, c: Call): S.Event
    requires c.Snapshot? && c.handle in s.instances
  {
    S.Event.Snapshot(c.stem, map[], s.instances[c.handle].client || Connects(c.dial), c.add, c.acts, c.switch)
  }

  /** The backend's `snapshot` is the one-instance step. */
  lemma SnapshotIsSessionStep(s: State, c: Call)
    requires c.Snapshot? && c.handle in s.instances
    ensures c.handle in Step(s, c).instances
    ensures SessionOf(Step(s, c).instances[c.handle]) == S.Step(SessionOf(s.instances[c.handle]), SnapshotEvent(s, c))
    ensures Step(s, c).instances[c.handle].wire.log == s.instances[c.handle].wire.log + [SnapshotEvent(s, c)]
  {}

  /** Calls on one instance do not touch another. */
  lemma OtherInstances(s: State, c: Call, h: string)
    requires h in s.instances && h != if c.Spawn? then HandleFor(c.cfg.id) else c.handle
    ensures h in Step(s, c).instances && Step(s, c).instances[h] == s.instances[h]
  {
    if c.Spawn? { SpawnIsolation(s, c.cfg, c.host); }
  }

  lemma StopForgets(s: State, c: Call)
    requires c.Stop? && c.handle in s.instances
    ensures c.handle in Step(s, c).instances ==> Step(s, c) == s
  {}

  /** The call starts the instance recorded under `h` anew. */
  ghost predicate Spawns(s: State, c: Call, h: string) {
    c.Spawn? && HandleFor(c.cfg.id) == h && SpawnSpec(s, c.cfg, c.host).error.None?
  }

  lemma StepFollows(s: State, c: Call, h: string, boot: S.Session, base: seq<S.Event>)
    requires h in s.instances && InstanceFollows(s.instances[h], boot, base)
    requires h in Step(s, c).instances && !Spawns(s, c, h)
    ensures InstanceFollows(Step(s, c).instances[h], boot, base)
  {
    var was := s.instances[h];
    if c.Spawn? { SpawnIsolation(s, c.cfg, c.host); }
    else if c.handle != h { OtherInstances(s, c, h); }
    else if c.Stop? { StopForgets(s, c); }
    else if c.Snapshot? {
      SnapshotIsSessionStep(s, c);
      EventFollows(was.wire, SnapshotEvent(s, c), boot, was.headNodeName, base);
    }
    else if c.Guest? { EventFollows(was.wire, S.Guest(c.acts), boot, was.headNodeName, base); }
    else { HotplugFollows(s, c, boot, base); }
  }

  /** The configuration the instance under `h` was spawned from. */
  ghost function Config(taps: set<string>, calls: seq<Call>, h: string): Option<InstanceConfig> {
    if calls == [] then None
    else
      var before, c := calls[..|calls| - 1], calls[|calls| - 1];
      if Spawns(Run(Start(taps), before), c, h) then Some(c.cfg) else Config(taps, before, h)
  }

  lemma NewOrKept(s: State, c: Call, h: string)
    requires h in Step(s, c).instances && !Spawns(s, c, h)
    ensures h in s.instances
  {
    if c.Spawn? { SpawnIsolation(s, c.cfg, c.host); }
  }

  /** Every reachable instance is the machine `spawn` launched, with the events
      on its wire replayed one by one: the backend refines the one-instance
      model, and what holds over all runs of that holds here. */
  lemma {:induction false} RunsReplay(taps: set<string>, calls: seq<Call>, h: string)
    requires h in Run(Start(taps), calls).instances
    ensures Config(taps, calls, h).Some?
    ensures InstanceFollows(Run(Start(taps), calls).instances[h], Boot(Config(taps, calls, h).value), [])
  {
    assert calls != [];
    var before, c := calls[..|calls| - 1], calls[|calls| - 1];
    var s := Run(Start(taps), before);
    if Spawns(s, c, h) {
      var i := Step(s, c).instances[h];
      assert i.wire == Wire(BootMachine(c.cfg), []) && i.headNodeName == DISK_DEVICE;
    } else {
      NewOrKept(s, c, h);
      RunsReplay(taps, before, h);
      StepFollows(s, c, h, Boot(Config(taps, before, h).value), []);
    }
  }

  // ----- guest disks -----

  /** `spawn` starts every guest on the one-layer chain its record names. */
  lemma BootIsJustSpawned(cfg: InstanceConfig)
    ensures S.JustSpawned(Boot(cfg)) && View(Boot(cfg).machine.nodes, [DISK_DEVICE]) == cfg.disk
  {
    BootDevicesOnDrives(cfg.extraDisks);
    assert [DISK_DEVICE][..0] == [];
    assert map[] + cfg.disk == cfg.disk;
  }

  lemma {:induction false} BootDevicesOnDrives(disks: nat)
    ensures forall d :: d in BootDevices(disks) ==> BootDevices(disks)[d].backend.BootDrive?
  {
    if disks > 0 { BootDevicesOnDrives(disks - 1); }
  }

  /** What an observer of this instance's QEMU noted since its spawn. */
  ghost function HistoryOf(cfg: InstanceConfig, i: RunningInstance): S.Log { S.History(Boot(cfg), i.wire.log) }

  ghost function DiskOf(cfg: InstanceConfig, i: RunningInstance): Content {
    View(i.wire.machine.nodes, HistoryOf(cfg, i).chain)
  }

  ghost predicate InSync(i: RunningInstance) { i.headNodeName == i.wire.machine.root }

  /** In every reachable state every guest reads its boot disk plus what it
      wrote itself since its spawn, between calls and during them; its overlay
      chain is well formed and holds the recorded head; and each frozen layer
      reads as the disk did when a switch froze it. */
  lemma {:induction false} DisksConsistent(taps: set<string>, calls: seq<Call>, h: string)
    requires h in Run(Start(taps), calls).instances
    ensures Config(taps, calls, h).Some?
    ensures var i, cfg := Run(Start(taps), calls).instances[h], Config(taps, calls, h).value;
            && S.Tied(SessionOf(i), HistoryOf(cfg, i))
            && DiskOf(cfg, i) == S.PlainDisk(cfg.disk, i.wire.log)
            && HistoryOf(cfg, i).frozen == S.PlainFrozen(Boot(cfg), cfg.disk, i.wire.log)
  {
    RunsReplay(taps, calls, h);
    var i, cfg := Run(Start(taps), calls).instances[h], Config(taps, calls, h).value;
    BootIsJustSpawned(cfg);
    ReplayedDisk(Boot(cfg), i.wire, i.headNodeName);
  }

  lemma ReplayedDisk(boot: S.Session, w: Wire, head: string)
    requires S.JustSpawned(boot) && Follows(w, boot, head, [])
    ensures var log, disk := S.History(boot, w.log), View(boot.machine.nodes, [DISK_DEVICE]);
            && S.Tied(S.Session(w.machine, head), log)
            && View(w.machine.nodes, log.chain) == S.PlainDisk(disk, w.log)
            && log.frozen == S.PlainFrozen(boot, disk, w.log)
  {
    assert S.EmptyOverlays(w.log);
    S.SnapshotRuns(boot, w.log);
  }

  lemma {:induction false} PlainDiskConcat(disk: Content, a: seq<S.Event>, b: seq<S.Event>)
    ensures S.PlainDisk(disk, a + b) == S.PlainDisk(S.PlainDisk(disk, a), b)
  {
    if b == [] {
      assert a + b == a;
    } else {
      PlainDiskConcat(disk, a, b[..|b| - 1]);
      assert (a + b)[..|a + b| - 1] == a + b[..|b| - 1];
    }
  }

  /** A call that spawns nothing under `h` only adds to the log of its wire. */
  lemma {:induction false} StepGrowsLog(taps: set<string>, calls: seq<Call>, c: Call, h: string) returns (during: seq<S.Event>)
    requires h in Run(Start(taps), calls).instances && h in Run(Start(taps), calls + [c]).instances
    requires !Spawns(Run(Start(taps), calls), c, h)
    ensures Config(taps, calls, h).Some? && Config(taps, calls + [c], h) == Config(taps, calls, h)
    ensures Run(Start(taps), calls + [c]).instances[h].wire.log == Run(Start(taps), calls).instances[h].wire.log + during
  {
    var s := Run(Start(taps), calls);
    assert (calls + [c])[..|calls|] == calls;
    RunsReplay(taps, calls, h);
    var cfg := Config(taps, calls, h).value;
    var was, i := s.instances[h], Step(s, c).instances[h];
    assert InstanceFollows(was, Boot(cfg), was.wire.log);
    StepFollows(s, c, h, Boot(cfg), was.wire.log);
    during := i.wire.log[|was.wire.log|..];
  }

  /** No call changes what a running guest reads except for what the guest
      writes during it: `during` is the stretch of the wire log it adds. */
  lemma {:induction false} StepKeepsDisks(taps: set<string>, calls: seq<Call>, c: Call, h: string) returns (during: seq<S.Event>)
    requires h in Run(Start(taps), calls).instances && h in Run(Start(taps), calls + [c]).instances
    requires !Spawns(Run(Start(taps), calls), c, h)
    ensures Config(taps, calls, h).Some? && Config(taps, calls + [c], h) == Config(taps, calls, h)
    ensures var cfg := Config(taps, calls, h).value;
            var was, i := Run(Start(taps), calls).instances[h], Run(Start(taps), calls + [c]).instances[h];
            i.wire.log == was.wire.log + during && DiskOf(cfg, i) == S.PlainDisk(DiskOf(cfg, was), during)
  {
    during := StepGrowsLog(taps, calls, c, h);
    DisksConsistent(taps, calls, h);
    DisksConsistent(taps, calls + [c], h);
    PlainDiskConcat(Config(taps, calls, h).value.disk, Run(Start(taps), calls).instances[h].wire.log, during);
  }

  // ----- the recorded head -----

  /** The one call after which the record lags behind QEMU: a snapshot whose
      switch took effect while its answer was lost or garbled. */
  ghost predicate LosesSwitch(s: State, c: Call, h: string) {
    c.Snapshot? && c.handle == h && h in s.instances && S.LosesTheSwitch(SessionOf(s.instances[h]), SnapshotEvent(s, c))
  }

  /** Some call lost a switch of this instance since its spawn. */
  ghost predicate LostSince(taps: set<string>, calls: seq<Call>, h: string) {
    calls != [] &&
    var before, c := calls[..|calls| - 1], calls[|calls| - 1];
    var s := Run(Start(taps), before);
    !Spawns(s, c, h) && (LostSince(taps, before, h) || LosesSwitch(s, c, h))
  }

  lemma SnapshotHead(was: S.Session, e: S.Event, n: S.Session, log: S.Log)
    requires S.Tied(was, log) && e.Snapshot? && n == S.Step(was, e)
    ensures n.head == n.machine.root <==> was.head == was.machine.root && !S.LosesTheSwitch(was, e)
  {
    S.SnapshotOutcome(was, e, log);
  }

  /** Every other call, failed or not, keeps record and QEMU as they stand. */
  lemma HeadStep(s: State, c: Call, h: string, log: S.Log)
    requires h in s.instances && S.Tied(SessionOf(s.instances[h]), log)
    requires h in Step(s, c).instances && !Spawns(s, c, h)
    ensures InSync(Step(s, c).instances[h]) <==> InSync(s.instances[h]) && !LosesSwitch(s, c, h)
  {
    var was := s.instances[h];
    if c.Spawn? { SpawnIsolation(s, c.cfg, c.host); }
    else if c.handle != h { OtherInstances(s, c, h); }
    else if c.Stop? { StopForgets(s, c); }
    else if c.Snapshot? {
      SnapshotIsSessionStep(s, c);
      SnapshotHead(SessionOf(was), SnapshotEvent(s, c), SessionOf(Step(s, c).instances[h]), log);
    }
    else if c.Guest? { GuestsKeep(was.wire.machine, c.acts); }
    else {
      HotplugRuns(s, c, h);
      RunKeepsRoot(was.wire, was.client, c.link, c);
    }
  }

  lemma SendKeepsRoot(w: Wire, c: Command, fate: Fate, acts: seq<GuestAct>)
    requires !c.BlockdevSnapshot?
    ensures Send(w, c, fate, acts).wire.machine.root == w.machine.root
  {
    GuestsKeep(Issue(w.machine, c, fate).machine, acts);
  }

  lemma AttemptKeepsRoot(w: Wire, c: Call, a: nat)
    requires Hotplugs(c)
    ensures OpOf(c)(w, a).wire.machine.root == w.machine.root
  {
    forall v: Wire, x: Command, f: Fate, acts: seq<GuestAct> | !x.BlockdevSnapshot?
      ensures Send(v, x, f, acts).wire.machine.root == v.machine.root
    {
      SendKeepsRoot(v, x, f, acts);
    }
    match c
    case AttachNetwork(_, _, index, _, _, env) =>
    case DetachNetwork(_, index, _, _, env) =>
      DetachAttemptKeeps(w, ExtraNetId(index), NetdevDel(ExtraNetId(index)), UNPLUG_TIMEOUT_MS, env, a);
    case AttachDisk(_, index, file, _, env) =>
    case DetachDisk(_, index, _, env) =>
      DetachAttemptKeeps(w, ExtraDiskDeviceId(index), BlockdevDel(ExtraDiskDriveId(index)), UNPLUG_TIMEOUT_MS, env, a);
  }

  lemma RunKeepsRoot(w: Wire, client: bool, link: Link, c: Call)
    requires Hotplugs(c)
    ensures RunOp(w, client, link, OpOf(c)).wire.machine.root == w.machine.root
  {
    AttemptKeepsRoot(w, c, 0);
    AttemptKeepsRoot(OpOf(c)(w, 0).wire, c, 1);
  }

  /** In every reachable state an instance's recorded head is the node its guest
      writes if and only if no switch was lost since its spawn. */
  lemma {:induction false} HeadsExact(taps: set<string>, calls: seq<Call>, h: string)
    requires h in Run(Start(taps), calls).instances
    ensures InSync(Run(Start(taps), calls).instances[h]) <==> !LostSince(taps, calls, h)
  {
    assert calls != [];
    var before, c := calls[..|calls| - 1], calls[|calls| - 1];
    var s := Run(Start(taps), before);
    if !Spawns(s, c, h) {
      NewOrKept(s, c, h);
      HeadsExact(taps, before, h);
      DisksConsistent(taps, before, h);
      HeadStep(s, c, h, HistoryOf(Config(taps, before, h).value, s.instances[h]));
    }
  }
}
