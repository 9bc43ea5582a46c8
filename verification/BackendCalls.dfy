/** What each call of the backend answers and leaves behind, in terms of what it
    met: when it succeeds, exactly, and what is then true of the host, of QEMU
    and of the records. */
module BackendCalls {
  import opened Basics
  import opened Cmdline
  import opened Qemu
  import opened Hotplug
  import opened HostNetwork
  import opened Backend
  import opened BackendRuns
  import opened BackendGuests
  import opened BackendDevices
  import S = Snapshots

  /** Only the record under `h` differs, and of it only connection and wire. */
  ghost predicate OnlyTalkedTo(s: State, n: State, h: string)
    requires h in s.instances
  {
    && n.taps == s.taps && n.instances.Keys == s.instances.Keys
    && (forall g :: g in s.instances && g != h ==> n.instances[g] == s.instances[g])
    && SameRecord(s.instances[h], n.instances[h])
  }

  ghost predicate SameRecord(was: RunningInstance, i: RunningInstance) {
    i.headNodeName == was.headNodeName && i.network == was.network && i.extras == was.extras
  }

  // ----- attach and detach a disk -----

  lemma AttachDiskCall(s: State, h: string, index: nat, file: Content, link: Link, env: Env)
    requires h in s.instances && DiskSlotFree(s.instances[h].wire.machine, index)
    ensures var d, was := AttachDiskSpec(s, h, index, file, link, env), s.instances[h];
            && OnlyTalkedTo(s, d.state, h)
            && (d.error.None? <==> DiskGoesIn(was.client, link, env))
            && (d.error.None? ==> GuestOnly(WithDisk(was.wire.machine, index, file), d.state.instances[h].wire.machine))
    ensures var d, was := AttachDiskSpec(s, h, index, file, link, env), s.instances[h];
            var m, n := was.wire.machine, d.state.instances[h].wire.machine;
            d.error.Some? ==>
              && (GuestOnly(m, n) || GuestOnly(WithNode(m, index, file), n) || GuestOnly(WithDisk(m, index, file), n))
              && (GuestOnly(m, n) <==> forall a: nat :: a < RunOp(was.wire, was.client, link, AttachDiskOp(index, file, env)).runs ==>
                    !DiskNodeStays(env, a) && !DiskStays(env, a))
  {
    AttachDiskOutcome(s.instances[h].wire, s.instances[h].client, link, index, file, env);
  }

  /** What a detach over QMP comes to. */
  ghost predicate Detaches(was: RunningInstance, link: Link, op: Operation) {
    && (was.client || Connects(link.first))
    && (op(was.wire, 0).result.Success?
        || (op(was.wire, 0).result.Lost? && Reconnects(link) && op(op(was.wire, 0).wire, 1).result.Success?))
  }

  ghost function DiskDetach(index: nat, env: Env): Operation {
    DetachOp(ExtraDiskDeviceId(index), BlockdevDel(ExtraDiskDriveId(index)), UNPLUG_TIMEOUT_MS, env)
  }

  ghost function NicDetach(index: nat, env: Env): Operation {
    DetachOp(ExtraNetId(index), NetdevDel(ExtraNetId(index)), UNPLUG_TIMEOUT_MS, env)
  }

  lemma DetachDiskCall(s: State, h: string, index: nat, link: Link, env: Env)
    requires h in s.instances
    ensures var d, was := DetachDiskSpec(s, h, index, link, env), s.instances[h];
            var m, n, del := was.wire.machine, d.state.instances[h].wire.machine, BlockdevDel(ExtraDiskDriveId(index));
            && OnlyTalkedTo(s, d.state, h)
            && OnlyUnplugs(m, n, ExtraDiskDeviceId(index), del)
            && (d.error.None? <==> Detaches(was, link, DiskDetach(index, env)))
            && (d.error.None? ==> ExtraDiskDeviceId(index) in m.devices && ExtraDiskDriveId(index) in m.nodes && Unplugged(n, del))
  {
    var was := s.instances[h];
    DetachOutcome(was.wire, was.client, link, ExtraDiskDeviceId(index), BlockdevDel(ExtraDiskDriveId(index)), UNPLUG_TIMEOUT_MS, env);
  }

  /** An obedient QEMU and a guest that lets go in time: the detach succeeds. */
  lemma DetachDiskInTime(s: State, h: string, index: nat, link: Link, env: Env, k: nat)
    requires h in s.instances && (s.instances[h].client || Connects(link.first))
    requires HeldBy(s.instances[h].wire.machine, ExtraDiskDeviceId(index), BlockdevDel(ExtraDiskDriveId(index)))
    requires (forall j :: env.fate(0, j).Applied?) && LetsGoAt(ExtraDiskDeviceId(index), env, 0, k) && InTime(UNPLUG_TIMEOUT_MS, env, 0, k)
    ensures DetachDiskSpec(s, h, index, link, env).error.None?
  {
    var was, device, del := s.instances[h], ExtraDiskDeviceId(index), BlockdevDel(ExtraDiskDriveId(index));
    ObeyedUnplugIff(was.wire, device, del, UNPLUG_TIMEOUT_MS, env, 0);
    DetachDiskCall(s, h, index, link, env);
  }

  // ----- attach and detach a NIC -----

  /** How a NIC of this mode is recorded. */
  ghost function NicInfo(mode: NetworkMode, tap: string): NetworkInfo {
    match mode
    case Nat => NatInfo
    case Bridge(bridge) => BridgeInfo(bridge, tap)
    case Isolated => IsolatedInfo
  }

  /** The host side of an extra NIC comes up. */
  ghost predicate ComesUp(taps: set<string>, mode: NetworkMode, tap: string, host: HostEnv) {
    !mode.Isolated? && (mode.Bridge? ==> tap !in taps && host.setup(tap) == SetUp)
  }

  lemma AttachNetworkCall(s: State, h: string, mode: NetworkMode, index: nat, host: HostEnv, link: Link, env: Env)
    requires h in s.instances && IdFromHandle(h).Ok? && NicSlotFree(s.instances[h].wire.machine, index)
    ensures var d, was := AttachNetworkSpec(s, h, mode, index, host, link, env), s.instances[h];
            var id := IdFromHandle(h).value;
            && h in d.state.instances
            && (d.error.None? <==> !was.network.IsolatedInfo? && ComesUp(s.taps, mode, ExtraTap(id, index), host) && NicGoesIn(was.client, link, env))
            && (was.network.IsolatedInfo? || mode.Isolated? ==> d == Ended(s, Some(InvalidConfig)))
    ensures var d, was := AttachNetworkSpec(s, h, mode, index, host, link, env), s.instances[h];
            var info := NicInfo(mode, ExtraTap(IdFromHandle(h).value, index));
            d.error.None? ==>
              var i := d.state.instances[h];
              && d.state.taps == s.taps + TapsOf(info) && i.extras == was.extras + [(ExtraNetId(index), info)]
              && i.network == was.network && GuestOnly(WithNic(was.wire.machine, index), i.wire.machine)
    ensures var d, was := AttachNetworkSpec(s, h, mode, index, host, link, env), s.instances[h];
            d.error.Some? ==>
              var m, n := was.wire.machine, d.state.instances[h].wire.machine;
              && SameRecord(was, d.state.instances[h])
              && (GuestOnly(m, n) || GuestOnly(WithNetdev(m, index), n) || GuestOnly(WithNic(m, index), n))
  {
    var was := s.instances[h];
    assert GuestOnly(was.wire.machine, was.wire.machine) by { TwiceGuestOnly(was.wire.machine, [], []); }
    AttachNetOutcome(was.wire, was.client, link, index, env);
  }

  lemma DetachNetworkCall(s: State, h: string, index: nat, host: HostEnv, link: Link, env: Env)
    requires h in s.instances
    ensures var d, was := DetachNetworkSpec(s, h, index, host, link, env), s.instances[h];
            && h in d.state.instances
            && OnlyUnplugs(was.wire.machine, d.state.instances[h].wire.machine, ExtraNetId(index), NetdevDel(ExtraNetId(index)))
            && (d.error.None? <==> Detaches(was, link, NicDetach(index, env)))
            && (d.error.Some? ==> SameRecord(was, d.state.instances[h]) && d.state.taps == s.taps)
    ensures var d, was := DetachNetworkSpec(s, h, index, host, link, env), s.instances[h];
            d.error.None? ==>
              var m, i := was.wire.machine, d.state.instances[h];
              && ExtraNetId(index) in m.devices && ExtraNetId(index) in m.netdevs
              && Unplugged(i.wire.machine, NetdevDel(ExtraNetId(index)))
              && FirstRecordGone(was.extras, i.extras, ExtraNetId(index))
              && TapsFollow(s.taps, d.state.taps, was.extras, ExtraNetId(index), host)
  {
    var was, id := s.instances[h], ExtraNetId(index);
    DetachOutcome(was.wire, was.client, link, id, NetdevDel(id), UNPLUG_TIMEOUT_MS, env);
    RecordAndTapGo(s.taps, was.extras, id, host);
  }

  lemma RecordAndTapGo(taps: set<string>, was: seq<Extra>, id: string, host: HostEnv)
    ensures var p := Position(was, id);
            var now := if p < |was| then was[..p] + was[p + 1..] else was;
            var left := if p < |was| then TeardownOne(taps, was[p].1, host) else taps;
            FirstRecordGone(was, now, id) && TapsFollow(taps, left, was, id, host)
  {
    var p := Position(was, id);
    if p < |was| {
      assert FirstRecord(was, id, p);
      OneTapGoes(taps, was[p].1, host);
    } else {
      forall e | e in was ensures e.0 != id {}
    }
  }

  lemma OneTapGoes(taps: set<string>, info: NetworkInfo, host: HostEnv)
    ensures TeardownOne(taps, info, host) == taps - Deleted(info, host)
  {}

  /** Taps of a NIC whose tear-down deletes them. */
  ghost function Deleted(info: NetworkInfo, host: HostEnv): set<string> {
    set t | t in TapsOf(info) && host.teardown(t) == Removed
  }

  /** `p` is the place of the first record with this id. */
  ghost predicate FirstRecord(extras: seq<Extra>, id: string, p: nat) {
    p < |extras| && extras[p].0 == id && forall j :: 0 <= j < p ==> extras[j].0 != id
  }

  /** The first record with this id is taken out, if there is one. */
  ghost predicate FirstRecordGone(was: seq<Extra>, now: seq<Extra>, id: string) {
    || (now == was && forall e :: e in was ==> e.0 != id)
    || (exists p: nat :: FirstRecord(was, id, p) && now == was[..p] + was[p + 1..])
  }

  /** The host loses the tap of that record where its tear-down deletes it. */
  ghost predicate TapsFollow(was: set<string>, now: set<string>, extras: seq<Extra>, id: string, host: HostEnv) {
    || (now == was && forall e :: e in extras ==> e.0 != id)
    || (exists p: nat :: FirstRecord(extras, id, p) && now == was - Deleted(extras[p].1, host))
  }

  /** The first run met QEMU and lost it. */
  ghost predicate LosesQemu(was: RunningInstance, link: Link, op: Operation) {
    (was.client || Connects(link.first)) && op(was.wire, 0).result.Lost?
  }

  /** Which error an operation over QMP ends with, and what the call leaves of
      the connection and the reconnect count. */
  ghost predicate Tells(s: State, d: Ended, h: string, link: Link, op: Operation)
    requires h in s.instances
  {
    var was := s.instances[h];
    && h in d.state.instances
    && (d.error.Some? ==> d.error.value == if LosesQemu(was, link, op) && !link.alive then ProcessNotRunning else Io)
    && d.state.reconnects == s.reconnects + (if LosesQemu(was, link, op) then 1 else 0)
    && (d.state.instances[h].client <==> (was.client || Connects(link.first)) && (LosesQemu(was, link, op) ==> Reconnects(link)))
  }

  /** The process is reported gone exactly when a lost connection finds it so;
      every other failure past the host side is `Io`. */
  lemma {:induction false} HotplugAnswers(s: State, h: string, index: nat, file: Content, mode: NetworkMode, host: HostEnv, link: Link, env: Env)
    requires h in s.instances
    ensures Tells(s, AttachDiskSpec(s, h, index, file, link, env), h, link, AttachDiskOp(index, file, env))
    ensures Tells(s, DetachDiskSpec(s, h, index, link, env), h, link, DiskDetach(index, env))
    ensures Tells(s, DetachNetworkSpec(s, h, index, host, link, env), h, link, NicDetach(index, env))
    ensures IdFromHandle(h).Ok? && !s.instances[h].network.IsolatedInfo? && ComesUp(s.taps, mode, ExtraTap(IdFromHandle(h).value, index), host) ==>
              Tells(s, AttachNetworkSpec(s, h, mode, index, host, link, env), h, link, AttachNetOp(index, env))
  {
    OverQmpTells(s, h, link, AttachDiskOp(index, file, env));
    OverQmpTells(s, h, link, DiskDetach(index, env));
    DetachAnswers(s, h, index, host, link, env);
    if IdFromHandle(h).Ok? && !s.instances[h].network.IsolatedInfo? && ComesUp(s.taps, mode, ExtraTap(IdFromHandle(h).value, index), host) {
      AttachAnswers(s, h, index, mode, host, link, env);
    }
  }

  lemma {:induction false} OverQmpTells(s: State, h: string, link: Link, op: Operation)
    requires h in s.instances
    ensures Tells(s, OverQmp(s, h, link, op), h, link, op)
  {}

  lemma {:induction false} DetachAnswers(s: State, h: string, index: nat, host: HostEnv, link: Link, env: Env)
    requires h in s.instances
    ensures Tells(s, DetachNetworkSpec(s, h, index, host, link, env), h, link, NicDetach(index, env))
  {
    OverQmpTells(s, h, link, NicDetach(index, env));
  }

  lemma {:induction false} AttachAnswers(s: State, h: string, index: nat, mode: NetworkMode, host: HostEnv, link: Link, env: Env)
    requires h in s.instances && IdFromHandle(h).Ok? && !s.instances[h].network.IsolatedInfo?
    requires ComesUp(s.taps, mode, ExtraTap(IdFromHandle(h).value, index), host)
    ensures Tells(s, AttachNetworkSpec(s, h, mode, index, host, link, env), h, link, AttachNetOp(index, env))
  {
    var (taps, r) := SetupOne(s.taps, IdFromHandle(h).value, mode, index, host);
    assert r.Ok?;
    OverQmpTells(s.(taps := taps), h, link, AttachNetOp(index, env));
  }

  /** Hot-plug calls need a record. */
  lemma UnknownHandles(s: State, c: Call)
    requires Hotplugs(c) && c.handle !in s.instances
    ensures Step(s, c) == s
    ensures c.AttachDisk? ==> AttachDiskSpec(s, c.handle, c.index, c.file, c.link, c.env).error == Some(HandleNotFound)
    ensures c.DetachDisk? ==> DetachDiskSpec(s, c.handle, c.index, c.link, c.env).error == Some(HandleNotFound)
    ensures c.AttachNetwork? ==> AttachNetworkSpec(s, c.handle, c.mode, c.index, c.host, c.link, c.env).error == Some(HandleNotFound)
    ensures c.DetachNetwork? ==> DetachNetworkSpec(s, c.handle, c.index, c.host, c.link, c.env).error == Some(HandleNotFound)
  {}

  // ----- snapshot -----

  /** After every run a snapshot call succeeds exactly when no switch was lost
      since the spawn, QEMU is reached, the node name is free and both commands
      are carried out; the new node is then written and recorded. */
  lemma SnapshotCallIff(taps: set<string>, calls: seq<Call>, h: string, stem: string, dial: Dial, add: Fate, acts: seq<GuestAct>, switch: Fate)
    requires h in Run(Start(taps), calls).instances
    ensures var s := Run(Start(taps), calls);
            var d, was := SnapshotSpec(s, h, stem, map[], dial, add, acts, switch), s.instances[h];
            && h in d.state.instances && d.state.taps == s.taps
            && (d.error.None? <==> !LostSince(taps, calls, h) && (was.client || Connects(dial)) && add.Applied? && switch.Applied?
                                   && SnapshotNodeName(stem) !in was.wire.machine.nodes)
            && (d.error.Some? ==> d.error.value == Io && d.state.instances[h].headNodeName == was.headNodeName)
            && (d.error.None? ==>
                  var i := d.state.instances[h];
                  i.headNodeName == SnapshotNodeName(stem) == i.wire.machine.root && SameNics(was, i))
            && (d.state.instances[h].client <==> was.client || Connects(dial))
  {
    var s := Run(Start(taps), calls);
    var was := s.instances[h];
    var e := S.Event.Snapshot(stem, map[], was.client || Connects(dial), add, acts, switch);
    HeadsExact(taps, calls, h);
    DisksConsistent(taps, calls, h);
    S.SnapshotOutcome(SessionOf(was), e, HistoryOf(Config(taps, calls, h).value, was));
    HeadMovesOnlyOnSuccess(SessionOf(was), e);
  }

  ghost predicate SameNics(was: RunningInstance, i: RunningInstance) { i.network == was.network && i.extras == was.extras }

  lemma HeadMovesOnlyOnSuccess(s: S.Session, e: S.Event)
    requires e.Snapshot?
    ensures var r := S.SnapshotOp(s, e);
            r.session.head == if r.ok then SnapshotNodeName(e.stem) else s.head
  {}

  // ----- spawn -----

  /** The primary NIC's host side comes up. */
  ghost predicate PrimaryComesUp(taps: set<string>, cfg: InstanceConfig, host: HostEnv) {
    match cfg.network
    case Nat => true
    case Bridge(_) => PrimaryTap(cfg.id) !in taps && host.setup(PrimaryTap(cfg.id)) == SetUp
    case Isolated => host.isolatedUp
  }

  ghost predicate ExtrasComeUp(taps: set<string>, cfg: InstanceConfig, host: HostEnv) {
    forall i: nat :: i < |cfg.extraNetworks| ==> ComesUp(taps, cfg.extraNetworks[i], ExtraTap(cfg.id, i), host)
  }

  /** Each of the first `n` extra NICs is recorded under the id and with the tap
      of its index. */
  ghost predicate RecordsFor(extras: seq<Extra>, cfg: InstanceConfig, n: nat)
    requires n <= |cfg.extraNetworks|
  {
    && |extras| == n
    && forall k: nat :: k < n ==> extras[k] == (ExtraNetId(k), NicInfo(cfg.extraNetworks[k], ExtraTap(cfg.id, k)))
  }

  ghost predicate RecordsNics(i: RunningInstance, cfg: InstanceConfig) {
    && i.network == NicInfo(cfg.network, PrimaryTap(cfg.id))
    && RecordsFor(i.extras, cfg, |cfg.extraNetworks|)
  }

  /** `spawn` succeeds exactly when the render backend exists, the directories
      are there, an isolated NIC is alone, every NIC comes up and the process
      starts; it then records exactly the configured NICs, the main disk as head
      and a QEMU as configured. Otherwise no record changes. */
  lemma SpawnCall(s: State, cfg: InstanceConfig, host: HostEnv)
    ensures var d, h := SpawnSpec(s, cfg, host), HandleFor(cfg.id);
            && (d.error.None? <==> cfg.renderImplemented && host.dirs && !(cfg.network.Isolated? && cfg.extraNetworks != [])
                                   && PrimaryComesUp(s.taps, cfg, host) && ExtrasComeUp(s.taps, cfg, host) && host.launch)
            && (d.error.Some? ==> d.state.instances == s.instances)
            && d.state.reconnects == s.reconnects
            && (d.error.None? ==>
                  var i := d.state.instances[h];
                  && d.state.instances == s.instances[h := i] && RecordsNics(i, cfg)
                  && i.headNodeName == DISK_DEVICE && !i.client && i.wire == Wire(BootMachine(cfg), []))
  {
    if cfg.renderImplemented && host.dirs && !BuildArgsFails(cfg) {
      var (taps, primary) := SetupPrimary(s.taps, cfg, host);
      PrimaryUpIff(s.taps, cfg, host);
      if primary.Ok? {
        ExtrasUpIff(s.taps, taps, cfg, host);
      }
    } else if BuildArgsFails(cfg) && !(cfg.network.Isolated? && cfg.extraNetworks != []) {
      var i :| 0 <= i < |cfg.extraNetworks| && cfg.extraNetworks[i] == Isolated;
      assert !ComesUp(s.taps, cfg.extraNetworks[i], ExtraTap(cfg.id, i), host);
    }
  }

  lemma PrimaryUpIff(taps: set<string>, cfg: InstanceConfig, host: HostEnv)
    ensures var (made, r) := SetupPrimary(taps, cfg, host);
            && (r.Ok? <==> PrimaryComesUp(taps, cfg, host))
            && (r.Ok? ==> r.value == NicInfo(cfg.network, PrimaryTap(cfg.id)) && made == taps + TapsOf(r.value))
  {}

  lemma TapsOfOneInstance(id: string, i: nat, j: nat)
    ensures PrimaryTap(id) != ExtraTap(id, i)
    ensures ExtraTap(id, i) == ExtraTap(id, j) <==> i == j
  {
    var prefix := "tap" + ShortId(id) + "-e";
    assert ExtraTap(id, i) == prefix + Decimal(i) && ExtraTap(id, j) == prefix + Decimal(j);
    if ExtraTap(id, i) == ExtraTap(id, j) { PrefixedInjective(prefix, i, j); }
    assert |PrimaryTap(id)| < |ExtraTap(id, i)|;
  }

  /** What the set-up has made: the primary's tap and those of earlier indices. */
  ghost predicate TapsUpTo(start: set<string>, taps: set<string>, cfg: InstanceConfig, n: nat) {
    start <= taps && forall t :: t in taps ==> t in start || t == PrimaryTap(cfg.id) || IsExtraTap(cfg.id, n, t)
  }

  ghost predicate IsExtraTap(id: string, n: nat, t: string) { exists i: nat :: i < n && t == ExtraTap(id, i) }

  ghost predicate UpTo(start: set<string>, cfg: InstanceConfig, host: HostEnv, n: nat)
    requires n <= |cfg.extraNetworks|
  {
    forall i: nat :: i < n ==> ComesUp(start, cfg.extraNetworks[i], ExtraTap(cfg.id, i), host)
  }

  /** So each NIC comes up as it would have on the host before. */
  lemma {:induction false} ExtrasUpTo(start: set<string>, taps: set<string>, cfg: InstanceConfig, host: HostEnv, n: nat)
    requires n <= |cfg.extraNetworks| && TapsUpTo(start, taps, cfg, 0)
    ensures var x := SetupExtras(taps, cfg.id, cfg.extraNetworks[..n], host);
            && (x.error.None? <==> UpTo(start, cfg, host, n))
            && (x.error.None? ==> TapsUpTo(start, x.taps, cfg, n) && RecordsFor(x.infos, cfg, n))
  {
    if n > 0 {
      assert cfg.extraNetworks[..n][..n - 1] == cfg.extraNetworks[..n - 1];
      ExtrasUpTo(start, taps, cfg, host, n - 1);
      var x := SetupExtras(taps, cfg.id, cfg.extraNetworks[..n - 1], host);
      if x.error.None? { OneMoreUp(start, x.taps, x.infos, cfg, host, n - 1); }
      assert UpTo(start, cfg, host, n) <==>
        UpTo(start, cfg, host, n - 1) && ComesUp(start, cfg.extraNetworks[n - 1], ExtraTap(cfg.id, n - 1), host);
    }
  }

  lemma OneMoreUp(start: set<string>, now: set<string>, infos: seq<Extra>, cfg: InstanceConfig, host: HostEnv, k: nat)
    requires k < |cfg.extraNetworks| && TapsUpTo(start, now, cfg, k) && RecordsFor(infos, cfg, k)
    ensures var (made, r) := SetupOne(now, cfg.id, cfg.extraNetworks[k], k, host);
            && (r.Ok? <==> ComesUp(start, cfg.extraNetworks[k], ExtraTap(cfg.id, k), host))
            && (r.Ok? ==> TapsUpTo(start, made, cfg, k + 1) && RecordsFor(infos + [(ExtraNetId(k), r.value)], cfg, k + 1))
  {
    var tap := ExtraTap(cfg.id, k);
    TapsOfOneInstance(cfg.id, k, k);
    if IsExtraTap(cfg.id, k, tap) {
      var i: nat :| i < k && tap == ExtraTap(cfg.id, i);
      TapsOfOneInstance(cfg.id, k, i);
    }
    forall t | IsExtraTap(cfg.id, k, t) || t == tap ensures IsExtraTap(cfg.id, k + 1, t) {}
  }

  lemma ExtrasUpIff(start: set<string>, taps: set<string>, cfg: InstanceConfig, host: HostEnv)
    requires TapsUpTo(start, taps, cfg, 0)
    ensures var x := SetupExtras(taps, cfg.id, cfg.extraNetworks, host);
            && (x.error.None? <==> ExtrasComeUp(start, cfg, host))
            && (x.error.None? ==> RecordsFor(x.infos, cfg, |cfg.extraNetworks|))
  {
    ExtrasUpTo(start, taps, cfg, host, |cfg.extraNetworks|);
    assert cfg.extraNetworks[..|cfg.extraNetworks|] == cfg.extraNetworks;
  }

  // ----- stop -----

  /** Tear-down of a NIC reports success. */
  ghost predicate GoesDown(info: NetworkInfo, host: HostEnv) {
    match info
    case BridgeInfo(_, tap) => host.teardown(tap) in {Removed, DeleteRefused}
    case IsolatedInfo => host.isolatedDown
    case NatInfo => true
  }

  lemma {:induction false} StopTearsDownIff(others: set<string>, extras: seq<Extra>, host: HostEnv)
    requires Distinct(extras) && TapSet(extras) !! others
    ensures StopTeardown(others + TapSet(extras), extras, host).1 <==> forall k: nat :: k < |extras| ==> GoesDown(extras[k].1, host)
    decreases |extras|
  {
    if extras != [] {
      var n := |extras| - 1;
      var before, mine := extras[..n], TapsOf(extras[n].1);
      DistinctLast(extras);
      StopTearsDownIff(others + mine, before, host);
      assert others + TapSet(extras) == (others + mine) + TapSet(before);
      StopLeaves(others + mine, before, host);
      forall k: nat | k < n ensures before[k] == extras[k] {}
    }
  }

  /** After every run `stop` succeeds exactly when the handle is known, the
      process goes and every NIC goes down; the record is gone as soon as the
      process is, whether or not the NICs go down. */
  lemma StopCallIff(taps: set<string>, calls: seq<Call>, h: string, host: HostEnv)
    ensures var s := Run(Start(taps), calls);
            var d := StopSpec(s, h, host);
            && (h !in s.instances ==> d == Ended(s, Some(HandleNotFound)))
            && (h in s.instances && !host.kill ==> d == Ended(s, Some(Io)))
            && (h in s.instances && host.kill ==>
                  && d.state.instances == s.instances - {h} && d.state.reconnects == s.reconnects
                  && d.error == (if forall k: nat :: k < |Nics(s.instances[h])| ==> GoesDown(Nics(s.instances[h])[k].1, host)
                                 then None else Some(Io)))
  {
    var s := Run(Start(taps), calls);
    if h in s.instances {
      TapConservation(taps, calls);
      var leaked := Leaks(Start(taps), calls);
      LedgerSplit(s, h, taps, leaked);
      StopTearsDownIff(Others(s, h, taps, leaked), Nics(s.instances[h]), host);
    }
  }

  // ----- what records mean -----

  /** A record names one NIC: its id and its tap are those of one index. */
  ghost predicate RecordOf(e: Extra, id: string) {
    exists i: nat :: e.0 == ExtraNetId(i) && (e.1.BridgeInfo? ==> e.1.tap == ExtraTap(id, i))
  }

  ghost predicate RecordsTell(h: string, i: RunningInstance) {
    && IdFromHandle(h).Ok?
    && (i.network.BridgeInfo? ==> i.network.tap == PrimaryTap(IdFromHandle(h).value))
    && forall e :: e in i.extras ==> RecordOf(e, IdFromHandle(h).value)
  }

  lemma SpawnRecordsTell(s: State, cfg: InstanceConfig, host: HostEnv)
    requires SpawnSpec(s, cfg, host).error.None?
    ensures RecordsTell(HandleFor(cfg.id), SpawnSpec(s, cfg, host).state.instances[HandleFor(cfg.id)])
  {
    SpawnCall(s, cfg, host);
    var i := SpawnSpec(s, cfg, host).state.instances[HandleFor(cfg.id)];
    assert HandleFor(cfg.id)[5..] == cfg.id;
    forall e | e in i.extras ensures RecordOf(e, cfg.id) {
      var k: nat :| k < |i.extras| && i.extras[k] == e;
    }
  }

  lemma StepRecordsTell(s: State, c: Call, h: string)
    requires h in s.instances && RecordsTell(h, s.instances[h])
    requires h in Step(s, c).instances && !Spawns(s, c, h)
    ensures RecordsTell(h, Step(s, c).instances[h])
  {
    if c.Spawn? { SpawnIsolation(s, c.cfg, c.host); }
    else if c.handle != h { OtherInstances(s, c, h); }
    else if c.Stop? { StopForgets(s, c); }
    else if c.AttachNetwork? { AttachRecordsTell(s, c); }
    else if c.DetachNetwork? { DetachRecordsTell(s, c); }
  }

  lemma AttachRecordsTell(s: State, c: Call)
    requires c.AttachNetwork? && c.handle in s.instances && RecordsTell(c.handle, s.instances[c.handle])
    ensures c.handle in Step(s, c).instances && RecordsTell(c.handle, Step(s, c).instances[c.handle])
  {
    var was, id := s.instances[c.handle], IdFromHandle(c.handle).value;
    var (taps, r) := SetupOne(s.taps, id, c.mode, c.index, c.host);
    if r.Ok? {
      var e := (ExtraNetId(c.index), r.value);
      assert RecordOf(e, id);
      assert forall x :: x in was.extras + [e] <==> x in was.extras || x == e;
    }
  }

  lemma DetachRecordsTell(s: State, c: Call)
    requires c.DetachNetwork? && c.handle in s.instances && RecordsTell(c.handle, s.instances[c.handle])
    ensures c.handle in Step(s, c).instances && RecordsTell(c.handle, Step(s, c).instances[c.handle])
  {
    var was := s.instances[c.handle].extras;
    var p := Position(was, ExtraNetId(c.index));
    if p < |was| {
      forall x | x in was[..p] + was[p + 1..] ensures x in was {}
    }
  }

  /** In every reachable state each record names one NIC of its instance, so
      what a detach tears down is the tap of the NIC it unplugged. */
  lemma {:induction false} RecordsOverRuns(taps: set<string>, calls: seq<Call>, h: string)
    requires h in Run(Start(taps), calls).instances
    ensures RecordsTell(h, Run(Start(taps), calls).instances[h])
  {
    assert calls != [];
    var before, c := calls[..|calls| - 1], calls[|calls| - 1];
    var s := Run(Start(taps), before);
    if Spawns(s, c, h) {
      SpawnRecordsTell(s, c.cfg, c.host);
    } else {
      NewOrKept(s, c, h);
      RecordsOverRuns(taps, before, h);
      StepRecordsTell(s, c, h);
    }
  }
}
