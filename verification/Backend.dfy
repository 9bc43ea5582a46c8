/** `QemuBackend`: the map of running instances and the operations that change
    it, written as the source does, against a specification of each operation as
    a function on the backend's and the host's state. */
module Backend {
  import opened Basics
  import opened Cmdline
  import opened Qemu
  import opened Hotplug
  import opened HostNetwork
  import Snapshots

  datatype InstanceConfig = InstanceConfig(
    id: string,
    renderImplemented: bool,
    disk: Content,
    extraDisks: nat,
    network: NetworkMode,
    extraNetworks: seq<NetworkMode>)

  datatype RunningInstance = RunningInstance(
    client: bool,
    wire: Wire,
    headNodeName: string,
    network: NetworkInfo,
    extras: seq<Extra>)

  datatype State = State(instances: map<string, RunningInstance>, taps: set<string>, reconnects: nat)

  /** Outcome of a backend call: the state after it and its error, if any. */
  datatype Ended = Ended(state: State, error: Option<BackendError>)

  function HandleFor(id: string): string { "qemu:" + id }

  /** `instance_id_from_handle`. */
  function IdFromHandle(handle: string): Result<string, BackendError> {
    if "qemu:" <= handle then Ok(handle[5..]) else Err(HandleNotFound)
  }

  // ----- what QEMU looks like right after launch -----

  /** Boot disks have device ids on `-drive` backends. */
  function BootDevices(disks: nat): map<string, Device> {
    if disks == 0 then map[]
    else BootDevices(disks - 1)[ExtraDiskDeviceId(disks - 1) := Device(BootDrive(ExtraDiskDriveId(disks - 1)), false)]
  }

  function BootNetdevs(nics: nat): set<string> {
    if nics == 0 then {} else BootNetdevs(nics - 1) + {ExtraNetId(nics - 1)}
  }

  /** The main disk is the only named node; boot NICs carry no device id. */
  function BootMachine(cfg: InstanceConfig): Machine {
    Machine(map[DISK_DEVICE := Layer(cfg.disk, None)], DISK_DEVICE,
            BootNetdevs(|cfg.extraNetworks|), BootDevices(cfg.extraDisks))
  }

  // ----- spawn -----

  /** The primary network's set-up. */
  function SetupPrimary(taps: set<string>, cfg: InstanceConfig, env: HostEnv): (set<string>, Result<NetworkInfo, BackendError>) {
    match cfg.network
    case Bridge(bridge) =>
      var tap := PrimaryTap(cfg.id);
      (TapsAfterSetup(taps, tap, env.setup(tap)),
       if SetupSucceeds(taps, tap, env.setup(tap)) then Ok(BridgeInfo(bridge, tap)) else Err(Io))
    case Isolated => (taps, if env.isolatedUp then Ok(IsolatedInfo) else Err(Io))
    case Nat => (taps, Ok(NatInfo))
  }

  /** `build_args` refuses the configuration (of its parts only the network
      arguments can, once the render backend is implemented). */
  predicate BuildArgsFails(cfg: InstanceConfig) {
    NetworkRefused(cfg.network, cfg.extraNetworks)
  }

  /** Every NIC an instance records, the primary one first. */
  function Nics(i: RunningInstance): seq<Extra> { [("net0", i.network)] + i.extras }

  function Spawned(cfg: InstanceConfig, network: NetworkInfo, extras: seq<Extra>): RunningInstance {
    RunningInstance(false, Wire(BootMachine(cfg), []), DISK_DEVICE, network, extras)
  }

  ghost function SpawnSpec(s: State, cfg: InstanceConfig, env: HostEnv): Ended {
    if !cfg.renderImplemented then Ended(s, Some(InvalidConfig))
    else if !env.dirs then Ended(s, Some(Io))
    else if BuildArgsFails(cfg) then Ended(s, Some(InvalidConfig))
    else
      var (taps, primary) := SetupPrimary(s.taps, cfg, env);
      if primary.Err? then Ended(s.(taps := taps), Some(primary.error)) else
      var x := SetupExtras(taps, cfg.id, cfg.extraNetworks, env);
      var made := [("net0", primary.value)] + x.infos;
      if x.error.Some? then Ended(s.(taps := TeardownAll(x.taps, made, env)), x.error)
      else if !env.launch then Ended(s.(taps := TeardownAll(x.taps, made, env)), Some(Io))
      else Ended(s.(taps := x.taps,
                   instances := s.instances[HandleFor(cfg.id) := Spawned(cfg, primary.value, x.infos)]), None)
  }

  // ----- stop -----

  ghost function StopSpec(s: State, handle: string, env: HostEnv): Ended {
    if handle !in s.instances then Ended(s, Some(HandleNotFound))
    else if !env.kill then Ended(s, Some(Io))
    else
      var (taps, ok) := StopTeardown(s.taps, Nics(s.instances[handle]), env);
      Ended(s.(taps := taps, instances := s.instances - {handle}), if ok then None else Some(Io))
  }

  // ----- hot-plug -----

  function RunError(link: Link, ok: bool, runs: nat, reconnects: nat): Option<BackendError> {
    if ok then None
    else if runs == 1 && reconnects > 0 && !link.alive then Some(ProcessNotRunning) else Some(Io)
  }

  ghost function After(i: RunningInstance, ran: Ran): RunningInstance {
    i.(client := ran.client, wire := ran.wire)
  }

  ghost function OverQmp(s: State, handle: string, link: Link, op: Operation): Ended
    requires handle in s.instances
  {
    var i := s.instances[handle];
    var ran := RunOp(i.wire, i.client, link, op);
    Ended(s.(instances := s.instances[handle := After(i, ran)], reconnects := s.reconnects + ran.reconnects),
         RunError(link, ran.ok, ran.runs, ran.reconnects))
  }

  ghost function AttachNetworkSpec(s: State, handle: string, mode: NetworkMode, index: nat, host: HostEnv, link: Link, env: Env): Ended {
    if handle !in s.instances then Ended(s, Some(HandleNotFound))
    else if IdFromHandle(handle).Err? then Ended(s, Some(HandleNotFound))
    else if s.instances[handle].network.IsolatedInfo? then Ended(s, Some(InvalidConfig))
    else
      var (taps, r) := SetupOne(s.taps, IdFromHandle(handle).value, mode, index, host);
      if r.Err? then Ended(s.(taps := taps), Some(r.error)) else
      var d := OverQmp(s.(taps := taps), handle, link, AttachNetOp(index, env));
      if d.error.None? then
        var i := d.state.instances[handle];
        d.(state := d.state.(instances := d.state.instances[handle := i.(extras := i.extras + [(ExtraNetId(index), r.value)])]))
      else d.(state := d.state.(taps := TeardownOne(taps, r.value, host)))
  }

  /** Position of the first record with this netdev id, or the list's length. */
  function Position(extras: seq<Extra>, netdev: string): (p: nat)
    ensures p <= |extras|
    ensures p < |extras| ==> extras[p].0 == netdev
    ensures forall i :: 0 <= i < p ==> extras[i].0 != netdev
  {
    if extras == [] then 0
    else if extras[0].0 == netdev then 0
    else 1 + Position(extras[1..], netdev)
  }

  ghost function DetachNetworkSpec(s: State, handle: string, index: nat, host: HostEnv, link: Link, env: Env): Ended {
    if handle !in s.instances then Ended(s, Some(HandleNotFound))
    else
      var netdev := ExtraNetId(index);
      var d := OverQmp(s, handle, link, DetachOp(netdev, NetdevDel(netdev), UNPLUG_TIMEOUT_MS, env));
      var i := d.state.instances[handle];
      var p := Position(i.extras, netdev);
      if d.error.Some? || p == |i.extras| then d
      else d.(state := d.state.(
        instances := d.state.instances[handle := i.(extras := i.extras[..p] + i.extras[p + 1..])],
        taps := TeardownOne(s.taps, i.extras[p].1, host)))
  }

  ghost function AttachDiskSpec(s: State, handle: string, index: nat, file: Content, link: Link, env: Env): Ended {
    if handle !in s.instances then Ended(s, Some(HandleNotFound))
    else OverQmp(s, handle, link, AttachDiskOp(index, file, env))
  }

  ghost function DetachDiskSpec(s: State, handle: string, index: nat, link: Link, env: Env): Ended {
    if handle !in s.instances then Ended(s, Some(HandleNotFound))
    else OverQmp(s, handle, link,
                 DetachOp(ExtraDiskDeviceId(index), BlockdevDel(ExtraDiskDriveId(index)), UNPLUG_TIMEOUT_MS, env))
  }

  // ----- snapshot -----

  function SessionOf(i: RunningInstance): Snapshots.Session { Snapshots.Session(i.wire.machine, i.headNodeName) }

  function WithSession(i: RunningInstance, s: Snapshots.Session): RunningInstance {
    i.(wire := i.wire.(machine := s.machine), headNodeName := s.head)
  }

  /** The history of an instance's QEMU gets one more entry. */
  function Noting(i: RunningInstance, e: Snapshots.Event): RunningInstance {
    i.(wire := i.wire.(log := i.wire.log + [e]))
  }

  ghost function SnapshotSpec(s: State, handle: string, stem: string, file: Content, dial: Dial, add: Fate,
                              acts: seq<GuestAct>, switch: Fate): Ended {
    if handle !in s.instances then Ended(s, Some(HandleNotFound))
    else
      var i := s.instances[handle];
      var connects := i.client || Connects(dial);
      var e := Snapshots.Snapshot(stem, file, connects, add, acts, switch);
      var r := Snapshots.SnapshotOp(SessionOf(i), e);
      Ended(s.(instances := s.instances[handle := Noting(WithSession(i.(client := connects), r.session), e)]),
            if r.ok then None else Some(Io))
  }

  // ----- the backend object -----

  class QemuBackend {
    var instances: map<string, RunningInstance>
    var qmpReconnects: nat
    const networkService: Host

    constructor (networkService: Host)
      ensures this.networkService == networkService
      ensures instances == map[] && qmpReconnects == 0
    {
      this.networkService := networkService;
      instances, qmpReconnects := map[], 0;
    }

    ghost function Current(): State
      reads this, networkService
    {
      State(instances, networkService.taps, qmpReconnects)
    }

    /** `teardown_network_info`. */
    method TeardownNetworkInfo(info: NetworkInfo, env: HostEnv)
      modifies networkService
      ensures networkService.taps == TeardownOne(old(networkService.taps), info, env)
    {
      match info {
        case BridgeInfo(_, tap) => var _ := networkService.TeardownBridge(tap, env.teardown(tap));
        case IsolatedInfo =>
        case NatInfo =>
      }
    }

    /** Roll-back of a list of NICs, errors ignored. */
    method TeardownInfos(infos: seq<Extra>, env: HostEnv)
      modifies networkService
      ensures networkService.taps == TeardownAll(old(networkService.taps), infos, env)
    {
      for k := 0 to |infos|
        invariant networkService.taps == TeardownAll(old(networkService.taps), infos[..k], env)
      {
        assert infos[..k + 1][..k] == infos[..k];
        TeardownNetworkInfo(infos[k].1, env);
      }
      assert infos[..|infos|] == infos;
    }

    method SetupExtraNetwork(mode: NetworkMode, index: nat, id: string, env: HostEnv)
      returns (r: Result<NetworkInfo, BackendError>)
      modifies networkService
      ensures (networkService.taps, r) == SetupOne(old(networkService.taps), id, mode, index, env)
    {
      match mode {
        case Bridge(bridge) =>
          var tap := ExtraTap(id, index);
          var ok := networkService.SetupBridge(tap, env.setup(tap));
          r := if ok then Ok(BridgeInfo(bridge, tap)) else Err(Io);
        case Isolated => r := Err(InvalidConfig);
        case Nat => r := Ok(NatInfo);
      }
    }

    method SetupPrimaryNetwork(cfg: InstanceConfig, env: HostEnv) returns (r: Result<NetworkInfo, BackendError>)
      modifies networkService
      ensures (networkService.taps, r) == SetupPrimary(old(networkService.taps), cfg, env)
    {
      match cfg.network {
        case Bridge(bridge) =>
          var tap := PrimaryTap(cfg.id);
          var ok := networkService.SetupBridge(tap, env.setup(tap));
          r := if ok then Ok(BridgeInfo(bridge, tap)) else Err(Io);
        case Isolated => r := if env.isolatedUp then Ok(IsolatedInfo) else Err(Io);
        case Nat => r := Ok(NatInfo);
      }
    }

    method Spawn(cfg: InstanceConfig, env: HostEnv) returns (r: Result<string, BackendError>)
      modifies this, networkService
      ensures Ended(Current(), if r.Ok? then None else Some(r.error)) == SpawnSpec(old(Current()), cfg, env)
      ensures r.Ok? ==> r.value == HandleFor(cfg.id)
    {
      if !cfg.renderImplemented { return Err(InvalidConfig); }
      var handle := HandleFor(cfg.id);
      if !env.dirs { return Err(Io); }
      var args := NetworkArgs(cfg.id, cfg.network, cfg.extraNetworks);
      if args.Err? { return Err(args.error); }

      ghost var before := networkService.taps;
      var primary := SetupPrimaryNetwork(cfg, env);
      if primary.Err? { return Err(primary.error); }
      var network := primary.value;
      ghost var base := networkService.taps;
      var extras: seq<Extra> := [];
      for index := 0 to |cfg.extraNetworks|
        invariant Extras(networkService.taps, extras, None) == SetupExtras(base, cfg.id, cfg.extraNetworks[..index], env)
        invariant instances == old(instances) && qmpReconnects == old(qmpReconnects)
      {
        assert cfg.extraNetworks[..index + 1][..index] == cfg.extraNetworks[..index];
        var info := SetupExtraNetwork(cfg.extraNetworks[index], index, cfg.id, env);
        match info {
          case Ok(value) => extras := extras + [(ExtraNetId(index), value)];
          case Err(error) =>
            SetupStops(base, cfg.id, cfg.extraNetworks, env, index + 1);
            TeardownInfos([("net0", network)] + extras, env);
            return Err(error);
        }
      }
      assert cfg.extraNetworks[..|cfg.extraNetworks|] == cfg.extraNetworks;
      if !env.launch {
        TeardownInfos([("net0", network)] + extras, env);
        return Err(Io);
      }
      instances := instances[handle := RunningInstance(false, Wire(BootMachine(cfg), []), DISK_DEVICE, network, extras)];
      return Ok(handle);
    }

    method StopNic(info: NetworkInfo, env: HostEnv) returns (ok: bool)
      modifies networkService
      ensures (networkService.taps, ok) == StopOne(old(networkService.taps), info, env)
    {
      match info {
        case BridgeInfo(_, tap) => ok := networkService.TeardownBridge(tap, env.teardown(tap));
        case IsolatedInfo => ok := env.isolatedDown;
        case NatInfo => ok := true;
      }
    }

    method Stop(handle: string, env: HostEnv) returns (r: Result<(), BackendError>)
      modifies this, networkService
      ensures Ended(Current(), if r.Ok? then None else Some(r.error)) == StopSpec(old(Current()), handle, env)
    {
      if handle !in instances { return Err(HandleNotFound); }
      if !env.kill { return Err(Io); }
      var nics := Nics(instances[handle]);
      instances := instances - {handle};
      for k := 0 to |nics|
        invariant (networkService.taps, true) == StopTeardown(old(networkService.taps), nics[..k], env)
        invariant instances == old(instances) - {handle} && qmpReconnects == old(qmpReconnects)
      {
        assert nics[..k + 1][..k] == nics[..k];
        var ok := StopNic(nics[k].1, env);
        if !ok { StopStops(old(networkService.taps), nics, env, k + 1); return Err(Io); }
      }
      assert nics[..|nics|] == nics;
      return Ok(());
    }

    method AttachNetwork(handle: string, mode: NetworkMode, index: nat, host: HostEnv, link: Link, env: Env)
      returns (r: Result<(), BackendError>)
      modifies this, networkService
      ensures Ended(Current(), if r.Ok? then None else Some(r.error))
           == AttachNetworkSpec(old(Current()), handle, mode, index, host, link, env)
    {
      if handle !in instances { return Err(HandleNotFound); }
      var instance := instances[handle];
      var id := IdFromHandle(handle);
      if id.Err? { return Err(id.error); }
      if instance.network.IsolatedInfo? { return Err(InvalidConfig); }
      var info := SetupExtraNetwork(mode, index, id.value, host);
      if info.Err? { return Err(info.error); }
      r := RunOnInstance(handle, link, AttachNetOp(index, env));
      if r.Ok? {
        var i := instances[handle];
        instances := instances[handle := i.(extras := i.extras + [(ExtraNetId(index), info.value)])];
      } else {
        TeardownNetworkInfo(info.value, host);
      }
    }

    method DetachNetwork(handle: string, index: nat, host: HostEnv, link: Link, env: Env)
      returns (r: Result<(), BackendError>)
      modifies this, networkService
      ensures Ended(Current(), if r.Ok? then None else Some(r.error))
           == DetachNetworkSpec(old(Current()), handle, index, host, link, env)
    {
      if handle !in instances { return Err(HandleNotFound); }
      var netdev := ExtraNetId(index);
      r := RunOnInstance(handle, link, DetachOp(netdev, NetdevDel(netdev), UNPLUG_TIMEOUT_MS, env));
      if r.Err? { return; }
      var i := instances[handle];
      var p := Position(i.extras, netdev);
      if p < |i.extras| {
        instances := instances[handle := i.(extras := i.extras[..p] + i.extras[p + 1..])];
        TeardownNetworkInfo(i.extras[p].1, host);
      }
    }

    method AttachDisk(handle: string, index: nat, file: Content, link: Link, env: Env)
      returns (r: Result<(), BackendError>)
      modifies this
      ensures Ended(Current(), if r.Ok? then None else Some(r.error))
           == AttachDiskSpec(old(Current()), handle, index, file, link, env)
    {
      if handle !in instances { return Err(HandleNotFound); }
      r := RunOnInstance(handle, link, AttachDiskOp(index, file, env));
    }

    method DetachDisk(handle: string, index: nat, link: Link, env: Env)
      returns (r: Result<(), BackendError>)
      modifies this
      ensures Ended(Current(), if r.Ok? then None else Some(r.error))
           == DetachDiskSpec(old(Current()), handle, index, link, env)
    {
      if handle !in instances { return Err(HandleNotFound); }
      var driveId, deviceId := ExtraDiskDriveId(index), ExtraDiskDeviceId(index);
      r := RunOnInstance(handle, link, DetachOp(deviceId, BlockdevDel(driveId), UNPLUG_TIMEOUT_MS, env));
    }

    method RunOnInstance(handle: string, link: Link, op: Operation) returns (r: Result<(), BackendError>)
      requires handle in instances
      modifies this
      ensures Ended(Current(), if r.Ok? then None else Some(r.error)) == OverQmp(old(Current()), handle, link, op)
    {
      var i := instances[handle];
      var wire, client, count, runs;
      wire, client, count, r, runs := RunQmpOperation(i.wire, i.client, qmpReconnects, link, op);
      instances := instances[handle := i.(client := client, wire := wire)];
      qmpReconnects := count;
    }

    /** One command over the instance's QMP connection, and what the guest does
        before the next one. */
    method Execute(handle: string, command: Command, fate: Fate, acts: seq<GuestAct>) returns (reply: Reply)
      requires handle in instances
      modifies this`instances
      ensures var i := old(instances)[handle];
              var issued := Issue(i.wire.machine, command, fate);
              && reply == issued.reply
              && instances == old(instances)[handle := i.(wire := i.wire.(machine := AfterGuest(issued.machine, acts)))]
    {
      var i := instances[handle];
      var issued := Issue(i.wire.machine, command, fate);
      instances := instances[handle := i.(wire := i.wire.(machine := AfterGuest(issued.machine, acts)))];
      reply := issued.reply;
    }

    /** Connect, then two commands, the second only once the first is done; the
        new head is recorded only once both are. */
    method ConnectAndDoBoth(handle: string, name: string, dial: Dial, first: Command, f: Fate, acts: seq<GuestAct>,
                            second: Command, g: Fate) returns (ok: bool, connected: bool)
      requires handle in instances
      modifies this`instances
      ensures var i := old(instances)[handle];
              var r := Snapshots.Both(SessionOf(i), name, connected, first, f, acts, second, g);
              && connected == (i.client || Connects(dial)) && ok == r.ok
              && instances == old(instances)[handle := WithSession(i.(client := connected), r.session)]
    {
      var tries;
      ok := false;
      connected, tries := EnsureQmpConnected(instances[handle].client, dial);
      ghost var was := instances;
      instances := instances[handle := instances[handle].(client := connected)];
      if !connected { return; }
      ghost var dialed := instances[handle];
      var reply := Execute(handle, first, f, acts);
      UpdateTwice(was, handle, dialed, instances[handle]);
      if !reply.Done? { return; }
      ghost var added := instances[handle];
      reply := Execute(handle, second, g, []);
      UpdateTwice(was, handle, added, instances[handle]);
      if !reply.Done? { return; }
      ghost var both := instances[handle];
      instances := instances[handle := instances[handle].(headNodeName := name)];
      UpdateTwice(was, handle, both, instances[handle]);
      ok := true;
    }

    method Snapshot(handle: string, stem: string, file: Content, dial: Dial, add: Fate, acts: seq<GuestAct>, switch: Fate)
      returns (r: Result<(), BackendError>)
      modifies this
      ensures Ended(Current(), if r.Ok? then None else Some(r.error))
           == SnapshotSpec(old(Current()), handle, stem, file, dial, add, acts, switch)
    {
      if handle !in instances { return Err(HandleNotFound); }
      ghost var was := instances;
      var name, head := SnapshotNodeName(stem), instances[handle].headNodeName;
      var ok, connected := ConnectAndDoBoth(handle, name, dial, BlockdevAdd(name, file), add, acts,
                                            BlockdevSnapshot(head, name), switch);
      ghost var done := instances[handle];
      instances := instances[handle := Noting(instances[handle], Snapshots.Snapshot(stem, file, connected, add, acts, switch))];
      UpdateTwice(was, handle, done, instances[handle]);
      r := if ok then Ok(()) else Err(Io);
    }
  }

  /** Once the set-up loop failed, later NICs change nothing. */
  lemma {:induction false} SetupStops(taps: set<string>, id: string, modes: seq<NetworkMode>, env: HostEnv, k: nat)
    requires k <= |modes| && SetupExtras(taps, id, modes[..k], env).error.Some?
    ensures SetupExtras(taps, id, modes, env) == SetupExtras(taps, id, modes[..k], env)
    decreases |modes|
  {
    if k == |modes| {
      assert modes[..k] == modes;
    } else {
      assert modes[..|modes| - 1][..k] == modes[..k];
      SetupStops(taps, id, modes[..|modes| - 1], env, k);
    }
  }

  /** Once `stop` met an error, later NICs are not touched. */
  lemma {:induction false} StopStops(taps: set<string>, nics: seq<Extra>, env: HostEnv, k: nat)
    requires k <= |nics| && !StopTeardown(taps, nics[..k], env).1
    ensures StopTeardown(taps, nics, env) == StopTeardown(taps, nics[..k], env)
    decreases |nics|
  {
    if k == |nics| {
      assert nics[..k] == nics;
    } else {
      assert nics[..|nics| - 1][..k] == nics[..k];
      StopStops(taps, nics[..|nics| - 1], env, k);
    }
  }
}
