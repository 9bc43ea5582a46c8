/** What every run of backend calls keeps, whichever step fails: the ledger of
    host taps, the isolation of isolated guests, and each guest's disk. */
module BackendRuns {
  import opened Basics
  import opened Cmdline
  import opened Qemu
  import opened Hotplug
  import opened HostNetwork
  import opened Backend
  import S = Snapshots

  datatype Call =
    | Spawn(cfg: InstanceConfig, host: HostEnv)
    | Stop(handle: string, host: HostEnv)
    | AttachNetwork(handle: string, mode: NetworkMode, index: nat, host: HostEnv, link: Link, env: Env)
    | DetachNetwork(handle: string, index: nat, host: HostEnv, link: Link, env: Env)
    | AttachDisk(handle: string, index: nat, file: Content, link: Link, env: Env)
    | DetachDisk(handle: string, index: nat, link: Link, env: Env)
    | Snapshot(handle: string, stem: string, dial: Dial, add: Fate, acts: seq<GuestAct>, switch: Fate)
    | Guest(handle: string, acts: seq<GuestAct>)

  /** What a guest does between two calls. */
  ghost function AfterActs(i: RunningInstance, acts: seq<GuestAct>): RunningInstance {
    Noting(i.(wire := i.wire.(machine := AfterGuest(i.wire.machine, acts))), S.Guest(acts))
  }

  /** One call of the backend, or acts of a guest between calls. The daemon
      creates every overlay file empty. */
  ghost function Step(s: State, c: Call): State {
    match c
    case Spawn(cfg, host) => SpawnSpec(s, cfg, host).state
    case Stop(handle, host) => StopSpec(s, handle, host).state
    case AttachNetwork(handle, mode, index, host, link, env) => AttachNetworkSpec(s, handle, mode, index, host, link, env).state
    case DetachNetwork(handle, index, host, link, env) => DetachNetworkSpec(s, handle, index, host, link, env).state
    case AttachDisk(handle, index, file, link, env) => AttachDiskSpec(s, handle, index, file, link, env).state
    case DetachDisk(handle, index, link, env) => DetachDiskSpec(s, handle, index, link, env).state
    case Snapshot(handle, stem, dial, add, acts, switch) =>
      SnapshotSpec(s, handle, stem, map[], dial, add, acts, switch).state
    case Guest(handle, acts) =>
      if handle in s.instances then s.(instances := s.instances[handle := AfterActs(s.instances[handle], acts)]) else s
  }

  ghost function Run(s: State, calls: seq<Call>): State {
    if calls == [] then s else Step(Run(s, calls[..|calls| - 1]), calls[|calls| - 1])
  }

  // ----- the ledger of taps -----

  ghost function Owned(i: RunningInstance): set<string> { TapSet(Nics(i)) }

  ghost function Recorded(instances: map<string, RunningInstance>): set<string> {
    set h, t | h in instances && t in Owned(instances[h]) :: t
  }

  ghost predicate Apart(instances: map<string, RunningInstance>) {
    && (forall h :: h in instances ==> Distinct(Nics(instances[h])))
    && (forall g, h :: g in instances && h in instances && g != h ==> Owned(instances[g]) !! Owned(instances[h]))
  }

  /** The host's taps are the disjoint union of those that were there before,
      those live instances record (each once), and those that leaked. */
  ghost predicate Ledger(s: State, before: set<string>, leaked: set<string>) {
    && s.taps == before + Recorded(s.instances) + leaked
    && before !! leaked && Recorded(s.instances) !! before && Recorded(s.instances) !! leaked
    && Apart(s.instances)
  }

  /** Taps one call leaves on the host with no record of them. */
  ghost function Leak(s: State, c: Call): set<string> {
    match c
    case Spawn(cfg, host) => SpawnLeak(s, cfg, host)
    case Stop(handle, host) =>
      if handle in s.instances && host.kill then StopLeak(s.taps, Nics(s.instances[handle]), host) else {}
    case AttachNetwork(handle, mode, index, host, link, env) => AttachLeak(s, handle, mode, index, host, link, env)
    case DetachNetwork(handle, index, host, link, env) => DetachLeak(s, handle, index, host, link, env)
    case _ => {}
  }

  ghost function PrimaryLate(s: State, cfg: InstanceConfig, host: HostEnv): set<string> {
    var tap := PrimaryTap(cfg.id);
    if cfg.network.Bridge? && tap !in s.taps && FailsLate(host.setup(tap)) then {tap} else {}
  }

  /** `spawn` leaks a tap whose set-up failed after creating it, taps its
      roll-back does not delete, and all taps of a record it overwrites. */
  ghost function SpawnLeak(s: State, cfg: InstanceConfig, host: HostEnv): set<string> {
    if !cfg.renderImplemented || !host.dirs || BuildArgsFails(cfg) then {}
    else
      var (taps, primary) := SetupPrimary(s.taps, cfg, host);
      if primary.Err? then PrimaryLate(s, cfg, host) else
      var x := SetupExtras(taps, cfg.id, cfg.extraNetworks, host);
      var made := TapSet([("net0", primary.value)] + x.infos);
      if x.error.Some? then ExtrasLeak(taps, cfg.id, cfg.extraNetworks, host) + Survivors(made, host)
      else if !host.launch then Survivors(made, host)
      else if HandleFor(cfg.id) in s.instances then Owned(s.instances[HandleFor(cfg.id)])
      else {}
  }

  ghost function AttachLeak(s: State, handle: string, mode: NetworkMode, index: nat, host: HostEnv, link: Link, env: Env): set<string> {
    if handle !in s.instances || IdFromHandle(handle).Err? || s.instances[handle].network.IsolatedInfo? then {}
    else
      var id := IdFromHandle(handle).value;
      var (taps, r) := SetupOne(s.taps, id, mode, index, host);
      if r.Err? then LateTap(s.taps, id, mode, index, host)
      else if OverQmp(s, handle, link, AttachNetOp(index, env)).error.Some? then Survivors(TapsOf(r.value), host)
      else {}
  }

  ghost function DetachLeak(s: State, handle: string, index: nat, host: HostEnv, link: Link, env: Env): set<string> {
    if handle !in s.instances then {}
    else
      var netdev := ExtraNetId(index);
      var i := s.instances[handle];
      var p := Position(i.extras, netdev);
      if OverQmp(s, handle, link, DetachOp(netdev, NetdevDel(netdev), UNPLUG_TIMEOUT_MS, env)).error.Some? || p == |i.extras| then {}
      else Survivors(TapsOf(i.extras[p].1), host)
  }

  ghost function Leaks(s: State, calls: seq<Call>): set<string> {
    if calls == [] then {}
    else Leaks(s, calls[..|calls| - 1]) + Leak(Run(s, calls[..|calls| - 1]), calls[|calls| - 1])
  }

  // ----- replacing one record -----

  lemma RecordedPut(instances: map<string, RunningInstance>, h: string, i: RunningInstance)
    ensures Recorded(instances[h := i]) == Recorded(instances - {h}) + Owned(i)
    ensures h in instances ==> Recorded(instances) == Recorded(instances - {h}) + Owned(instances[h])
    ensures h !in instances ==> instances - {h} == instances
  {
    var put, rest := instances[h := i], instances - {h};
    forall t | t in Recorded(rest) ensures t in Recorded(put) && t in Recorded(instances) {
      var g :| g in rest && t in Owned(rest[g]);
      assert put[g] == rest[g] == instances[g];
    }
    forall t | t in Owned(i) ensures t in Recorded(put) { assert h in put && put[h] == i; }
    forall t | t in Recorded(put) ensures t in Recorded(rest) + Owned(i) {
      var g :| g in put && t in Owned(put[g]);
      if g != h { assert rest[g] == put[g]; }
    }
    if h in instances {
      forall t | t in Recorded(instances) ensures t in Recorded(rest) + Owned(instances[h]) {
        var g :| g in instances && t in Owned(instances[g]);
        if g != h { assert rest[g] == instances[g]; }
      }
    }
  }

  /** Taps of everybody but the instance under `h`. */
  ghost function Others(s: State, h: string, before: set<string>, leaked: set<string>): set<string> {
    before + leaked + Recorded(s.instances - {h})
  }

  ghost function Mine(s: State, h: string): set<string> {
    if h in s.instances then Owned(s.instances[h]) else {}
  }

  lemma LedgerSplit(s: State, h: string, before: set<string>, leaked: set<string>)
    requires Ledger(s, before, leaked)
    ensures s.taps == Others(s, h, before, leaked) + Mine(s, h)
    ensures Others(s, h, before, leaked) !! Mine(s, h)
  {
    if h in s.instances {
      RecordedPut(s.instances, h, s.instances[h]);
      forall t | t in Recorded(s.instances - {h}) ensures t !in Owned(s.instances[h]) {
        var g :| g in s.instances - {h} && t in Owned((s.instances - {h})[g]);
        assert Owned(s.instances[g]) !! Owned(s.instances[h]);
      }
    } else {
      RecordedPut(s.instances, h, Idle());
    }
  }

  ghost function Idle(): RunningInstance {
    RunningInstance(false, Wire(Machine(map[], "", {}, map[]), []), "", NatInfo, [])
  }

  lemma ApartPut(instances: map<string, RunningInstance>, h: string, i: RunningInstance)
    requires Apart(instances) && Distinct(Nics(i)) && Owned(i) !! Recorded(instances - {h})
    ensures Apart(instances[h := i])
  {
    forall g | g in instances && g != h ensures Owned(instances[g]) !! Owned(i) {
      forall t | t in Owned(instances[g]) ensures t !in Owned(i) {
        assert g in instances - {h} && t in Recorded(instances - {h});
      }
    }
  }

  /** A call that replaces one record keeps the ledger when the taps it ends
      with are everybody else's, the new record's, and what it leaks. */
  lemma LedgerPut(s: State, n: State, h: string, i: RunningInstance, before: set<string>, leaked: set<string>, leak: set<string>)
    requires Ledger(s, before, leaked) && n.instances == s.instances[h := i]
    requires var o := Others(s, h, before, leaked);
             n.taps == o + Owned(i) + leak && Owned(i) !! o && leak !! o && leak !! Owned(i)
    requires Distinct(Nics(i))
    ensures Ledger(n, before, leaked + leak)
  {
    RecordedPut(s.instances, h, i);
    ApartPut(s.instances, h, i);
    LedgerSplit(s, h, before, leaked);
    assert Recorded(s.instances - {h}) <= Recorded(s.instances);
  }

  lemma LedgerDrop(s: State, n: State, h: string, before: set<string>, leaked: set<string>, leak: set<string>)
    requires Ledger(s, before, leaked) && h in s.instances && n.instances == s.instances - {h}
    requires n.taps == Others(s, h, before, leaked) + leak && leak !! Others(s, h, before, leaked)
    ensures Ledger(n, before, leaked + leak)
  {
    RecordedPut(s.instances, h, s.instances[h]);
    assert Recorded(n.instances) <= Recorded(s.instances);
    forall g | g in n.instances ensures n.instances[g] == s.instances[g] {}
  }

  /** A call that leaves all records alone. */
  lemma LedgerSame(s: State, n: State, before: set<string>, leaked: set<string>, leak: set<string>)
    requires Ledger(s, before, leaked) && n.instances == s.instances
    requires n.taps == s.taps + leak && leak !! s.taps
    ensures Ledger(n, before, leaked + leak)
  {}

  // ----- the calls one by one -----

  lemma PrimaryMakes(s: State, cfg: InstanceConfig, host: HostEnv)
    ensures var (taps, r) := SetupPrimary(s.taps, cfg, host);
            && (r.Ok? ==> taps == s.taps + TapsOf(r.value) && TapsOf(r.value) !! s.taps)
            && (r.Ok? ==> (r.value.IsolatedInfo? <==> cfg.network.Isolated?))
            && (r.Err? ==> taps == s.taps + PrimaryLate(s, cfg, host) && r.error == Io)
    ensures PrimaryLate(s, cfg, host) !! s.taps
  {}

  /** The primary NIC and the extra ones together. */
  lemma AllNics(taps: set<string>, network: NetworkInfo, extras: seq<Extra>)
    requires Distinct(extras) && TapsOf(network) !! TapSet(extras)
    ensures var all := [("net0", network)] + extras;
            Distinct(all) && TapSet(all) == TapsOf(network) + TapSet(extras)
  {
    var all: seq<Extra> := [("net0", network)] + extras;
    forall t ensures t in TapSet(all) <==> t in TapsOf(network) + TapSet(extras) {
      TapSetMembers(all, t);
      TapSetMembers(extras, t);
      if t in TapsOf(network) { assert t in TapsOf(all[0].1); }
      if i :| 0 <= i < |extras| && t in TapsOf(extras[i].1) { assert t in TapsOf(all[i + 1].1); }
    }
    forall j | 1 <= j < |all| ensures TapsOf(all[0].1) !! TapsOf(all[j].1) {
      forall t | t in TapsOf(all[j].1) ensures t !in TapsOf(network) {
        assert t in TapsOf(extras[j - 1].1);
        TapSetMembers(extras, t);
      }
    }
  }

  /** Everything `spawn` set up before its launch. */
  lemma SpawnMakes(s: State, cfg: InstanceConfig, host: HostEnv)
    requires SetupPrimary(s.taps, cfg, host).1.Ok?
    ensures var (taps, primary) := SetupPrimary(s.taps, cfg, host);
            var x := SetupExtras(taps, cfg.id, cfg.extraNetworks, host);
            var all := [("net0", primary.value)] + x.infos;
            var leak := ExtrasLeak(taps, cfg.id, cfg.extraNetworks, host);
            && x.taps == s.taps + TapSet(all) + leak
            && TapSet(all) !! s.taps && leak !! s.taps && leak !! TapSet(all)
            && Distinct(all) && NoneIsolated(x.infos)
            && (x.error == Some(InvalidConfig) ==> Isolated in cfg.extraNetworks)
            && (x.error.None? ==> leak == {})
  {
    PrimaryMakes(s, cfg, host);
    var (taps, primary) := SetupPrimary(s.taps, cfg, host);
    SetupExtrasMakes(taps, cfg.id, cfg.extraNetworks, host);
    var x := SetupExtras(taps, cfg.id, cfg.extraNetworks, host);
    AllNics(s.taps, primary.value, x.infos);
  }

  lemma {:induction false} SpawnLedger(s: State, cfg: InstanceConfig, host: HostEnv, before: set<string>, leaked: set<string>)
    requires Ledger(s, before, leaked)
    ensures Ledger(SpawnSpec(s, cfg, host).state, before, leaked + SpawnLeak(s, cfg, host))
  {
    var n, leak := SpawnSpec(s, cfg, host).state, SpawnLeak(s, cfg, host);
    if !cfg.renderImplemented || !host.dirs || BuildArgsFails(cfg) {
      LedgerSame(s, n, before, leaked, {});
    } else {
      PrimaryMakes(s, cfg, host);
      var (taps, primary) := SetupPrimary(s.taps, cfg, host);
      if primary.Err? {
        LedgerSame(s, n, before, leaked, leak);
      } else {
        SpawnMakes(s, cfg, host);
        var x := SetupExtras(taps, cfg.id, cfg.extraNetworks, host);
        var all := [("net0", primary.value)] + x.infos;
        if x.error.Some? || !host.launch {
          TeardownAllRemoves(x.taps, all, host);
          LedgerSame(s, n, before, leaked, leak);
        } else {
          var h := HandleFor(cfg.id);
          LedgerSplit(s, h, before, leaked);
          LedgerPut(s, n, h, Spawned(cfg, primary.value, x.infos), before, leaked, Mine(s, h));
        }
      }
    }
  }

  lemma StopLedger(s: State, handle: string, host: HostEnv, before: set<string>, leaked: set<string>)
    requires Ledger(s, before, leaked)
    ensures Ledger(StopSpec(s, handle, host).state, before, leaked + Leak(s, Stop(handle, host)))
  {
    if handle in s.instances && host.kill {
      LedgerSplit(s, handle, before, leaked);
      StopLeaves(Others(s, handle, before, leaked), Nics(s.instances[handle]), host);
      LedgerDrop(s, StopSpec(s, handle, host).state, handle, before, leaked, Leak(s, Stop(handle, host)));
    } else {
      LedgerSame(s, s, before, leaked, {});
    }
  }

  /** A call that leaves the NICs of its record alone. */
  lemma SameNicsLedger(s: State, n: State, h: string, i: RunningInstance, before: set<string>, leaked: set<string>, leak: set<string>)
    requires Ledger(s, before, leaked) && h in s.instances && n.instances == s.instances[h := i]
    requires Nics(i) == Nics(s.instances[h]) && n.taps == s.taps + leak && leak !! s.taps
    ensures Ledger(n, before, leaked + leak)
  {
    LedgerSplit(s, h, before, leaked);
    LedgerPut(s, n, h, i, before, leaked, leak);
  }

  lemma OneMoreNicLedger(s: State, n: State, h: string, i: RunningInstance, e: Extra, before: set<string>, leaked: set<string>)
    requires Ledger(s, before, leaked) && h in s.instances && n.instances == s.instances[h := i]
    requires Nics(i) == Nics(s.instances[h]) + [e] && n.taps == s.taps + TapsOf(e.1) && TapsOf(e.1) !! s.taps
    ensures Ledger(n, before, leaked)
  {
    LedgerSplit(s, h, before, leaked);
    DistinctAppend(Nics(s.instances[h]), e);
    LedgerPut(s, n, h, i, before, leaked, {});
    assert leaked + {} == leaked;
  }

  lemma {:induction false} OneNicLessLedger(s: State, n: State, h: string, i: RunningInstance, p: nat, host: HostEnv, before: set<string>, leaked: set<string>)
    requires Ledger(s, before, leaked) && h in s.instances && n.instances == s.instances[h := i]
    requires var was := Nics(s.instances[h]);
             p < |was| && Nics(i) == was[..p] + was[p + 1..] && n.taps == TeardownOne(s.taps, was[p].1, host)
    ensures Ledger(n, before, leaked + Survivors(TapsOf(Nics(s.instances[h])[p].1), host))
  {
    LedgerSplit(s, h, before, leaked);
    RemoveAt(Nics(s.instances[h]), p);
    LedgerPut(s, n, h, i, before, leaked, Survivors(TapsOf(Nics(s.instances[h])[p].1), host));
  }

  /** The attach got as far as setting up its host side. */
  ghost predicate Attaching(s: State, c: Call) {
    && c.AttachNetwork? && c.handle in s.instances && IdFromHandle(c.handle).Ok?
    && !s.instances[c.handle].network.IsolatedInfo?
  }

  ghost function AttachSetup(s: State, c: Call): (set<string>, Result<NetworkInfo, BackendError>)
    requires Attaching(s, c)
  {
    SetupOne(s.taps, IdFromHandle(c.handle).value, c.mode, c.index, c.host)
  }

  lemma AttachSteps(s: State, c: Call)
    requires Attaching(s, c)
    ensures var (taps, r) := AttachSetup(s, c);
            var n, h := Step(s, c), c.handle;
            && (r.Err? ==> n == s.(taps := taps) && Leak(s, c) == LateTap(s.taps, IdFromHandle(h).value, c.mode, c.index, c.host))
            && (r.Ok? ==> h in n.instances && n.instances == s.instances[h := n.instances[h]])
            && (r.Ok? ==>
                 || (n.taps == taps && Leak(s, c) == {} && Nics(n.instances[h]) == Nics(s.instances[h]) + [(ExtraNetId(c.index), r.value)])
                 || (n.taps == TeardownOne(taps, r.value, c.host) && Leak(s, c) == Survivors(TapsOf(r.value), c.host)
                     && Nics(n.instances[h]) == Nics(s.instances[h])))
  {}

  lemma AttachLedger(s: State, c: Call, before: set<string>, leaked: set<string>)
    requires Ledger(s, before, leaked) && c.AttachNetwork?
    ensures Ledger(Step(s, c), before, leaked + Leak(s, c))
  {
    assert leaked + {} == leaked;
    if Attaching(s, c) {
      var h, n := c.handle, Step(s, c);
      var (taps, r) := AttachSetup(s, c);
      SetupOneMakes(s.taps, IdFromHandle(h).value, c.mode, c.index, c.host);
      AttachSteps(s, c);
      if r.Err? {
        LedgerSame(s, n, before, leaked, Leak(s, c));
      } else if Nics(n.instances[h]) == Nics(s.instances[h]) {
        SameNicsLedger(s, n, h, n.instances[h], before, leaked, Survivors(TapsOf(r.value), c.host));
      } else {
        OneMoreNicLedger(s, n, h, n.instances[h], (ExtraNetId(c.index), r.value), before, leaked);
      }
    }
  }

  lemma {:induction false} TapSetConcat(a: seq<Extra>, b: seq<Extra>)
    ensures TapSet(a + b) == TapSet(a) + TapSet(b)
  {
    if b == [] {
      assert a + b == a;
    } else {
      TapSetConcat(a, b[..|b| - 1]);
      assert (a + b)[..|a + b| - 1] == a + b[..|b| - 1];
    }
  }

  lemma TapSetAround(a: seq<Extra>, e: Extra, b: seq<Extra>)
    ensures TapSet((a + [e]) + b) == TapSet(a + b) + TapsOf(e.1)
  {
    TapSetConcat(a + [e], b);
    TapSetConcat(a, b);
    assert TapSet(a + [e]) == TapSet(a) + TapsOf(e.1) by { assert (a + [e])[..|a|] == a; }
  }

  lemma TapSetWithout(extras: seq<Extra>, p: nat)
    requires p < |extras|
    ensures TapSet(extras) == TapSet(extras[..p] + extras[p + 1..]) + TapsOf(extras[p].1)
  {
    TapSetAround(extras[..p], extras[p], extras[p + 1..]);
    assert extras == (extras[..p] + [extras[p]]) + extras[p + 1..];
  }

  lemma DistinctWithout(extras: seq<Extra>, p: nat)
    requires Distinct(extras) && p < |extras|
    ensures var rest := extras[..p] + extras[p + 1..];
            Distinct(rest) && forall i :: 0 <= i < |rest| ==> TapsOf(rest[i].1) !! TapsOf(extras[p].1)
  {
    var rest := extras[..p] + extras[p + 1..];
    forall i | 0 <= i < |rest| ensures rest[i] == extras[if i < p then i else i + 1] {}
  }

  lemma RemoveAt(extras: seq<Extra>, p: nat)
    requires Distinct(extras) && p < |extras|
    ensures var rest := extras[..p] + extras[p + 1..];
            && Distinct(rest) && TapSet(rest) !! TapsOf(extras[p].1)
            && TapSet(extras) == TapSet(rest) + TapsOf(extras[p].1)
  {
    var rest := extras[..p] + extras[p + 1..];
    TapSetWithout(extras, p);
    DistinctWithout(extras, p);
    forall t | t in TapSet(rest) ensures t !in TapsOf(extras[p].1) {
      TapSetMembers(rest, t);
    }
  }

  /** A detach that QEMU let through, of a NIC that is recorded. */
  ghost predicate Detached(s: State, c: Call)
    requires c.DetachNetwork? && c.handle in s.instances
  {
    var netdev := ExtraNetId(c.index);
    && OverQmp(s, c.handle, c.link, DetachOp(netdev, NetdevDel(netdev), UNPLUG_TIMEOUT_MS, c.env)).error.None?
    && Position(s.instances[c.handle].extras, netdev) < |s.instances[c.handle].extras|
  }

  lemma {:induction false} DetachSteps(s: State, c: Call)
    requires c.DetachNetwork? && c.handle in s.instances
    ensures var n, h, was := Step(s, c), c.handle, Nics(s.instances[c.handle]);
            var p := Position(s.instances[h].extras, ExtraNetId(c.index)) + 1;
            && h in n.instances && n.instances == s.instances[h := n.instances[h]]
            && (|| (n.taps == s.taps && Leak(s, c) == {} && Nics(n.instances[h]) == was)
                || (p < |was| && Nics(n.instances[h]) == was[..p] + was[p + 1..]
                    && n.taps == TeardownOne(s.taps, was[p].1, c.host) && Leak(s, c) == Survivors(TapsOf(was[p].1), c.host)))
  {
    if Detached(s, c) { DetachedSteps(s, c); } else { UndetachedSteps(s, c); }
  }

  lemma {:induction false} UndetachedSteps(s: State, c: Call)
    requires c.DetachNetwork? && c.handle in s.instances && !Detached(s, c)
    ensures var n, h := Step(s, c), c.handle;
            && h in n.instances && n.instances == s.instances[h := n.instances[h]]
            && n.taps == s.taps && Leak(s, c) == {} && Nics(n.instances[h]) == Nics(s.instances[h])
  {}

  lemma {:induction false} DetachedSteps(s: State, c: Call)
    requires c.DetachNetwork? && c.handle in s.instances && Detached(s, c)
    ensures var n, h, was := Step(s, c), c.handle, Nics(s.instances[c.handle]);
            var p := Position(s.instances[h].extras, ExtraNetId(c.index)) + 1;
            && h in n.instances && n.instances == s.instances[h := n.instances[h]]
            && p < |was| && Nics(n.instances[h]) == was[..p] + was[p + 1..]
            && n.taps == TeardownOne(s.taps, was[p].1, c.host) && Leak(s, c) == Survivors(TapsOf(was[p].1), c.host)
  {
    var was, h, netdev := s.instances[c.handle], c.handle, ExtraNetId(c.index);
    var p := Position(was.extras, netdev);
    var d := OverQmp(s, h, c.link, DetachOp(netdev, NetdevDel(netdev), UNPLUG_TIMEOUT_MS, c.env));
    var i := d.state.instances[h].(extras := was.extras[..p] + was.extras[p + 1..]);
    UpdateTwice(s.instances, h, d.state.instances[h], i);
    NicsWithout(was, i, p);
  }

  /** The record's list position is one less than that of the NIC. */
  lemma NicsWithout(was: RunningInstance, i: RunningInstance, p: nat)
    requires p < |was.extras|
    ensures Nics(was)[p + 1] == was.extras[p]
    ensures i.network == was.network && i.extras == was.extras[..p] + was.extras[p + 1..]
            ==> Nics(i) == Nics(was)[..p + 1] + Nics(was)[p + 2..]
  {}

  lemma DetachLedger(s: State, c: Call, before: set<string>, leaked: set<string>)
    requires Ledger(s, before, leaked) && c.DetachNetwork?
    ensures Ledger(Step(s, c), before, leaked + Leak(s, c))
  {
    assert leaked + {} == leaked;
    if c.handle in s.instances {
      var h, n := c.handle, Step(s, c);
      DetachSteps(s, c);
      if Nics(n.instances[h]) == Nics(s.instances[h]) {
        SameNicsLedger(s, n, h, n.instances[h], before, leaked, {});
      } else {
        OneNicLessLedger(s, n, h, n.instances[h], Position(s.instances[h].extras, ExtraNetId(c.index)) + 1, c.host, before, leaked);
      }
    }
  }

  lemma StepLedger(s: State, c: Call, before: set<string>, leaked: set<string>)
    requires Ledger(s, before, leaked)
    ensures Ledger(Step(s, c), before, leaked + Leak(s, c))
  {
    match c
    case Spawn(cfg, host) => SpawnLedger(s, cfg, host, before, leaked);
    case Stop(handle, host) => StopLedger(s, handle, host, before, leaked);
    case AttachNetwork(_, _, _, _, _, _) => AttachLedger(s, c, before, leaked);
    case DetachNetwork(_, _, _, _, _) => DetachLedger(s, c, before, leaked);
    case _ =>
      assert leaked + {} == leaked;
      var h, n := c.handle, Step(s, c);
      if h in s.instances && n.instances != s.instances {
        SameNicsLedger(s, n, h, n.instances[h], before, leaked, {});
      }
  }

  // ----- every run -----

  ghost function Start(taps: set<string>): State { State(map[], taps, 0) }

  /** Tap conservation, exactly: whichever set-up, launch, QMP or tear-down
      step fails in whichever call, the host holds its original taps, the taps
      of live instances and the leaked ones, all disjoint; so records account
      for every new tap if and only if no call of the run leaked one. */
  lemma {:induction false} TapConservation(taps: set<string>, calls: seq<Call>)
    ensures var n := Run(Start(taps), calls);
            && Ledger(n, taps, Leaks(Start(taps), calls))
            && (n.taps == taps + Recorded(n.instances) <==> Leaks(Start(taps), calls) == {})
  {
    if calls != [] {
      var before := calls[..|calls| - 1];
      TapConservation(taps, before);
      StepLedger(Run(Start(taps), before), calls[|calls| - 1], taps, Leaks(Start(taps), before));
    }
  }

  /** The leak is real: a primary tap whose set-up fails after `tuntap add`
      stays on the host while `spawn` reports an error and records nothing. */
  lemma LateSetupLeaks(s: State, cfg: InstanceConfig, host: HostEnv)
    requires cfg.renderImplemented && host.dirs && !BuildArgsFails(cfg) && cfg.network.Bridge?
    requires PrimaryTap(cfg.id) !in s.taps && FailsLate(host.setup(PrimaryTap(cfg.id)))
    ensures var d := SpawnSpec(s, cfg, host);
            && d.error == Some(Io) && d.state.instances == s.instances
            && d.state.taps == s.taps + {PrimaryTap(cfg.id)} && Leak(s, Spawn(cfg, host)) == {PrimaryTap(cfg.id)}
  {}

  /** A host on which `tuntap add` is the last thing that can fail in a set-up
      and on which every tear-down deletes its tap. */
  ghost predicate CleanHost(host: HostEnv) {
    && host.isolatedDown
    && (forall t :: !FailsLate(host.setup(t)))
    && (forall t :: host.teardown(t).Removed?)
  }

  ghost predicate CleanCall(s: State, c: Call) {
    match c
    case Spawn(cfg, host) => CleanHost(host) && HandleFor(cfg.id) !in s.instances
    case Stop(_, host) => CleanHost(host)
    case AttachNetwork(_, _, _, host, _, _) => CleanHost(host)
    case DetachNetwork(_, _, host, _, _) => CleanHost(host)
    case _ => true
  }

  lemma CleanCallsLeakNothing(s: State, c: Call, before: set<string>, leaked: set<string>)
    requires Ledger(s, before, leaked) && CleanCall(s, c)
    ensures Leak(s, c) == {}
  {
    if c.Stop? && c.handle in s.instances {
      LedgerSplit(s, c.handle, before, leaked);
      CleanStopLeaksNothing(Others(s, c.handle, before, leaked), Nics(s.instances[c.handle]), c.host);
    }
    if c.Spawn? {
      var host := c.host;
      forall taps: set<string> ensures Survivors(taps, host) == {} {}
    }
  }

  /** On a clean host, with handles used once, no failure of any other step
      ever loses a tap. */
  lemma {:induction false} CleanRunsConserve(taps: set<string>, calls: seq<Call>)
    requires forall k :: 0 <= k < |calls| ==> CleanCall(Run(Start(taps), calls[..k]), calls[k])
    ensures var n := Run(Start(taps), calls);
            Leaks(Start(taps), calls) == {} && n.taps == taps + Recorded(n.instances)
  {
    if calls != [] {
      var k := |calls| - 1;
      forall j | 0 <= j < k ensures CleanCall(Run(Start(taps), calls[..k][..j]), calls[..k][j]) {
        assert calls[..k][..j] == calls[..j];
        assert CleanCall(Run(Start(taps), calls[..j]), calls[j]);
      }
      CleanRunsConserve(taps, calls[..k]);
      TapConservation(taps, calls[..k]);
      CleanCallsLeakNothing(Run(Start(taps), calls[..k]), calls[k], taps, {});
    }
    TapConservation(taps, calls);
  }
}
