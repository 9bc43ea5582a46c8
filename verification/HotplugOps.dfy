/** `attach_network` and `detach_network` of the daemon's `hotplug_ops.rs`: the
    index of a NIC is its place in the configured list, while the ids in QEMU
    stay with the index they were made for. */
module HotplugOps {
  import opened Basics
  import opened Cmdline
  import opened Qemu
  import opened Hotplug
  import opened HostNetwork
  import opened Backend
  import opened BackendRuns
  import opened BackendGuests
  import opened BackendDevices
  import opened BackendCalls

  /** The backend and the length of one instance's configured list of NICs. */
  datatype Daemon = Daemon(backend: State, listed: nat)

  datatype Replied = Replied(daemon: Daemon, ok: bool)

  ghost function Attach(d: Daemon, h: string, mode: NetworkMode, host: HostEnv, link: Link, env: Env): Replied {
    var e := AttachNetworkSpec(d.backend, h, mode, d.listed, host, link, env);
    Replied(Daemon(e.state, if e.error.None? then d.listed + 1 else d.listed), e.error.None?)
  }

  /** An index outside the list is refused before the backend is asked. */
  ghost function Detach(d: Daemon, h: string, index: nat, host: HostEnv, link: Link, env: Env): Replied {
    if index >= d.listed then Replied(d, false)
    else
      var e := DetachNetworkSpec(d.backend, h, index, host, link, env);
      Replied(Daemon(e.state, if e.error.None? then d.listed - 1 else d.listed), e.error.None?)
  }

  /** A NIC takes the length of the list as its index, and the list grows exactly
      when the backend's answer is a success. */
  lemma AttachTakesTheEnd(d: Daemon, h: string, mode: NetworkMode, host: HostEnv, link: Link, env: Env)
    requires h in d.backend.instances && IdFromHandle(h).Ok? && NicSlotFree(d.backend.instances[h].wire.machine, d.listed)
    ensures var r, was, id := Attach(d, h, mode, host, link, env), d.backend.instances[h], IdFromHandle(h).value;
            && h in r.daemon.backend.instances
            && (r.ok <==> !was.network.IsolatedInfo? && ComesUp(d.backend.taps, mode, ExtraTap(id, d.listed), host)
                          && NicGoesIn(was.client, link, env))
            && r.daemon.listed == d.listed + (if r.ok then 1 else 0)
            && (r.ok ==>
                  var i := r.daemon.backend.instances[h];
                  && GuestOnly(WithNic(was.wire.machine, d.listed), i.wire.machine)
                  && i.extras == was.extras + [(ExtraNetId(d.listed), NicInfo(mode, ExtraTap(id, d.listed)))])
  {
    AttachNetworkCall(d.backend, h, mode, d.listed, host, link, env);
  }

  /** An index outside the list changes nothing; one inside it is what QEMU is
      asked to let go, and the list shrinks exactly when it did. */
  lemma DetachNeedsAnIndex(d: Daemon, h: string, index: nat, host: HostEnv, link: Link, env: Env)
    ensures index >= d.listed || h !in d.backend.instances ==> Detach(d, h, index, host, link, env) == Replied(d, false)
    ensures index < d.listed && h in d.backend.instances ==>
              var r, was := Detach(d, h, index, host, link, env), d.backend.instances[h];
              && h in r.daemon.backend.instances
              && (r.ok <==> Detaches(was, link, NicDetach(index, env)))
              && r.daemon.listed == d.listed - (if r.ok then 1 else 0)
              && OnlyUnplugs(was.wire.machine, r.daemon.backend.instances[h].wire.machine, ExtraNetId(index), NetdevDel(ExtraNetId(index)))
  {
    if index < d.listed && h in d.backend.instances {
      DetachNetworkCall(d.backend, h, index, host, link, env);
    }
  }

  /** Some environment lets the next attach through. */
  ghost predicate CanAttach(d: Daemon, h: string, mode: NetworkMode) {
    exists host, link, env :: Attach(d, h, mode, host, link, env).ok
  }

  /** A host that sets up any tap that is not there yet. */
  ghost function GoodHost(): HostEnv {
    HostEnv((t: string) => SetUp, (t: string) => Removed, true, true, true, true, true)
  }

  /** What the next attach needs: an instance whose primary NIC is not isolated,
      a mode that can be attached, and a list index neither QEMU nor the host
      still uses. */
  ghost predicate IndexIsFree(d: Daemon, h: string, mode: NetworkMode) {
    && h in d.backend.instances && IdFromHandle(h).Ok? && !d.backend.instances[h].network.IsolatedInfo? && !mode.Isolated?
    && ExtraNetId(d.listed) !in d.backend.instances[h].wire.machine.netdevs
    && (mode.Bridge? ==> ExtraTap(IdFromHandle(h).value, d.listed) !in d.backend.taps)
  }

  lemma CanAttachIff(d: Daemon, h: string, mode: NetworkMode)
    requires h in d.backend.instances ==> Shaped(d.backend.instances[h].wire.machine)
    ensures CanAttach(d, h, mode) <==> IndexIsFree(d, h, mode)
  {
    if IndexIsFree(d, h, mode) {
      var i := d.backend.instances[h];
      FreeNicSlot(i.wire.machine, d.listed);
      GoodLinkConnects();
      var env := GoodEnv("");
      var _ := AttachNetOnce(i.wire, d.listed, env, 0);
      assert Attach(d, h, mode, GoodHost(), GoodLink(), env).ok;
    }
    forall host, link, env | Attach(d, h, mode, host, link, env).ok ensures IndexIsFree(d, h, mode) {
      var i := d.backend.instances[h];
      if ExtraNetId(d.listed) in i.wire.machine.netdevs { PoisonedIndex(i.wire, i.client, link, d.listed, env); }
    }
  }

  lemma FreeNicSlot(m: Machine, index: nat)
    requires Shaped(m) && ExtraNetId(index) !in m.netdevs
    ensures NicSlotFree(m, index)
  {
    NicHolder(m, index);
    if ExtraNetId(index) in m.devices { NicNeedsNetdev(m, index); }
  }

  lemma NicNeedsNetdev(m: Machine, index: nat)
    requires Shaped(m) && ExtraNetId(index) in m.devices
    ensures ExtraNetId(index) in m.netdevs
  {
    HoldersOfNet(m, index, ExtraNetId(index));
    assert WellBacked(m, ExtraNetId(index));
  }

  lemma DetachTakesItsNetdev(d: Daemon, h: string, index: nat, host: HostEnv, link: Link, env: Env)
    requires Detach(d, h, index, host, link, env).ok
    ensures h in d.backend.instances && h in Detach(d, h, index, host, link, env).daemon.backend.instances
    ensures var was, i := d.backend.instances[h], Detach(d, h, index, host, link, env).daemon.backend.instances[h];
            i.wire.machine.netdevs == was.wire.machine.netdevs - {ExtraNetId(index)} && i.network == was.network
  {
    var was, id := d.backend.instances[h], ExtraNetId(index);
    DetachOutcome(was.wire, was.client, link, id, NetdevDel(id), UNPLUG_TIMEOUT_MS, env);
  }

  /** The last NIC of the list was the one taken out, or was not in QEMU. */
  ghost predicate LastPlaceFreed(d: Daemon, h: string, index: nat)
    requires h in d.backend.instances && d.listed > 0
  {
    index == d.listed - 1 || ExtraNetId(d.listed - 1) !in d.backend.instances[h].wire.machine.netdevs
  }

  lemma FreedIffLast(d: Daemon, n: Daemon, h: string, index: nat)
    requires h in d.backend.instances && h in n.backend.instances && IdFromHandle(h).Ok? && n.listed == d.listed - 1
    requires var was, i := d.backend.instances[h], n.backend.instances[h];
             && Shaped(i.wire.machine) && i.network == was.network
             && i.wire.machine.netdevs == was.wire.machine.netdevs - {ExtraNetId(index)}
    ensures CanAttach(n, h, Nat) <==> !d.backend.instances[h].network.IsolatedInfo? && LastPlaceFreed(d, h, index)
  {
    CanAttachIff(n, h, Nat);
    IdsInjective(index, d.listed - 1);
  }

  /** After a successful detach another NIC can be attached if and only if the
      detached one was the last of the list, or the last one's netdev was not in
      QEMU: the list moves up, the ids do not. This holds after every run. */
  lemma DetachThenAttachIff(taps: set<string>, calls: seq<Call>, d: Daemon, h: string, index: nat,
                            host: HostEnv, link: Link, env: Env)
    requires d.backend == Run(Start(taps), calls) && IdFromHandle(h).Ok?
    requires Detach(d, h, index, host, link, env).ok
    ensures h in d.backend.instances && d.listed > 0
    ensures CanAttach(Detach(d, h, index, host, link, env).daemon, h, Nat)
       <==> !d.backend.instances[h].network.IsolatedInfo? && LastPlaceFreed(d, h, index)
  {
    var n := Detach(d, h, index, host, link, env).daemon;
    DetachTakesItsNetdev(d, h, index, host, link, env);
    assert Shaped(n.backend.instances[h].wire.machine) by {
      DetachedIsReachable(taps, calls, d, h, index, host, link, env);
      DevicesOverRuns(taps, calls + [DetachNetwork(h, index, host, link, env)], h, index);
    }
    FreedIffLast(d, n, h, index);
  }

  lemma DetachedIsReachable(taps: set<string>, calls: seq<Call>, d: Daemon, h: string, index: nat,
                            host: HostEnv, link: Link, env: Env)
    requires d.backend == Run(Start(taps), calls) && Detach(d, h, index, host, link, env).ok
    ensures Run(Start(taps), calls + [DetachNetwork(h, index, host, link, env)])
         == Detach(d, h, index, host, link, env).daemon.backend
  {
    assert (calls + [DetachNetwork(h, index, host, link, env)])[..|calls|] == calls;
  }

  /** Attaching a bridged NIC at an index whose tap the instance still records
      fails and changes nothing, on the host, in QEMU or in the record. */
  lemma UsedIndexIsRefused(s: State, id: string, bridge: string, listed: nat, host: HostEnv, link: Link, env: Env,
                           before: set<string>, leaked: set<string>)
    requires Ledger(s, before, leaked) && HandleFor(id) in s.instances
    requires ExtraTap(id, listed) in Owned(s.instances[HandleFor(id)])
    ensures Attach(Daemon(s, listed), HandleFor(id), Bridge(bridge), host, link, env) == Replied(Daemon(s, listed), false)
  {
    var tap := ExtraTap(id, listed);
    assert tap in s.taps by { LedgerSplit(s, HandleFor(id), before, leaked); }
    assert IdFromHandle(HandleFor(id)) == Ok(id) by { assert HandleFor(id)[5..] == id; }
    assert TapsAfterSetup(s.taps, tap, host.setup(tap)) == s.taps;
  }
}
