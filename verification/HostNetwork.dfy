/** The host side of networking: `setup_bridge`/`teardown_bridge` of andler-net
    as step-by-step changes of the host's tap interfaces, and the set-up and
    roll-back of a list of NICs in `backend.rs`. */
module HostNetwork {
  import opened Basics
  import opened Cmdline

  /** Which `ip` call of `setup_bridge` fails, if any. Only the calls before
      `tuntap add` fail without leaving the tap on the host. */
  datatype SetupFate = SetUp | BridgeMissing | NotABridge | AddFails | MasterFails | BridgeUpFails | TapUpFails

  /** Which call of `teardown_bridge` fails. `DeleteRefused` is `ip link del`
      exiting non-zero, which the code does not look at. */
  datatype TeardownFate = Removed | NomasterFails | DownFails | DeleteNotRun | DeleteRefused

  /** Everything the host decides during one backend call. */
  datatype HostEnv = HostEnv(
    setup: string -> SetupFate,
    teardown: string -> TeardownFate,
    isolatedUp: bool,
    isolatedDown: bool,
    dirs: bool,
    launch: bool,
    kill: bool)

  predicate FailsEarly(f: SetupFate) { f.BridgeMissing? || f.NotABridge? || f.AddFails? }

  predicate FailsLate(f: SetupFate) { f.MasterFails? || f.BridgeUpFails? || f.TapUpFails? }

  function TapsAfterSetup(taps: set<string>, tap: string, f: SetupFate): set<string> {
    if FailsEarly(f) then taps else taps + {tap}
  }

  predicate SetupSucceeds(taps: set<string>, tap: string, f: SetupFate) {
    tap !in taps && f.SetUp?
  }

  function TapsAfterTeardown(taps: set<string>, tap: string, f: TeardownFate): set<string> {
    if f.Removed? then taps - {tap} else taps
  }

  predicate TeardownSucceeds(taps: set<string>, tap: string, f: TeardownFate) {
    tap in taps && (f.Removed? || f.DeleteRefused?)
  }

  class Host {
    var taps: set<string>

    constructor (taps: set<string>)
      ensures this.taps == taps
    {
      this.taps := taps;
    }

    /** `tuntap add` refuses a name that exists, so no set-up ever takes over a
        tap that is already there. */
    method SetupBridge(tap: string, f: SetupFate) returns (ok: bool)
      modifies this
      ensures taps == TapsAfterSetup(old(taps), tap, f)
      ensures ok <==> SetupSucceeds(old(taps), tap, f)
      ensures ok <==> tap !in old(taps) && f == SetUp
      ensures taps == if f in {BridgeMissing, NotABridge, AddFails} then old(taps) else old(taps) + {tap}
    {
      if f.BridgeMissing? || f.NotABridge? { return false; }
      if f.AddFails? || tap in taps { return false; }
      taps := taps + {tap};
      if f.MasterFails? { return false; }
      if f.BridgeUpFails? { return false; }
      return !f.TapUpFails?;
    }

    method TeardownBridge(tap: string, f: TeardownFate) returns (ok: bool)
      modifies this
      ensures taps == TapsAfterTeardown(old(taps), tap, f)
      ensures ok <==> TeardownSucceeds(old(taps), tap, f)
      ensures ok <==> tap in old(taps) && f in {Removed, DeleteRefused}
      ensures taps == if f == Removed then old(taps) - {tap} else old(taps)
    {
      if f.NomasterFails? || tap !in taps { return false; }
      if f.DownFails? || f.DeleteNotRun? { return false; }
      if !f.DeleteRefused? { taps := taps - {tap}; }
      return true;
    }
  }

  // ----- the backend's record of a NIC -----

  datatype NetworkInfo = BridgeInfo(bridge: string, tap: string) | IsolatedInfo | NatInfo

  type Extra = (string, NetworkInfo)

  function TapsOf(info: NetworkInfo): set<string> {
    if info.BridgeInfo? then {info.tap} else {}
  }

  function TapSet(extras: seq<Extra>): set<string> {
    if extras == [] then {} else TapSet(extras[..|extras| - 1]) + TapsOf(extras[|extras| - 1].1)
  }

  /** No tap is recorded twice. */
  ghost predicate Distinct(extras: seq<Extra>) {
    forall i, j :: 0 <= i < j < |extras| ==> TapsOf(extras[i].1) !! TapsOf(extras[j].1)
  }

  lemma {:induction false} TapSetMembers(extras: seq<Extra>, t: string)
    ensures t in TapSet(extras) <==> exists i :: 0 <= i < |extras| && t in TapsOf(extras[i].1)
  {
    if extras != [] {
      var n := |extras| - 1;
      TapSetMembers(extras[..n], t);
      if t in TapSet(extras[..n]) {
        var i :| 0 <= i < n && t in TapsOf(extras[..n][i].1);
        assert t in TapsOf(extras[i].1);
      }
      if i :| 0 <= i < |extras| && t in TapsOf(extras[i].1) {
        if i < n { assert t in TapsOf(extras[..n][i].1); }
      }
    }
  }

  /** `setup_extra_network`. */
  function SetupOne(taps: set<string>, id: string, mode: NetworkMode, index: nat, env: HostEnv)
    : (set<string>, Result<NetworkInfo, BackendError>)
  {
    match mode
    case Bridge(bridge) =>
      var tap := ExtraTap(id, index);
      (TapsAfterSetup(taps, tap, env.setup(tap)),
       if SetupSucceeds(taps, tap, env.setup(tap)) then Ok(BridgeInfo(bridge, tap)) else Err(Io))
    case Isolated => (taps, Err(InvalidConfig))
    case Nat => (taps, Ok(NatInfo))
  }

  datatype Extras = Extras(taps: set<string>, infos: seq<Extra>, error: Option<BackendError>)

  /** The set-up loop of `spawn`: it stops at the first failure, keeping what
      was made so far. */
  function SetupExtras(taps: set<string>, id: string, modes: seq<NetworkMode>, env: HostEnv): (x: Extras)
    ensures |x.infos| <= |modes| && (x.error.None? ==> |x.infos| == |modes|)
    decreases |modes|
  {
    if modes == [] then Extras(taps, [], None)
    else
      var n := |modes| - 1;
      var x := SetupExtras(taps, id, modes[..n], env);
      if x.error.Some? then x
      else
        var (made, r) := SetupOne(x.taps, id, modes[n], n, env);
        match r
        case Ok(info) => Extras(made, x.infos + [(ExtraNetId(n), info)], None)
        case Err(e) => Extras(made, x.infos, Some(e))
  }

  /** The tap a failing `SetupOne` leaves on the host. */
  function LateTap(taps: set<string>, id: string, mode: NetworkMode, index: nat, env: HostEnv): set<string> {
    var tap := ExtraTap(id, index);
    if mode.Bridge? && tap !in taps && FailsLate(env.setup(tap)) then {tap} else {}
  }

  function ExtrasLeak(taps: set<string>, id: string, modes: seq<NetworkMode>, env: HostEnv): set<string> {
    var x := SetupExtras(taps, id, modes, env);
    if x.error.None? then {}
    else LateTap(taps + TapSet(x.infos), id, modes[|x.infos|], |x.infos|, env)
  }

  lemma DistinctAppend(extras: seq<Extra>, e: Extra)
    requires Distinct(extras) && TapsOf(e.1) !! TapSet(extras)
    ensures Distinct(extras + [e]) && TapSet(extras + [e]) == TapSet(extras) + TapsOf(e.1)
  {
    var all := extras + [e];
    assert all[..|all| - 1] == extras;
    forall i | 0 <= i < |extras| ensures TapsOf(all[i].1) !! TapsOf(e.1) {
      forall t | t in TapsOf(all[i].1) ensures t !in TapsOf(e.1) {
        assert t in TapsOf(extras[i].1);
        TapSetMembers(extras, t);
      }
    }
  }

  lemma SetupOneMakes(taps: set<string>, id: string, mode: NetworkMode, index: nat, env: HostEnv)
    ensures var (made, r) := SetupOne(taps, id, mode, index, env);
            && (r.Ok? ==> made == taps + TapsOf(r.value) && TapsOf(r.value) !! taps && !r.value.IsolatedInfo?)
            && (r.Err? ==> made == taps + LateTap(taps, id, mode, index, env))
            && (r == Err(InvalidConfig) ==> mode.Isolated?)
    ensures LateTap(taps, id, mode, index, env) !! taps
  {}

  ghost predicate NoneIsolated(extras: seq<Extra>) {
    forall i :: 0 <= i < |extras| ==> !extras[i].1.IsolatedInfo?
  }

  /** Set-up makes exactly the recorded taps, plus at most one it cannot
      account for: the tap of a set-up that failed after creating it. */
  ghost predicate Makes(taps: set<string>, x: Extras, leak: set<string>) {
    && x.taps == taps + TapSet(x.infos) + leak
    && TapSet(x.infos) !! taps && leak !! taps && leak !! TapSet(x.infos)
    && Distinct(x.infos) && NoneIsolated(x.infos)
  }

  lemma MakesOneMore(taps: set<string>, x: Extras, e: Extra)
    requires Makes(taps, x, {}) && TapsOf(e.1) !! x.taps && !e.1.IsolatedInfo?
    ensures Makes(taps, Extras(x.taps + TapsOf(e.1), x.infos + [e], None), {})
  {
    DistinctAppend(x.infos, e);
  }

  lemma {:induction false} SetupExtrasMakes(taps: set<string>, id: string, modes: seq<NetworkMode>, env: HostEnv)
    ensures Makes(taps, SetupExtras(taps, id, modes, env), ExtrasLeak(taps, id, modes, env))
    ensures SetupExtras(taps, id, modes, env).error == Some(InvalidConfig) ==> Isolated in modes
  {
    if modes != [] {
      var n := |modes| - 1;
      SetupExtrasMakes(taps, id, modes[..n], env);
      var x := SetupExtras(taps, id, modes[..n], env);
      if x.error.None? {
        SetupOneMakes(x.taps, id, modes[n], n, env);
        var (made, r) := SetupOne(x.taps, id, modes[n], n, env);
        assert x.taps == taps + TapSet(x.infos);
        if r.Ok? {
          MakesOneMore(taps, x, (ExtraNetId(n), r.value));
        } else {
          assert ExtrasLeak(taps, id, modes, env) == LateTap(x.taps, id, modes[n], n, env);
        }
      } else {
        assert modes[|x.infos|] == modes[..n][|x.infos|];
      }
    }
  }

  // ----- tearing down -----

  /** `teardown_network_info` over a list: errors are ignored. */
  function TeardownAll(taps: set<string>, extras: seq<Extra>, env: HostEnv): set<string> {
    if extras == [] then taps
    else
      var info := extras[|extras| - 1].1;
      TeardownOne(TeardownAll(taps, extras[..|extras| - 1], env), info, env)
  }

  function TeardownOne(taps: set<string>, info: NetworkInfo, env: HostEnv): set<string> {
    if info.BridgeInfo? then TapsAfterTeardown(taps, info.tap, env.teardown(info.tap)) else taps
  }

  /** Those of `taps` whose tear-down does not delete them. */
  function Survivors(taps: set<string>, env: HostEnv): set<string> {
    set t | t in taps && !env.teardown(t).Removed?
  }

  lemma {:induction false} TeardownAllRemoves(taps: set<string>, extras: seq<Extra>, env: HostEnv)
    ensures TeardownAll(taps, extras, env) == taps - (TapSet(extras) - Survivors(TapSet(extras), env))
  {
    if extras != [] {
      TeardownAllRemoves(taps, extras[..|extras| - 1], env);
    }
  }

  /** Tear-down in `stop`: the first error ends it. */
  function StopTeardown(taps: set<string>, extras: seq<Extra>, env: HostEnv): (set<string>, bool) {
    if extras == [] then (taps, true)
    else
      var (left, ok) := StopTeardown(taps, extras[..|extras| - 1], env);
      if !ok then (left, false) else StopOne(left, extras[|extras| - 1].1, env)
  }

  function StopOne(taps: set<string>, info: NetworkInfo, env: HostEnv): (set<string>, bool) {
    match info
    case BridgeInfo(_, tap) =>
      (TapsAfterTeardown(taps, tap, env.teardown(tap)), TeardownSucceeds(taps, tap, env.teardown(tap)))
    case IsolatedInfo => (taps, env.isolatedDown)
    case NatInfo => (taps, true)
  }

  /** Taps `stop` forgets without deleting: those whose own tear-down fails and
      all that come after the first error. */
  function StopLeak(taps: set<string>, extras: seq<Extra>, env: HostEnv): set<string> {
    if extras == [] then {}
    else
      var before, mine := extras[..|extras| - 1], TapsOf(extras[|extras| - 1].1);
      StopLeak(taps, before, env)
      + if StopTeardown(taps, before, env).1 then Survivors(mine, env) else mine
  }

  lemma DistinctLast(extras: seq<Extra>)
    requires Distinct(extras) && extras != []
    ensures Distinct(extras[..|extras| - 1])
    ensures TapSet(extras[..|extras| - 1]) !! TapsOf(extras[|extras| - 1].1)
  {
    var n := |extras| - 1;
    forall t | t in TapSet(extras[..n]) ensures t !in TapsOf(extras[n].1) {
      TapSetMembers(extras[..n], t);
    }
  }

  lemma {:induction false} StopLeaves(others: set<string>, extras: seq<Extra>, env: HostEnv)
    requires Distinct(extras) && TapSet(extras) !! others
    ensures StopLeak(others + TapSet(extras), extras, env) <= TapSet(extras)
    ensures StopTeardown(others + TapSet(extras), extras, env).0 == others + StopLeak(others + TapSet(extras), extras, env)
    decreases |extras|
  {
    if extras != [] {
      var before, mine := extras[..|extras| - 1], TapsOf(extras[|extras| - 1].1);
      DistinctLast(extras);
      StopLeaves(others + mine, before, env);
      assert others + TapSet(extras) == (others + mine) + TapSet(before);
    }
  }

  /** Once `stop` met an error, it forgets every tap that comes after. */
  lemma {:induction false} StopForgetsTheRest(taps: set<string>, extras: seq<Extra>, env: HostEnv, k: nat)
    requires k <= |extras| && !StopTeardown(taps, extras[..k], env).1
    ensures forall i :: k <= i < |extras| ==> TapsOf(extras[i].1) <= StopLeak(taps, extras, env)
    ensures !StopTeardown(taps, extras, env).1
    decreases |extras|
  {
    if k < |extras| {
      assert extras[..|extras| - 1][..k] == extras[..k];
      StopForgetsTheRest(taps, extras[..|extras| - 1], env, k);
      forall i | k <= i < |extras| - 1 ensures TapsOf(extras[i].1) <= StopLeak(taps, extras, env) {
        assert extras[..|extras| - 1][i] == extras[i];
      }
    } else {
      assert extras[..k] == extras;
    }
  }

  /** With every recorded tap deleted and no isolation alarm, `stop` forgets
      nothing. */
  lemma {:induction false} CleanStopLeaksNothing(others: set<string>, extras: seq<Extra>, env: HostEnv)
    requires Distinct(extras) && TapSet(extras) !! others && env.isolatedDown
    requires forall t :: t in TapSet(extras) ==> env.teardown(t).Removed?
    ensures StopLeak(others + TapSet(extras), extras, env) == {}
    ensures StopTeardown(others + TapSet(extras), extras, env) == (others, true)
    decreases |extras|
  {
    if extras == [] {
      assert others + {} == others;
    } else {
      var before, last := extras[..|extras| - 1], extras[|extras| - 1].1;
      DistinctLast(extras);
      CleanStopLeaksNothing(others + TapsOf(last), before, env);
      assert others + TapSet(extras) == (others + TapsOf(last)) + TapSet(before);
      if last.BridgeInfo? {
        assert others + TapsOf(last) - {last.tap} == others;
      } else {
        assert others + TapsOf(last) == others;
      }
    }
  }
}
