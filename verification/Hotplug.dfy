/** Hot-plug over QMP: `ensure_qmp_connected`, `run_qmp_operation` with its one
    retry, and the operations `attach_disk`, `detach_disk`, `attach_network` and
    `detach_network` send through it. Between any two commands the guest does as
    it likes; commands and guest acts are on the wire log, in order. */
module Hotplug {
  import opened Basics
  import opened Cmdline
  import opened Qemu
  import S = Snapshots

  // ----- connecting -----

  /** One `QmpClient::connect`: `NotListening` is "not found" or "refused". */
  datatype Connect = Connected | NotListening | Failed

  /** What each connection attempt meets, and whether the process lives then. */
  datatype Dial = Dial(attempt: nat -> Connect, alive: nat -> bool)

  const CONNECT_TRIES: nat := 300

  /** Some attempt within the limit gets through, and every earlier one found
      nobody listening while the process was alive. */
  predicate Connects(d: Dial) {
    exists k: nat :: k < CONNECT_TRIES && d.attempt(k).Connected?
                     && forall j: nat :: j < k ==> d.attempt(j).NotListening? && d.alive(j)
  }

  method EnsureQmpConnected(client: bool, d: Dial) returns (connected: bool, tries: nat)
    ensures connected <==> client || Connects(d)
    ensures tries <= CONNECT_TRIES && (client ==> tries == 0)
  {
    tries := 0;
    if client { return true, 0; }
    for k := 0 to CONNECT_TRIES
      invariant tries == k
      invariant forall j: nat :: j < k ==> d.attempt(j).NotListening? && d.alive(j)
    {
      tries := tries + 1;
      match d.attempt(k) {
        case Connected => return true, tries;
        case NotListening =>
          if !d.alive(k) { return false, tries; }
        case Failed => return false, tries;
      }
    }
    return false, tries;
  }

  // ----- the wire -----

  datatype Wire = Wire(machine: Machine, log: seq<S.Event>)

  datatype Sent = Sent(wire: Wire, reply: Reply)

  /** One command, and what the guest does before the next one. */
  function Send(w: Wire, c: Command, fate: Fate, acts: seq<GuestAct>): Sent {
    var r := Issue(w.machine, c, fate);
    Sent(Wire(AfterGuest(r.machine, acts), w.log + [S.Other(c, fate), S.Guest(acts)]), r.reply)
  }

  /** How one attempt of an operation ends: `Answered` covers `CommandFailed`
      and `ParseError`; `Lost` is any other error, an unplug time-out included. */
  datatype Attempt = Success | Answered | Lost

  datatype Tried = Tried(wire: Wire, result: Attempt)

  function AttemptOf(r: Reply): Attempt {
    match r
    case Done => Success
    case Rejected => Answered
    case Unparsable => Answered
    case Broken => Lost
  }

  // ----- run_qmp_operation -----

  type Operation = (Wire, nat) -> Tried

  datatype Link = Link(first: Dial, alive: bool, again: Dial)

  datatype Ran = Ran(wire: Wire, client: bool, ok: bool, runs: nat, reconnects: nat)

  /** A second run happens exactly when the first one lost the connection, the
      process lives and a new connection comes up. */
  ghost predicate Retries(w: Wire, client: bool, link: Link, op: Operation) {
    (client || Connects(link.first)) && op(w, 0).result.Lost? && link.alive && Connects(link.again)
  }

  /** The outcome of `run_qmp_operation`, read off its attempts. */
  ghost function RunOp(w: Wire, client: bool, link: Link, op: Operation): Ran {
    if !(client || Connects(link.first)) then Ran(w, false, false, 0, 0)
    else
      var first := op(w, 0);
      if !first.result.Lost? then Ran(first.wire, true, first.result.Success?, 1, 0)
      else if !Retries(w, client, link, op) then Ran(first.wire, false, false, 1, 1)
      else
        var second := op(first.wire, 1);
        Ran(second.wire, true, second.result.Success?, 2, 1)
  }

  method DiagnoseAndResetQmp(reconnects: nat, alive: bool)
    returns (count: nat, client: bool, error: Option<BackendError>)
    ensures count == reconnects + 1 && !client
    ensures error == if alive then None else Some(ProcessNotRunning)
  {
    count, client := reconnects + 1, false;
    error := if alive then None else Some(ProcessNotRunning);
  }

  /** At most two runs; exactly one when QEMU answered; the reconnect count
      moves by one exactly when the connection was lost; and the result is that
      of the last run. */
  method RunQmpOperation(w: Wire, client: bool, reconnects: nat, link: Link, op: Operation)
    returns (wire: Wire, client': bool, count: nat, r: Result<(), BackendError>, runs: nat)
    ensures var ran := RunOp(w, client, link, op);
            && wire == ran.wire && client' == ran.client && r.Ok? == ran.ok && runs == ran.runs
            && count == reconnects + ran.reconnects
    ensures runs <= 2 && (runs == 0 <==> !client && !Connects(link.first))
    ensures runs == 2 <==> Retries(w, client, link, op)
    ensures count == reconnects + (if runs > 0 && op(w, 0).result.Lost? then 1 else 0)
    ensures runs > 0 && !op(w, 0).result.Lost? ==> runs == 1 && wire == op(w, 0).wire
    ensures r.Ok? ==> runs > 0 && (runs == 2 <==> op(w, 0).result.Lost?)
    ensures runs == 2 ==> wire == op(op(w, 0).wire, 1).wire && (r.Ok? <==> op(op(w, 0).wire, 1).result.Success?)
    ensures runs == 1 ==> wire == op(w, 0).wire && (r.Ok? <==> op(w, 0).result.Success?)
    ensures runs == 0 ==> wire == w && r.Err?
    ensures client' <==> runs > 0 && (op(w, 0).result.Lost? ==> runs == 2)
    ensures r.Err? ==> r.error == (if runs == 1 && count > reconnects && !link.alive then ProcessNotRunning else Io)
  {
    wire, count, runs := w, reconnects, 0;
    var tries;
    client', tries := EnsureQmpConnected(client, link.first);
    if !client' { r := Err(Io); return; }
    var attempt := op(wire, 0);
    wire, runs := attempt.wire, 1;
    match attempt.result {
      case Success => r := Ok(());
      case Answered => r := Err(Io);
      case Lost =>
        var error;
        count, client', error := DiagnoseAndResetQmp(reconnects, link.alive);
        if error.Some? { r := Err(error.value); return; }
        client', tries := EnsureQmpConnected(client', link.again);
        if !client' { r := Err(Io); return; }
        attempt := op(wire, 1);
        wire, runs := attempt.wire, 2;
        r := if attempt.result.Success? then Ok(()) else Err(Io);
    }
  }

  // ----- what the environment decides for one operation -----

  /** `fate(a, k)` meets command `k` of attempt `a` and `acts(a, k)` is what the
      guest does after it; `busy(a, k)` says that the k-th delete was refused with
      the device named as in use; `jitter(a, k)` is the time beyond k sleeps of
      250 ms. */
  datatype Env = Env(
    fate: (nat, nat) -> Fate,
    acts: (nat, nat) -> seq<GuestAct>,
    busy: (nat, nat) -> bool,
    jitter: (nat, nat) -> nat)

  const POLL_MS: nat := 250
  const UNPLUG_TIMEOUT_MS: nat := 15000

  // ----- attach -----

  function AttachDiskAttempt(w: Wire, index: nat, file: Content, env: Env, a: nat): Tried {
    var drive, device := ExtraDiskDriveId(index), ExtraDiskDeviceId(index);
    var added := Send(w, BlockdevAdd(drive, file), env.fate(a, 0), env.acts(a, 0));
    if !added.reply.Done? then Tried(added.wire, AttemptOf(added.reply)) else
    var plugged := Send(added.wire, DeviceAdd(device, Block(drive)), env.fate(a, 1), env.acts(a, 1));
    if plugged.reply.Done? then Tried(plugged.wire, Success) else
    var undone := Send(plugged.wire, BlockdevDel(drive), env.fate(a, 2), env.acts(a, 2));
    Tried(undone.wire, AttemptOf(plugged.reply))
  }

  function AttachDiskOp(index: nat, file: Content, env: Env): Operation {
    (w: Wire, a: nat) => AttachDiskAttempt(w, index, file, env, a)
  }

  function AttachNetAttempt(w: Wire, index: nat, env: Env, a: nat): Tried {
    var netdev := ExtraNetId(index);
    var added := Send(w, NetdevAdd(netdev), env.fate(a, 0), env.acts(a, 0));
    if !added.reply.Done? then Tried(added.wire, AttemptOf(added.reply)) else
    var plugged := Send(added.wire, DeviceAdd(netdev, Net(netdev)), env.fate(a, 1), env.acts(a, 1));
    Tried(plugged.wire, AttemptOf(plugged.reply))
  }

  function AttachNetOp(index: nat, env: Env): Operation {
    (w: Wire, a: nat) => AttachNetAttempt(w, index, env, a)
  }

  predicate TookEffect(f: Fate) { f.Applied? || f.LostAfter? || f.Garbled? }

  function WithNode(m: Machine, index: nat, file: Content): Machine {
    m.(nodes := m.nodes[ExtraDiskDriveId(index) := Layer(file, None)])
  }

  function WithDisk(m: Machine, index: nat, file: Content): Machine {
    var n := WithNode(m, index, file);
    n.(devices := n.devices[ExtraDiskDeviceId(index) := Device(Block(ExtraDiskDriveId(index)), false)])
  }

  function WithNetdev(m: Machine, index: nat): Machine {
    m.(netdevs := m.netdevs + {ExtraNetId(index)})
  }

  function WithNic(m: Machine, index: nat): Machine {
    var n := WithNetdev(m, index);
    n.(devices := n.devices[ExtraNetId(index) := Device(Net(ExtraNetId(index)), false)])
  }

  ghost predicate DiskSlotFree(m: Machine, index: nat) {
    && ExtraDiskDriveId(index) !in m.nodes && ExtraDiskDeviceId(index) !in m.devices
    && !InUse(m, ExtraDiskDriveId(index))
  }

  ghost predicate NicSlotFree(m: Machine, index: nat) {
    && ExtraNetId(index) !in m.netdevs && ExtraNetId(index) !in m.devices
    && !HasDevice(m, Net(ExtraNetId(index)))
  }

  /** An attempt leaves the block node behind: the add took effect and either
      its answer was lost, or neither the device nor the roll-back came through. */
  ghost predicate DiskNodeStays(env: Env, a: nat) {
    TookEffect(env.fate(a, 0)) &&
    (!env.fate(a, 0).Applied? || (!TookEffect(env.fate(a, 1)) && !TookEffect(env.fate(a, 2))))
  }

  /** The device is in although the attempt reports a failure. */
  ghost predicate DiskStays(env: Env, a: nat) {
    env.fate(a, 0).Applied? && (env.fate(a, 1).LostAfter? || env.fate(a, 1).Garbled?)
  }

  ghost predicate BothApplied(env: Env, a: nat) { env.fate(a, 0).Applied? && env.fate(a, 1).Applied? }

  /** The connection broke and the attempt left nothing behind. */
  ghost predicate DiskLostCleanly(env: Env, a: nat) {
    env.fate(a, 0).LostBefore? || (env.fate(a, 0).Applied? && env.fate(a, 1).LostBefore? && TookEffect(env.fate(a, 2)))
  }

  ghost predicate Reconnects(link: Link) { link.alive && Connects(link.again) }

  /** Both commands are carried out, at once or after a lost connection that
      left nothing behind. */
  ghost predicate DiskGoesIn(client: bool, link: Link, env: Env) {
    && (client || Connects(link.first))
    && (BothApplied(env, 0) || (DiskLostCleanly(env, 0) && Reconnects(link) && BothApplied(env, 1)))
  }

  /** The same for a NIC, which is never rolled back. */
  ghost predicate NicGoesIn(client: bool, link: Link, env: Env) {
    && (client || Connects(link.first))
    && (BothApplied(env, 0) || (env.fate(0, 0).LostBefore? && Reconnects(link) && BothApplied(env, 1)))
  }

  /** What the commands of an attach do where the slot is free. */
  lemma DiskSlotSteps(m: Machine, index: nat, file: Content)
    requires DiskSlotFree(m, index)
    ensures var drive, device := ExtraDiskDriveId(index), ExtraDiskDeviceId(index);
            && Exec(m, BlockdevAdd(drive, file)) == Some(WithNode(m, index, file))
            && Exec(WithNode(m, index, file), DeviceAdd(device, Block(drive))) == Some(WithDisk(m, index, file))
            && Exec(WithDisk(m, index, file), BlockdevDel(drive)) == None
            && Exec(WithNode(m, index, file), BlockdevDel(drive)) == Some(m)
  {
    var n, d := WithNode(m, index, file), WithDisk(m, index, file);
    var drive, device := ExtraDiskDriveId(index), ExtraDiskDeviceId(index);
    assert !InUse(n, drive) by {
      assert forall p :: p in n.nodes && n.nodes[p].backing.Some? ==> p in m.nodes && m.nodes[p] == n.nodes[p];
    }
    assert d.devices[device].backend == Block(drive);
    assert n.nodes - {drive} == m.nodes;
  }

  /** The guest's acts and the pieces of an attach do not interfere. */
  lemma {:induction false} DiskBesideGuest(m: Machine, index: nat, file: Content, acts: seq<GuestAct>)
    requires DiskSlotFree(m, index)
    ensures DiskSlotFree(AfterGuest(m, acts), index)
    ensures AfterGuest(WithNode(m, index, file), acts) == WithNode(AfterGuest(m, acts), index, file)
    ensures AfterGuest(WithDisk(m, index, file), acts) == WithDisk(AfterGuest(m, acts), index, file)
  {
    if acts != [] {
      var before := acts[..|acts| - 1];
      DiskBesideGuest(m, index, file, before);
      DiskBesideStep(AfterGuest(m, before), index, file, acts[|acts| - 1]);
    }
    GuestsKeep(m, acts);
  }

  lemma {:induction false} DiskBesideStep(m: Machine, index: nat, file: Content, a: GuestAct)
    requires DiskSlotFree(m, index)
    ensures GuestStep(WithNode(m, index, file), a) == WithNode(GuestStep(m, a), index, file)
    ensures GuestStep(WithDisk(m, index, file), a) == WithDisk(GuestStep(m, a), index, file)
  {
    if a.Put? { PutBesideDisk(m, index, file, a); } else { LetGoBesideDisk(m, index, file, a); }
  }

  lemma PutBesideDisk(m: Machine, index: nat, file: Content, a: GuestAct)
    requires DiskSlotFree(m, index) && a.Put?
    ensures GuestStep(WithNode(m, index, file), a) == WithNode(GuestStep(m, a), index, file)
    ensures GuestStep(WithDisk(m, index, file), a) == WithDisk(GuestStep(m, a), index, file)
  {
    assert GuestStep(WithNode(m, index, file), a).nodes == WithNode(GuestStep(m, a), index, file).nodes;
  }

  lemma LetGoBesideDisk(m: Machine, index: nat, file: Content, a: GuestAct)
    requires DiskSlotFree(m, index) && a.LetGo?
    ensures GuestStep(WithNode(m, index, file), a) == WithNode(GuestStep(m, a), index, file)
    ensures GuestStep(WithDisk(m, index, file), a) == WithDisk(GuestStep(m, a), index, file)
  {
    assert GuestStep(WithDisk(m, index, file), a).devices == WithDisk(GuestStep(m, a), index, file).devices;
  }

  /** Where an attempt to attach a disk leaves QEMU, the guest's acts aside. */
  ghost function DiskAttempted(m: Machine, index: nat, file: Content, env: Env, a: nat): Machine {
    if env.fate(a, 0).Applied? && TookEffect(env.fate(a, 1)) then WithDisk(m, index, file)
    else if DiskNodeStays(env, a) then WithNode(m, index, file) else m
  }

  lemma AddSends(w: Wire, index: nat, file: Content, f: Fate, acts: seq<GuestAct>)
    requires DiskSlotFree(w.machine, index)
    ensures var r := Send(w, BlockdevAdd(ExtraDiskDriveId(index), file), f, acts);
            && (r.reply.Done? <==> f.Applied?)
            && r.wire.machine == AfterGuest(if TookEffect(f) then WithNode(w.machine, index, file) else w.machine, acts)
  {
    DiskSlotSteps(w.machine, index, file);
  }

  lemma PlugSends(w: Wire, m: Machine, index: nat, file: Content, done: seq<GuestAct>, f: Fate, acts: seq<GuestAct>)
    requires DiskSlotFree(m, index) && w.machine == AfterGuest(WithNode(m, index, file), done)
    ensures var r := Send(w, DeviceAdd(ExtraDiskDeviceId(index), Block(ExtraDiskDriveId(index))), f, acts);
            && (r.reply.Done? <==> f.Applied?)
            && r.wire.machine == AfterGuest(if TookEffect(f) then WithDisk(m, index, file) else WithNode(m, index, file), done + acts)
  {
    DiskBesideGuest(m, index, file, done);
    DiskSlotSteps(AfterGuest(m, done), index, file);
    GuestTwice(if TookEffect(f) then WithDisk(m, index, file) else WithNode(m, index, file), done, acts);
  }

  /** Only a node without its device can be taken out again. */
  lemma UndoSends(w: Wire, m: Machine, plugged: bool, index: nat, file: Content, done: seq<GuestAct>, f: Fate, acts: seq<GuestAct>)
    requires DiskSlotFree(m, index)
    requires w.machine == AfterGuest(if plugged then WithDisk(m, index, file) else WithNode(m, index, file), done)
    ensures Send(w, BlockdevDel(ExtraDiskDriveId(index)), f, acts).wire.machine
         == AfterGuest(if plugged then WithDisk(m, index, file) else if TookEffect(f) then m else WithNode(m, index, file), done + acts)
  {
    DiskBesideGuest(m, index, file, done);
    DiskSlotSteps(AfterGuest(m, done), index, file);
    GuestTwice(if plugged then WithDisk(m, index, file) else if TookEffect(f) then m else WithNode(m, index, file), done, acts);
  }

  lemma AttachDiskOnce(w: Wire, index: nat, file: Content, env: Env, a: nat) returns (acts: seq<GuestAct>)
    requires DiskSlotFree(w.machine, index)
    ensures var t := AttachDiskAttempt(w, index, file, env, a);
            && (t.result.Success? <==> env.fate(a, 0).Applied? && env.fate(a, 1).Applied?)
            && t.wire.machine == AfterGuest(DiskAttempted(w.machine, index, file, env, a), acts)
            && (DiskLostCleanly(env, a) <==> t.result.Lost? && DiskAttempted(w.machine, index, file, env, a) == w.machine)
  {
    assert ExtraDiskDriveId(index) in WithNode(w.machine, index, file).nodes;
    var drive, device := ExtraDiskDriveId(index), ExtraDiskDeviceId(index);
    acts := env.acts(a, 0);
    AddSends(w, index, file, env.fate(a, 0), acts);
    if env.fate(a, 0).Applied? {
      var added := Send(w, BlockdevAdd(drive, file), env.fate(a, 0), acts).wire;
      PlugSends(added, w.machine, index, file, acts, env.fate(a, 1), env.acts(a, 1));
      var plugged := Send(added, DeviceAdd(device, Block(drive)), env.fate(a, 1), env.acts(a, 1)).wire;
      acts := acts + env.acts(a, 1);
      if !env.fate(a, 1).Applied? {
        UndoSends(plugged, w.machine, TookEffect(env.fate(a, 1)), index, file, acts, env.fate(a, 2), env.acts(a, 2));
        acts := acts + env.acts(a, 2);
      }
    }
  }

  lemma TakenDriveRefused(w: Wire, index: nat, file: Content, env: Env, a: nat)
    requires ExtraDiskDriveId(index) in w.machine.nodes
    ensures var t := AttachDiskAttempt(w, index, file, env, a);
            !t.result.Success? && t.wire.machine == AfterGuest(w.machine, env.acts(a, 0))
  {}

  /** A failed attempt leaves nothing exactly when neither stays. */
  lemma AttemptLeaves(m: Machine, index: nat, file: Content, env: Env, a: nat)
    requires DiskSlotFree(m, index) && !(env.fate(a, 0).Applied? && env.fate(a, 1).Applied?)
    ensures DiskAttempted(m, index, file, env, a) == m <==> !DiskNodeStays(env, a) && !DiskStays(env, a)
  {
    assert ExtraDiskDriveId(index) in WithNode(m, index, file).nodes;
    assert ExtraDiskDriveId(index) in WithDisk(m, index, file).nodes;
  }

  /** What a run of `attach_disk` leaves, the guest's acts set apart. */
  lemma AttachDiskRun(w: Wire, client: bool, link: Link, index: nat, file: Content, env: Env)
    returns (left: Machine, acts: seq<GuestAct>)
    requires DiskSlotFree(w.machine, index)
    ensures var ran, m := RunOp(w, client, link, AttachDiskOp(index, file, env)), w.machine;
            && ran.wire.machine == AfterGuest(left, acts)
            && left in {m, WithNode(m, index, file), WithDisk(m, index, file)}
            && (ran.ok ==> left == WithDisk(m, index, file))
            && (!ran.ok ==> (left == m <==> forall a: nat :: a < ran.runs ==> !DiskNodeStays(env, a) && !DiskStays(env, a)))
            && (ran.ok <==> DiskGoesIn(client, link, env))
  {
    var op, m := AttachDiskOp(index, file, env), w.machine;
    left, acts := m, [];
    var first, ran := op(w, 0), RunOp(w, client, link, op);
    if ran.runs > 0 {
      left := DiskAttempted(m, index, file, env, 0);
      acts := AttachDiskOnce(w, index, file, env, 0);
      if !first.result.Success? { AttemptLeaves(m, index, file, env, 0); }
      if ran.runs == 2 {
        left, acts := AttachDiskAgain(first.wire, m, left, index, file, env, acts);
      }
    }
  }

  /** The second attempt: as the first where that left nothing, refused where
      it left its node. */
  lemma AttachDiskAgain(w: Wire, m: Machine, left: Machine, index: nat, file: Content, env: Env, done: seq<GuestAct>)
    returns (left': Machine, acts: seq<GuestAct>)
    requires DiskSlotFree(m, index) && left in {m, WithNode(m, index, file), WithDisk(m, index, file)}
    requires w.machine == AfterGuest(left, done)
    ensures var t := AttachDiskAttempt(w, index, file, env, 1);
            && t.wire.machine == AfterGuest(left', acts)
            && left' in {m, WithNode(m, index, file), WithDisk(m, index, file)}
            && (t.result.Success? ==> left' == WithDisk(m, index, file))
            && (t.result.Success? <==> left == m && BothApplied(env, 1))
            && (!t.result.Success? ==> (left' == m <==> left == m && !DiskNodeStays(env, 1) && !DiskStays(env, 1)))
  {
    if left == m {
      DiskBesideGuest(m, index, file, done);
      acts := AttachDiskOnce(w, index, file, env, 1);
      left' := DiskAttempted(m, index, file, env, 1);
      assert DiskAttempted(AfterGuest(m, done), index, file, env, 1) == AfterGuest(left', done);
      GuestTwice(left', done, acts);
      acts := done + acts;
      if !AttachDiskAttempt(w, index, file, env, 1).result.Success? { AttemptLeaves(m, index, file, env, 1); }
    } else {
      GuestsKeep(left, done);
      TakenDriveRefused(w, index, file, env, 1);
      GuestTwice(left, done, env.acts(1, 0));
      left', acts := left, done + env.acts(1, 0);
    }
  }

  /** `attach_disk`: it succeeds exactly when both commands are carried out, at
      once or after a lost connection that left nothing behind. On success
      exactly the node and its device are new. On failure QEMU is as before, but for what the guest did meanwhile, exactly
      when no attempt left its node or its device behind; the second attempt at
      a left node is refused. */
  lemma AttachDiskOutcome(w: Wire, client: bool, link: Link, index: nat, file: Content, env: Env)
    requires DiskSlotFree(w.machine, index)
    ensures var ran, m := RunOp(w, client, link, AttachDiskOp(index, file, env)), w.machine;
            var n := ran.wire.machine;
            && (ran.ok ==> GuestOnly(WithDisk(m, index, file), n))
            && (!ran.ok ==> GuestOnly(m, n) || GuestOnly(WithNode(m, index, file), n) || GuestOnly(WithDisk(m, index, file), n))
            && (!ran.ok ==> (GuestOnly(m, n) <==>
                  forall a: nat :: a < ran.runs ==> !DiskNodeStays(env, a) && !DiskStays(env, a)))
            && (ran.ok <==> DiskGoesIn(client, link, env))
  {
    var left, acts := AttachDiskRun(w, client, link, index, file, env);
    OnlyWithoutANode(w.machine, index, file, left, acts);
  }

  /** A node or device left behind is nothing the guest could have done. */
  lemma OnlyWithoutANode(m: Machine, index: nat, file: Content, left: Machine, acts: seq<GuestAct>)
    requires DiskSlotFree(m, index) && left in {m, WithNode(m, index, file), WithDisk(m, index, file)}
    ensures GuestOnly(left, AfterGuest(left, acts))
    ensures GuestOnly(m, AfterGuest(left, acts)) <==> left == m
    ensures left == m <==> ExtraDiskDriveId(index) !in left.nodes
  {
    var n := AfterGuest(left, acts);
    GuestsKeep(left, acts);
    if other :| n == AfterGuest(m, other) {
      GuestsKeep(m, other);
      assert (ExtraDiskDriveId(index) in n.nodes) == (ExtraDiskDriveId(index) in m.nodes);
    }
  }

  /** An attempt leaves the netdev behind: there is no roll-back for it. */
  ghost predicate NetdevStays(env: Env, a: nat) {
    TookEffect(env.fate(a, 0)) && !(env.fate(a, 0).Applied? && TookEffect(env.fate(a, 1)))
  }

  ghost predicate NicStays(env: Env, a: nat) {
    env.fate(a, 0).Applied? && TookEffect(env.fate(a, 1))
  }

  lemma {:induction false} NicBesideGuest(m: Machine, index: nat, acts: seq<GuestAct>)
    requires NicSlotFree(m, index)
    ensures NicSlotFree(AfterGuest(m, acts), index)
    ensures AfterGuest(WithNetdev(m, index), acts) == WithNetdev(AfterGuest(m, acts), index)
    ensures AfterGuest(WithNic(m, index), acts) == WithNic(AfterGuest(m, acts), index)
  {
    if acts != [] {
      var before, a := acts[..|acts| - 1], acts[|acts| - 1];
      NicBesideGuest(m, index, before);
      NicBesideStep(AfterGuest(m, before), index, a);
    }
    GuestsKeep(m, acts);
  }

  lemma NicBesideStep(m: Machine, index: nat, a: GuestAct)
    requires NicSlotFree(m, index)
    ensures GuestStep(WithNetdev(m, index), a) == WithNetdev(GuestStep(m, a), index)
    ensures GuestStep(WithNic(m, index), a) == WithNic(GuestStep(m, a), index)
  {
    assert GuestStep(WithNic(m, index), a).devices == WithNic(GuestStep(m, a), index).devices;
  }

  /** Where an attempt to attach a NIC leaves QEMU, the guest's acts aside. */
  ghost function NicAttempted(m: Machine, index: nat, env: Env, a: nat): Machine {
    if NicStays(env, a) then WithNic(m, index) else if NetdevStays(env, a) then WithNetdev(m, index) else m
  }

  lemma AttachNetOnce(w: Wire, index: nat, env: Env, a: nat) returns (acts: seq<GuestAct>)
    requires NicSlotFree(w.machine, index)
    ensures var t := AttachNetAttempt(w, index, env, a);
            && (t.result.Success? <==> env.fate(a, 0).Applied? && env.fate(a, 1).Applied?)
            && t.wire.machine == AfterGuest(NicAttempted(w.machine, index, env, a), acts)
            && (env.fate(a, 0).LostBefore? <==> t.result.Lost? && NicAttempted(w.machine, index, env, a) == w.machine)
  {
    assert ExtraNetId(index) in WithNetdev(w.machine, index).netdevs;
    var m, netdev := w.machine, ExtraNetId(index);
    acts := env.acts(a, 0);
    NicSlotSteps(m, index);
    if env.fate(a, 0).Applied? {
      NicBesideGuest(m, index, acts);
      NicSlotSteps(AfterGuest(m, acts), index);
      GuestTwice(NicAttempted(m, index, env, a), acts, env.acts(a, 1));
      acts := acts + env.acts(a, 1);
    }
  }

  lemma NicSlotSteps(m: Machine, index: nat)
    requires NicSlotFree(m, index)
    ensures var netdev := ExtraNetId(index);
            && Exec(m, NetdevAdd(netdev)) == Some(WithNetdev(m, index))
            && Exec(WithNetdev(m, index), DeviceAdd(netdev, Net(netdev))) == Some(WithNic(m, index))
  {}

  /** A netdev left behind makes its index unusable: every later attach at it
      fails and changes nothing, whatever the environment does. */
  lemma PoisonedIndex(w: Wire, client: bool, link: Link, index: nat, env: Env)
    requires ExtraNetId(index) in w.machine.netdevs
    ensures var ran := RunOp(w, client, link, AttachNetOp(index, env));
            !ran.ok && GuestOnly(w.machine, ran.wire.machine)
  {
    var first := AttachNetAttempt(w, index, env, 0);
    TakenNetdevRefused(w, index, env, 0);
    GuestsKeep(w.machine, env.acts(0, 0));
    TakenNetdevRefused(first.wire, index, env, 1);
    TwiceGuestOnly(w.machine, env.acts(0, 0), env.acts(1, 0));
  }

  lemma TwiceGuestOnly(m: Machine, a: seq<GuestAct>, b: seq<GuestAct>)
    ensures GuestOnly(m, m) && GuestOnly(m, AfterGuest(m, a)) && GuestOnly(m, AfterGuest(AfterGuest(m, a), b))
  {
    assert AfterGuest(m, []) == m;
    GuestTwice(m, a, b);
  }

  lemma AttachNetRun(w: Wire, client: bool, link: Link, index: nat, env: Env) returns (left: Machine, acts: seq<GuestAct>)
    requires NicSlotFree(w.machine, index)
    ensures var ran, m := RunOp(w, client, link, AttachNetOp(index, env)), w.machine;
            && ran.wire.machine == AfterGuest(left, acts)
            && left in {m, WithNetdev(m, index), WithNic(m, index)}
            && (ran.ok ==> left == WithNic(m, index))
            && (!ran.ok ==> (left == m <==> forall a: nat :: a < ran.runs ==> !TookEffect(env.fate(a, 0))))
            && (ran.ok <==> NicGoesIn(client, link, env))
  {
    var op, m := AttachNetOp(index, env), w.machine;
    left, acts := m, [];
    var first, ran := op(w, 0), RunOp(w, client, link, op);
    if ran.runs > 0 {
      left := NicAttempted(m, index, env, 0);
      acts := AttachNetOnce(w, index, env, 0);
      if ran.runs == 2 { left, acts := AttachNetAgain(first.wire, m, left, index, env, acts); }
    }
  }

  lemma AttachNetAgain(w: Wire, m: Machine, left: Machine, index: nat, env: Env, done: seq<GuestAct>)
    returns (left': Machine, acts: seq<GuestAct>)
    requires NicSlotFree(m, index) && left in {m, WithNetdev(m, index), WithNic(m, index)}
    requires w.machine == AfterGuest(left, done)
    ensures var t := AttachNetAttempt(w, index, env, 1);
            && t.wire.machine == AfterGuest(left', acts)
            && left' in {m, WithNetdev(m, index), WithNic(m, index)}
            && (t.result.Success? ==> left' == WithNic(m, index))
            && (t.result.Success? <==> left == m && BothApplied(env, 1))
            && (!t.result.Success? ==> (left' == m <==> left == m && !TookEffect(env.fate(1, 0))))
  {
    if left == m {
      NicBesideGuest(m, index, done);
      acts := AttachNetOnce(w, index, env, 1);
      left' := NicAttempted(m, index, env, 1);
      assert NicAttempted(AfterGuest(m, done), index, env, 1) == AfterGuest(left', done);
      GuestTwice(left', done, acts);
      acts := done + acts;
    } else {
      GuestsKeep(left, done);
      TakenNetdevRefused(w, index, env, 1);
      GuestTwice(left, done, env.acts(1, 0));
      left', acts := left, done + env.acts(1, 0);
    }
  }

  lemma TakenNetdevRefused(w: Wire, index: nat, env: Env, a: nat)
    requires ExtraNetId(index) in w.machine.netdevs
    ensures var t := AttachNetAttempt(w, index, env, a);
            !t.result.Success? && t.wire.machine == AfterGuest(w.machine, env.acts(a, 0))
  {}

  /** `attach_network` over QMP: it succeeds exactly when both commands are
      carried out, at once or after a connection lost before the first. On success
      exactly the netdev and its device are new; on failure QEMU is as before, but
      for what the guest did meanwhile, exactly when no netdev was ever created. */
  lemma AttachNetOutcome(w: Wire, client: bool, link: Link, index: nat, env: Env)
    requires NicSlotFree(w.machine, index)
    ensures var ran, m := RunOp(w, client, link, AttachNetOp(index, env)), w.machine;
            var n := ran.wire.machine;
            && (ran.ok ==> GuestOnly(WithNic(m, index), n))
            && (!ran.ok ==> GuestOnly(m, n) || GuestOnly(WithNetdev(m, index), n) || GuestOnly(WithNic(m, index), n))
            && (!ran.ok ==> (GuestOnly(m, n) <==> forall a: nat :: a < ran.runs ==> !TookEffect(env.fate(a, 0))))
            && (ran.ok <==> NicGoesIn(client, link, env))
  {
    var left, acts := AttachNetRun(w, client, link, index, env);
    OnlyWithoutANetdev(w.machine, index, left, acts);
  }

  lemma OnlyWithoutANetdev(m: Machine, index: nat, left: Machine, acts: seq<GuestAct>)
    requires NicSlotFree(m, index) && left in {m, WithNetdev(m, index), WithNic(m, index)}
    ensures GuestOnly(left, AfterGuest(left, acts))
    ensures GuestOnly(m, AfterGuest(left, acts)) <==> left == m
  {
    var n := AfterGuest(left, acts);
    GuestsKeep(left, acts);
    if other :| n == AfterGuest(m, other) { GuestsKeep(m, other); }
  }

  // ----- detach -----

  function TargetExists(m: Machine, del: Command): bool {
    (del.BlockdevDel? && del.node in m.nodes) || (del.NetdevDel? && del.id in m.netdevs)
  }

  /** `is_device_in_use_error` on a refusal: QEMU refuses to delete a target
      that exists only while it is used. */
  function InUseAnswer(m: Machine, del: Command, env: Env, a: nat, k: nat): bool {
    (env.fate(a, k + 1).Applied? && TargetExists(m, del)) || (env.fate(a, k + 1).Refused? && env.busy(a, k))
  }

  /** The retry loop of `detach_block_device` and `detach_net_device` from its
      k-th delete on; giving up at the deadline is a `Lost` attempt. */
  function UnplugLoop(w: Wire, device: string, del: Command, timeout: nat, env: Env, a: nat, k: nat): Tried
    decreases if POLL_MS * k < timeout then timeout - POLL_MS * k else 0
  {
    var r := Send(w, del, env.fate(a, k + 1), env.acts(a, k + 1));
    if !r.reply.Rejected? then Tried(r.wire, AttemptOf(r.reply))
    else if !InUseAnswer(w.machine, del, env, a, k) then Tried(r.wire, Answered)
    else if POLL_MS * k + env.jitter(a, k) < timeout then UnplugLoop(r.wire, device, del, timeout, env, a, k + 1)
    else Tried(r.wire, Lost)
  }

  function DetachAttempt(w: Wire, device: string, del: Command, timeout: nat, env: Env, a: nat): Tried {
    var asked := Send(w, DeviceDel(device), env.fate(a, 0), env.acts(a, 0));
    if !asked.reply.Done? then Tried(asked.wire, AttemptOf(asked.reply))
    else UnplugLoop(asked.wire, device, del, timeout, env, a, 0)
  }

  function DetachOp(device: string, del: Command, timeout: nat, env: Env): Operation {
    (w: Wire, a: nat) => DetachAttempt(w, device, del, timeout, env, a)
  }

  method DetachDevice(w: Wire, device: string, del: Command, timeout: nat, env: Env, a: nat)
    returns (wire: Wire, result: Attempt)
    requires !del.DeviceDel?
    ensures Tried(wire, result) == DetachAttempt(w, device, del, timeout, env, a)
    ensures var asked := Issue(w.machine, DeviceDel(device), env.fate(a, 0)).reply;
            result.Success? <==> asked.Done? && exists k: nat :: DeletedAt(w.machine, device, del, timeout, env, a, k)
  {
    UnplugEndsIff(w, device, del, timeout, env, a);
    var asked := Send(w, DeviceDel(device), env.fate(a, 0), env.acts(a, 0));
    wire := asked.wire;
    if !asked.reply.Done? { result := AttemptOf(asked.reply); return; }
    var k := 0;
    while true
      invariant UnplugLoop(wire, device, del, timeout, env, a, k)
             == UnplugLoop(asked.wire, device, del, timeout, env, a, 0)
      decreases if POLL_MS * k < timeout then timeout - POLL_MS * k else 0
    {
      var before := wire.machine;
      var answer := Send(wire, del, env.fate(a, k + 1), env.acts(a, k + 1));
      wire := answer.wire;
      match answer.reply {
        case Done => result := Success; return;
        case Rejected =>
          if !InUseAnswer(before, del, env, a, k) { result := Answered; return; }
          if POLL_MS * k + env.jitter(a, k) >= timeout { result := Lost; return; }
          k := k + 1;
        case Unparsable => result := Answered; return;
        case Broken => result := Lost; return;
      }
    }
  }

  /** Sleeps of 250 ms that fit before the deadline, rounded up. */
  function Polls(timeout: nat): nat { (timeout + POLL_MS - 1) / POLL_MS }

  /** What an attempt adds to the wire log: one delete of the device, then at
      most `Polls + 1` deletes of what is behind it. */
  ghost predicate Traffic(before: seq<S.Event>, after: seq<S.Event>, device: string, del: Command, asks: nat, deletes: nat) {
    forall c: Command ::
      Times(after, c) == Times(before, c) + (if c == DeviceDel(device) then asks else 0) + (if c == del then deletes else 0)
  }

  /** How often a command was sent. */
  ghost function Times(log: seq<S.Event>, c: Command): nat {
    if log == [] then 0
    else
      var e := log[|log| - 1];
      Times(log[..|log| - 1], c) + if e.Other? && e.command == c then 1 else 0
  }

  lemma OneMore(log: seq<S.Event>, c: Command, fate: Fate, acts: seq<GuestAct>)
    ensures forall d :: Times(log + [S.Other(c, fate), S.Guest(acts)], d) == Times(log, d) + if c == d then 1 else 0
  {
    var all := log + [S.Other(c, fate), S.Guest(acts)];
    assert all[..|all| - 1] == log + [S.Other(c, fate)];
    assert (log + [S.Other(c, fate)])[..|log|] == log;
  }

  lemma {:induction false} UnplugLoopTraffic(w: Wire, device: string, del: Command, timeout: nat, env: Env, a: nat, k: nat)
    returns (deletes: nat)
    requires !del.DeviceDel? && k <= Polls(timeout)
    ensures deletes <= Polls(timeout) - k + 1
    ensures Traffic(w.log, UnplugLoop(w, device, del, timeout, env, a, k).wire.log, device, del, 0, deletes)
    decreases Polls(timeout) + 1 - k
  {
    var r := Send(w, del, env.fate(a, k + 1), env.acts(a, k + 1));
    deletes := 1;
    OneMore(w.log, del, env.fate(a, k + 1), env.acts(a, k + 1));
    if r.reply.Rejected? && InUseAnswer(w.machine, del, env, a, k) && POLL_MS * k + env.jitter(a, k) < timeout {
      var more := UnplugLoopTraffic(r.wire, device, del, timeout, env, a, k + 1);
      deletes := 1 + more;
    }
  }

  lemma DetachAttemptTraffic(w: Wire, device: string, del: Command, timeout: nat, env: Env, a: nat)
    returns (deletes: nat)
    requires !del.DeviceDel?
    ensures deletes <= Polls(timeout) + 1
    ensures Traffic(w.log, DetachAttempt(w, device, del, timeout, env, a).wire.log, device, del, 1, deletes)
  {
    deletes := 0;
    OneMore(w.log, DeviceDel(device), env.fate(a, 0), env.acts(a, 0));
    var asked := Send(w, DeviceDel(device), env.fate(a, 0), env.acts(a, 0));
    if asked.reply.Done? {
      deletes := UnplugLoopTraffic(asked.wire, device, del, timeout, env, a, 0);
    }
  }

  /** One hot-unplug, retry included, sends at most 2 device deletes and at most
      2 * (ceil(timeout / 250 ms) + 1) backend deletes, and nothing else. */
  lemma UnplugTraffic(w: Wire, client: bool, link: Link, device: string, del: Command, timeout: nat, env: Env)
    requires !del.DeviceDel?
    ensures exists asks: nat, deletes: nat ::
              Traffic(w.log, RunOp(w, client, link, DetachOp(device, del, timeout, env)).wire.log, device, del, asks, deletes)
              && asks <= 2 && deletes <= 2 * (Polls(timeout) + 1)
  {
    var op := DetachOp(device, del, timeout, env);
    var ran, first := RunOp(w, client, link, op), op(w, 0);
    if ran.runs == 0 {
      assert Traffic(w.log, ran.wire.log, device, del, 0, 0);
    } else {
      var n := DetachAttemptTraffic(w, device, del, timeout, env, 0);
      if ran.runs == 1 {
        assert Traffic(w.log, ran.wire.log, device, del, 1, n);
      } else {
        var n' := DetachAttemptTraffic(first.wire, device, del, timeout, env, 1);
        assert Traffic(w.log, ran.wire.log, device, del, 2, n + n');
      }
    }
  }

  /** The unplug time-out is not a final answer: a guest that never lets go, on
      a connection that loses nothing, makes the whole unplug run twice. */
  lemma TimeoutIsRetried(w: Wire, client: bool, link: Link, device: string, del: Command, timeout: nat, env: Env)
    requires !del.DeviceDel? && client && link.alive && Connects(link.again)
    requires forall k :: env.fate(0, k).Applied? && LetGo(device) !in env.acts(0, k)
    requires device in w.machine.devices && TargetExists(w.machine, del)
    requires del.NetdevDel? ==> w.machine.devices[device].backend == Net(del.id)
    requires del.BlockdevDel? ==> w.machine.devices[device].backend == Block(del.node)
    ensures RunOp(w, client, link, DetachOp(device, del, timeout, env)).runs == 2
  {
    var asked := Send(w, DeviceDel(device), env.fate(0, 0), env.acts(0, 0));
    GuestsKeep(Issue(w.machine, DeviceDel(device), Applied).machine, env.acts(0, 0));
    NeverReleased(asked.wire, device, del, timeout, env, 0);
  }

  lemma {:induction false} NeverReleased(w: Wire, device: string, del: Command, timeout: nat, env: Env, k: nat)
    requires forall k :: env.fate(0, k).Applied? && LetGo(device) !in env.acts(0, k)
    requires device in w.machine.devices && TargetExists(w.machine, del)
    requires del.NetdevDel? ==> w.machine.devices[device].backend == Net(del.id)
    requires del.BlockdevDel? ==> w.machine.devices[device].backend == Block(del.node)
    ensures UnplugLoop(w, device, del, timeout, env, 0, k).result.Lost?
    decreases if POLL_MS * k < timeout then timeout - POLL_MS * k else 0
  {
    var r := Send(w, del, env.fate(0, k + 1), env.acts(0, k + 1));
    assert Issue(w.machine, del, Applied) == Issued(w.machine, Rejected);
    GuestsKeep(w.machine, env.acts(0, k + 1));
    if POLL_MS * k + env.jitter(0, k) < timeout {
      NeverReleased(r.wire, device, del, timeout, env, k + 1);
    }
  }

  // ----- when an unplug succeeds -----

  /** What the guest did from the device delete up to delete `k` of the target. */
  function GuestUpTo(env: Env, a: nat, k: nat): seq<GuestAct> {
    if k == 0 then env.acts(a, 0) else GuestUpTo(env, a, k - 1) + env.acts(a, k)
  }

  /** QEMU as delete `k` finds it when every one before it was refused. */
  function AtDelete(m: Machine, device: string, env: Env, a: nat, k: nat): Machine {
    AfterGuest(Issue(m, DeviceDel(device), env.fate(a, 0)).machine, GuestUpTo(env, a, k))
  }

  /** Delete `k` is answered by a refusal that names the device as in use. */
  ghost predicate RefusedInUse(m: Machine, device: string, del: Command, env: Env, a: nat, k: nat) {
    var fate, now := env.fate(a, k + 1), AtDelete(m, device, env, a, k);
    || (fate.Applied? && Exec(now, del).None? && TargetExists(now, del))
    || (fate.Refused? && env.busy(a, k))
  }

  /** ... and the deadline was not reached at the look at the clock after it. */
  ghost predicate Waits(m: Machine, device: string, del: Command, timeout: nat, env: Env, a: nat, k: nat) {
    RefusedInUse(m, device, del, env, a, k) && POLL_MS * k + env.jitter(a, k) < timeout
  }

  ghost predicate LastDelete(m: Machine, device: string, del: Command, timeout: nat, env: Env, a: nat, k: nat) {
    (forall j: nat :: j < k ==> Waits(m, device, del, timeout, env, a, j)) && !Waits(m, device, del, timeout, env, a, k)
  }

  /** How an attempt ends with its last delete. */
  ghost function EndOfDelete(m: Machine, device: string, del: Command, env: Env, a: nat, k: nat): Attempt {
    match Issue(AtDelete(m, device, env, a, k), del, env.fate(a, k + 1)).reply
    case Done => Success
    case Rejected => if RefusedInUse(m, device, del, env, a, k) then Lost else Answered
    case Unparsable => Answered
    case Broken => Lost
  }

  lemma NextDelete(m: Machine, device: string, env: Env, a: nat, k: nat)
    ensures AfterGuest(AtDelete(m, device, env, a, k), env.acts(a, k + 1)) == AtDelete(m, device, env, a, k + 1)
  {
    GuestTwice(Issue(m, DeviceDel(device), env.fate(a, 0)).machine, GuestUpTo(env, a, k), env.acts(a, k + 1));
  }

  /** A wait: the delete changed nothing, and the loop goes on. */
  lemma WaitGoesOn(m: Machine, w: Wire, device: string, del: Command, timeout: nat, env: Env, a: nat, k: nat)
    requires Waits(m, device, del, timeout, env, a, k) && w.machine == AtDelete(m, device, env, a, k)
    ensures var r := Send(w, del, env.fate(a, k + 1), env.acts(a, k + 1));
            && r.wire.machine == AtDelete(m, device, env, a, k + 1)
            && UnplugLoop(w, device, del, timeout, env, a, k) == UnplugLoop(r.wire, device, del, timeout, env, a, k + 1)
  {
    NextDelete(m, device, env, a, k);
  }

  lemma NoMoreWaiting(m: Machine, w: Wire, device: string, del: Command, timeout: nat, env: Env, a: nat, k: nat)
    requires !Waits(m, device, del, timeout, env, a, k) && w.machine == AtDelete(m, device, env, a, k)
    ensures UnplugLoop(w, device, del, timeout, env, a, k)
         == Tried(Send(w, del, env.fate(a, k + 1), env.acts(a, k + 1)).wire, EndOfDelete(m, device, del, env, a, k))
  {}

  /** From delete `k` on, up to the last one, `n`. */
  lemma {:induction false} UnplugLoopIs(m: Machine, w: Wire, device: string, del: Command, timeout: nat, env: Env, a: nat, k: nat, n: nat)
    requires k <= n && LastDelete(m, device, del, timeout, env, a, n) && w.machine == AtDelete(m, device, env, a, k)
    ensures var t := UnplugLoop(w, device, del, timeout, env, a, k);
            && t.result == EndOfDelete(m, device, del, env, a, n)
            && t.wire.machine == AfterGuest(Issue(AtDelete(m, device, env, a, n), del, env.fate(a, n + 1)).machine, env.acts(a, n + 1))
            && Times(t.wire.log, del) == Times(w.log, del) + n - k + 1
    decreases n - k
  {
    OneMore(w.log, del, env.fate(a, k + 1), env.acts(a, k + 1));
    if k == n {
      NoMoreWaiting(m, w, device, del, timeout, env, a, k);
    } else {
      WaitGoesOn(m, w, device, del, timeout, env, a, k);
      UnplugLoopIs(m, Send(w, del, env.fate(a, k + 1), env.acts(a, k + 1)).wire, device, del, timeout, env, a, k + 1, n);
    }
  }

  /** Waiting ends: the deadline is reached at the latest after this many waits. */
  lemma {:induction false} LastDeleteExists(m: Machine, device: string, del: Command, timeout: nat, env: Env, a: nat, k: nat)
    returns (n: nat)
    requires forall j: nat :: j < k ==> Waits(m, device, del, timeout, env, a, j)
    ensures n >= k && LastDelete(m, device, del, timeout, env, a, n)
    decreases if POLL_MS * k < timeout then timeout - POLL_MS * k else 0
  {
    n := k;
    if Waits(m, device, del, timeout, env, a, k) {
      n := LastDeleteExists(m, device, del, timeout, env, a, k + 1);
    }
  }

  /** The polling loop, exactly: once QEMU accepted the device delete, deletes
      of the target follow while each is refused as in use before the deadline;
      the first that is not is the last one, and its answer is the outcome. */
  lemma UnplugAttemptIs(w: Wire, device: string, del: Command, timeout: nat, env: Env, a: nat) returns (n: nat)
    requires !del.DeviceDel?
    ensures LastDelete(w.machine, device, del, timeout, env, a, n)
    ensures var t, asked := DetachAttempt(w, device, del, timeout, env, a), Issue(w.machine, DeviceDel(device), env.fate(a, 0));
            && (!asked.reply.Done? ==> t.result == AttemptOf(asked.reply) && Times(t.wire.log, del) == Times(w.log, del)
                                       && t.wire.machine == AfterGuest(asked.machine, env.acts(a, 0)))
            && (asked.reply.Done? ==>
                  && t.result == EndOfDelete(w.machine, device, del, env, a, n)
                  && t.wire.machine == AfterGuest(Issue(AtDelete(w.machine, device, env, a, n), del, env.fate(a, n + 1)).machine, env.acts(a, n + 1))
                  && Times(t.wire.log, del) == Times(w.log, del) + n + 1)
  {
    n := LastDeleteExists(w.machine, device, del, timeout, env, a, 0);
    OneMore(w.log, DeviceDel(device), env.fate(a, 0), env.acts(a, 0));
    var asked := Send(w, DeviceDel(device), env.fate(a, 0), env.acts(a, 0));
    if asked.reply.Done? { UnplugLoopIs(w.machine, asked.wire, device, del, timeout, env, a, 0, n); }
  }

  lemma OneLastDelete(m: Machine, device: string, del: Command, timeout: nat, env: Env, a: nat, k: nat, n: nat)
    requires LastDelete(m, device, del, timeout, env, a, k) && LastDelete(m, device, del, timeout, env, a, n)
    ensures k == n
  {
  }

  /** Delete `k` was the last one and QEMU carried it out. */
  ghost predicate DeletedAt(m: Machine, device: string, del: Command, timeout: nat, env: Env, a: nat, k: nat) {
    && LastDelete(m, device, del, timeout, env, a, k)
    && Issue(AtDelete(m, device, env, a, k), del, env.fate(a, k + 1)).reply.Done?
  }

  /** Delete `k` was the last one: the connection broke, or the refusal as in
      use came when the deadline was reached. */
  ghost predicate LostAt(m: Machine, device: string, del: Command, timeout: nat, env: Env, a: nat, k: nat) {
    && LastDelete(m, device, del, timeout, env, a, k)
    && (|| env.fate(a, k + 1).LostBefore? || env.fate(a, k + 1).LostAfter?
        || (RefusedInUse(m, device, del, env, a, k) && POLL_MS * k + env.jitter(a, k) >= timeout))
  }

  /** An attempt succeeds if and only if QEMU accepted the device delete and,
      after waits only, deleted the target. It is lost if and only if the
      connection broke or a delete was refused as in use at or after the
      deadline. */
  lemma UnplugEndsIff(w: Wire, device: string, del: Command, timeout: nat, env: Env, a: nat)
    requires !del.DeviceDel?
    ensures var t, asked := DetachAttempt(w, device, del, timeout, env, a), Issue(w.machine, DeviceDel(device), env.fate(a, 0)).reply;
            && (t.result.Success? <==> asked.Done? && exists k: nat :: DeletedAt(w.machine, device, del, timeout, env, a, k))
            && (t.result.Lost? <==> asked.Broken? || (asked.Done? && exists k: nat :: LostAt(w.machine, device, del, timeout, env, a, k)))
  {
    var n := UnplugAttemptIs(w, device, del, timeout, env, a);
    EndOfLast(w.machine, device, del, timeout, env, a, n);
    forall k: nat | DeletedAt(w.machine, device, del, timeout, env, a, k) || LostAt(w.machine, device, del, timeout, env, a, k)
      ensures k == n
    {
      OneLastDelete(w.machine, device, del, timeout, env, a, k, n);
    }
  }

  lemma EndOfLast(m: Machine, device: string, del: Command, timeout: nat, env: Env, a: nat, n: nat)
    requires LastDelete(m, device, del, timeout, env, a, n)
    ensures EndOfDelete(m, device, del, env, a, n).Success? <==> DeletedAt(m, device, del, timeout, env, a, n)
    ensures EndOfDelete(m, device, del, env, a, n).Lost? <==> LostAt(m, device, del, timeout, env, a, n)
  {}

  /** The guest lets go of the device between the k-th delete and the one before
      (or before the first), and no earlier. */
  ghost predicate LetsGoAt(device: string, env: Env, a: nat, k: nat) {
    LetGo(device) in GuestUpTo(env, a, k) && (k > 0 ==> LetGo(device) !in GuestUpTo(env, a, k - 1))
  }

  /** Every look at the clock before delete `k` was before the deadline. */
  ghost predicate InTime(timeout: nat, env: Env, a: nat, k: nat) {
    forall j: nat :: j < k ==> POLL_MS * j + env.jitter(a, j) < timeout
  }

  lemma {:induction false} NotYetEarlier(device: string, env: Env, a: nat, j: nat, k: nat)
    requires j <= k && LetGo(device) !in GuestUpTo(env, a, k)
    ensures LetGo(device) !in GuestUpTo(env, a, j)
    decreases k
  {
    if j < k { NotYetEarlier(device, env, a, j, k - 1); }
  }

  /** Where only the device holds the target and QEMU obeys, a delete is refused
      exactly while the guest has not let go. */
  lemma HeldUntilLetGo(m: Machine, device: string, del: Command, env: Env, a: nat, k: nat)
    requires del.BlockdevDel? || del.NetdevDel?
    requires env.fate(a, 0).Applied? && env.fate(a, k + 1).Applied? && HeldBy(m, device, del)
    ensures if LetGo(device) in GuestUpTo(env, a, k)
            then Issue(AtDelete(m, device, env, a, k), del, env.fate(a, k + 1)).reply.Done? && !RefusedInUse(m, device, del, env, a, k)
            else RefusedInUse(m, device, del, env, a, k)
  {
    var asked, acts := Issue(m, DeviceDel(device), Applied).machine, GuestUpTo(env, a, k);
    var now := AfterGuest(asked, acts);
    GuestsKeep(asked, acts);
    if LetGo(device) in acts {
      LetGoGoes(asked, acts, device);
      assert Exec(now, del).Some?;
    } else {
      assert now.devices[device].backend == TargetBacking(del);
      assert HasDevice(now, TargetBacking(del));
    }
  }

  /** With an obedient QEMU the guest decides: the attempt succeeds if and only
      if the guest lets go while every look at the clock so far was in time;
      otherwise it is lost. Letting go before delete `k` makes that the last. */
  lemma ObeyedUnplugIff(w: Wire, device: string, del: Command, timeout: nat, env: Env, a: nat)
    requires del.BlockdevDel? || del.NetdevDel?
    requires (forall k :: env.fate(a, k).Applied?) && HeldBy(w.machine, device, del)
    ensures var t := DetachAttempt(w, device, del, timeout, env, a);
            && (t.result.Success? <==> exists k: nat :: LetsGoAt(device, env, a, k) && InTime(timeout, env, a, k))
            && (t.result.Lost? <==> !t.result.Success?)
            && forall k: nat :: LetsGoAt(device, env, a, k) && InTime(timeout, env, a, k) ==>
                 Times(t.wire.log, del) == Times(w.log, del) + k + 1
  {
    var n := UnplugAttemptIs(w, device, del, timeout, env, a);
    LastWhenObeyed(w.machine, device, del, timeout, env, a, n);
    forall k: nat | LetsGoAt(device, env, a, k) && InTime(timeout, env, a, k) ensures k == n {
      LetGoMakesLast(w.machine, device, del, timeout, env, a, k);
      OneLastDelete(w.machine, device, del, timeout, env, a, k, n);
    }
  }

  lemma LastWhenObeyed(m: Machine, device: string, del: Command, timeout: nat, env: Env, a: nat, n: nat)
    requires del.BlockdevDel? || del.NetdevDel?
    requires (forall k :: env.fate(a, k).Applied?) && HeldBy(m, device, del) && LastDelete(m, device, del, timeout, env, a, n)
    ensures InTime(timeout, env, a, n)
    ensures EndOfDelete(m, device, del, env, a, n) == if LetsGoAt(device, env, a, n) then Success else Lost
  {
    HeldUntilLetGo(m, device, del, env, a, n);
    forall j: nat | j < n ensures LetGo(device) !in GuestUpTo(env, a, j) && POLL_MS * j + env.jitter(a, j) < timeout {
      HeldUntilLetGo(m, device, del, env, a, j);
      assert Waits(m, device, del, timeout, env, a, j);
    }
  }

  lemma LetGoMakesLast(m: Machine, device: string, del: Command, timeout: nat, env: Env, a: nat, k: nat)
    requires del.BlockdevDel? || del.NetdevDel?
    requires (forall k :: env.fate(a, k).Applied?) && HeldBy(m, device, del)
    requires LetsGoAt(device, env, a, k) && InTime(timeout, env, a, k)
    ensures LastDelete(m, device, del, timeout, env, a, k)
  {
    HeldUntilLetGo(m, device, del, env, a, k);
    forall j: nat | j < k ensures Waits(m, device, del, timeout, env, a, j) {
      NotYetEarlier(device, env, a, j, k - 1);
      HeldUntilLetGo(m, device, del, env, a, j);
    }
  }

  // ----- what a detach leaves -----

  /** Nothing but the device and what is behind it may have changed, except that
      the guest writes its disk and lets go of devices it was asked for. */
  ghost predicate OnlyUnplugs(m: Machine, n: Machine, device: string, del: Command) {
    && n.root == m.root
    && (forall d :: d in n.devices ==> d in m.devices && n.devices[d].backend == m.devices[d].backend
                                       && (d != device ==> n.devices[d] == m.devices[d]))
    && (forall d :: d in m.devices && d != device && !m.devices[d].unplugging ==> d in n.devices)
    && (n.nodes.Keys == m.nodes.Keys || (del.BlockdevDel? && n.nodes.Keys == m.nodes.Keys - {del.node}))
    && (forall x :: x in n.nodes && x in m.nodes ==>
          n.nodes[x].backing == m.nodes[x].backing && (x != m.root ==> n.nodes[x] == m.nodes[x]))
    && (n.netdevs == m.netdevs || (del.NetdevDel? && n.netdevs == m.netdevs - {del.id}))
  }

  /** The target is gone and so is every device on it. */
  ghost predicate Unplugged(n: Machine, del: Command) {
    !TargetExists(n, del) && !HasDevice(n, if del.BlockdevDel? then Block(del.node) else if del.NetdevDel? then Net(del.id) else BootDrive(""))
  }

  lemma DeleteKeeps(w: Wire, device: string, del: Command, fate: Fate, acts: seq<GuestAct>)
    requires del.BlockdevDel? || del.NetdevDel?
    ensures var r := Send(w, del, fate, acts);
            && OnlyUnplugs(w.machine, r.wire.machine, device, del)
            && (r.reply.Done? ==> Unplugged(r.wire.machine, del) && TargetExists(w.machine, del))
  {
    GuestsKeep(Issue(w.machine, del, fate).machine, acts);
    DeleteEffect(w.machine, del, fate);
    OnlyUnplugsTransitive(w.machine, Issue(w.machine, del, fate).machine, Send(w, del, fate, acts).wire.machine, device, del);
  }

  lemma DeleteEffect(m: Machine, del: Command, fate: Fate)
    requires del.BlockdevDel? || del.NetdevDel?
    ensures var r := Issue(m, del, fate);
            && (forall device :: OnlyUnplugs(m, r.machine, device, del))
            && (r.reply.Done? ==> Unplugged(r.machine, del) && TargetExists(m, del))
  {}

  lemma {:induction false} UnplugLoopKeeps(w: Wire, device: string, del: Command, timeout: nat, env: Env, a: nat, k: nat)
    requires del.BlockdevDel? || del.NetdevDel?
    ensures var t := UnplugLoop(w, device, del, timeout, env, a, k);
            && OnlyUnplugs(w.machine, t.wire.machine, device, del)
            && (t.result.Success? ==> Unplugged(t.wire.machine, del) && TargetExists(w.machine, del))
    decreases if POLL_MS * k < timeout then timeout - POLL_MS * k else 0
  {
    DeleteKeeps(w, device, del, env.fate(a, k + 1), env.acts(a, k + 1));
    var r := Send(w, del, env.fate(a, k + 1), env.acts(a, k + 1));
    if r.reply.Rejected? && InUseAnswer(w.machine, del, env, a, k) && POLL_MS * k + env.jitter(a, k) < timeout {
      UnplugLoopKeeps(r.wire, device, del, timeout, env, a, k + 1);
      OnlyUnplugsTransitive(w.machine, r.wire.machine,
                            UnplugLoop(w, device, del, timeout, env, a, k).wire.machine, device, del);
    }
  }

  lemma AskKeeps(w: Wire, device: string, del: Command, fate: Fate, acts: seq<GuestAct>)
    ensures OnlyUnplugs(w.machine, Send(w, DeviceDel(device), fate, acts).wire.machine, device, del)
    ensures Send(w, DeviceDel(device), fate, acts).reply.Done? ==> device in w.machine.devices
  {
    GuestsKeep(Issue(w.machine, DeviceDel(device), fate).machine, acts);
  }

  lemma DetachAttemptKeeps(w: Wire, device: string, del: Command, timeout: nat, env: Env, a: nat)
    requires del.BlockdevDel? || del.NetdevDel?
    ensures var t := DetachAttempt(w, device, del, timeout, env, a);
            && OnlyUnplugs(w.machine, t.wire.machine, device, del)
            && (t.result.Success? ==> Unplugged(t.wire.machine, del) && device in w.machine.devices && TargetExists(w.machine, del))
  {
    var asked := Send(w, DeviceDel(device), env.fate(a, 0), env.acts(a, 0));
    AskKeeps(w, device, del, env.fate(a, 0), env.acts(a, 0));
    if asked.reply.Done? {
      UnplugLoopKeeps(asked.wire, device, del, timeout, env, a, 0);
      OnlyUnplugsTransitive(w.machine, asked.wire.machine,
                            DetachAttempt(w, device, del, timeout, env, a).wire.machine, device, del);
    }
  }

  lemma OnlyUnplugsTransitive(m: Machine, n: Machine, p: Machine, device: string, del: Command)
    requires OnlyUnplugs(m, n, device, del) && OnlyUnplugs(n, p, device, del)
    ensures OnlyUnplugs(m, p, device, del)
  {}

  /** `detach_disk`/`detach_network`: success means the target was there and it
      and every device on it are gone, and on either outcome nothing else changed but by the guest. */
  lemma DetachOutcome(w: Wire, client: bool, link: Link, device: string, del: Command, timeout: nat, env: Env)
    requires del.BlockdevDel? || del.NetdevDel?
    ensures var ran := RunOp(w, client, link, DetachOp(device, del, timeout, env));
            && OnlyUnplugs(w.machine, ran.wire.machine, device, del)
            && (ran.ok ==> Unplugged(ran.wire.machine, del) && device in w.machine.devices && TargetExists(w.machine, del))
  {
    var first := DetachAttempt(w, device, del, timeout, env, 0);
    DetachAttemptKeeps(w, device, del, timeout, env, 0);
    if RunOp(w, client, link, DetachOp(device, del, timeout, env)).runs == 2 {
      DetachAttemptKeeps(first.wire, device, del, timeout, env, 1);
      var second := DetachAttempt(first.wire, device, del, timeout, env, 1);
      OnlyUnplugsTransitive(w.machine, first.wire.machine, second.wire.machine, device, del);
    }
  }

  /** A guest asked for a device that lets go of it has let go of it. */
  lemma {:induction false} LetGoGoes(m: Machine, acts: seq<GuestAct>, device: string)
    requires device in m.devices ==> m.devices[device].unplugging
    requires LetGo(device) in acts
    ensures device !in AfterGuest(m, acts).devices
  {
    var before, a := acts[..|acts| - 1], acts[|acts| - 1];
    assert acts == before + [a];
    GuestsKeep(m, before);
    if a != LetGo(device) { LetGoGoes(m, before, device); }
  }

  ghost function TargetBacking(del: Command): Backing
    requires del.BlockdevDel? || del.NetdevDel?
  {
    if del.BlockdevDel? then Block(del.node) else Net(del.id)
  }

  /** Nothing but the device itself stands in the way of deleting the target. */
  ghost predicate OnlyHeldBy(m: Machine, device: string, del: Command)
    requires del.BlockdevDel? || del.NetdevDel?
  {
    && TargetExists(m, del)
    && (forall d :: d in m.devices && m.devices[d].backend == TargetBacking(del) ==> d == device)
    && (del.BlockdevDel? ==> del.node != m.root && !IsBacking(m, del.node))
  }

  /** ... and the device does hold it. */
  ghost predicate HeldBy(m: Machine, device: string, del: Command)
    requires del.BlockdevDel? || del.NetdevDel?
  {
    OnlyHeldBy(m, device, del) && device in m.devices && m.devices[device].backend == TargetBacking(del)
  }

  /** An unplug can work: the guest lets go when asked and QEMU obeys. */
  lemma UnplugCanWork(w: Wire, client: bool, link: Link, device: string, del: Command, timeout: nat, env: Env)
    requires del.BlockdevDel? || del.NetdevDel?
    requires client || Connects(link.first)
    requires env.fate(0, 0).Applied? && env.fate(0, 1).Applied? && LetGo(device) in env.acts(0, 0)
    requires device in w.machine.devices && OnlyHeldBy(w.machine, device, del)
    ensures RunOp(w, client, link, DetachOp(device, del, timeout, env)).ok
  {
    var asked := Issue(w.machine, DeviceDel(device), Applied).machine;
    GuestsKeep(asked, env.acts(0, 0));
    LetGoGoes(asked, env.acts(0, 0), device);
    var m := Send(w, DeviceDel(device), Applied, env.acts(0, 0)).wire.machine;
    assert m == AfterGuest(asked, env.acts(0, 0));
    assert Exec(m, del).Some?;
  }

  /** A device QEMU has no id for, as boot leaves NICs, cannot be detached. */
  lemma NamelessDeviceStays(w: Wire, client: bool, link: Link, device: string, del: Command, timeout: nat, env: Env)
    requires device !in w.machine.devices
    ensures var ran := RunOp(w, client, link, DetachOp(device, del, timeout, env));
            !ran.ok && GuestOnly(w.machine, ran.wire.machine)
  {
    var first := DetachAttempt(w, device, del, timeout, env, 0);
    NamelessRefused(w, device, del, timeout, env, 0);
    GuestsKeep(w.machine, env.acts(0, 0));
    NamelessRefused(first.wire, device, del, timeout, env, 1);
    TwiceGuestOnly(w.machine, env.acts(0, 0), env.acts(1, 0));
  }

  lemma NamelessRefused(w: Wire, device: string, del: Command, timeout: nat, env: Env, a: nat)
    requires device !in w.machine.devices
    ensures var t := DetachAttempt(w, device, del, timeout, env, a);
            !t.result.Success? && t.wire.machine == AfterGuest(w.machine, env.acts(a, 0))
  {}
}
