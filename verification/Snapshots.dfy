/** `snapshot` of `backend.rs` on one running instance, and what holds over
    every run of snapshots, other QMP commands and acts of the guest, which
    goes on writing between any two commands: the recorded head, the shape of
    the overlay chain, what the guest reads and what each frozen layer keeps. */
module Snapshots {
  import opened Basics
  import opened Cmdline
  import opened Qemu

  /** QEMU's state beside the backend's `head_node_name`. */
  datatype Session = Session(machine: Machine, head: string)

  datatype Outcome = Outcome(session: Session, ok: bool)

  /** Connect, then two commands with the guest's acts between them, the second
      only once the first is done; `name` becomes the recorded head only once
      both are. There is no retry and no rollback. */
  ghost function Both(s: Session, name: string, connects: bool, first: Command, f: Fate, acts: seq<GuestAct>,
                      second: Command, g: Fate): Outcome {
    if !connects then Outcome(s, false) else
    var added := Issue(s.machine, first, f);
    var between := AfterGuest(added.machine, acts);
    if !added.reply.Done? then Outcome(s.(machine := between), false) else
    var switched := Issue(between, second, g);
    if !switched.reply.Done? then Outcome(s.(machine := switched.machine), false)
    else Outcome(Session(switched.machine, name), true)
  }

  datatype Event =
    | Snapshot(stem: string, file: Content, connects: bool, add: Fate, acts: seq<GuestAct>, switch: Fate)
    | Guest(acts: seq<GuestAct>)
    | Other(command: Command, fate: Fate)

  /** `snapshot`: add the overlay node, switch to it, record it. */
  ghost function SnapshotOp(s: Session, e: Event): Outcome
    requires e.Snapshot?
  {
    var name := SnapshotNodeName(e.stem);
    Both(s, name, e.connects, BlockdevAdd(name, e.file), e.add, e.acts, BlockdevSnapshot(s.head, name), e.switch)
  }

  /** Operations other than `snapshot` never send `blockdev-snapshot`. */
  ghost function Step(s: Session, e: Event): Session {
    match e
    case Snapshot(_, _, _, _, _, _) => SnapshotOp(s, e).session
    case Guest(acts) => s.(machine := AfterGuest(s.machine, acts))
    case Other(command, fate) =>
      if command.BlockdevSnapshot? then s else s.(machine := Issue(s.machine, command, fate).machine)
  }

  ghost function Run(s: Session, events: seq<Event>): Session {
    if events == [] then s else Step(Run(s, events[..|events| - 1]), events[|events| - 1])
  }

  /** The daemon creates every overlay file empty. */
  ghost predicate EmptyOverlays(events: seq<Event>) {
    forall e :: e in events && e.Snapshot? ==> e.file == map[]
  }

  /** What the guest does during an event. */
  function ActsOf(e: Event): seq<GuestAct> {
    if e.Guest? || (e.Snapshot? && e.connects) then e.acts else []
  }

  /** QEMU as the switch of a snapshot finds it. */
  ghost function AtSwitch(m: Machine, e: Event): Machine {
    if e.Snapshot? && e.connects
    then AfterGuest(Issue(m, BlockdevAdd(SnapshotNodeName(e.stem), e.file), e.add).machine, e.acts) else m
  }

  /** An observer who looks at QEMU only: whenever the device moves to a new
      node, it notes that node and what the disk read just before. */
  datatype Log = Log(chain: seq<string>, frozen: seq<Content>)

  ghost function Observe(log: Log, before: Machine, after: Machine): Log {
    if after.root == before.root then log
    else Log(log.chain + [after.root], log.frozen + [View(before.nodes, log.chain)])
  }

  ghost function ObserveStep(log: Log, s: Session, e: Event): Log {
    Observe(log, AtSwitch(s.machine, e), Step(s, e).machine)
  }

  ghost function History(s: Session, events: seq<Event>): Log {
    if events == [] then Log([DISK_DEVICE], [])
    else
      var before := events[..|events| - 1];
      ObserveStep(History(s, before), Run(s, before), events[|events| - 1])
  }

  ghost predicate Consistent(m: Machine, log: Log) {
    && IsChain(m, log.chain) && Tidy(m, log.chain)
    && |log.frozen| == |log.chain| - 1
    && forall k :: 0 <= k < |log.frozen| ==> log.frozen[k] == View(m.nodes, log.chain[..k + 1])
  }

  /** `spawn` starts from the single node `drive-disk0`, recorded as the head. */
  ghost predicate JustSpawned(s: Session) {
    s.head == DISK_DEVICE && Consistent(s.machine, Log([DISK_DEVICE], []))
  }

  /** A disk that knows nothing of snapshots: the reference the chain refines. */
  function PlainActs(disk: Content, acts: seq<GuestAct>): Content {
    if acts == [] then disk
    else
      var before, a := PlainActs(disk, acts[..|acts| - 1]), acts[|acts| - 1];
      if a.Put? then before[a.block := a.value] else before
  }

  function PlainDisk(disk: Content, events: seq<Event>): Content {
    if events == [] then disk
    else PlainActs(PlainDisk(disk, events[..|events| - 1]), ActsOf(events[|events| - 1]))
  }

  /** What the plain disk held each time QEMU moved the device to a new node. */
  ghost function PlainFrozen(s: Session, disk: Content, events: seq<Event>): seq<Content> {
    if events == [] then []
    else
      var before := events[..|events| - 1];
      PlainFrozen(s, disk, before)
      + if Run(s, events).machine.root == Run(s, before).machine.root then [] else [PlainDisk(disk, events)]
  }

  // ----- one command -----

  lemma LogFollows(m: Machine, n: Machine, log: Log)
    requires Consistent(m, log) && Extends(m, n, log.chain)
    requires IsChain(n, Grow(log.chain, m, n)) && Tidy(n, Grow(log.chain, m, n))
    ensures Consistent(n, Observe(log, m, n))
  {
    var l := Observe(log, m, n);
    forall k | 0 <= k < |l.frozen|
      ensures l.frozen[k] == View(n.nodes, l.chain[..k + 1])
    {
      assert l.chain[..k + 1] == log.chain[..k + 1];
      PrefixViews(m, n, log.chain, k + 1);
      if k == |log.frozen| { assert log.chain[..k + 1] == log.chain; }
    }
  }

  /** One command, whatever its fate, leaves the disk content alone unless it
      switches in content of its own. */
  lemma IssueKeeps(m: Machine, c: Command, fate: Fate, log: Log)
    requires Consistent(m, log)
    requires c.BlockdevSnapshot? ==> c.node in log.chain
    ensures var n := Issue(m, c, fate).machine;
            && Consistent(n, Observe(log, m, n))
            && (OverlayEmpty(m, c) ==> View(n.nodes, Observe(log, m, n).chain) == View(m.nodes, log.chain))
  {
    var n := Issue(m, c, fate).machine;
    if n != m {
      ExecKeepsContent(m, c, log.chain);
      ExecKeepsTidy(m, c, log.chain);
      LogFollows(m, n, log);
    }
  }

  // ----- the guest -----

  lemma ReleaseKeeps(m: Machine, device: string, log: Log)
    requires Consistent(m, log)
    ensures Consistent(GuestRelease(m, device), log)
    ensures View(GuestRelease(m, device).nodes, log.chain) == View(m.nodes, log.chain)
  {
    LogFollows(m, GuestRelease(m, device), log);
  }

  lemma {:induction false} WriteKeeps(m: Machine, block: nat, value: int, log: Log)
    requires Consistent(m, log)
    ensures Consistent(GuestWrite(m, block, value), log)
    ensures View(GuestWrite(m, block, value).nodes, log.chain) == View(m.nodes, log.chain)[block := value]
  {
    var n := GuestWrite(m, block, value);
    WriteKeepsChain(m, log.chain, block, value);
    WriteIsSeen(m, log.chain, block, value);
    forall k | 0 <= k < |log.frozen|
      ensures log.frozen[k] == View(n.nodes, log.chain[..k + 1])
    {
      WriteLeavesFrozenLayers(m, log.chain, block, value, k + 1);
    }
  }

  /** Whatever the guest does, it reads its own writes, and no frozen layer
      changes. */
  lemma {:induction false} ActsKeep(m: Machine, acts: seq<GuestAct>, log: Log)
    requires Consistent(m, log)
    ensures var n := AfterGuest(m, acts);
            && n.root == m.root && Consistent(n, log)
            && View(n.nodes, log.chain) == PlainActs(View(m.nodes, log.chain), acts)
  {
    if acts != [] {
      var before := acts[..|acts| - 1];
      ActsKeep(m, before, log);
      var p := AfterGuest(m, before);
      match acts[|acts| - 1]
      case Put(block, value) => WriteKeeps(p, block, value, log);
      case LetGo(device) => ReleaseKeeps(p, device, log);
    }
  }

  // ----- one snapshot -----

  /** The switch took effect and its answer was lost or garbled: the one case
      after which the record and QEMU disagree. */
  ghost predicate LosesTheSwitch(s: Session, e: Event) {
    && e.Snapshot? && e.connects && e.add.Applied? && (e.switch.LostAfter? || e.switch.Garbled?)
    && SnapshotNodeName(e.stem) !in s.machine.nodes
  }

  ghost predicate Succeeds(s: Session, e: Event) {
    && e.Snapshot? && e.connects && e.add.Applied? && e.switch.Applied?
    && SnapshotNodeName(e.stem) !in s.machine.nodes
  }

  /** The invariant tying the record to QEMU: the head is a node of the chain. */
  ghost predicate Tied(s: Session, log: Log) {
    Consistent(s.machine, log) && s.head in log.chain
  }

  lemma AddedOverlay(m: Machine, name: string, file: Content, log: Log)
    requires Consistent(m, log) && name !in m.nodes
    ensures var n := Exec(m, BlockdevAdd(name, file));
            && n.Some? && n.value.root == m.root && name !in log.chain
            && FreeOverlay(n.value, name, file)
  {
    TidyNodesFree(m, log.chain, name);
    var n := Exec(m, BlockdevAdd(name, file)).value;
    assert forall p :: p in n.nodes && n.nodes[p].backing.Some? ==> p in m.nodes && m.nodes[p] == n.nodes[p];
  }

  /** From a record that agrees with QEMU, the switch command is always
      acceptable once the overlay was added, and it moves the device. */
  lemma SwitchAccepted(m: Machine, name: string, log: Log)
    requires Consistent(m, log) && name in m.nodes && m.nodes[name].backing == None && !InUse(m, name)
    ensures var n := Exec(m, BlockdevSnapshot(m.root, name));
            n.Some? && n.value.root == name && name != m.root
  {
    TidyNodesFree(m, log.chain, name);
  }

  lemma SwitchRefusedBelowTheTop(m: Machine, head: string, name: string, log: Log)
    requires Consistent(m, log) && head in log.chain && head != m.root
    ensures Exec(m, BlockdevSnapshot(head, name)) == None
  {
    LowerNodesBusy(m, log.chain, head);
  }

  /** An overlay node that is there, holds `file` and is used by nothing. */
  ghost predicate FreeOverlay(m: Machine, name: string, file: Content) {
    name in m.nodes && m.nodes[name] == Layer(file, None) && !InUse(m, name)
  }

  lemma AddKeeps(m: Machine, name: string, file: Content, fate: Fate, log: Log)
    requires Consistent(m, log)
    ensures var r := Issue(m, BlockdevAdd(name, file), fate);
            && Consistent(r.machine, log) && r.machine.root == m.root
            && View(r.machine.nodes, log.chain) == View(m.nodes, log.chain)
            && (r.reply.Done? <==> fate.Applied? && name !in m.nodes)
            && (r.reply.Done? ==> FreeOverlay(r.machine, name, file))
  {
    IssueKeeps(m, BlockdevAdd(name, file), fate, log);
    if name !in m.nodes { AddedOverlay(m, name, file, log); }
  }

  /** The guest cannot touch a node it does not write. */
  lemma OverlayStaysFree(m: Machine, acts: seq<GuestAct>, name: string, file: Content)
    requires FreeOverlay(m, name, file)
    ensures FreeOverlay(AfterGuest(m, acts), name, file)
  {
    GuestsKeep(m, acts);
  }

  /** Everything before the switch: the disk holds what it held and what the
      guest wrote meanwhile, and the overlay, if it is in, is ready. */
  lemma BeforeTheSwitch(s: Session, e: Event, log: Log)
    requires Consistent(s.machine, log) && e.Snapshot? && e.connects
    ensures var name, m := SnapshotNodeName(e.stem), AtSwitch(s.machine, e);
            var added := Issue(s.machine, BlockdevAdd(name, e.file), e.add);
            && Consistent(m, log) && m.root == s.machine.root
            && View(m.nodes, log.chain) == PlainActs(View(s.machine.nodes, log.chain), e.acts)
            && (added.reply.Done? <==> e.add.Applied? && name !in s.machine.nodes)
            && (added.reply.Done? ==> FreeOverlay(m, name, e.file))
  {
    var name := SnapshotNodeName(e.stem);
    var added := Issue(s.machine, BlockdevAdd(name, e.file), e.add);
    AddKeeps(s.machine, name, e.file, e.add, log);
    ActsKeep(added.machine, e.acts, log);
    if added.reply.Done? { OverlayStaysFree(added.machine, e.acts, name, e.file); }
  }

  /** The switch command either leaves the root or moves it to the overlay. */
  lemma SwitchKeeps(m: Machine, head: string, name: string, file: Content, fate: Fate, log: Log)
    requires Consistent(m, log) && head in log.chain && FreeOverlay(m, name, file)
    ensures var r := Issue(m, BlockdevSnapshot(head, name), fate);
            var l := Observe(log, m, r.machine);
            && Consistent(r.machine, l)
            && (file == map[] ==> View(r.machine.nodes, l.chain) == View(m.nodes, log.chain))
            && r.machine.root == (if head == m.root && !fate.Refused? && !fate.LostBefore? then name else m.root)
            && (r.reply.Done? <==> head == m.root && fate.Applied?)
  {
    IssueKeeps(m, BlockdevSnapshot(head, name), fate, log);
    if head == m.root { SwitchAccepted(m, name, log); }
    else { SwitchRefusedBelowTheTop(m, head, name, log); }
  }

  lemma InGrown(chain: seq<string>, top: string, n: string)
    ensures n in chain + [top] <==> n in chain || n == top
  {}

  lemma SnapshotKeeps(s: Session, e: Event, log: Log)
    requires Tied(s, log) && e.Snapshot?
    ensures var n, l := Step(s, e), ObserveStep(log, s, e);
            && Tied(n, l)
            && (e.file == map[] ==> View(n.machine.nodes, l.chain) == PlainActs(View(s.machine.nodes, log.chain), ActsOf(e)))
  {
    var name := SnapshotNodeName(e.stem);
    if e.connects {
      BeforeTheSwitch(s, e, log);
      if Issue(s.machine, BlockdevAdd(name, e.file), e.add).reply.Done? {
        SwitchKeeps(AtSwitch(s.machine, e), s.head, name, e.file, e.switch, log);
        InGrown(log.chain, name, s.head);
        InGrown(log.chain, name, name);
      }
    }
  }

  /** From an agreeing record a snapshot moves the disk exactly when it
      succeeds or loses the answer, and the record follows except in that last
      case. From a disagreeing record no snapshot ever does anything. */
  lemma SnapshotOutcome(s: Session, e: Event, log: Log)
    requires Tied(s, log) && e.Snapshot?
    ensures var r := SnapshotOp(s, e);
            var n := r.session;
            && (s.head == s.machine.root ==>
                  && (r.ok <==> Succeeds(s, e))
                  && (n.head == n.machine.root <==> !LosesTheSwitch(s, e))
                  && n.machine.root == (if Succeeds(s, e) || LosesTheSwitch(s, e) then SnapshotNodeName(e.stem) else s.machine.root))
            && (s.head != s.machine.root ==> !r.ok && n.head == s.head && n.machine.root == s.machine.root)
  {
    var name := SnapshotNodeName(e.stem);
    if e.connects {
      BeforeTheSwitch(s, e, log);
      if Issue(s.machine, BlockdevAdd(name, e.file), e.add).reply.Done? {
        SwitchKeeps(AtSwitch(s.machine, e), s.head, name, e.file, e.switch, log);
      }
    }
  }

  // ----- every run -----

  lemma StepKeeps(s: Session, e: Event, log: Log)
    requires Tied(s, log)
    ensures var n, l := Step(s, e), ObserveStep(log, s, e);
            && Tied(n, l)
            && (EmptyOverlays([e]) ==> View(n.machine.nodes, l.chain) == PlainActs(View(s.machine.nodes, log.chain), ActsOf(e)))
  {
    match e
    case Snapshot(_, _, _, _, _, _) => assert e in [e]; SnapshotKeeps(s, e, log);
    case Guest(acts) => ActsKeep(s.machine, acts, log);
    case Other(c, fate) => OtherKeeps(s.machine, c, fate, log);
  }

  lemma RootStays(m: Machine, c: Command, fate: Fate)
    requires !c.BlockdevSnapshot?
    ensures Issue(m, c, fate).machine.root == m.root
  {}

  lemma OtherKeeps(m: Machine, c: Command, fate: Fate, log: Log)
    requires Consistent(m, log)
    ensures !c.BlockdevSnapshot? ==>
      var n := Issue(m, c, fate).machine;
      && n.root == m.root && Consistent(n, log)
      && View(n.nodes, log.chain) == View(m.nodes, log.chain)
  {
    if !c.BlockdevSnapshot? {
      var n := Issue(m, c, fate).machine;
      assert n.root == m.root by { RootStays(m, c, fate); }
      assert Consistent(n, Observe(log, m, n)) && View(n.nodes, Observe(log, m, n).chain) == View(m.nodes, log.chain) by {
        IssueKeeps(m, c, fate, log);
      }
    }
  }

  lemma OnlySnapshotsMove(s: Session, e: Event)
    requires !e.Snapshot?
    ensures Step(s, e).head == s.head && Step(s, e).machine.root == s.machine.root
  {
    if e.Guest? { GuestsKeep(s.machine, e.acts); }
  }

  /** The device moves during a switch and at no other time. */
  lemma MovesAtTheSwitch(s: Session, e: Event, log: Log)
    requires Tied(s, log)
    ensures AtSwitch(s.machine, e).root == s.machine.root
    ensures Step(s, e).machine.root != s.machine.root ==>
      e.Snapshot? && View(AtSwitch(s.machine, e).nodes, log.chain) == PlainActs(View(s.machine.nodes, log.chain), ActsOf(e))
  {
    if e.Snapshot? && e.connects { BeforeTheSwitch(s, e, log); }
    if !e.Snapshot? { OnlySnapshotsMove(s, e); }
  }

  ghost predicate EverLost(s: Session, events: seq<Event>) {
    events != [] &&
    (EverLost(s, events[..|events| - 1]) || LosesTheSwitch(Run(s, events[..|events| - 1]), events[|events| - 1]))
  }

  /** Over every run: the record is a node of an acyclic chain that ends at
      `drive-disk0`, and it is the node the device writes if and only if no
      switch was ever lost. With empty overlays the guest reads what a plain
      disk would hold, its writes during snapshots included, and each layer
      below the top still reads as the disk did when it was frozen. */
  lemma {:induction false} SnapshotRuns(s: Session, events: seq<Event>)
    requires JustSpawned(s)
    ensures var n, log, disk := Run(s, events), History(s, events), View(s.machine.nodes, [DISK_DEVICE]);
            && Tied(n, log)
            && (n.head == n.machine.root <==> !EverLost(s, events))
            && (EmptyOverlays(events) ==>
                  && View(n.machine.nodes, log.chain) == PlainDisk(disk, events)
                  && log.frozen == PlainFrozen(s, disk, events))
  {
    if events != [] {
      var before, e := events[..|events| - 1], events[|events| - 1];
      SnapshotRuns(s, before);
      RunStep(Run(s, before), e, History(s, before));
      if EmptyOverlays(events) {
        assert forall x :: x in before || x in [e] ==> x in events;
      }
    }
  }

  lemma RunStep(p: Session, e: Event, log: Log)
    requires Tied(p, log)
    ensures var n, l, disk := Step(p, e), ObserveStep(log, p, e), PlainActs(View(p.machine.nodes, log.chain), ActsOf(e));
            && Tied(n, l)
            && (n.head == n.machine.root <==> p.head == p.machine.root && !LosesTheSwitch(p, e))
            && (EmptyOverlays([e]) ==> View(n.machine.nodes, l.chain) == disk)
            && l.frozen == log.frozen + if n.machine.root == p.machine.root then [] else [disk]
  {
    StepKeeps(p, e, log);
    MovesAtTheSwitch(p, e, log);
    if e.Snapshot? { SnapshotOutcome(p, e, log); } else { OnlySnapshotsMove(p, e); }
  }

  /** Until a switch is lost a snapshot succeeds exactly when it connects, its
      node name is free and both commands are carried out; after that, never. */
  lemma SnapshotSucceedsIff(s: Session, events: seq<Event>, e: Event)
    requires JustSpawned(s) && e.Snapshot?
    ensures SnapshotOp(Run(s, events), e).ok
       <==> !EverLost(s, events) && Succeeds(Run(s, events), e)
  {
    SnapshotRuns(s, events);
    SnapshotOutcome(Run(s, events), e, History(s, events));
  }

  lemma {:induction false} ChainOverRuns(s: Session, events: seq<Event>)
    requires JustSpawned(s)
    ensures IsChain(Run(s, events).machine, History(s, events).chain)
  {
    SnapshotRuns(s, events);
  }

  /** The chain has no other shape: any walk along backing links from the node
      the guest writes stays inside it and so visits no node twice. */
  lemma {:induction false} BackingWalksEnd(s: Session, events: seq<Event>, walk: seq<string>)
    requires JustSpawned(s) && WalkFromTheTop(Run(s, events).machine, walk)
    ensures GoesDown(History(s, events).chain, walk)
  {
    ChainOverRuns(s, events);
    WalksGoDown(Run(s, events).machine, History(s, events).chain, walk);
  }

  /** The disagreement is real: one lost answer on a fresh instance. */
  lemma LostSwitchWitness() returns (s: Session, events: seq<Event>)
    ensures JustSpawned(s) && |events| == 1
    ensures Run(s, events).head == DISK_DEVICE && Run(s, events).machine.root == SnapshotNodeName("a")
  {
    var m := Machine(map[DISK_DEVICE := Layer(map[], None)], DISK_DEVICE, {}, map[]);
    s := Session(m, DISK_DEVICE);
    var e := Snapshot("a", map[], true, Applied, [], LostAfter);
    events := [e];
    NodeNamesApart(0, "a");
    assert events[..0] == [] && Run(s, events[..0]) == s;
    SnapshotOutcome(s, e, Log([DISK_DEVICE], []));
  }

  /** When the overlay file is not empty, a successful snapshot changes what the
      guest reads exactly where the file disagrees with the disk. */
  lemma {:induction false} NonEmptyOverlay(s: Session, e: Event, log: Log)
    requires Tied(s, log) && s.head == s.machine.root && Succeeds(s, e)
    ensures var n := Step(s, e).machine;
            var disk := PlainActs(View(s.machine.nodes, log.chain), e.acts);
            && View(n.nodes, log.chain + [n.root]) == disk + e.file
            && ((View(n.nodes, log.chain + [n.root]) == disk)
                <==> (forall b :: b in e.file ==> b in disk && disk[b] == e.file[b]))
  {
    var name, m := SnapshotNodeName(e.stem), AtSwitch(s.machine, e);
    BeforeTheSwitch(s, e, log);
    SwitchAccepted(m, name, log);
    ExecKeepsContent(m, BlockdevSnapshot(m.root, name), log.chain);
    GrownView(m, Exec(m, BlockdevSnapshot(m.root, name)).value, log.chain);
    Overwriting(PlainActs(View(s.machine.nodes, log.chain), e.acts), e.file);
  }

  lemma Overwriting(seen: Content, file: Content)
    ensures seen + file == seen <==> forall b :: b in file ==> b in seen && seen[b] == file[b]
  {
    if b :| b in file && !(b in seen && seen[b] == file[b]) {
      assert b in seen + file && (seen + file)[b] == file[b];
    }
  }
}
