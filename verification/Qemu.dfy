/** The part of QEMU the backend drives: named block nodes with backing links,
    the root node behind the guest's `disk0`, network backends and hot-plugged
    devices. Every QMP command is a partial function on this state, and each
    command meets a `Fate` chosen by the environment. */
module Qemu {
  import opened Basics
  import opened Cmdline

  type Content = map<nat, int>

  datatype Layer = Layer(data: Content, backing: Option<string>)

  datatype Device = Device(backend: Backing, unplugging: bool)

  datatype Machine = Machine(
    nodes: map<string, Layer>,
    root: string,
    netdevs: set<string>,
    devices: map<string, Device>)

  datatype Command =
    | BlockdevAdd(node: string, file: Content)
    | BlockdevDel(node: string)
    | BlockdevSnapshot(node: string, overlay: string)
    | DeviceAdd(id: string, backend: Backing)
    | DeviceDel(id: string)
    | NetdevAdd(id: string)
    | NetdevDel(id: string)

  predicate IsBacking(m: Machine, node: string) {
    exists p :: p in m.nodes && m.nodes[p].backing == Some(node)
  }

  predicate HasDevice(m: Machine, backend: Backing) {
    exists d :: d in m.devices && m.devices[d].backend == backend
  }

  predicate InUse(m: Machine, node: string) {
    node == m.root || IsBacking(m, node) || HasDevice(m, Block(node))
  }

  predicate Exists(m: Machine, backend: Backing) {
    match backend
    case Block(node) => node in m.nodes
    case Net(netdev) => netdev in m.netdevs
    case BootDrive(_) => false
  }

  /** The state after a command QEMU accepts, `None` for one it refuses. */
  function Exec(m: Machine, c: Command): Option<Machine> {
    match c
    case BlockdevAdd(node, file) =>
      if node in m.nodes then None
      else Some(m.(nodes := m.nodes[node := Layer(file, None)]))
    case BlockdevDel(node) =>
      if node !in m.nodes || InUse(m, node) then None
      else Some(m.(nodes := m.nodes - {node}))
    case BlockdevSnapshot(node, overlay) =>
      // A node that already backs another one is busy; an overlay must be bare.
      if node !in m.nodes || overlay !in m.nodes || IsBacking(m, node)
         || InUse(m, overlay) || m.nodes[overlay].backing.Some? then None
      else if node == overlay then None
      else Some(m.(
        nodes := m.nodes[overlay := m.nodes[overlay].(backing := Some(node))],
        root := if m.root == node then overlay else m.root,
        devices := map d | d in m.devices ::
          if m.devices[d].backend == Block(node) then m.devices[d].(backend := Block(overlay)) else m.devices[d]))
    case DeviceAdd(id, backend) =>
      if id in m.devices || !Exists(m, backend) || HasDevice(m, backend) then None
      else Some(m.(devices := m.devices[id := Device(backend, false)]))
    case DeviceDel(id) =>
      if id !in m.devices then None
      else Some(m.(devices := m.devices[id := m.devices[id].(unplugging := true)]))
    case NetdevAdd(id) =>
      if id in m.netdevs then None else Some(m.(netdevs := m.netdevs + {id}))
    case NetdevDel(id) =>
      if id !in m.netdevs || HasDevice(m, Net(id)) then None else Some(m.(netdevs := m.netdevs - {id}))
  }

  /** What happens to one command: QEMU acts on it and answers; refuses it for
      a reason outside this model; the connection dies before or after QEMU
      acted; or QEMU acted and its answer does not parse. */
  datatype Fate = Applied | Refused | LostBefore | LostAfter | Garbled

  /** `Rejected` and `Unparsable` are `CommandFailed` and `ParseError`: QEMU
      answered. `Broken` is every error below that level. */
  datatype Reply = Done | Rejected | Unparsable | Broken

  datatype Issued = Issued(machine: Machine, reply: Reply)

  function Issue(m: Machine, c: Command, fate: Fate): Issued {
    var next := Exec(m, c);
    var acted := if next.Some? then next.value else m;
    match fate
    case Applied => Issued(acted, if next.Some? then Done else Rejected)
    case Refused => Issued(m, Rejected)
    case LostBefore => Issued(m, Broken)
    case LostAfter => Issued(acted, Broken)
    case Garbled => Issued(acted, Unparsable)
  }

  // ----- the guest -----

  function GuestWrite(m: Machine, block: nat, value: int): Machine
    requires m.root in m.nodes
  {
    var layer := m.nodes[m.root];
    m.(nodes := m.nodes[m.root := layer.(data := layer.data[block := value])])
  }

  /** The guest driver lets go of a device it was asked to release. */
  function GuestRelease(m: Machine, id: string): Machine {
    if id in m.devices && m.devices[id].unplugging then m.(devices := m.devices - {id}) else m
  }

  /** What a guest does on its own, between any two commands. */
  datatype GuestAct = Put(block: nat, value: int) | LetGo(device: string)

  function GuestStep(m: Machine, a: GuestAct): Machine {
    match a
    case Put(block, value) => if m.root in m.nodes then GuestWrite(m, block, value) else m
    case LetGo(device) => GuestRelease(m, device)
  }

  function AfterGuest(m: Machine, acts: seq<GuestAct>): Machine {
    if acts == [] then m else GuestStep(AfterGuest(m, acts[..|acts| - 1]), acts[|acts| - 1])
  }

  /** `n` is `m` after something the guest did, and nothing else. */
  ghost predicate GuestOnly(m: Machine, n: Machine) {
    exists acts :: n == AfterGuest(m, acts)
  }

  /** What guests leave alone: the graph but for the data of the node they
      write, the netdevs, and every device nobody asked to go. */
  ghost predicate GuestKeeps(m: Machine, n: Machine) {
    && n.root == m.root && n.netdevs == m.netdevs && n.nodes.Keys == m.nodes.Keys
    && (forall x :: x in m.nodes ==> n.nodes[x].backing == m.nodes[x].backing && (x != m.root ==> n.nodes[x] == m.nodes[x]))
    && (forall d :: d in n.devices ==> d in m.devices && n.devices[d] == m.devices[d])
    && (forall d :: d in m.devices && !m.devices[d].unplugging ==> d in n.devices)
  }

  lemma {:induction false} GuestsKeep(m: Machine, acts: seq<GuestAct>)
    ensures GuestKeeps(m, AfterGuest(m, acts))
    ensures forall d :: d in m.devices && LetGo(d) !in acts ==> d in AfterGuest(m, acts).devices
  {
    if acts != [] {
      var before, a := acts[..|acts| - 1], acts[|acts| - 1];
      GuestsKeep(m, before);
      assert acts == before + [a];
    }
  }

  lemma {:induction false} GuestTwice(m: Machine, a: seq<GuestAct>, b: seq<GuestAct>)
    ensures AfterGuest(AfterGuest(m, a), b) == AfterGuest(m, a + b)
  {
    if b == [] {
      assert a + b == a;
    } else {
      GuestTwice(m, a, b[..|b| - 1]);
      assert (a + b)[..|a + b| - 1] == a + b[..|b| - 1];
    }
  }

  // ----- the copy-on-write chain, bottom layer first -----

  /** `chain` lists the layers under the guest's disk, from `drive-disk0` up to
      the node the device writes. */
  ghost predicate IsChain(m: Machine, chain: seq<string>) {
    && |chain| > 0 && chain[0] == DISK_DEVICE && chain[|chain| - 1] == m.root
    && (forall i :: 0 <= i < |chain| ==> chain[i] in m.nodes)
    && m.nodes[chain[0]].backing == None
    && (forall i, j :: 0 <= i && j == i + 1 && j < |chain| ==> m.nodes[chain[j]].backing == Some(chain[i]))
    && (forall i, j :: 0 <= i < j < |chain| ==> chain[i] != chain[j])
  }

  /** What a reader of the topmost of `layers` sees. */
  ghost function View(nodes: map<string, Layer>, layers: seq<string>): Content {
    if layers == [] then map[]
    else
      var top := layers[|layers| - 1];
      View(nodes, layers[..|layers| - 1]) + if top in nodes then nodes[top].data else map[]
  }

  lemma {:induction false} ViewFrame(a: map<string, Layer>, b: map<string, Layer>, layers: seq<string>)
    requires forall i :: 0 <= i < |layers| ==>
               layers[i] in a && layers[i] in b && a[layers[i]].data == b[layers[i]].data
    ensures View(a, layers) == View(b, layers)
  {
    if layers != [] { ViewFrame(a, b, layers[..|layers| - 1]); }
  }

  /** Following backing links from any layer of the chain reaches
      `drive-disk0` in exactly as many steps as there are layers below, and no
      other walk exists: the chain is acyclic. */
  ghost predicate IsWalk(m: Machine, walk: seq<string>) {
    && |walk| > 0
    && (forall i :: 0 <= i < |walk| ==> walk[i] in m.nodes)
    && (forall i, j :: 0 <= i && j == i + 1 && j < |walk| ==> m.nodes[walk[i]].backing == Some(walk[j]))
  }

  lemma {:induction false} WalksFollowTheChain(m: Machine, chain: seq<string>, walk: seq<string>, i: nat)
    requires IsChain(m, chain) && IsWalk(m, walk) && walk[0] == m.root && i < |walk|
    ensures i < |chain| && walk[i] == chain[|chain| - 1 - i]
  {
    if i > 0 {
      WalksFollowTheChain(m, chain, walk, i - 1);
      assert m.nodes[walk[i - 1]].backing == Some(walk[i]);
      var k := |chain| - i;
      if k > 0 {
        assert m.nodes[chain[k]].backing == Some(chain[k - 1]);
      }
    }
  }

  ghost predicate WalkFromTheTop(m: Machine, walk: seq<string>) {
    IsWalk(m, walk) && walk[0] == m.root
  }

  /** `walk` goes down `chain` from its top, node by node. */
  ghost predicate GoesDown(chain: seq<string>, walk: seq<string>) {
    |walk| <= |chain| && forall i :: 0 <= i < |walk| ==> walk[i] == chain[|chain| - 1 - i]
  }

  lemma WalksGoDown(m: Machine, chain: seq<string>, walk: seq<string>)
    requires IsChain(m, chain) && WalkFromTheTop(m, walk)
    ensures GoesDown(chain, walk)
  {
    forall i | 0 <= i < |walk| ensures i < |chain| && walk[i] == chain[|chain| - 1 - i] {
      WalksFollowTheChain(m, chain, walk, i);
    }
    WalksFollowTheChain(m, chain, walk, |walk| - 1);
  }

  /** Backing links exist inside the chain only, and devices stand on nodes
      that exist. */
  ghost predicate Tidy(m: Machine, chain: seq<string>) {
    && (forall n :: n in m.nodes && m.nodes[n].backing.Some? ==> n in chain)
    && (forall d :: d in m.devices && m.devices[d].backend.Block? ==> m.devices[d].backend.node in m.nodes)
  }

  /** How the chain grows when the device's node changes. */
  ghost function Grow(chain: seq<string>, before: Machine, after: Machine): seq<string> {
    if after.root == before.root then chain else chain + [after.root]
  }

  lemma ChainMembersInUse(m: Machine, chain: seq<string>, i: nat)
    requires IsChain(m, chain) && i < |chain|
    ensures InUse(m, chain[i])
  {
    if i < |chain| - 1 {
      assert m.nodes[chain[i + 1]].backing == Some(chain[i]);
    }
  }

  lemma ChainMemberAt(chain: seq<string>, n: string) returns (i: nat)
    requires n in chain
    ensures i < |chain| && chain[i] == n
  {
    i :| 0 <= i < |chain| && chain[i] == n;
  }

  /** In a tidy machine the node the guest writes backs nothing, so it is never
      busy; and a name that is not taken is not in use. */
  lemma TidyNodesFree(m: Machine, chain: seq<string>, name: string)
    requires IsChain(m, chain) && Tidy(m, chain)
    ensures !IsBacking(m, m.root)
    ensures name !in m.nodes ==> !InUse(m, name)
  {
    forall p | p in m.nodes && m.nodes[p].backing.Some?
      ensures m.nodes[p].backing.value != m.root && m.nodes[p].backing.value in m.nodes
    {
      var i := ChainMemberAt(chain, p);
      assert i > 0 && m.nodes[chain[i]].backing == Some(chain[i - 1]);
    }
  }

  /** Any other node of the chain is busy for good. */
  lemma LowerNodesBusy(m: Machine, chain: seq<string>, n: string)
    requires IsChain(m, chain) && n in chain && n != m.root
    ensures IsBacking(m, n)
  {
    var i := ChainMemberAt(chain, n);
    assert m.nodes[chain[i + 1]].backing == Some(chain[i]);
  }

  /** An overlay about to be switched in must be empty, as the daemon makes it. */
  ghost predicate OverlayEmpty(m: Machine, c: Command) {
    c.BlockdevSnapshot? && c.overlay in m.nodes ==> m.nodes[c.overlay].data == map[]
  }

  /** No QMP command breaks the chain: it grows at most at the top, and nodes
      of the old chain keep their data. */
  lemma ExecKeepsChain(m: Machine, c: Command, chain: seq<string>)
    requires IsChain(m, chain) && Exec(m, c).Some?
    ensures var n := Exec(m, c).value;
            && IsChain(n, Grow(chain, m, n))
            && (forall i :: 0 <= i < |chain| ==> chain[i] in n.nodes && n.nodes[chain[i]] == m.nodes[chain[i]])
            && (n.root != m.root ==> c == BlockdevSnapshot(m.root, n.root) && n.nodes[n.root].data == m.nodes[n.root].data)
  {
    forall i | 0 <= i < |chain| ensures InUse(m, chain[i]) { ChainMembersInUse(m, chain, i); }
  }

  /** A command the backend sends keeps the machine tidy, as long as a snapshot
      names a node of the chain. */
  lemma ExecKeepsTidy(m: Machine, c: Command, chain: seq<string>)
    requires IsChain(m, chain) && Tidy(m, chain) && Exec(m, c).Some?
    requires c.BlockdevSnapshot? ==> c.node in chain
    ensures Tidy(Exec(m, c).value, Grow(chain, m, Exec(m, c).value))
  {
    var n := Exec(m, c).value;
    if c.BlockdevSnapshot? && c.node != m.root {
      LowerNodesBusy(m, chain, c.node);
    }
    var grown := Grow(chain, m, n);
    assert forall x :: x in chain ==> x in grown;
  }

  /** Nodes of `chain` survive unchanged, and a new root exists. */
  ghost predicate Extends(m: Machine, n: Machine, chain: seq<string>) {
    && (forall i :: 0 <= i < |chain| ==>
          chain[i] in m.nodes && chain[i] in n.nodes && n.nodes[chain[i]] == m.nodes[chain[i]])
    && (n.root != m.root ==> n.root in n.nodes)
  }

  /** What a newly switched-in node lays over the disk. */
  ghost function NewTop(m: Machine, n: Machine): Content
    requires n.root != m.root ==> n.root in n.nodes
  {
    if n.root == m.root then map[] else n.nodes[n.root].data
  }

  lemma PrefixViews(m: Machine, n: Machine, chain: seq<string>, k: nat)
    requires Extends(m, n, chain) && k <= |chain|
    ensures View(n.nodes, chain[..k]) == View(m.nodes, chain[..k])
  {
    ViewFrame(n.nodes, m.nodes, chain[..k]);
  }

  lemma GrownView(m: Machine, n: Machine, chain: seq<string>)
    requires Extends(m, n, chain)
    ensures View(n.nodes, Grow(chain, m, n)) == View(m.nodes, chain) + NewTop(m, n)
  {
    ViewFrame(n.nodes, m.nodes, chain);
    if n.root != m.root {
      var grown := chain + [n.root];
      assert grown[..|grown| - 1] == chain;
    }
  }

  /** Every prefix of the chain survives any command, and so does the
      guest-visible content unless the command switches in content of its own. */
  lemma {:induction false} ExecKeepsContent(m: Machine, c: Command, chain: seq<string>)
    requires IsChain(m, chain) && Exec(m, c).Some?
    ensures Extends(m, Exec(m, c).value, chain)
    ensures IsChain(Exec(m, c).value, Grow(chain, m, Exec(m, c).value))
    ensures OverlayEmpty(m, c) ==>
      View(Exec(m, c).value.nodes, Grow(chain, m, Exec(m, c).value)) == View(m.nodes, chain)
  {
    ExecKeepsChain(m, c, chain);
    EmptyTop(m, Exec(m, c).value, chain);
  }

  lemma {:induction false} EmptyTop(m: Machine, n: Machine, chain: seq<string>)
    requires Extends(m, n, chain)
    ensures NewTop(m, n) == map[] ==> View(n.nodes, Grow(chain, m, n)) == View(m.nodes, chain)
  {
    GrownView(m, n, chain);
    assert View(m.nodes, chain) + map[] == View(m.nodes, chain);
  }

  lemma WriteKeepsChain(m: Machine, chain: seq<string>, block: nat, value: int)
    requires IsChain(m, chain)
    ensures IsChain(GuestWrite(m, block, value), chain)
  {}

  /** Guest writes change the topmost layer only. */
  lemma WriteLeavesFrozenLayers(m: Machine, chain: seq<string>, block: nat, value: int, k: nat)
    requires IsChain(m, chain) && k < |chain|
    ensures View(GuestWrite(m, block, value).nodes, chain[..k]) == View(m.nodes, chain[..k])
  {
    var n := GuestWrite(m, block, value);
    forall i | 0 <= i < k ensures chain[i] != m.root { assert chain[|chain| - 1] == m.root; }
    ViewFrame(n.nodes, m.nodes, chain[..k]);
  }

  lemma {:induction false} WriteIsSeen(m: Machine, chain: seq<string>, block: nat, value: int)
    requires IsChain(m, chain)
    ensures View(GuestWrite(m, block, value).nodes, chain) == View(m.nodes, chain)[block := value]
  {
    var n, k := GuestWrite(m, block, value), |chain| - 1;
    WriteKeepsChain(m, chain, block, value);
    WriteLeavesFrozenLayers(m, chain, block, value, k);
    var below := View(m.nodes, chain[..k]);
    assert View(m.nodes, chain) == below + m.nodes[m.root].data;
    assert View(n.nodes, chain) == below + m.nodes[m.root].data[block := value];
  }
}
