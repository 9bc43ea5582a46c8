/** Ids, ports and interface names of `cmdline.rs`, the same data as the
    hot-plug path of `backend.rs`/`qmp.rs` sends it, and the proof that boot
    and hot-plug agree. Only the structured part of an argument is kept. */
module Cmdline {
  import opened Basics

  datatype NetworkMode = Nat | Bridge(bridge: string) | Isolated

  datatype BackendError = InvalidConfig | Io | HandleNotFound | ProcessNotRunning | NotImplemented

  // ----- naming -----

  const DISK_DEVICE := "drive-disk0"

  function ExtraDiskDriveId(index: nat): string { "drive-extra" + Decimal(index) }

  function ExtraDiskDeviceId(index: nat): string { "extra" + Decimal(index) }

  function ExtraNetId(index: nat): string { "net-extra" + Decimal(index) }

  function RootPort(slot: nat): string { "root-port-" + Decimal(slot) }

  function ShortId(id: string): string { id[..Min(|id|, 8)] }

  function PrimaryTap(id: string): string { "tap" + ShortId(id) }

  function ExtraTap(id: string, index: nat): string { "tap" + ShortId(id) + "-e" + Decimal(index) }

  /** Node name of a snapshot overlay, from the file stem of its path. */
  function SnapshotNodeName(stem: string): string {
    var bare := if ".tmp-" <= stem then stem[5..] else stem;
    "snap-" + bare[..Min(|bare|, 24)]
  }

  lemma PrefixedInjective(prefix: string, m: nat, n: nat)
    requires prefix + Decimal(m) == prefix + Decimal(n)
    ensures m == n
  {
    assert Decimal(m) == (prefix + Decimal(m))[|prefix|..];
    assert Decimal(n) == (prefix + Decimal(n))[|prefix|..];
    DecimalInjective(m, n);
  }

  /** Every id is injective in the index. */
  lemma IdsInjective(m: nat, n: nat)
    ensures ExtraDiskDriveId(m) == ExtraDiskDriveId(n) ==> m == n
    ensures ExtraDiskDeviceId(m) == ExtraDiskDeviceId(n) ==> m == n
    ensures ExtraNetId(m) == ExtraNetId(n) ==> m == n
    ensures RootPort(m) == RootPort(n) ==> m == n
  {
    if ExtraDiskDriveId(m) == ExtraDiskDriveId(n) { PrefixedInjective("drive-extra", m, n); }
    if ExtraDiskDeviceId(m) == ExtraDiskDeviceId(n) { PrefixedInjective("extra", m, n); }
    if ExtraNetId(m) == ExtraNetId(n) { PrefixedInjective("net-extra", m, n); }
    if RootPort(m) == RootPort(n) { PrefixedInjective("root-port-", m, n); }
  }

  /** Node names of the main disk, of extra disks and of overlays never clash. */
  lemma NodeNamesApart(index: nat, stem: string)
    ensures SnapshotNodeName(stem) != DISK_DEVICE
    ensures SnapshotNodeName(stem) != ExtraDiskDriveId(index)
    ensures ExtraDiskDriveId(index) != DISK_DEVICE
  {
    assert SnapshotNodeName(stem)[0] == 's';
    assert ExtraDiskDriveId(index)[6] == 'e' && DISK_DEVICE[6] == 'd';
  }

  /** Node names fit QEMU's 31 characters, and two overlays clash exactly when
      the first 24 characters of their bare stems agree. */
  lemma SnapshotNodeNames(a: string, b: string)
    ensures |SnapshotNodeName(".tmp-" + a)| <= 31
    ensures SnapshotNodeName(".tmp-" + a) == SnapshotNodeName(".tmp-" + b)
       <==> a[..Min(|a|, 24)] == b[..Min(|b|, 24)]
  {
    assert (".tmp-" + a)[5..] == a && (".tmp-" + b)[5..] == b;
    var x, y := SnapshotNodeName(".tmp-" + a), SnapshotNodeName(".tmp-" + b);
    assert x[5..] == a[..Min(|a|, 24)] && y[5..] == b[..Min(|b|, 24)];
  }

  /** Instance ids are 64 hex digits, so the short form is always 8 long. Two
      taps coincide only for the same 8-character prefix and the same slot. */
  lemma TapNamesCollide(a: string, b: string, i: nat, j: nat)
    requires |a| >= 8 && |b| >= 8
    ensures PrimaryTap(a) == PrimaryTap(b) <==> a[..8] == b[..8]
    ensures ExtraTap(a, i) == ExtraTap(b, j) <==> a[..8] == b[..8] && i == j
    ensures PrimaryTap(a) != ExtraTap(b, j)
  {
    assert PrimaryTap(a)[3..] == a[..8] && PrimaryTap(b)[3..] == b[..8];
    assert ExtraTap(a, i)[3..11] == a[..8] && ExtraTap(b, j)[3..11] == b[..8];
    if ExtraTap(a, i) == ExtraTap(b, j) {
      assert ExtraTap(a, i) == ("tap" + a[..8] + "-e") + Decimal(i);
      assert ExtraTap(b, j) == ("tap" + a[..8] + "-e") + Decimal(j);
      PrefixedInjective("tap" + a[..8] + "-e", i, j);
    }
    assert |PrimaryTap(a)| < |ExtraTap(b, j)|;
  }

  /** The comment beside the name promises 15 characters (IFNAMSIZ); that holds
      exactly for indices below 100. */
  lemma TapNameFitsIfnamsiz(id: string, index: nat)
    requires |id| >= 8
    ensures |PrimaryTap(id)| <= 15
    ensures |ExtraTap(id, index)| <= 15 <==> index < 100
  {
    DecimalAtMostTwoDigits(index);
  }

  // ----- boot arguments -----

  /** What a device stands on: a named block node, a netdev, or a boot-time
      `-drive`, which no node name reaches. */
  datatype Backing = Block(node: string) | Net(netdev: string) | BootDrive(id: string)

  datatype DiskPlug = DiskPlug(backend: Backing, device: string, bus: string)

  /** `device` is the id `device_del` needs; boot-time NICs have none. */
  datatype NicPlug = NicPlug(netdev: string, device: Option<string>, tap: Option<string>, bus: string)

  /** What `attach_disk` asks QEMU for. */
  function HotDisk(index: nat): DiskPlug {
    DiskPlug(Block(ExtraDiskDriveId(index)), ExtraDiskDeviceId(index), RootPort(index % 8))
  }

  /** What `attach_network` asks QEMU for. */
  function HotNic(id: string, mode: NetworkMode, index: nat): NicPlug {
    NicPlug(ExtraNetId(index), Some(ExtraNetId(index)),
            if mode.Bridge? then Some(ExtraTap(id, index)) else None, RootPort(8 + index % 8))
  }

  /** The root ports `machine_and_cpu_args` declares. */
  method MachinePorts() returns (ports: seq<string>)
    ensures |ports| == 16 && forall slot :: 0 <= slot < 16 ==> ports[slot] == "root-port-" + Decimal(slot)
  {
    ports := [];
    for slot := 0 to 16
      invariant |ports| == slot
      invariant forall s :: 0 <= s < slot ==> ports[s] == RootPort(s)
    {
      ports := ports + [RootPort(slot)];
    }
  }

  /** Disk `index` as boot attaches it: same device id and port as on hot-plug,
      and the same name behind it, but on a `-drive` and not on a named node. */
  function BootDisk(index: nat): DiskPlug {
    HotDisk(index).(backend := BootDrive(HotDisk(index).backend.node))
  }

  /** The extra-disk loop of `disk_args`: boot re-attaches disk `i` as the
      hot-plug path did in everything but the kind of its backend. */
  method DiskArgs(extraDisks: nat) returns (plugs: seq<DiskPlug>)
    ensures |plugs| == extraDisks
    ensures forall i :: 0 <= i < extraDisks ==> plugs[i] == BootDisk(i)
    ensures forall i :: 0 <= i < extraDisks ==>
              plugs[i] == DiskPlug(BootDrive("drive-extra" + Decimal(i)), "extra" + Decimal(i), "root-port-" + Decimal(i % 8))
  {
    plugs := [];
    for index := 0 to extraDisks
      invariant |plugs| == index
      invariant forall i :: 0 <= i < index ==> plugs[i] == BootDisk(i)
    {
      var driveId := ExtraDiskDriveId(index);
      var deviceId := ExtraDiskDeviceId(index);
      plugs := plugs + [DiskPlug(BootDrive(driveId), deviceId, RootPort(index % 8))];
    }
  }

  /** The configurations `network_args` refuses. */
  predicate NetworkRefused(primary: NetworkMode, extras: seq<NetworkMode>) {
    (primary.Isolated? && extras != []) || Isolated in extras
  }

  /** `network_args`: an error exactly for an isolated NIC that is not alone;
      otherwise NIC `i` agrees with the hot-plug path in everything but the
      device id, which boot leaves out. */
  method NetworkArgs(id: string, primary: NetworkMode, extras: seq<NetworkMode>)
    returns (r: Result<seq<NicPlug>, BackendError>)
    ensures r.Err? <==> NetworkRefused(primary, extras)
    ensures r.Err? <==> (primary.Isolated? && |extras| > 0) || exists i :: 0 <= i < |extras| && extras[i].Isolated?
    ensures r.Err? ==> r.error == InvalidConfig
    ensures r.Ok? ==> |r.value| == |extras|
    ensures r.Ok? ==> forall i :: 0 <= i < |extras| ==>
              r.value[i] == HotNic(id, extras[i], i).(device := None)
    ensures r.Ok? ==> forall i :: 0 <= i < |extras| ==>
              && r.value[i].netdev == "net-extra" + Decimal(i) && r.value[i].bus == "root-port-" + Decimal(8 + i % 8)
              && r.value[i].tap == (if extras[i].Bridge? then Some("tap" + id[..Min(|id|, 8)] + "-e" + Decimal(i)) else None)
  {
    if primary.Isolated? && extras != [] {
      return Err(InvalidConfig);
    }
    var nics: seq<NicPlug> := [];
    for index := 0 to |extras|
      invariant |nics| == index && Isolated !in extras[..index]
      invariant forall i :: 0 <= i < index ==> nics[i] == HotNic(id, extras[i], i).(device := None)
    {
      var netdev := ExtraNetId(index);
      var tap := None;
      match extras[index] {
        case Nat =>
        case Bridge(_) => tap := Some(ExtraTap(id, index));
        case Isolated => return Err(InvalidConfig);
      }
      nics := nics + [NicPlug(netdev, None, tap, RootPort(8 + index % 8))];
    }
    assert extras[..|extras|] == extras;
    return Ok(nics);
  }

  /** Every port either path names is declared: disks on 0-7, NICs on 8-15. */
  lemma PortsDeclared(id: string, mode: NetworkMode, i: nat)
    ensures exists slot: nat :: slot < 8 && HotDisk(i).bus == RootPort(slot)
    ensures exists slot: nat :: 8 <= slot < 16 && HotNic(id, mode, i).bus == RootPort(slot)
  {
    var disk, nic: nat := i % 8, 8 + i % 8;
    assert HotDisk(i).bus == RootPort(disk);
    assert HotNic(id, mode, i).bus == RootPort(nic);
  }

  lemma SamePort(m: nat, n: nat)
    ensures RootPort(m) == RootPort(n) <==> m == n
  {
    IdsInjective(m, n);
  }

  /** A disk and a NIC never share a port, and two devices of one kind share one
      exactly when their indices agree modulo 8. */
  lemma PortsShared(id: string, a: NetworkMode, b: NetworkMode, i: nat, j: nat)
    ensures HotDisk(i).bus != HotNic(id, a, j).bus
    ensures HotDisk(i).bus == HotDisk(j).bus <==> i % 8 == j % 8
    ensures HotNic(id, a, i).bus == HotNic(id, b, j).bus <==> i % 8 == j % 8
  {
    SamePort(i % 8, 8 + j % 8);
    SamePort(i % 8, j % 8);
    SamePort(8 + i % 8, 8 + j % 8);
  }

  /** The first 8 devices of each kind never share a port. */
  lemma {:induction false} FirstEightApart(id: string, a: NetworkMode, b: NetworkMode, i: nat, j: nat)
    requires i < 8 && j < 8 && i != j
    ensures HotDisk(i).bus != HotDisk(j).bus
    ensures HotNic(id, a, i).bus != HotNic(id, b, j).bus
  {
    PortsShared(id, a, b, i, j);
    assert i % 8 == i && j % 8 == j;
  }
}
