/** Disk discovery: the entries that lsblk lists are grouped into disks. */
module Lsblk {
  import opened Helpers
  import opened Text

  /** `active` is set for what is mounted as the external disk. */
  datatype Entry = Entry(
    name: string,
    size: string,
    deviceType: string,
    mountPoint: string,
    fsType: string,
    model: string,
    active: bool,
    uuid: string)

  datatype Partition = Partition(size: string, device: string, mountPoint: string, active: bool, fsType: string)

  datatype Disk = Disk(
    name: string,
    device: string,
    size: string,
    partitions: seq<Partition>,
    active: bool,
    uuid: string,
    mountPoint: string,
    boot: bool)

  // ----- device names ---------------------------------------------------------

  /** What `p?\d*$` matches. */
  predicate PartitionSuffix(s: string) {
    Digits(s) || (s[0] == 'p' && Digits(s[1..]))
  }

  /** The first place at or after `i` from which the rest is a partition suffix. */
  function SuffixStart(name: string, i: nat): (k: nat)
    requires i <= |name|
    ensures i <= k <= |name| && PartitionSuffix(name[k..])
    ensures forall j :: i <= j < k ==> !PartitionSuffix(name[j..])
    decreases |name| - i
  {
    if PartitionSuffix(name[i..]) then i else SuffixStart(name, i + 1)
  }

  /** `(.*?)p?\d*$`: the shortest prefix that leaves a partition suffix. */
  function ParentDevice(name: string): string {
    var k := SuffixStart(name, 0);
    name[LineStart(name, k)..k]
  }

  /** Partitions named with a `p`, as on mmc and nvme devices. */
  lemma ParentOfNamedWithP(d: string, k: string)
    requires OneLine(d) && Digits(k)
    ensures ParentDevice(d + "p" + k) == d
  {
    var name := d + "p" + k;
    assert name[|d|..] == "p" + k && ("p" + k)[1..] == k;
    forall j | 0 <= j < |d| ensures !PartitionSuffix(name[j..]) {
      assert name[j..][|d| - j] == 'p';
    }
    assert name[..|d|] == d;
  }

  /** Partitions named by a number alone: the parent is recovered exactly when
      its name ends neither in a digit nor in `p`. */
  lemma ParentOfNamedByNumber(d: string, k: string)
    requires OneLine(d) && Digits(k) && k != []
    ensures ParentDevice(d + k) == d <==> d == [] || (!IsDigit(d[|d| - 1]) && d[|d| - 1] != 'p')
  {
    var name := d + k;
    assert name[|d|..] == k && name[..|d|] == d;
    if d != [] {
      var n := |d| - 1;
      assert name[n..] == [d[n]] + k;
      if IsDigit(d[n]) || d[n] == 'p' {
        assert PartitionSuffix(name[n..]);
      } else {
        forall j | 0 <= j < |d| ensures !PartitionSuffix(name[j..]) {
          assert name[j..][n - j] == d[n];
        }
      }
    }
  }

  const MMC_PREFIX := "/dev/mmcblk"

  function DigitsEnd(s: string, i: nat): (k: nat)
    requires i <= |s|
    ensures i <= k <= |s| && Digits(s[i..k]) && (k < |s| ==> !IsDigit(s[k]))
    decreases |s| - i
  {
    if i < |s| && IsDigit(s[i]) then
      var k := DigitsEnd(s, i + 1);
      assert s[i..k] == [s[i]] + s[i + 1..k];
      k
    else i
  }

  lemma DigitsEndAt(s: string, i: nat, k: nat)
    requires i <= k <= |s| && Digits(s[i..k]) && (k < |s| ==> !IsDigit(s[k]))
    ensures DigitsEnd(s, i) == k
    decreases k - i
  {
    if i < k {
      assert s[i..k][0] == s[i];
      assert s[i + 1..k] == s[i..k][1..];
      DigitsEndAt(s, i + 1, k);
    }
  }

  /** `^(/dev/mmcblk\d+)boot\d+$` */
  function DetectMmcBootDevice(name: string): Option<string> {
    if !(MMC_PREFIX <= name) then None else
    var k := DigitsEnd(name, |MMC_PREFIX|);
    if k > |MMC_PREFIX| && "boot" <= name[k..] && |name| > k + 4 && Digits(name[k + 4..]) then Some(name[..k]) else None
  }

  /** The pattern read as concatenation. */
  ghost predicate MmcBoot(name: string, a: string, b: string) {
    Digits(a) && a != [] && Digits(b) && b != [] && name == MMC_PREFIX + a + ("boot" + b)
  }

  lemma MmcBootPattern(name: string)
    ensures forall a, b :: MmcBoot(name, a, b) ==> DetectMmcBootDevice(name) == Some(MMC_PREFIX + a)
    ensures DetectMmcBootDevice(name).Some? ==> exists a, b :: MmcBoot(name, a, b)
  {
    forall a, b | MmcBoot(name, a, b) ensures DetectMmcBootDevice(name) == Some(MMC_PREFIX + a) {
      MmcBootDetected(MMC_PREFIX, name, a, b);
    }
    if DetectMmcBootDevice(name).Some? {
      var n := |MMC_PREFIX|;
      var k := DigitsEnd(name, n);
      var a, b := name[n..k], name[k + 4..];
      Parts(MMC_PREFIX, name, k);
      assert name[k..] == "boot" + b;
      assert MmcBoot(name, a, b);
    }
  }

  lemma MmcBootDetected(prefix: string, name: string, a: string, b: string)
    requires Digits(a) && name == prefix + a + ("boot" + b)
    ensures DigitsEnd(name, |prefix|) == |prefix + a|
    ensures name[..|prefix + a|] == prefix + a && prefix <= name && name[|prefix + a|..] == "boot" + b && name[|prefix + a| + 4..] == b
  {
    assert name[|prefix|..|prefix + a|] == a;
    assert name[|prefix + a|] == 'b';
    DigitsEndAt(name, |prefix|, |prefix + a|);
  }

  lemma Parts(prefix: string, name: string, k: nat)
    requires prefix <= name && |prefix| <= k <= |name|
    ensures name == prefix + name[|prefix|..k] + name[k..]
  {
  }

  // ----- entries --------------------------------------------------------------

  predicate IsRaid(e: Entry) {
    "raid" <= e.deviceType
  }

  predicate IsSupportedType(e: Entry) {
    DetectMmcBootDevice(e.name) == None && (e.deviceType == "disk" || e.deviceType == "loop" || IsRaid(e))
  }

  predicate IsSupportedFsType(e: Entry) {
    e.fsType != "squashfs" && !("/snap" <= e.mountPoint) && e.fsType != "linux_raid_member"
  }

  predicate IsDisk(e: Entry) {
    IsSupportedType(e) && IsSupportedFsType(e)
  }

  predicate IsPartition(e: Entry) {
    !IsDisk(e) && e.deviceType == "part"
  }

  function CreatePartition(e: Entry): Partition {
    Partition(e.size, e.name, e.mountPoint, e.active, if IsRaid(e) then "raid" else e.fsType)
  }

  function DiskName(e: Entry): string {
    if IsRaid(e) then e.deviceType
    else if e.model != [] then e.model
    else "Disk " + if "/dev/" <= e.name then e.name[5..] else e.name
  }

  function NewDisk(e: Entry, active: bool, boot: bool): Disk {
    Disk(DiskName(e), e.name, e.size, if IsRaid(e) then [CreatePartition(e)] else [], active, e.uuid, e.mountPoint, boot)
  }

  // ----- what AllDisks should return ------------------------------------------

  function ActiveUuids(entries: seq<Entry>): set<string> {
    set e | e in entries && e.active && e.uuid != [] :: e.uuid
  }

  function BootDevices(entries: seq<Entry>): set<string> {
    set e | e in entries && DetectMmcBootDevice(e.name).Some? :: DetectMmcBootDevice(e.name).value
  }

  predicate PartitionOf(e: Entry, d: string) {
    IsPartition(e) && ParentDevice(e.name) == d
  }

  /** The members that pass, in order. */
  function Chosen<T>(s: seq<T>, keep: T -> bool): seq<T> {
    if s == [] then [] else Chosen(s[..|s| - 1], keep) + if keep(s[|s| - 1]) then [s[|s| - 1]] else []
  }

  ghost predicate Points<T>(at: seq<nat>, s: seq<T>, chosen: seq<T>) {
    && |at| == |chosen|
    && forall k :: 0 <= k < |at| ==> at[k] < |s| && chosen[k] == s[at[k]]
  }

  ghost predicate Rising(at: seq<nat>) {
    forall k, l :: 0 <= k < l < |at| ==> at[k] < at[l]
  }

  /** `Chosen` keeps every passing member once, in order, and nothing else. */
  lemma {:induction false} ChosenInOrder<T>(s: seq<T>, keep: T -> bool) returns (at: seq<nat>)
    ensures Points(at, s, Chosen(s, keep)) && Rising(at)
    ensures forall j: nat :: j in at <==> j < |s| && keep(s[j])
  {
    at := [];
    if s != [] {
      var n := |s| - 1;
      var rest := ChosenInOrder(s[..n], keep);
      at := rest;
      if keep(s[n]) {
        at := rest + [n];
        assert Points(at, s, Chosen(s, keep));
        assert Rising(at);
      }
      forall j: nat ensures j in at <==> j < |s| && keep(s[j]) {
        assert if j < n then s[..n][j] == s[j] else j !in rest;
      }
    }
  }

  lemma ChosenMembers<T>(s: seq<T>, keep: T -> bool)
    ensures forall x :: x in Chosen(s, keep) <==> x in s && keep(x)
  {
    var at := ChosenInOrder(s, keep);
    var chosen := Chosen(s, keep);
    forall x ensures x in chosen <==> x in s && keep(x) {
      if x in chosen {
        var k :| 0 <= k < |chosen| && chosen[k] == x;
        assert at[k] in at;
      }
      if x in s && keep(x) {
        var j :| 0 <= j < |s| && s[j] == x;
        assert j in at;
        var k :| 0 <= k < |at| && at[k] == j;
        assert chosen[k] == x;
      }
    }
  }

  /** The partitions of device `d` among `entries`, in order. */
  function PartitionsOf(entries: seq<Entry>, d: string): seq<Partition> {
    var chosen := Chosen(entries, OfDevice(d));
    seq(|chosen|, k requires 0 <= k < |chosen| => CreatePartition(chosen[k]))
  }

  function OfDevice(d: string): Entry -> bool {
    e => PartitionOf(e, d)
  }

  /** The last disk entry named `d`. */
  ghost predicate LastDiskEntry(entries: seq<Entry>, i: nat, d: string) {
    && i < |entries| && IsDisk(entries[i]) && entries[i].name == d
    && forall j :: i < j < |entries| ==> !(IsDisk(entries[j]) && entries[j].name == d)
  }

  /** The disk made from entry `i`, with the partitions listed after it. */
  function DiskFrom(entries: seq<Entry>, i: nat, actives: set<string>, boots: set<string>): Disk
    requires i < |entries|
  {
    var e := entries[i];
    var disk := NewDisk(e, e.active || e.uuid in actives, e.name in boots);
    disk.(partitions := disk.partitions + PartitionsOf(entries[i + 1..], e.name))
  }

  /** The disks found in `entries`, by device. */
  ghost predicate Grouped(entries: seq<Entry>, actives: set<string>, boots: set<string>, disks: map<string, Disk>) {
    && (forall i :: 0 <= i < |entries| && IsDisk(entries[i]) ==> entries[i].name in disks)
    && (forall d :: d in disks ==> FromLast(entries, actives, boots, d, disks[d]))
  }

  ghost predicate FromLast(entries: seq<Entry>, actives: set<string>, boots: set<string>, d: string, disk: Disk) {
    exists i: nat :: LastDiskEntry(entries, i, d) && disk == DiskFrom(entries, i, actives, boots)
  }

  function Names(disks: seq<Disk>): (r: seq<string>)
    ensures |r| == |disks| && forall i :: 0 <= i < |r| ==> r[i] == disks[i].device
  {
    seq(|disks|, i requires 0 <= i < |disks| => disks[i].device)
  }

  /** `disks` are exactly the disks of `entries`, in order of device. */
  ghost predicate Listing(entries: seq<Entry>, disks: seq<Disk>) {
    && Ascending(Names(disks))
    && (forall i :: 0 <= i < |entries| && IsDisk(entries[i]) ==> entries[i].name in Names(disks))
    && (forall d :: d in disks ==> FromLast(entries, ActiveUuids(entries), BootDevices(entries), d.device, d))
  }

  // ----- one entry at a time --------------------------------------------------

  function Step(disks: map<string, Disk>, e: Entry, actives: set<string>, boots: set<string>): map<string, Disk> {
    if IsDisk(e) then disks[e.name := NewDisk(e, e.active || e.uuid in actives, e.name in boots)]
    else if e.deviceType == "part" && ParentDevice(e.name) in disks then
      var d := ParentDevice(e.name);
      disks[d := disks[d].(partitions := disks[d].partitions + [CreatePartition(e)])]
    else disks
  }

  lemma PartitionsGrow(rest: seq<Entry>, e: Entry, d: string)
    ensures PartitionsOf(rest + [e], d) == PartitionsOf(rest, d) + if PartitionOf(e, d) then [CreatePartition(e)] else []
  {
    assert (rest + [e])[..|rest|] == rest;
  }

  /** An entry that is not a disk named `d` leaves the last one named `d` last. */
  lemma StillLast(entries: seq<Entry>, e: Entry, i: nat, d: string, actives: set<string>, boots: set<string>)
    requires LastDiskEntry(entries, i, d) && !(IsDisk(e) && e.name == d)
    ensures LastDiskEntry(entries + [e], i, d)
    ensures var disk := DiskFrom(entries, i, actives, boots);
            DiskFrom(entries + [e], i, actives, boots) ==
            if IsPartition(e) && ParentDevice(e.name) == d then disk.(partitions := disk.partitions + [CreatePartition(e)]) else disk
  {
    var more := entries + [e];
    assert forall j :: i <= j < |entries| ==> more[j] == entries[j];
    assert more[i + 1..] == entries[i + 1..] + [e];
    PartitionsGrow(entries[i + 1..], e, d);
    var disk := NewDisk(entries[i], entries[i].active || entries[i].uuid in actives, entries[i].name in boots);
    Associative(disk.partitions, PartitionsOf(entries[i + 1..], d), if PartitionOf(e, d) then [CreatePartition(e)] else []);
  }

  lemma Associative<T>(a: seq<T>, b: seq<T>, c: seq<T>)
    ensures a + (b + c) == a + b + c
    ensures c == [] ==> b + c == b
  {
  }

  lemma GroupedStep(entries: seq<Entry>, e: Entry, actives: set<string>, boots: set<string>, disks: map<string, Disk>)
    requires Grouped(entries, actives, boots, disks)
    ensures Grouped(entries + [e], actives, boots, Step(disks, e, actives, boots))
  {
    var more := entries + [e];
    var after := Step(disks, e, actives, boots);
    forall i | 0 <= i < |more| && IsDisk(more[i]) ensures more[i].name in after {
      assert i < |entries| ==> more[i] == entries[i];
    }
    forall d | d in after ensures FromLast(more, actives, boots, d, after[d]) {
      StepAt(entries, e, actives, boots, disks, d);
    }
  }

  lemma StepAt(entries: seq<Entry>, e: Entry, actives: set<string>, boots: set<string>, disks: map<string, Disk>, d: string)
    requires d in disks ==> FromLast(entries, actives, boots, d, disks[d])
    requires d in Step(disks, e, actives, boots)
    ensures FromLast(entries + [e], actives, boots, d, Step(disks, e, actives, boots)[d])
  {
    if IsDisk(e) && e.name == d {
      NewlyListed(entries, e, actives, boots);
    } else {
      var i: nat :| LastDiskEntry(entries, i, d) && disks[d] == DiskFrom(entries, i, actives, boots);
      StillLast(entries, e, i, d, actives, boots);
    }
  }

  lemma NewlyListed(entries: seq<Entry>, e: Entry, actives: set<string>, boots: set<string>)
    requires IsDisk(e)
    ensures LastDiskEntry(entries + [e], |entries|, e.name)
    ensures DiskFrom(entries + [e], |entries|, actives, boots) == NewDisk(e, e.active || e.uuid in actives, e.name in boots)
  {
    var more := entries + [e];
    assert more[|entries| + 1..] == [];
    var own := NewDisk(e, e.active || e.uuid in actives, e.name in boots).partitions;
    assert own + PartitionsOf([], e.name) == own;
  }

  // ----- the operations -------------------------------------------------------

  method ExtractActiveUuid(entries: seq<Entry>) returns (uuids: set<string>)
    ensures uuids == ActiveUuids(entries)
  {
    uuids := {};
    for i := 0 to |entries|
      invariant uuids == ActiveUuids(entries[..i])
    {
      assert entries[..i + 1] == entries[..i] + [entries[i]];
      if entries[i].active && entries[i].uuid != [] {
        uuids := uuids + {entries[i].uuid};
      }
    }
    assert entries[..|entries|] == entries;
  }

  method ExtractBootDevices(entries: seq<Entry>) returns (devices: set<string>)
    ensures devices == BootDevices(entries)
  {
    devices := {};
    for i := 0 to |entries|
      invariant devices == BootDevices(entries[..i])
    {
      assert entries[..i + 1] == entries[..i] + [entries[i]];
      var device := DetectMmcBootDevice(entries[i].name);
      if device.Some? {
        devices := devices + {device.value};
      }
    }
    assert entries[..|entries|] == entries;
  }

  predicate ByDevice(a: Disk, b: Disk) {
    Less(a.device, b.device)
  }

  lemma ByDeviceIsWeakOrder()
    ensures WeakOrder(ByDevice)
  {
    LessIsWeakOrder();
    forall a, b ensures !(ByDevice(a, b) && ByDevice(b, a)) {
      NotBefore(Less, a.device, b.device, a.device);
    }
    forall a, b, c | ByDevice(a, c) ensures ByDevice(a, b) || ByDevice(b, c) {
      NotBefore(Less, a.device, b.device, c.device);
    }
  }

  /** `sort.Sort(ByDevice(..))` for disks of different devices. */
  method SortByDevice(disks: seq<Disk>) returns (sorted: seq<Disk>)
    requires NoDup(Names(disks))
    ensures Ascending(Names(sorted))
    ensures multiset(sorted) == multiset(disks)
  {
    ByDeviceIsWeakOrder();
    sorted := Sort(disks, ByDevice);
    NoDupNames(disks, sorted);
    AscendingIfDistinct(Names(sorted));
  }

  lemma NoDupNames(disks: seq<Disk>, sorted: seq<Disk>)
    requires NoDup(Names(disks)) && multiset(disks) == multiset(sorted)
    ensures NoDup(Names(sorted))
  {
    assert NoDup(disks) by {
      assert forall i :: 0 <= i < |disks| ==> Names(disks)[i] == disks[i].device;
    }
    NoDupKept(disks, sorted);
    SameMembers(disks, sorted);
    forall i, j | 0 <= i < j < |sorted| ensures Names(sorted)[i] != Names(sorted)[j] {
      assert sorted[i] in disks && sorted[j] in disks;
      var k, l :| 0 <= k < |disks| && 0 <= l < |disks| && disks[k] == sorted[i] && disks[l] == sorted[j];
      assert Names(disks)[k] == sorted[i].device && Names(disks)[l] == sorted[j].device;
    }
  }

  method AllDisks(entries: seq<Entry>) returns (results: seq<Disk>)
    ensures Listing(entries, results)
    ensures forall d :: d in results ==> exists i, at :: MadeFrom(entries, d, i, at)
    ensures forall i :: 0 <= i < |entries| && Supported(entries[i]) ==> entries[i].name in Names(results)
  {
    var activeUuids := ExtractActiveUuid(entries);
    var bootDevices := ExtractBootDevices(entries);
    var disks: map<string, Disk> := map[];
    for i := 0 to |entries|
      invariant Grouped(entries[..i], activeUuids, bootDevices, disks)
    {
      assert entries[..i + 1] == entries[..i] + [entries[i]];
      GroupedStep(entries[..i], entries[i], activeUuids, bootDevices, disks);
      var entry := entries[i];
      if IsSupportedType(entry) && IsSupportedFsType(entry) {
        var active := entry.active || entry.uuid in activeUuids;
        disks := disks[entry.name := NewDisk(entry, active, entry.name in bootDevices)];
      } else if entry.deviceType == "part" {
        var parent := ParentDevice(entry.name);
        if parent in disks {
          disks := disks[parent := disks[parent].(partitions := disks[parent].partitions + [CreatePartition(entry)])];
        }
      }
    }
    assert entries[..|entries|] == entries;
    forall k | k in disks ensures disks[k].device == k {
      assert FromLast(entries, activeUuids, bootDevices, k, disks[k]);
    }
    results := CollectValues(disks);
    ghost var collected := results;
    results := SortByDevice(results);
    SameMembers(results, collected);
    forall i | 0 <= i < |entries| && IsDisk(entries[i]) ensures entries[i].name in Names(results) {
      var disk := disks[entries[i].name];
      assert disk in results;
      var k :| 0 <= k < |results| && results[k] == disk;
      assert Names(results)[k] == entries[i].name;
    }
    forall i | 0 <= i < |entries| ensures Supported(entries[i]) <==> IsDisk(entries[i]) {
      SupportedIs(entries[i]);
    }
    forall d | d in results ensures exists i, at :: MadeFrom(entries, d, i, at) {
      var i, at := ListedFromEntries(entries, results, d);
    }
  }

  /** Ranging over the map yields its values in an arbitrary order. */
  method CollectValues(disks: map<string, Disk>) returns (results: seq<Disk>)
    requires forall k :: k in disks ==> disks[k].device == k
    ensures forall d :: d in results <==> d.device in disks && d == disks[d.device]
    ensures forall i, j :: 0 <= i < j < |results| ==> results[i].device != results[j].device
  {
    results := [];
    var pending := disks.Keys;
    while pending != {}
      invariant pending <= disks.Keys
      invariant forall d :: d in results <==> d.device in disks && d.device !in pending && d == disks[d.device]
      invariant forall i, j :: 0 <= i < j < |results| ==> results[i].device != results[j].device
    {
      var k :| k in pending;
      StillDistinct(results, disks[k]);
      results := results + [disks[k]];
      pending := pending - {k};
    }
  }

  lemma StillDistinct(disks: seq<Disk>, d: Disk)
    requires forall i, j :: 0 <= i < j < |disks| ==> disks[i].device != disks[j].device
    requires forall e :: e in disks ==> e.device != d.device
    ensures forall i, j :: 0 <= i < j < |disks + [d]| ==> (disks + [d])[i].device != (disks + [d])[j].device
  {
  }

  // ----- properties of the listing --------------------------------------------

  /** The listing does not depend on the order in which the map was ranged over. */
  lemma ListingUnique(entries: seq<Entry>, a: seq<Disk>, b: seq<Disk>)
    requires Listing(entries, a) && Listing(entries, b)
    ensures a == b
  {
    SameNames(entries, a, b);
    SameNames(entries, b, a);
    AscendingUnique(Names(a), Names(b));
    forall k | 0 <= k < |a| ensures a[k] == b[k] {
      assert Names(a)[k] == Names(b)[k];
      assert a[k] in a && b[k] in b;
      var i: nat :| LastDiskEntry(entries, i, a[k].device) && a[k] == DiskFrom(entries, i, ActiveUuids(entries), BootDevices(entries));
      var j: nat :| LastDiskEntry(entries, j, b[k].device) && b[k] == DiskFrom(entries, j, ActiveUuids(entries), BootDevices(entries));
      assert i == j;
    }
  }

  /** One disk for every name of a supported entry. */
  lemma SameNames(entries: seq<Entry>, a: seq<Disk>, b: seq<Disk>)
    requires Listing(entries, a) && Listing(entries, b)
    ensures forall d :: d in Names(a) ==> (exists i: nat :: LastDiskEntry(entries, i, d)) && d in Names(b)
  {
    forall d | d in Names(a) ensures (exists i: nat :: LastDiskEntry(entries, i, d)) && d in Names(b) {
      var k :| 0 <= k < |a| && Names(a)[k] == d;
      assert a[k] in a;
      var i: nat :| LastDiskEntry(entries, i, a[k].device) && a[k] == DiskFrom(entries, i, ActiveUuids(entries), BootDevices(entries));
      assert entries[i].name in Names(b);
    }
  }

  /** Which disks are active: those that carry a UUID of something active, and
      those without a UUID that are active themselves. */
  lemma ActiveByUuid(entries: seq<Entry>, disks: seq<Disk>, d: Disk)
    requires Listing(entries, disks) && d in disks
    ensures d.uuid != [] ==> (d.active <==> exists e :: e in entries && e.active && e.uuid == d.uuid)
    ensures d.uuid == [] ==> (d.active <==> exists i: nat :: LastDiskEntry(entries, i, d.device) && entries[i].active)
  {
    var i: nat :| LastDiskEntry(entries, i, d.device) && d == DiskFrom(entries, i, ActiveUuids(entries), BootDevices(entries));
    assert entries[i] in entries;
    assert d.active == (entries[i].active || d.uuid in ActiveUuids(entries));
  }

  /** Disks with the same non-empty UUID are active together. */
  lemma SameUuidSameActivity(entries: seq<Entry>, disks: seq<Disk>, a: Disk, b: Disk)
    requires Listing(entries, disks) && a in disks && b in disks && a.uuid == b.uuid != []
    ensures a.active == b.active
  {
    ActiveByUuid(entries, disks, a);
    ActiveByUuid(entries, disks, b);
  }

  /** The partitions of a device are its partition entries, each once, in order. */
  lemma PartitionsInOrder(entries: seq<Entry>, d: string) returns (at: seq<nat>)
    ensures |at| == |PartitionsOf(entries, d)| && Rising(at)
    ensures forall k :: 0 <= k < |at| ==> at[k] < |entries| && PartitionsOf(entries, d)[k] == CreatePartition(entries[at[k]])
    ensures forall j: nat :: j in at <==> j < |entries| && OfDevice(d)(entries[j])
  {
    at := ChosenInOrder(entries, OfDevice(d));
  }

  lemma PartitionsMember(entries: seq<Entry>, d: string, p: Partition)
    ensures p in PartitionsOf(entries, d) <==> exists j :: 0 <= j < |entries| && OfDevice(d)(entries[j]) && p == CreatePartition(entries[j])
  {
    var at := PartitionsInOrder(entries, d);
    if j :| 0 <= j < |entries| && OfDevice(d)(entries[j]) && p == CreatePartition(entries[j]) {
      assert j in at;
      var k :| 0 <= k < |at| && at[k] == j;
      assert PartitionsOf(entries, d)[k] == p;
    }
    if p in PartitionsOf(entries, d) {
      var k :| 0 <= k < |at| && PartitionsOf(entries, d)[k] == p;
      assert at[k] in at;
    }
  }

  /** Where a partition entry ends up: under the last disk entry with its
      parent's name if that comes first, and nowhere otherwise. */
  lemma PartitionPlacement(entries: seq<Entry>, disks: seq<Disk>, d: Disk, i: nat, j: nat)
    requires Listing(entries, disks) && d in disks && LastDiskEntry(entries, i, d.device)
    requires j < |entries| && OfDevice(d.device)(entries[j])
    requires forall k, l :: 0 <= k < l < |entries| ==> entries[k].name != entries[l].name
    ensures CreatePartition(entries[j]) in d.partitions <==> i < j
  {
    var p := CreatePartition(entries[j]);
    var rest := entries[i + 1..];
    PartitionsMember(rest, d.device, p);
    OnlyItsOwn(entries, disks, d, i);
    var own := if IsRaid(entries[i]) then [CreatePartition(entries[i])] else [];
    assert !IsPartition(entries[i]);
    assert i != j;
    assert entries[i].name != entries[j].name;
    assert p !in own;
    assert p in d.partitions <==> p in PartitionsOf(rest, d.device);
    if i < j {
      assert rest[j - i - 1] == entries[j];
    } else {
      assert forall k :: 0 <= k < |rest| ==> rest[k] == entries[i + 1 + k] && CreatePartition(rest[k]) != p;
    }
  }

  lemma OnlyItsOwn(entries: seq<Entry>, disks: seq<Disk>, d: Disk, i: nat)
    requires Listing(entries, disks) && d in disks && LastDiskEntry(entries, i, d.device)
    ensures d.partitions == (if IsRaid(entries[i]) then [CreatePartition(entries[i])] else []) + PartitionsOf(entries[i + 1..], d.device)
  {
    var u: nat :| LastDiskEntry(entries, u, d.device) && d == DiskFrom(entries, u, ActiveUuids(entries), BootDevices(entries));
    assert u == i;
  }

  // ----- the listing, field by field ------------------------------------------

  predicate StartsWith(s: string, prefix: string) {
    |s| >= |prefix| && s[..|prefix|] == prefix
  }

  /** `x` is the device of a boot partition in the list. */
  ghost predicate BootListed(entries: seq<Entry>, x: string) {
    exists k, a, b :: 0 <= k < |entries| && MmcBoot(entries[k].name, a, b) && x == MMC_PREFIX + a
  }

  /** The kinds of entries that become disks. */
  ghost predicate Supported(e: Entry) {
    && (e.deviceType == "disk" || e.deviceType == "loop" || StartsWith(e.deviceType, "raid"))
    && (forall a, b :: !MmcBoot(e.name, a, b))
    && e.fsType != "squashfs" && e.fsType != "linux_raid_member" && !StartsWith(e.mountPoint, "/snap")
  }

  /** The last entry of device `x` that becomes a disk. */
  ghost predicate LastOf(entries: seq<Entry>, i: nat, x: string) {
    && i < |entries| && Supported(entries[i]) && entries[i].name == x
    && forall j :: i < j < |entries| && entries[j].name == x ==> !Supported(entries[j])
  }

  predicate BelongsTo(e: Entry, x: string) {
    e.deviceType == "part" && ParentDevice(e.name) == x
  }

  predicate DescribesPartition(e: Entry, p: Partition) {
    && p.size == e.size && p.device == e.name && p.mountPoint == e.mountPoint && p.active == e.active
    && p.fsType == if StartsWith(e.deviceType, "raid") then "raid" else e.fsType
  }

  predicate DescribesDisk(e: Entry, d: Disk) {
    && d.device == e.name && d.size == e.size && d.uuid == e.uuid && d.mountPoint == e.mountPoint
    && (StartsWith(e.deviceType, "raid") ==> d.name == e.deviceType)
    && (!StartsWith(e.deviceType, "raid") && e.model != "" ==> d.name == e.model)
    && (!StartsWith(e.deviceType, "raid") && e.model == "" && StartsWith(e.name, "/dev/") ==> d.name == "Disk " + e.name[5..])
    && (!StartsWith(e.deviceType, "raid") && e.model == "" && !StartsWith(e.name, "/dev/") ==> d.name == "Disk " + e.name)
  }

  /** Entry `j` makes a partition of the disk made from entry `i`: it belongs to it and
      comes later, or it is that entry itself and a raid. */
  predicate MakesPartition(entries: seq<Entry>, i: nat, j: nat, x: string) {
    j < |entries| && if j == i then StartsWith(entries[j].deviceType, "raid") else i < j && BelongsTo(entries[j], x)
  }

  /** The partitions are made from the entries `at`, in order. */
  ghost predicate PartitionsFrom(entries: seq<Entry>, i: nat, x: string, at: seq<nat>, partitions: seq<Partition>) {
    && Rising(at) && (forall j: nat :: j in at <==> MakesPartition(entries, i, j, x))
    && |partitions| == |at|
    && forall k :: 0 <= k < |at| ==> at[k] < |entries| && DescribesPartition(entries[at[k]], partitions[k])
  }

  ghost predicate MadeFrom(entries: seq<Entry>, d: Disk, i: nat, at: seq<nat>) {
    && LastOf(entries, i, d.device) && DescribesDisk(entries[i], d)
    && (d.boot <==> BootListed(entries, d.device))
    && PartitionsFrom(entries, i, d.device, at, d.partitions)
  }

  lemma SupportedIs(e: Entry)
    ensures Supported(e) <==> IsDisk(e)
    ensures IsRaid(e) <==> StartsWith(e.deviceType, "raid")
    ensures IsPartition(e) <==> e.deviceType == "part"
  {
    MmcBootPattern(e.name);
    RaidIs(e);
    PrefixIs(e.mountPoint, "/snap");
    assert "part"[0] == 'p';
  }

  lemma RaidIs(e: Entry)
    ensures IsRaid(e) <==> StartsWith(e.deviceType, "raid")
  {
    PrefixIs(e.deviceType, "raid");
  }

  lemma PrefixIs(s: string, prefix: string)
    ensures prefix <= s <==> StartsWith(s, prefix)
  {
  }

  lemma BootIs(entries: seq<Entry>, x: string)
    ensures BootListed(entries, x) <==> x in BootDevices(entries)
  {
    forall k | 0 <= k < |entries|
      ensures DetectMmcBootDevice(entries[k].name) == Some(x) <==> exists a, b :: MmcBoot(entries[k].name, a, b) && x == MMC_PREFIX + a
    {
      MmcBootPattern(entries[k].name);
    }
    if BootListed(entries, x) {
      var k, a, b :| 0 <= k < |entries| && MmcBoot(entries[k].name, a, b) && x == MMC_PREFIX + a;
      assert DetectMmcBootDevice(entries[k].name) == Some(x);
      assert entries[k] in entries;
    }
    if x in BootDevices(entries) {
      var e :| e in entries && DetectMmcBootDevice(e.name) == Some(x);
      var k :| 0 <= k < |entries| && entries[k] == e;
    }
  }

  lemma LastIs(entries: seq<Entry>, i: nat, x: string)
    ensures LastOf(entries, i, x) <==> LastDiskEntry(entries, i, x)
  {
    forall j | 0 <= j < |entries| ensures Supported(entries[j]) <==> IsDisk(entries[j]) {
      SupportedIs(entries[j]);
    }
  }

  lemma NewDiskDescribed(e: Entry, active: bool, boot: bool)
    ensures DescribesDisk(e, NewDisk(e, active, boot)) && DescribesPartition(e, CreatePartition(e))
  {
    RaidIs(e);
    PrefixIs(e.name, "/dev/");
  }

  /** Every listed disk is what the entries say. */
  lemma ListedFromEntries(entries: seq<Entry>, disks: seq<Disk>, d: Disk) returns (i: nat, at: seq<nat>)
    requires Listing(entries, disks) && d in disks
    ensures MadeFrom(entries, d, i, at)
  {
    i :| LastDiskEntry(entries, i, d.device) && d == DiskFrom(entries, i, ActiveUuids(entries), BootDevices(entries));
    LastIs(entries, i, d.device);
    BootIs(entries, d.device);
    NewDiskDescribed(entries[i], d.active, d.boot);
    at := AllPartitionsListed(entries, i, d);
  }

  lemma AllPartitionsListed(entries: seq<Entry>, i: nat, d: Disk) returns (at: seq<nat>)
    requires LastDiskEntry(entries, i, d.device) && d == DiskFrom(entries, i, ActiveUuids(entries), BootDevices(entries))
    ensures PartitionsFrom(entries, i, d.device, at, d.partitions)
  {
    var later := PartitionsListed(entries, i, d.device);
    RaidIs(entries[i]);
    if IsRaid(entries[i]) {
      NewDiskDescribed(entries[i], d.active, d.boot);
      WithItself(entries, i, d.device, later, PartitionsOf(entries[i + 1..], d.device), CreatePartition(entries[i]));
      return [i] + later;
    }
    assert [] + PartitionsOf(entries[i + 1..], d.device) == d.partitions;
    return later;
  }

  lemma WithItself(entries: seq<Entry>, i: nat, x: string, later: seq<nat>, parts: seq<Partition>, own: Partition)
    requires i < |entries| && StartsWith(entries[i].deviceType, "raid") && DescribesPartition(entries[i], own)
    requires Rising(later) && |parts| == |later| && forall j: nat :: j in later <==> i < j < |entries| && BelongsTo(entries[j], x)
    requires forall k :: 0 <= k < |later| ==> later[k] < |entries| && DescribesPartition(entries[later[k]], parts[k])
    ensures PartitionsFrom(entries, i, x, [i] + later, [own] + parts)
  {
    var at := [i] + later;
    MembersWithItself(entries, i, x, later, at);
    forall k | 0 <= k < |at| ensures at[k] < |entries| && DescribesPartition(entries[at[k]], ([own] + parts)[k]) {
      assert k > 0 ==> at[k] == later[k - 1] && ([own] + parts)[k] == parts[k - 1];
    }
  }

  lemma MembersWithItself(entries: seq<Entry>, i: nat, x: string, later: seq<nat>, at: seq<nat>)
    requires i < |entries| && StartsWith(entries[i].deviceType, "raid") && at == [i] + later
    requires Rising(later) && forall j: nat :: j in later <==> i < j < |entries| && BelongsTo(entries[j], x)
    ensures Rising(at) && forall j: nat :: j in at <==> MakesPartition(entries, i, j, x)
  {
    assert forall k :: 0 <= k < |later| ==> later[k] in later;
  }

  lemma Shifted(from: seq<nat>, shift: nat) returns (at: seq<nat>)
    requires Rising(from)
    ensures |at| == |from| && (forall k :: 0 <= k < |at| ==> at[k] == from[k] + shift) && Rising(at)
    ensures forall j: nat :: j in at <==> shift <= j && j - shift in from
  {
    at := seq(|from|, k requires 0 <= k < |from| => from[k] + shift);
    forall j: nat ensures j in at <==> shift <= j && j - shift in from {
      if shift <= j && j - shift in from {
        var k :| 0 <= k < |from| && from[k] == j - shift;
        assert at[k] == j;
      }
      if j in at {
        var k :| 0 <= k < |at| && at[k] == j;
        assert from[k] in from;
      }
    }
  }

  lemma OfDeviceIs(e: Entry, x: string)
    ensures OfDevice(x)(e) <==> BelongsTo(e, x)
  {
    SupportedIs(e);
  }

  /** The entries behind `PartitionsOf`. */
  lemma PartitionsListed(entries: seq<Entry>, i: nat, x: string) returns (at: seq<nat>)
    requires i < |entries|
    ensures Rising(at) && forall j: nat :: j in at <==> i < j < |entries| && BelongsTo(entries[j], x)
    ensures var parts := PartitionsOf(entries[i + 1..], x);
            |parts| == |at| && forall k :: 0 <= k < |at| ==> at[k] < |entries| && DescribesPartition(entries[at[k]], parts[k])
  {
    var rest := entries[i + 1..];
    var from := PartitionsInOrder(rest, x);
    at := Shifted(from, i + 1);
    forall j: nat ensures j in at <==> i < j < |entries| && BelongsTo(entries[j], x) {
      if i < j < |entries| {
        OfDeviceIs(entries[j], x);
        assert rest[j - i - 1] == entries[j];
      }
    }
    AllDescribed(entries, i, x, from, at);
  }

  lemma AllDescribed(entries: seq<Entry>, i: nat, x: string, from: seq<nat>, at: seq<nat>)
    requires i < |entries| && |from| == |at| == |PartitionsOf(entries[i + 1..], x)|
    requires forall k :: 0 <= k < |at| ==> at[k] == from[k] + i + 1 && from[k] < |entries[i + 1..]|
    requires forall k :: 0 <= k < |at| ==> PartitionsOf(entries[i + 1..], x)[k] == CreatePartition(entries[i + 1..][from[k]])
    ensures forall k :: 0 <= k < |at| ==> at[k] < |entries| && DescribesPartition(entries[at[k]], PartitionsOf(entries[i + 1..], x)[k])
  {
    forall k | 0 <= k < |at| ensures at[k] < |entries| && DescribesPartition(entries[at[k]], PartitionsOf(entries[i + 1..], x)[k]) {
      assert entries[i + 1..][from[k]] == entries[at[k]];
      NewDiskDescribed(entries[at[k]], false, false);
    }
  }

  // ----- available disks ------------------------------------------------------

  predicate IsRoot(p: Partition) {
    p.mountPoint == "/"
  }

  method FindRootPartition(d: Disk) returns (p: Option<Partition>)
    ensures p == None <==> forall q :: q in d.partitions ==> !IsRoot(q)
    ensures p.Some? ==> exists k :: 0 <= k < |d.partitions| && d.partitions[k] == p.value && IsRoot(p.value) && forall j :: 0 <= j < k ==> !IsRoot(d.partitions[j])
  {
    for k := 0 to |d.partitions|
      invariant forall j :: 0 <= j < k ==> !IsRoot(d.partitions[j])
    {
      if IsRoot(d.partitions[k]) {
        return Some(d.partitions[k]);
      }
    }
    return None;
  }

  predicate Available(d: Disk) {
    !d.boot && forall p :: p in d.partitions ==> !IsRoot(p)
  }

  ghost function Keep(disks: seq<Disk>): seq<Disk> {
    Chosen(disks, d => Available(d))
  }

  /** Whether device `x` can be offered: none of its boot partitions and no root file
      system on it is listed. */
  ghost predicate Offered(entries: seq<Entry>, x: string) {
    exists i: nat :: LastOf(entries, i, x) && Free(entries, i, x)
  }

  ghost predicate Free(entries: seq<Entry>, i: nat, x: string)
    requires i < |entries|
  {
    && !BootListed(entries, x)
    && !(StartsWith(entries[i].deviceType, "raid") && entries[i].mountPoint == "/")
    && forall j :: i < j < |entries| && BelongsTo(entries[j], x) ==> entries[j].mountPoint != "/"
  }

  lemma AvailableIsFree(entries: seq<Entry>, d: Disk, i: nat, at: seq<nat>)
    requires MadeFrom(entries, d, i, at)
    ensures Available(d) <==> Free(entries, i, d.device)
  {
    if Available(d) {
      FreeIfAvailable(entries, d, i, at);
    }
    if Free(entries, i, d.device) {
      forall k | 0 <= k < |d.partitions| ensures !IsRoot(d.partitions[k]) {
        NoRootAt(entries, d, i, at, k);
      }
    }
  }

  lemma FreeIfAvailable(entries: seq<Entry>, d: Disk, i: nat, at: seq<nat>)
    requires MadeFrom(entries, d, i, at) && Available(d)
    ensures Free(entries, i, d.device)
  {
    forall j: nat | MakesPartition(entries, i, j, d.device) ensures entries[j].mountPoint != "/" {
      var k := PartitionAt(entries, i, d.device, at, d.partitions, j);
      assert d.partitions[k] in d.partitions;
    }
    assert !MakesPartition(entries, i, i, d.device) || entries[i].mountPoint != "/";
    forall j: nat | i < j < |entries| && BelongsTo(entries[j], d.device) ensures entries[j].mountPoint != "/" {
      assert MakesPartition(entries, i, j, d.device);
    }
  }

  lemma PartitionAt(entries: seq<Entry>, i: nat, x: string, at: seq<nat>, partitions: seq<Partition>, j: nat) returns (k: nat)
    requires PartitionsFrom(entries, i, x, at, partitions) && MakesPartition(entries, i, j, x)
    ensures k < |partitions| && partitions[k].mountPoint == entries[j].mountPoint
  {
    assert j in at;
    k :| k < |at| && at[k] == j;
  }

  lemma NoRootAt(entries: seq<Entry>, d: Disk, i: nat, at: seq<nat>, k: nat)
    requires MadeFrom(entries, d, i, at) && Free(entries, i, d.device) && k < |d.partitions|
    ensures !IsRoot(d.partitions[k])
  {
    assert at[k] in at;
    assert MakesPartition(entries, i, at[k], d.device);
  }

  lemma LastOnce(entries: seq<Entry>, i: nat, j: nat, x: string)
    requires LastOf(entries, i, x) && LastOf(entries, j, x)
    ensures i == j
  {
  }

  /** Exactly which devices are offered, told from the entries alone. */
  lemma OfferedAre(entries: seq<Entry>, all: seq<Disk>, x: string)
    requires Listing(entries, all)
    ensures (exists d :: d in Keep(all) && d.device == x) <==> Offered(entries, x)
  {
    ChosenMembers(all, d => Available(d));
    if d :| d in Keep(all) && d.device == x {
      var i, at := ListedFromEntries(entries, all, d);
      AvailableIsFree(entries, d, i, at);
    }
    if Offered(entries, x) {
      var i: nat :| LastOf(entries, i, x) && Free(entries, i, x);
      LastIs(entries, i, x);
      assert entries[i].name in Names(all);
      var k :| 0 <= k < |all| && Names(all)[k] == x;
      var d := all[k];
      assert d in all;
      var l, at := ListedFromEntries(entries, all, d);
      LastOnce(entries, i, l, x);
      AvailableIsFree(entries, d, i, at);
      assert d in Keep(all) && d.device == x;
    }
  }

  ghost predicate OffersExactly(entries: seq<Entry>, disks: seq<Disk>) {
    forall x :: (exists d :: d in disks && d.device == x) <==> Offered(entries, x)
  }

  lemma AllOffered(entries: seq<Entry>, all: seq<Disk>)
    requires Listing(entries, all)
    ensures OffersExactly(entries, Keep(all))
  {
    forall x ensures (exists d :: d in Keep(all) && d.device == x) <==> Offered(entries, x) {
      OfferedAre(entries, all, x);
    }
  }

  method AvailableDisks(entries: seq<Entry>) returns (disks: seq<Disk>)
    ensures exists all :: Listing(entries, all) && disks == Keep(all)
    ensures forall all :: Listing(entries, all) ==> disks == Keep(all)
    ensures OffersExactly(entries, disks)
  {
    var all := AllDisks(entries);
    disks := [];
    for i := 0 to |all|
      invariant disks == Keep(all[..i])
    {
      assert all[..i + 1][..i] == all[..i];
      var root := FindRootPartition(all[i]);
      if root == None && !all[i].boot {
        disks := disks + [all[i]];
      }
    }
    assert all[..|all|] == all;
    forall other | Listing(entries, other) ensures other == all {
      ListingUnique(entries, all, other);
    }
    AllOffered(entries, all);
  }
}
