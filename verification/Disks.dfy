/** Disk activation: chooses the file system and hands the change to the planner. */
module Disks {
  import opened Helpers
  import opened Lsblk
  import opened Text
  import Btrfs

  /** Everything outside the btrfs tools that activation touches, in order. */
  datatype Effect = Relink(external: bool) | DiskEvent | RemoveMount | Reconfigure

  /** Which outside calls succeed; the first disk event may fail unnoticed. */
  datatype Io = Io(listed: bool, unlinked: bool, unmounted: bool, linked: bool, notified: bool)

  // ----- choosing the inputs --------------------------------------------------

  function ActiveDevices(disks: seq<Disk>): seq<string> {
    Names(Chosen(disks, (d: Disk) => d.active))
  }

  predicate Carries(devices: seq<string>, d: Disk, active: bool) {
    (active ==> d.active) && d.device in devices && d.uuid != []
  }

  /** The UUID of the first listed disk among `devices` that carries one. */
  function UuidOf(devices: seq<string>, disks: seq<Disk>, active: bool): (uuid: Option<string>)
    ensures uuid == None <==> forall d :: d in disks ==> !Carries(devices, d, active)
    ensures uuid.Some? ==> exists d :: d in disks && Carries(devices, d, active) && d.uuid == uuid.value
  {
    if disks == [] then None
    else if Carries(devices, disks[0], active) then Some(disks[0].uuid)
    else UuidOf(devices, disks[1..], active)
  }

  /** That of a selected active disk, else that of any selected disk. */
  function UuidToUse(devices: seq<string>, disks: seq<Disk>): Option<string> {
    if UuidOf(devices, disks, true).Some? then UuidOf(devices, disks, true) else UuidOf(devices, disks, false)
  }

  method FirstActiveUuid(devices: seq<string>, disks: seq<Disk>) returns (uuid: Option<string>)
    ensures uuid == UuidOf(devices, disks, true)
  {
    for k := 0 to |disks|
      invariant UuidOf(devices, disks, true) == UuidOf(devices, disks[k..], true)
    {
      if disks[k].active {
        if disks[k].device in devices {
          if disks[k].uuid != [] {
            return Some(disks[k].uuid);
          }
        }
      }
    }
    return None;
  }

  method FirstUuid(devices: seq<string>, disks: seq<Disk>) returns (uuid: Option<string>)
    ensures uuid == UuidOf(devices, disks, false)
  {
    for k := 0 to |disks|
      invariant UuidOf(devices, disks, false) == UuidOf(devices, disks[k..], false)
    {
      if disks[k].device in devices {
        if disks[k].uuid != [] {
          return Some(disks[k].uuid);
        }
      }
    }
    return None;
  }

  method CollectActive(disks: seq<Disk>) returns (devices: seq<string>)
    ensures devices == ActiveDevices(disks)
  {
    devices := [];
    for k := 0 to |disks|
      invariant devices == ActiveDevices(disks[..k])
    {
      assert disks[..k + 1][..k] == disks[..k];
      if disks[k].active {
        devices := devices + [disks[k].device];
      }
    }
    assert disks[..|disks|] == disks;
  }

  const ACTIVATION := [Relink(false), DiskEvent, RemoveMount, Reconfigure, Relink(true), DiskEvent]

  // ----- activation -----------------------------------------------------------

  function Plan(devices: seq<string>, format: bool, freshUuid: string, disks: seq<Disk>): seq<Btrfs.Command> {
    var uuid := UuidToUse(devices, disks);
    Btrfs.Plan(ActiveDevices(disks), devices, if format then freshUuid else if uuid.Some? then uuid.value else "", format)
  }

  /** How far activation gets. */
  function Steps(devices: seq<string>, format: bool, freshUuid: string, disks: seq<Disk>, io: Io, failing: nat): (n: nat)
    ensures n <= 6
  {
    if devices == [] || !io.listed then 0
    else if !io.unlinked then 1
    else if !io.unmounted || (!format && UuidToUse(devices, disks) == None) then 3
    else if failing < |Plan(devices, format, freshUuid, disks)| then 4
    else if !io.linked then 5 else 6
  }

  /** The planner is reached only with a UUID or for a format. */
  lemma PlannerHasUuid(devices: seq<string>, format: bool, freshUuid: string, disks: seq<Disk>, io: Io, failing: nat)
    ensures Steps(devices, format, freshUuid, disks, io, failing) > 3 ==> format || exists d :: d in disks && Carries(devices, d, false)
  {
  }

  lemma Joined<T>(s: seq<T>, i: nat, j: nat)
    requires i <= j <= |s|
    ensures s[..i] + s[i..j] == s[..j]
    ensures i < j ==> [s[i]] + s[i + 1..j] == s[i..j]
  {
  }

  /** The planner's commands are issued exactly if activation gets that far. */
  ghost predicate Outcome(devices: seq<string>, format: bool, freshUuid: string, disks: seq<Disk>, io: Io, failing: nat, issued: seq<Btrfs.Command>, ok: bool) {
    var steps := Steps(devices, format, freshUuid, disks, io, failing);
    && issued == (if steps > 3 then Btrfs.Cut(Plan(devices, format, freshUuid, disks), failing) else [])
    && (ok <==> steps == 6 && io.notified)
  }

  /** Disks are selected, everything before went through, and there is a file system
      to be changed or one is to be made. */
  ghost predicate MayReconfigure(devices: seq<string>, format: bool, disks: seq<Disk>, io: Io) {
    && devices != [] && io.listed && io.unlinked && io.unmounted
    && (format || exists d :: d in disks && d.device in devices && d.uuid != [])
  }

  lemma ReconfiguresIff(devices: seq<string>, format: bool, freshUuid: string, disks: seq<Disk>, io: Io, failing: nat)
    ensures var steps := Steps(devices, format, freshUuid, disks, io, failing);
            && (Reconfigure in ACTIVATION[..steps] <==> MayReconfigure(devices, format, disks, io))
            && (steps > 3 <==> MayReconfigure(devices, format, disks, io))
  {
    var steps := Steps(devices, format, freshUuid, disks, io, failing);
    assert steps > 3 ==> ACTIVATION[..steps][3] == Reconfigure;
    assert UuidToUse(devices, disks) == None <==> forall d :: d in disks ==> !Carries(devices, d, false);
    if d :| d in disks && d.device in devices && d.uuid != [] {
      assert Carries(devices, d, false);
    }
    if d :| d in disks && Carries(devices, d, false) {
      assert d.device in devices && d.uuid != [];
    }
  }

  class Disks {
    var failed: bool  // the last activation ended in an error

    constructor ()
      ensures !failed
    {
      failed := false;
    }

    method ActivateDisks(devices: seq<string>, format: bool, freshUuid: string, disks: seq<Disk>, io: Io, executor: Btrfs.Executor)
      returns (ok: bool, effects: seq<Effect>)
      requires executor.issued == []
      modifies this, executor
      ensures failed == !ok
      ensures Outcome(devices, format, freshUuid, disks, io, executor.failing, executor.issued, ok)
      ensures effects == ACTIVATION[..Steps(devices, format, freshUuid, disks, io, executor.failing)]
      ensures Reconfigure in effects <==> MayReconfigure(devices, format, disks, io)
      ensures executor.issued != [] ==> Reconfigure in effects
      ensures ok <==> Reconfigure in effects && |Plan(devices, format, freshUuid, disks)| <= executor.failing && io.linked && io.notified
    {
      ReconfiguresIff(devices, format, freshUuid, disks, io, executor.failing);
      ok, effects := Activate(devices, format, freshUuid, disks, io, executor);
      failed := !ok;
    }

    method Update(devices: seq<string>, format: bool, freshUuid: string, disks: seq<Disk>, uuid: Option<string>, executor: Btrfs.Executor)
      returns (ok: bool)
      requires executor.issued == [] && uuid == UuidToUse(devices, disks)
      modifies executor
      ensures executor.issued == Btrfs.Cut(Plan(devices, format, freshUuid, disks), executor.failing)
      ensures ok <==> |Plan(devices, format, freshUuid, disks)| <= executor.failing
    {
      var existingDevices := CollectActive(disks);
      var uuidToUse := if uuid.Some? then uuid.value else "";
      ghost var plan := Btrfs.Plan(existingDevices, devices, if format then freshUuid else uuidToUse, format);
      assert plan == Plan(devices, format, freshUuid, disks);
      var _, updated := Btrfs.Update(existingDevices, devices, uuidToUse, freshUuid, format, executor);
      ok := updated;
      Btrfs.IssuedFromNothing(executor.failing, executor.issued, plan, ok);
    }

    method Activate(devices: seq<string>, format: bool, freshUuid: string, disks: seq<Disk>, io: Io, executor: Btrfs.Executor)
      returns (ok: bool, effects: seq<Effect>)
      requires executor.issued == []
      modifies executor
      ensures Outcome(devices, format, freshUuid, disks, io, executor.failing, executor.issued, ok)
      ensures effects == ACTIVATION[..Steps(devices, format, freshUuid, disks, io, executor.failing)]
    {
      effects := [];
      if |devices| < 1 || !io.listed { return false, effects; }
      ok, effects := Deactivate(io);
      if !ok { return; }
      var more;
      ok, more := Reconfigured(devices, format, freshUuid, disks, io, executor);
      Joined(ACTIVATION, 3, Steps(devices, format, freshUuid, disks, io, executor.failing));
      effects := effects + more;
    }

    /** The choice of the UUID, the planner, and the links. */
    method Reconfigured(devices: seq<string>, format: bool, freshUuid: string, disks: seq<Disk>, io: Io, executor: Btrfs.Executor)
      returns (ok: bool, effects: seq<Effect>)
      requires executor.issued == [] && devices != [] && io.listed && io.unlinked && io.unmounted
      modifies executor
      ensures Outcome(devices, format, freshUuid, disks, io, executor.failing, executor.issued, ok)
      ensures effects == ACTIVATION[3..Steps(devices, format, freshUuid, disks, io, executor.failing)]
    {
      var uuid := ChooseUuid(devices, disks);
      if uuid == None && !format { return false, []; }
      effects := [Reconfigure];
      ghost var plan := Plan(devices, format, freshUuid, disks);
      Joined(ACTIVATION, 3, 4);
      ok := Update(devices, format, freshUuid, disks, uuid, executor);
      assert executor.issued == Btrfs.Cut(plan, executor.failing) && (ok <==> |plan| <= executor.failing);
      if !ok { return; }
      var common;
      ok, common := ActivateCommon(io);
      Joined(ACTIVATION, 3, if io.linked then 6 else 5);
      effects := effects + common;
    }

    method ChooseUuid(devices: seq<string>, disks: seq<Disk>) returns (uuid: Option<string>)
      ensures uuid == UuidToUse(devices, disks)
    {
      var existingUuid := FirstActiveUuid(devices, disks);
      var newUuid := FirstUuid(devices, disks);
      uuid := if existingUuid.Some? then existingUuid else newUuid;
    }

    method Deactivate(io: Io) returns (ok: bool, effects: seq<Effect>)
      ensures effects == ACTIVATION[..if io.unlinked then 3 else 1]
      ensures ok <==> io.unlinked && io.unmounted
    {
      effects := [Relink(false)];
      if !io.unlinked { return false, effects; }
      effects := effects + [DiskEvent];  // its errors are only logged
      effects := effects + [RemoveMount];
      return io.unmounted, effects;
    }

    method ActivateCommon(io: Io) returns (ok: bool, effects: seq<Effect>)
      ensures effects == ACTIVATION[4..if io.linked then 6 else 5]
      ensures ok <==> io.linked && io.notified
    {
      effects := [Relink(true)];
      if !io.linked { return false, effects; }
      effects := effects + [DiskEvent];
      return io.notified, effects;
    }
  }

  /** Whether the link leads to the external disk after the first `k` effects, and
      `before` before them. */
  function LinkedAfter(effects: seq<Effect>, k: nat, before: bool): bool
    requires k <= |effects|
  {
    if k == 0 then before
    else if effects[k - 1].Relink? then effects[k - 1].external else LinkedAfter(effects, k - 1, before)
  }

  /** However far an activation gets: nothing is unmounted or changed while the link
      leads to the external disk; it leads there again only at the end, after all
      commands of the planner; and what listens is told of each change of the link. */
  lemma NothingChangesUnderTheLink(devices: seq<string>, format: bool, freshUuid: string, disks: seq<Disk>, io: Io, failing: nat,
                                   effects: seq<Effect>, before: bool)
    requires effects == ACTIVATION[..Steps(devices, format, freshUuid, disks, io, failing)]
    ensures forall k :: 0 <= k < |effects| && effects[k] in {RemoveMount, Reconfigure} ==> !LinkedAfter(effects, k, before)
    ensures forall k :: 0 <= k < |effects| && effects[k] == Reconfigure ==> RemoveMount in effects[..k]
    ensures effects != [] ==> (LinkedAfter(effects, |effects|, before) <==> Relink(true) in effects)
    ensures Relink(true) in effects ==> Reconfigure in effects && |Plan(devices, format, freshUuid, disks)| <= failing
    ensures forall k :: 0 <= k && k + 1 < |effects| && effects[k].Relink? ==> effects[k + 1] == DiskEvent
  {
    EffectsAre(effects);
    LinkedAlong(effects, before);
  }

  lemma EffectsAre(effects: seq<Effect>)
    requires effects <= ACTIVATION
    ensures forall k :: 0 <= k < |effects| ==> (effects[k] == RemoveMount <==> k == 2) && (effects[k] == Reconfigure <==> k == 3)
                                               && (effects[k] == Relink(true) <==> k == 4) && (effects[k].Relink? <==> k == 0 || k == 4)
    ensures Relink(true) in effects <==> |effects| > 4
    ensures |effects| > 3 ==> Reconfigure in effects && RemoveMount in effects[..3]
    ensures forall k :: 0 <= k && k + 1 < |effects| && effects[k].Relink? ==> effects[k + 1] == DiskEvent
  {
    assert forall k :: 0 <= k < |effects| ==> effects[k] == ACTIVATION[k];
    assert |effects| > 3 ==> effects[..3][2] == RemoveMount && effects[3] == Reconfigure;
    assert |effects| > 4 ==> effects[4] == Relink(true);
  }

  lemma LinkedAlong(effects: seq<Effect>, before: bool)
    requires effects <= ACTIVATION
    ensures forall k :: 1 <= k <= |effects| ==> LinkedAfter(effects, k, before) == (k > 4)
  {
    assert |effects| > 0 ==> effects[0] == Relink(false);
    assert |effects| > 1 ==> effects[1] == DiskEvent;
    assert |effects| > 2 ==> effects[2] == RemoveMount;
    assert |effects| > 3 ==> effects[3] == Reconfigure;
    assert |effects| > 4 ==> effects[4] == Relink(true);
    assert |effects| > 5 ==> effects[5] == DiskEvent;
    forall k | 1 <= k <= |effects| ensures LinkedAfter(effects, k, before) == (k > 4) {
      LinkedAt(effects, k, before);
    }
  }

  lemma {:induction false} LinkedAt(effects: seq<Effect>, k: nat, before: bool)
    requires effects <= ACTIVATION && 1 <= k <= |effects|
    ensures LinkedAfter(effects, k, before) == (k > 4)
  {
    if k > 1 {
      LinkedAt(effects, k - 1, before);
    }
    assert effects[k - 1] == ACTIVATION[k - 1];
  }

  // ----- discovery, choice and plan together ----------------------------------

  lemma ActiveDevicesContents(disks: seq<Disk>)
    requires Ascending(Names(disks))
    ensures NoDup(ActiveDevices(disks))
    ensures forall x :: x in ActiveDevices(disks) <==> exists d :: d in disks && d.active && d.device == x
  {
    var keep := (d: Disk) => d.active;
    var at := ChosenInOrder(disks, keep);
    var active := Chosen(disks, keep);
    forall k, l | 0 <= k < l < |active| ensures active[k].device != active[l].device {
      assert Less(Names(disks)[at[k]], Names(disks)[at[l]]);
      LessIrreflexive(active[k].device);
    }
    ChosenMembers(disks, keep);
    forall x ensures x in ActiveDevices(disks) <==> exists d :: d in disks && d.active && d.device == x {
      NamesMember(active, x);
    }
  }

  lemma NamesMember(disks: seq<Disk>, x: string)
    ensures x in Names(disks) <==> exists d :: d in disks && d.device == x
  {
    if x in Names(disks) {
      var k :| 0 <= k < |Names(disks)| && Names(disks)[k] == x;
      assert disks[k] in disks;
    }
    if d :| d in disks && d.device == x {
      var k :| 0 <= k < |disks| && disks[k] == d;
      assert Names(disks)[k] == x;
    }
  }

  /** The listing is of this world: what is mounted is what some entry shows as
      mounted, and the disks carry the UUIDs of the file systems that they are in. */
  ghost predicate Shows(w: Btrfs.World, entries: seq<Entry>, disks: seq<Disk>) {
    Listing(entries, disks) && Carried(w, entries, disks)
  }

  ghost predicate Carried(w: Btrfs.World, entries: seq<Entry>, disks: seq<Disk>) {
    && "" !in w.systems
    && (w.mounted.Some? ==> w.mounted.value in w.systems && exists e :: e in entries && e.active && e.uuid == w.mounted.value)
    && (forall e :: e in entries && e.active ==> w.mounted == Some(e.uuid))
    && (forall d :: d in disks && d.uuid != [] ==> d.uuid in w.systems && d.device in w.systems[d.uuid].devices)
    && (forall u :: u in w.systems ==> forall x :: x in w.systems[u].devices ==> exists d :: d in disks && d.device == x && d.uuid == u)
  }

  lemma ActiveIsMounted(w: Btrfs.World, entries: seq<Entry>, disks: seq<Disk>, d: Disk)
    requires Shows(w, entries, disks) && d in disks
    ensures d.active <==> w.mounted == Some(d.uuid)
  {
    ActiveByUuid(entries, disks, d);
  }

  lemma ActiveInUse(w: Btrfs.World, entries: seq<Entry>, disks: seq<Disk>)
    requires Shows(w, entries, disks) && Btrfs.WellKept(w)
    ensures Btrfs.InUse(w, ActiveDevices(disks))
  {
    ActiveDevicesContents(disks);
    var before := ActiveDevices(disks);
    forall d | d in disks ensures d.active <==> w.mounted == Some(d.uuid) {
      ActiveIsMounted(w, entries, disks, d);
    }
    if w.mounted == None {
      SameEmptiness(before, []);
    } else {
      DevicesInUse(w, entries, disks, before);
    }
  }

  lemma DevicesInUse(w: Btrfs.World, entries: seq<Entry>, disks: seq<Disk>, before: seq<string>)
    requires Shows(w, entries, disks) && w.mounted.Some?
    requires forall d :: d in disks ==> (d.active <==> w.mounted == Some(d.uuid))
    requires forall x :: x in before <==> exists d :: d in disks && d.active && d.device == x
    ensures Btrfs.Devices(before) == w.systems[w.mounted.value].devices
  {
    var system := w.systems[w.mounted.value];
    forall x ensures x in before <==> x in system.devices {
      if x in before {
        var d :| d in disks && d.active && d.device == x;
      }
      if x in system.devices {
        var d :| d in disks && d.device == x && d.uuid == w.mounted.value;
      }
    }
  }

  predicate SomeActiveSelected(devices: seq<string>, disks: seq<Disk>) {
    exists d :: d in disks && d.active && d.device in devices
  }

  /** Activation without formatting, from the listing to the file systems.  It goes
      through without error if nothing is in use, or if a disk in use is selected and
      the request is no shrink that the planner fails to balance.  It reaches the
      selection if and only if, moreover, what is selected when nothing is in use is
      exactly the file system whose UUID was found: otherwise that file system is
      mounted as it is, and no other selected device is added. */
  lemma ActivationReaches(w: Btrfs.World, entries: seq<Entry>, disks: seq<Disk>, devices: seq<string>)
    requires Shows(w, entries, disks) && Btrfs.WellKept(w) && NoDup(devices) && devices != []
    requires UuidToUse(devices, disks).Some?
    ensures var uuid, before := UuidToUse(devices, disks).value, ActiveDevices(disks);
            && uuid in w.systems
            && var r := Btrfs.ReplayIn(w.(mounted := None), Plan(devices, false, "", disks));
               && (r.Some? <==> before == [] || (SomeActiveSelected(devices, disks) && !Btrfs.UnbalancedShrink(before, devices)))
               && (r.Some? && Btrfs.Serves(r.value, uuid, devices) <==>
                     if before == [] then w.systems[uuid].devices == Btrfs.Devices(devices)
                     else SomeActiveSelected(devices, disks) && !Btrfs.UnbalancedShrink(before, devices))
  {
    var uuid, before := UuidToUse(devices, disks).value, ActiveDevices(disks);
    ActiveDevicesContents(disks);
    ActiveInUse(w, entries, disks);
    var active := UuidOf(devices, disks, true).Some?;
    var chosen :| chosen in disks && Carries(devices, chosen, active) && chosen.uuid == uuid;
    assert chosen.device in w.systems[uuid].devices;
    ActiveIsMounted(w, entries, disks, chosen);
    SharedIsActive(w, entries, disks, devices);
    Btrfs.PlanServes(w, uuid, before, devices);
  }

  /** A selected device is in use exactly when some selected disk is active. */
  lemma SharedIsActive(w: Btrfs.World, entries: seq<Entry>, disks: seq<Disk>, devices: seq<string>)
    requires Shows(w, entries, disks)
    ensures Btrfs.SomeShared(ActiveDevices(disks), devices) <==> SomeActiveSelected(devices, disks)
    ensures SomeActiveSelected(devices, disks) <==> UuidOf(devices, disks, true).Some?
  {
    ActiveDevicesContents(disks);
    if x :| x in ActiveDevices(disks) && x in devices {
      var d :| d in disks && d.active && d.device == x;
    }
    if d :| d in disks && d.active && d.device in devices {
      assert d.device in ActiveDevices(disks);
      ActiveIsMounted(w, entries, disks, d);
      assert Carries(devices, d, true);
    }
  }

  // ----- the two failures occur -----------------------------------------------

  function Plain(name: string, uuid: string, active: bool): Entry {
    Entry(name, "1G", "disk", "", "btrfs", "", active, uuid)
  }

  lemma PlainIsDisk(e: Entry)
    requires e == Plain(e.name, e.uuid, e.active) && !(MMC_PREFIX <= e.name)
    ensures IsDisk(e) && !IsRaid(e)
  {
    assert e.deviceType[0] == 'd';
  }

  lemma PlainFirst(e: Entry, next: seq<Entry>, entries: seq<Entry>, actives: set<string>)
    requires entries == [e] + next && IsDisk(e) && !IsRaid(e) && forall f :: f in next ==> IsDisk(f) && f.name != e.name
    ensures LastDiskEntry(entries, 0, e.name) && DiskFrom(entries, 0, actives, {}) == NewDisk(e, e.active || e.uuid in actives, false)
  {
    assert entries[1..] == next;
    NoPartitions(next, e.name);
  }

  lemma {:induction false} NoPartitions(entries: seq<Entry>, d: string)
    requires forall e :: e in entries ==> IsDisk(e)
    ensures PartitionsOf(entries, d) == []
  {
    if entries != [] {
      var n := |entries| - 1;
      NoPartitions(entries[..n], d);
      assert entries[n] in entries;
      assert entries == entries[..n] + [entries[n]];
      PartitionsGrow(entries[..n], entries[n], d);
    }
  }

  /** Two disks without partitions, of which the first may be in use. */
  ghost predicate TwoPlain(e: Entry, f: Entry, disks: seq<Disk>) {
    && e == Plain(e.name, e.uuid, e.active) && f == Plain(f.name, f.uuid, false)
    && Less(e.name, f.name) && !(MMC_PREFIX <= e.name) && !(MMC_PREFIX <= f.name)
    && e.uuid != [] && e.uuid != f.uuid
    && disks == [NewDisk(e, e.active, false), NewDisk(f, false, false)]
  }

  lemma FirstFromLast(e: Entry, f: Entry, disks: seq<Disk>, actives: set<string>)
    requires TwoPlain(e, f, disks) && actives == if e.active then {e.uuid} else {}
    ensures FromLast([e, f], actives, {}, e.name, disks[0])
  {
    LessIrreflexive(e.name);
    PlainIsDisk(e);
    PlainIsDisk(f);
    PlainFirst(e, [f], [e, f], actives);
  }

  lemma SecondFromLast(e: Entry, f: Entry, disks: seq<Disk>, actives: set<string>)
    requires TwoPlain(e, f, disks) && actives == if e.active then {e.uuid} else {}
    ensures FromLast([e, f], actives, {}, f.name, disks[1])
  {
    PlainIsDisk(f);
    var entries, last := [e, f], [f];
    PlainFirst(f, [], last, actives);
    assert entries[2..] == last[1..];
    assert LastDiskEntry(entries, 1, f.name) && DiskFrom(entries, 1, actives, {}) == disks[1];
  }

  lemma TwoNames(c: Disk, d: Disk)
    requires Less(c.device, d.device)
    ensures Ascending(Names([c, d])) && c.device in Names([c, d]) && d.device in Names([c, d])
  {
    var names := Names([c, d]);
    assert names[0] == c.device && names[1] == d.device;
  }

  lemma TwoDisks(e: Entry, f: Entry, c: Disk, d: Disk)
    requires Less(c.device, d.device) && e.name == c.device && f.name == d.device
    requires FromLast([e, f], ActiveUuids([e, f]), BootDevices([e, f]), c.device, c)
    requires FromLast([e, f], ActiveUuids([e, f]), BootDevices([e, f]), d.device, d)
    ensures Listing([e, f], [c, d])
  {
    TwoNames(c, d);
    var entries, disks := [e, f], [c, d];
    forall i | 0 <= i < |entries| ensures entries[i].name in Names(disks) {
      assert i == 0 || i == 1;
    }
    forall g | g in disks ensures FromLast(entries, ActiveUuids(entries), BootDevices(entries), g.device, g) {
      assert g == c || g == d;
    }
  }

  lemma ActiveInPlain(e: Entry, f: Entry, disks: seq<Disk>)
    requires TwoPlain(e, f, disks)
    ensures ActiveUuids([e, f]) == (if e.active then {e.uuid} else {}) && BootDevices([e, f]) == {}
  {
    var entries := [e, f];
    assert entries[0] == e;
    forall g | g in entries ensures DetectMmcBootDevice(g.name) == None && (g.active ==> g == e) {
      assert g == e || g == f;
    }
  }

  lemma PlainListing(e: Entry, f: Entry, disks: seq<Disk>)
    requires TwoPlain(e, f, disks)
    ensures Listing([e, f], disks)
  {
    ActiveInPlain(e, f, disks);
    FirstFromLast(e, f, disks, ActiveUuids([e, f]));
    SecondFromLast(e, f, disks, ActiveUuids([e, f]));
    TwoDisks(e, f, disks[0], disks[1]);
  }

  /** A disk `e` with a file system, a blank disk `f`, and nothing in use. */
  ghost predicate OneBlank(e: Entry, f: Entry, disks: seq<Disk>, w: Btrfs.World) {
    && TwoPlain(e, f, disks) && !e.active && f.uuid == []
    && w == Btrfs.World(map[e.uuid := Btrfs.Fs({e.name}, Btrfs.Single)], None)
  }

  lemma BlankCarried(e: Entry, f: Entry, disks: seq<Disk>, w: Btrfs.World)
    requires OneBlank(e, f, disks, w)
    ensures Carried(w, [e, f], disks)
  {
    var d := disks[0];
    assert d in disks && d.device == e.name && d.uuid == e.uuid;
    assert forall c :: c in disks && c.uuid != [] ==> c == d;
  }

  lemma {:induction false} NoneChosen<T>(s: seq<T>, keep: T -> bool)
    requires forall x :: x in s ==> !keep(x)
    ensures Chosen(s, keep) == []
  {
    if s != [] {
      var n := |s| - 1;
      assert s[n] in s;
      NoneChosen(s[..n], keep);
    }
  }

  lemma BlankUuid(e: Entry, f: Entry, disks: seq<Disk>, w: Btrfs.World)
    requires OneBlank(e, f, disks, w)
    ensures UuidToUse([e.name, f.name], disks) == Some(e.uuid) && ActiveDevices(disks) == []
  {
    assert disks[0] in disks && Carries([e.name, f.name], disks[0], false);
    NoneChosen(disks, (d: Disk) => d.active);
  }

  /** The file system is mounted without the other selected disk, and there is no
      error. */
  lemma BlankDeviceIsLeftOut(e: Entry, f: Entry, disks: seq<Disk>, w: Btrfs.World)
    requires OneBlank(e, f, disks, w)
    ensures var selected := [e.name, f.name];
            && Shows(w, [e, f], disks) && UuidToUse(selected, disks) == Some(e.uuid)
            && var r := Btrfs.ReplayIn(w, Plan(selected, false, "", disks)); r.Some? && !Btrfs.Serves(r.value, e.uuid, selected)
  {
    PlainListing(e, f, disks);
    BlankCarried(e, f, disks, w);
    BlankUuid(e, f, disks, w);
    LeftOut(e.name, f.name, e.uuid, w);
  }

  lemma LeftOut(x: string, y: string, uuid: string, w: Btrfs.World)
    requires Less(x, y) && w == Btrfs.World(map[uuid := Btrfs.Fs({x}, Btrfs.Single)], None)
    ensures var r := Btrfs.ReplayIn(w, Btrfs.Plan([], [x, y], uuid, false)); r.Some? && !Btrfs.Serves(r.value, uuid, [x, y])
  {
    LessIrreflexive(x);
    Btrfs.NothingToDo(w.systems[uuid], [], [x, y]);
    Btrfs.PlanInWorld(w, uuid, [], [x, y]);
    assert y in Btrfs.Devices([x, y]) && y !in w.systems[uuid].devices;
  }

  /** The second: with a file system in use, a selection of disks that are not is
      always refused. */
  lemma UnusedSelectionIsRefused(w: Btrfs.World, entries: seq<Entry>, disks: seq<Disk>, devices: seq<string>)
    requires Shows(w, entries, disks) && Btrfs.WellKept(w) && NoDup(devices) && devices != []
    requires UuidToUse(devices, disks).Some? && w.mounted.Some? && !SomeActiveSelected(devices, disks)
    ensures Btrfs.ReplayIn(w.(mounted := None), Plan(devices, false, "", disks)) == None
  {
    ActiveInUse(w, entries, disks);
    ActivationReaches(w, entries, disks, devices);
    var x :| x in w.systems[w.mounted.value].devices;
    assert x in ActiveDevices(disks);
  }

  /** One disk is in use, and a disk of another file system is not. */
  ghost predicate OneUnused(e: Entry, f: Entry, disks: seq<Disk>, w: Btrfs.World) {
    && TwoPlain(e, f, disks) && e.active && f.uuid != []
    && w == Btrfs.World(map[e.uuid := Btrfs.Fs({e.name}, Btrfs.Single), f.uuid := Btrfs.Fs({f.name}, Btrfs.Single)], Some(e.uuid))
  }

  lemma UnusedCarried(e: Entry, f: Entry, disks: seq<Disk>, w: Btrfs.World)
    requires OneUnused(e, f, disks, w)
    ensures Carried(w, [e, f], disks) && Btrfs.WellKept(w)
  {
    var entries, c, d := [e, f], disks[0], disks[1];
    assert e in entries && e.active && e.uuid == w.mounted.value;
    assert c in disks && c.device == e.name && c.uuid == e.uuid;
    assert d in disks && d.device == f.name && d.uuid == f.uuid;
    assert forall g :: g in entries ==> g == e || g == f;
    assert forall g :: g in disks ==> g == c || g == d;
  }

  lemma UnusedUuid(e: Entry, f: Entry, disks: seq<Disk>, selected: seq<string>)
    requires TwoPlain(e, f, disks) && f.uuid != [] && selected == [f.name]
    ensures UuidToUse(selected, disks) == Some(f.uuid) && !SomeActiveSelected(selected, disks)
  {
    LessIrreflexive(e.name);
    assert disks[1] in disks && Carries(selected, disks[1], false);
    assert forall g :: g in disks ==> g == disks[0] || g == disks[1];
  }

  /** Selecting the latter alone is such a selection. */
  lemma UnusedSelection(e: Entry, f: Entry, disks: seq<Disk>, w: Btrfs.World)
    requires OneUnused(e, f, disks, w)
    ensures var selected := [f.name];
            && Shows(w, [e, f], disks) && Btrfs.WellKept(w)
            && UuidToUse(selected, disks) == Some(f.uuid) && !SomeActiveSelected(selected, disks)
            && Btrfs.ReplayIn(w.(mounted := None), Plan(selected, false, "", disks)) == None
  {
    var selected := [f.name];
    PlainListing(e, f, disks);
    UnusedCarried(e, f, disks, w);
    UnusedUuid(e, f, disks, selected);
    UnusedSelectionIsRefused(w, [e, f], disks, selected);
  }
}
