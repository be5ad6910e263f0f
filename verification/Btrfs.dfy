/** The btrfs reconfiguration planner, judged by replaying its commands on an
    abstract file system: a set of devices and a RAID profile. */
module Btrfs {
  import opened Helpers

  // ----- the planner ----------------------------------------------------------

  datatype Profile = Single | Raid1 | Raid10

  datatype Command =
    | Mkfs(uuid: string, profile: Profile, devices: seq<string>)
    | AddMount(uuid: string)
    | DeviceAdd(devices: seq<string>)
    | Balance(force: bool, profile: Profile)
    | DeviceDelete(devices: seq<string>)

  /** The devices without which a profile cannot exist. */
  function Needs(p: Profile): nat {
    match p case Single => 1 case Raid1 => 2 case Raid10 => 4
  }

  function Mode(after: seq<string>): Profile {
    ModeFor(|after|)
  }

  /** The most demanding profile that so many devices support. */
  function ModeFor(n: nat): (p: Profile)
    ensures n >= 1 ==> n >= Needs(p)
    ensures forall q :: Needs(q) <= n ==> Needs(q) <= Needs(p)
  {
    if n >= 4 then Raid10 else if n >= 2 then Raid1 else Single
  }

  method Diff(from: seq<string>, to: seq<string>) returns (diff: seq<string>)
    ensures diff == Without(from, to)
  {
    diff := [];
    for i := 0 to |from|
      invariant diff == Without(from[..i], to)
    {
      assert from[..i + 1][..i] == from[..i];
      if from[i] !in to {
        diff := diff + [from[i]];
      }
    }
    assert from[..|from|] == from;
  }

  /** `from` without the members of `to`, order and repetitions kept. */
  function Without(from: seq<string>, to: seq<string>): seq<string> {
    if from == [] then [] else
    var rest := Without(from[..|from| - 1], to);
    if from[|from| - 1] in to then rest else rest + [from[|from| - 1]]
  }

  lemma {:induction false} WithoutContents(from: seq<string>, to: seq<string>)
    ensures Devices(Without(from, to)) == Devices(from) - Devices(to)
    ensures NoDup(from) ==> NoDup(Without(from, to))
  {
    if from != [] {
      var n := |from| - 1;
      WithoutContents(from[..n], to);
      var rest := Without(from[..n], to);
      assert Devices(from) == Devices(from[..n]) + {from[n]};
      assert Devices(rest + [from[n]]) == Devices(rest) + {from[n]};
      assert NoDup(from) ==> from[n] !in Devices(Without(from[..n], to));
    }
  }

  class Executor {
    var issued: seq<Command>
    const failing: nat  // the call with this number fails

    constructor (failing: nat)
      ensures this.failing == failing && issued == []
    {
      this.failing := failing;
      issued := [];
    }

    method Execute(c: Command) returns (ok: bool)
      modifies this
      ensures issued == old(issued) + [c] && (ok <==> |old(issued)| != failing)
    {
      ok := |issued| != failing;
      issued := issued + [c];
    }
  }

  /** What `apply` issues when nothing fails. */
  function Plan(before: seq<string>, after: seq<string>, uuid: string, format: bool): seq<Command> {
    if format then [Mkfs(uuid, Mode(after), after), AddMount(uuid)]
    else (if after == [] then [] else [AddMount(uuid)]) + Conversion(before, after)
  }

  /** The part of the plan that changes a file system on `before`. */
  function Conversion(before: seq<string>, after: seq<string>): seq<Command> {
    Grow(before, after) + Demote(before, after) + Shrink(before, after)
  }

  function Grow(before: seq<string>, after: seq<string>): seq<Command> {
    var added := Without(after, before);
    if before != [] && added != [] then [DeviceAdd(added), Balance(false, Mode(after))] else []
  }

  function Demote(before: seq<string>, after: seq<string>): seq<Command> {
    if before != [] && |after| == 1 then [Balance(true, Mode(after))] else []
  }

  function Shrink(before: seq<string>, after: seq<string>): seq<Command> {
    var removed := Without(before, after);
    if after != [] && removed != [] then [DeviceDelete(removed)] else []
  }

  /** The commands issued when call number `failing` fails. */
  function Cut(plan: seq<Command>, failing: nat): (issued: seq<Command>)
    ensures issued <= plan
  {
    if failing < |plan| then plan[..failing + 1] else plan
  }

  /** `plan` was issued up to the command that failed, if one did. */
  ghost predicate Issued(failing: nat, before: seq<Command>, after: seq<Command>, plan: seq<Command>, ok: bool)
    requires |before| <= failing
  {
    after == before + Cut(plan, failing - |before|) && (ok <==> |plan| <= failing - |before|)
  }

  lemma IssuedFromNothing(failing: nat, after: seq<Command>, plan: seq<Command>, ok: bool)
    requires Issued(failing, [], after, plan, ok)
    ensures after == Cut(plan, failing) && (ok <==> |plan| <= failing)
  {
    assert [] + Cut(plan, failing) == Cut(plan, failing);
  }

  lemma IssuedOnly(failing: nat, start: seq<Command>, end: seq<Command>, a: seq<Command>, b: seq<Command>)
    requires |start| <= failing && Issued(failing, start, end, a, false)
    ensures Issued(failing, start, end, a + b, false)
  {
    assert (a + b)[..failing - |start| + 1] == a[..failing - |start| + 1];
  }

  lemma CutConcat(a: seq<Command>, b: seq<Command>, failing: nat)
    requires |a| <= failing
    ensures Cut(a + b, failing) == a + Cut(b, failing - |a|)
  {
    if failing < |a + b| {
      assert (a + b)[..failing + 1] == a + b[..failing - |a| + 1];
    }
  }

  lemma IssuedBoth(failing: nat, start: seq<Command>, mid: seq<Command>, end: seq<Command>, a: seq<Command>, b: seq<Command>, ok: bool)
    requires |start| <= failing && Issued(failing, start, mid, a, true)
    requires |mid| <= failing && Issued(failing, mid, end, b, ok)
    ensures Issued(failing, start, end, a + b, ok)
  {
    var budget := failing - |start|;
    CutConcat(a, b, budget);
    assert start + (a + Cut(b, budget - |a|)) == mid + Cut(b, budget - |a|);
  }

  method Apply(before: seq<string>, after: seq<string>, uuid: string, format: bool, executor: Executor) returns (ok: bool)
    requires executor.issued == []
    modifies executor
    ensures Issued(executor.failing, [], executor.issued, Plan(before, after, uuid, format), ok)
  {
    var removed := Diff(before, after);
    var added := Diff(after, before);
    var mode := Single;
    if |after| >= 2 {
      mode := Raid1;
    }
    if |after| >= 4 {
      mode := Raid10;
    }
    if format {
      ok := executor.Execute(Mkfs(uuid, mode, after));
      if !ok { return; }
      ok := executor.Execute(AddMount(uuid));
      return;
    }
    ghost var mount, conversion := if after == [] then [] else [AddMount(uuid)], Conversion(before, after);
    ok := true;
    if |after| > 0 {
      ok := executor.Execute(AddMount(uuid));
    }
    ghost var mounted := executor.issued;
    if !ok {
      IssuedOnly(executor.failing, [], mounted, mount, conversion);
      return;
    }
    ok := Convert(before, after, added, removed, mode, executor);
    IssuedBoth(executor.failing, [], mounted, executor.issued, mount, conversion, ok);
  }

  /** The rest of `apply`, once the file system is mounted. */
  method Convert(before: seq<string>, after: seq<string>, added: seq<string>, removed: seq<string>, mode: Profile, executor: Executor)
    returns (ok: bool)
    requires |executor.issued| <= executor.failing
    requires added == Without(after, before) && removed == Without(before, after) && mode == Mode(after)
    modifies executor
    ensures Issued(executor.failing, old(executor.issued), executor.issued, Conversion(before, after), ok)
  {
    ghost var start := executor.issued;
    ghost var grow, demote, shrink := Grow(before, after), Demote(before, after), Shrink(before, after);
    ok := AddDevices(before, after, added, mode, executor);
    ghost var grown := executor.issued;
    if !ok {
      IssuedOnly(executor.failing, start, grown, grow, demote);
      IssuedOnly(executor.failing, start, grown, grow + demote, shrink);
      return;
    }
    ok := BalanceSingle(before, after, mode, executor);
    ghost var demoted := executor.issued;
    IssuedBoth(executor.failing, start, grown, demoted, grow, demote, ok);
    if !ok {
      IssuedOnly(executor.failing, start, demoted, grow + demote, shrink);
      return;
    }
    ok := DeleteDevices(before, after, removed, executor);
    IssuedBoth(executor.failing, start, demoted, executor.issued, grow + demote, shrink, ok);
  }

  method AddDevices(before: seq<string>, after: seq<string>, added: seq<string>, mode: Profile, executor: Executor) returns (ok: bool)
    requires |executor.issued| <= executor.failing
    requires added == Without(after, before) && mode == Mode(after)
    modifies executor
    ensures Issued(executor.failing, old(executor.issued), executor.issued, Grow(before, after), ok)
  {
    if |before| > 0 && |added| > 0 {
      ok := executor.Execute(DeviceAdd(added));
      if !ok { return; }
      ok := executor.Execute(Balance(false, mode));
      return;
    }
    ok := true;
  }

  method BalanceSingle(before: seq<string>, after: seq<string>, mode: Profile, executor: Executor) returns (ok: bool)
    requires |executor.issued| <= executor.failing && mode == Mode(after)
    modifies executor
    ensures Issued(executor.failing, old(executor.issued), executor.issued, Demote(before, after), ok)
  {
    ok := true;
    if |before| > 0 && |after| == 1 {
      ok := executor.Execute(Balance(true, mode));
    }
  }

  method DeleteDevices(before: seq<string>, after: seq<string>, removed: seq<string>, executor: Executor) returns (ok: bool)
    requires |executor.issued| <= executor.failing && removed == Without(before, after)
    modifies executor
    ensures Issued(executor.failing, old(executor.issued), executor.issued, Shrink(before, after), ok)
  {
    ok := true;
    if |after| > 0 && |removed| > 0 {
      ok := executor.Execute(DeviceDelete(removed));
    }
  }

  method Update(existing: seq<string>, devices: seq<string>, uuid: string, freshUuid: string, format: bool, executor: Executor)
    returns (result: string, ok: bool)
    requires executor.issued == []
    modifies executor
    ensures var used := if format then freshUuid else uuid;
            Issued(executor.failing, [], executor.issued, Plan(existing, devices, used, format), ok)
            && result == if ok then used else ""
  {
    var newUuid := if format then freshUuid else uuid;
    ok := Apply(existing, devices, newUuid, format, executor);
    result := if ok then newUuid else "";
  }

  // ----- the file system ------------------------------------------------------

  datatype Fs = Fs(devices: set<string>, profile: Profile)

  /** How many copies a profile keeps of every block. */
  function Copies(p: Profile): nat {
    if p == Single then 1 else 2
  }

  predicate Sound(fs: Fs) {
    |fs.devices| >= Needs(fs.profile)
  }

  function Devices(s: seq<string>): set<string> {
    set d | d in s
  }

  /** What a command does to the mounted file system; `None` if it is refused.
      A conversion that keeps fewer copies is refused unless forced. */
  function Exec(fs: Fs, c: Command): Option<Fs> {
    match c
    case Mkfs(_, _, _) => None
    case AddMount(_) => None
    case DeviceAdd(ds) =>
      if fs.devices !! Devices(ds) then Some(fs.(devices := fs.devices + Devices(ds))) else None
    case Balance(force, p) =>
      if |fs.devices| >= Needs(p) && (force || Copies(p) >= Copies(fs.profile)) then Some(fs.(profile := p)) else None
    case DeviceDelete(ds) =>
      if Devices(ds) <= fs.devices && |fs.devices - Devices(ds)| >= Needs(fs.profile)
      then Some(fs.(devices := fs.devices - Devices(ds))) else None
  }

  function Replay(fs: Fs, cs: seq<Command>): Option<Fs> {
    if cs == [] then Some(fs) else
    var before := Replay(fs, cs[..|cs| - 1]);
    if before == None then None else Exec(before.value, cs[|cs| - 1])
  }

  /** Every file system on the way is sound, whatever the commands. */
  lemma {:induction false} ReplaySound(fs: Fs, cs: seq<Command>)
    requires Sound(fs)
    ensures Replay(fs, cs).Some? ==> Sound(Replay(fs, cs).value)
  {
    if cs != [] {
      ReplaySound(fs, cs[..|cs| - 1]);
      var before := Replay(fs, cs[..|cs| - 1]);
      if before.Some? && cs[|cs| - 1].DeviceAdd? {
        var ds := Devices(cs[|cs| - 1].devices);
        assert before.value.devices !! ds ==> |before.value.devices + ds| == |before.value.devices| + |ds|;
      }
    }
  }

  lemma {:induction false} NoDupSize(s: seq<string>)
    requires NoDup(s)
    ensures |Devices(s)| == |s|
  {
    if s != [] {
      var n := |s| - 1;
      NoDupSize(s[..n]);
      assert Devices(s) == Devices(s[..n]) + {s[n]};
      assert s[n] !in Devices(s[..n]);
    }
  }

  lemma SubsetSize(a: set<string>, b: set<string>)
    requires a <= b
    ensures |a| + |b - a| == |b|
  {
    assert b == a + (b - a);
  }

  /** A list of distinct devices with the profile meant for that many. */
  function Target(devices: seq<string>): Fs {
    Fs(Devices(devices), Mode(devices))
  }

  /** No device is new and four or more become two or three: no balance is issued. */
  ghost predicate UnbalancedShrink(before: seq<string>, after: seq<string>) {
    |before| >= 4 && 2 <= |after| <= 3 && Devices(after) <= Devices(before)
  }

  /** Mirrored devices are given up for a single one that is not among them. */
  ghost predicate ReplacedBySingle(before: seq<string>, after: seq<string>) {
    |before| >= 2 && |after| == 1 && after[0] !in before
  }

  lemma Replay1(fs: Fs, a: Command)
    ensures Replay(fs, [a]) == Exec(fs, a)
  {
    assert [a][..0] == [];
    assert Replay(fs, []) == Some(fs);
  }

  lemma {:induction false} ReplayConcat(fs: Fs, a: seq<Command>, b: seq<Command>)
    ensures Replay(fs, a + b) == if Replay(fs, a) == None then None else Replay(Replay(fs, a).value, b)
  {
    if b == [] {
      assert a + b == a;
    } else {
      var n := |b| - 1;
      ReplayConcat(fs, a, b[..n]);
      assert (a + b)[..|a + b| - 1] == a + b[..n];
    }
  }

  lemma NothingAdded(before: seq<string>, after: seq<string>)
    ensures Without(after, before) == [] <==> Devices(after) <= Devices(before)
    ensures Without(after, before) == [] ==> !ReplacedBySingle(before, after)
  {
    var added := Without(after, before);
    WithoutContents(after, before);
    if added == [] {
      forall d | d in Devices(after) ensures d in Devices(before) {
        assert d !in Devices(added);
      }
      assert |after| == 1 ==> after[0] in Devices(after);
    } else {
      assert added[0] in Devices(added);
    }
  }

  /** What growing does to a file system on `before`. */
  lemma GrowEffect(before: seq<string>, after: seq<string>)
    requires NoDup(before) && NoDup(after) && before != [] && after != []
    ensures var r := Replay(Target(before), Grow(before, after));
            if Devices(after) <= Devices(before) then r == Some(Target(before))
            else if ReplacedBySingle(before, after) then r == None
            else r == Some(Fs(Devices(before) + Devices(after), Mode(after)))
  {
    NothingAdded(before, after);
    if !(Devices(after) <= Devices(before)) {
      var added := Without(after, before);
      var fs, union := Target(before), Devices(before) + Devices(after);
      Enlarged(before, after);
      ReplayConcat(fs, [DeviceAdd(added)], [Balance(false, Mode(after))]);
      Replay1(fs, DeviceAdd(added));
      Replay1(Fs(union, Mode(before)), Balance(false, Mode(after)));
      assert Grow(before, after) == [DeviceAdd(added)] + [Balance(false, Mode(after))];
    }
  }

  /** Adding is accepted, and so is the balance unless copies are given up. */
  lemma Enlarged(before: seq<string>, after: seq<string>)
    requires NoDup(before) && NoDup(after) && before != [] && after != []
    ensures var added := Devices(Without(after, before)); added !! Devices(before) && Devices(before) + added == Devices(before) + Devices(after)
    ensures |Devices(before) + Devices(after)| >= Needs(Mode(after))
    ensures !(Devices(after) <= Devices(before)) ==> (Copies(Mode(after)) < Copies(Mode(before)) <==> ReplacedBySingle(before, after))
  {
    WithoutContents(after, before);
    UnionDifference(Devices(before), Devices(after));
    NoDupSize(after);
    SubsetSize(Devices(after), Devices(before) + Devices(after));
    if |after| == 1 && !(Devices(after) <= Devices(before)) {
      NewSingle(before, after);
    }
  }

  lemma NewSingle(before: seq<string>, after: seq<string>)
    requires |after| == 1 && !(Devices(after) <= Devices(before))
    ensures after[0] !in before
  {
    assert Devices(after) == {after[0]};
  }

  lemma UnionDifference(a: set<string>, b: set<string>)
    ensures b - a !! a && a + (b - a) == a + b
  {
  }

  lemma DemoteEffect(fs: Fs, before: seq<string>, after: seq<string>)
    requires before != [] && after != [] && fs.devices == Devices(before) + Devices(after)
    ensures Replay(fs, Demote(before, after)) == Some(if |after| == 1 then fs.(profile := Single) else fs)
  {
    assert before[0] in fs.devices;
    Replay1(fs, Balance(true, Mode(after)));
  }

  lemma ShrinkEffect(fs: Fs, before: seq<string>, after: seq<string>)
    requires after != [] && fs.devices == Devices(before) + Devices(after)
    ensures Replay(fs, Shrink(before, after)) ==
            if Devices(before) <= Devices(after) || |Devices(after)| >= Needs(fs.profile) then Some(fs.(devices := Devices(after))) else None
  {
    var removed := Without(before, after);
    WithoutContents(before, after);
    Replay1(fs, DeviceDelete(removed));
    assert fs.devices - Devices(removed) == Devices(after);
    if removed == [] {
      assert Devices(removed) == {};
      assert Devices(before) <= Devices(after);
      assert fs.devices == Devices(after);
    } else {
      assert removed[0] in Devices(removed);
    }
  }

  /** Correctness of the plan, on the file system that is mounted.  From lists of
      distinct devices, and a file system on `before` with the profile meant for it,
      the commands leave one on exactly `after` with the profile meant for it, unless
      the request is one of two kinds; for those a command is refused.  Without any
      device before or after, nothing is done at all. */
  lemma PlanReachesTarget(fs: Fs, before: seq<string>, after: seq<string>)
    requires NoDup(before) && NoDup(after) && (before != [] && after != [] ==> fs == Target(before))
    ensures Replay(fs, Conversion(before, after)) ==
            if before == [] || after == [] then Some(fs)
            else if UnbalancedShrink(before, after) || ReplacedBySingle(before, after) then None
            else Some(Target(after))
  {
    if before == [] || after == [] {
      NothingToDo(fs, before, after);
    } else {
      var grow, demote, shrink := Grow(before, after), Demote(before, after), Shrink(before, after);
      ReplayConcat(fs, grow + demote, shrink);
      ReplayConcat(fs, grow, demote);
      GrowEffect(before, after);
      if Replay(fs, grow) != None {
        var grown := Replay(fs, grow).value;
        DemoteEffect(grown, before, after);
        var ready := if |after| == 1 then grown.(profile := Single) else grown;
        ShrinkEffect(ready, before, after);
        NoDupSize(before);
        NoDupSize(after);
        SubsetSize(Devices(after), grown.devices);
      }
    }
  }

  lemma NothingToDo(fs: Fs, before: seq<string>, after: seq<string>)
    requires before == [] || after == []
    ensures Conversion(before, after) == [] && Replay(fs, Conversion(before, after)) == Some(fs)
  {
    assert Without([], before) == [] && Without([], after) == [];
  }

  /** A plan made from the devices of one file system, while another is mounted that
      already has a device to be added, is refused. */
  lemma WrongMountIsRefused(fs: Fs, before: seq<string>, after: seq<string>, d: string)
    requires before != [] && d in after && d !in before && d in fs.devices
    ensures Replay(fs, Conversion(before, after)) == None
  {
    var added := Without(after, before);
    WithoutContents(after, before);
    assert d in Devices(after) && d !in Devices(before) && d in Devices(added);
    assert added != [];
    var rest := [Balance(false, Mode(after))] + Demote(before, after) + Shrink(before, after);
    assert Conversion(before, after) == [DeviceAdd(added)] + rest;
    Replay1(fs, DeviceAdd(added));
    ReplayConcat(fs, [DeviceAdd(added)], rest);
  }

  /** The excluded case exists: four devices cannot be shrunk to two. */
  lemma FourToTwoIsRefused()
    ensures Replay(Target(["a", "b", "c", "d"]), Conversion(["a", "b", "c", "d"], ["a", "b"])) == None
  {
    var before, after := ["a", "b", "c", "d"], ["a", "b"];
    assert NoDup(before) && NoDup(after) && Devices(after) <= Devices(before);
    PlanReachesTarget(Target(before), before, after);
  }

  /** Refusals never happen to a request that keeps a device and is not an
      unbalanced shrink. */
  lemma SharedDeviceSuffices(before: seq<string>, after: seq<string>, shared: string)
    requires NoDup(before) && NoDup(after) && shared in before && shared in after
    ensures Replay(Target(before), Conversion(before, after)) == (if UnbalancedShrink(before, after) then None else Some(Target(after)))
  {
    PlanReachesTarget(Target(before), before, after);
  }

  lemma ConversionWithin(before: seq<string>, after: seq<string>)
    ensures forall c :: c in Conversion(before, after) ==> Within(c, Devices(before) * Devices(after), Devices(before) + Devices(after))
  {
    WithoutContents(before, after);
    WithoutContents(after, before);
  }

  /** If a run of commands is accepted, so is every beginning of it. */
  lemma {:induction false} BeginningAccepted(fs: Fs, cs: seq<Command>, k: nat)
    requires k <= |cs| && Replay(fs, cs).Some?
    ensures Replay(fs, cs[..k]).Some?
  {
    assert cs == cs[..k] + cs[k..];
    ReplayConcat(fs, cs[..k], cs[k..]);
  }

  /** Wherever a failing command stops the plan, the file system has the devices
      that its profile needs, all the devices that stay, and none from elsewhere.
      No command of an admissible request is refused; in the two refused kinds of
      request this holds up to the refusal. */
  lemma StoppedAnywhere(before: seq<string>, after: seq<string>, k: nat)
    requires NoDup(before) && NoDup(after) && before != [] && after != [] && k <= |Conversion(before, after)|
    ensures var r := Replay(Target(before), Conversion(before, after)[..k]);
            && (!UnbalancedShrink(before, after) && !ReplacedBySingle(before, after) ==> r.Some?)
            && (r.Some? ==> Sound(r.value) && Devices(before) * Devices(after) <= r.value.devices <= Devices(before) + Devices(after))
  {
    var fs := Target(before);
    NoDupSize(before);
    PlanReachesTarget(fs, before, after);
    if Replay(fs, Conversion(before, after)).Some? {
      BeginningAccepted(fs, Conversion(before, after), k);
    }
    ReplaySound(fs, Conversion(before, after)[..k]);
    ConversionWithin(before, after);
    ReplayWithin(fs, Conversion(before, after)[..k], Devices(before) * Devices(after), Devices(before) + Devices(after));
  }

  predicate Within(c: Command, kept: set<string>, all: set<string>) {
    match c
    case DeviceAdd(ds) => Devices(ds) <= all
    case DeviceDelete(ds) => Devices(ds) !! kept
    case Mkfs(_, _, _) => false
    case _ => true
  }

  /** Commands that add only from `all` and delete nothing in `kept` stay between the two. */
  lemma {:induction false} ReplayWithin(fs: Fs, cs: seq<Command>, kept: set<string>, all: set<string>)
    requires kept <= fs.devices <= all
    requires forall i :: 0 <= i < |cs| ==> Within(cs[i], kept, all)
    ensures var r := Replay(fs, cs); r.Some? ==> kept <= r.value.devices <= all
  {
    if cs != [] {
      ReplayWithin(fs, cs[..|cs| - 1], kept, all);
    }
  }

  // ----- several file systems -------------------------------------------------

  /** The file systems that can be mounted, by UUID, and the one that is. */
  datatype World = World(systems: map<string, Fs>, mounted: Option<string>)

  /** The file systems but `uuid` that lose no device to `taken`. */
  function Spared(systems: map<string, Fs>, uuid: string, taken: set<string>): map<string, Fs> {
    map u | u in systems && (u == uuid || systems[u].devices !! taken) :: systems[u]
  }

  function Added(c: Command): set<string> {
    if c.DeviceAdd? then Devices(c.devices) else {}
  }

  /** A command in the world.  Both ways to take a device are forced, so a file
      system that had it can no longer be mounted. */
  function ExecIn(w: World, c: Command): Option<World> {
    match c
    case Mkfs(uuid, p, ds) =>
      if |Devices(ds)| < Needs(p) || w.mounted.Some? then None
      else Some(w.(systems := Spared(w.systems - {uuid}, uuid, Devices(ds))[uuid := Fs(Devices(ds), p)]))
    case AddMount(uuid) => if uuid in w.systems then Some(w.(mounted := Some(uuid))) else None
    case _ =>
      if w.mounted == None || w.mounted.value !in w.systems then None
      else
        var u := w.mounted.value;
        var fs := Exec(w.systems[u], c);
        if fs == None then None else Some(w.(systems := Spared(w.systems, u, Added(c))[u := fs.value]))
  }

  function ReplayIn(w: World, cs: seq<Command>): Option<World> {
    if cs == [] then Some(w) else
    var before := ReplayIn(w, cs[..|cs| - 1]);
    if before == None then None else ExecIn(before.value, cs[|cs| - 1])
  }

  lemma ReplayInMore(w: World, a: seq<Command>, c: Command)
    ensures ReplayIn(w, a + [c]) == if ReplayIn(w, a) == None then None else ExecIn(ReplayIn(w, a).value, c)
  {
    assert (a + [c])[..|a|] == a;
  }

  /** Replaying `a + b` is replaying `b` after `a`. */
  predicate Concatenates(w: World, a: seq<Command>, b: seq<Command>) {
    ReplayIn(w, a + b) == if ReplayIn(w, a) == None then None else ReplayIn(ReplayIn(w, a).value, b)
  }

  lemma ConcatenatesMore(w: World, a: seq<Command>, b: seq<Command>, c: Command)
    requires Concatenates(w, a, b)
    ensures Concatenates(w, a, b + [c])
  {
    ReplayInMore(w, a + b, c);
    assert a + (b + [c]) == (a + b) + [c];
    if ReplayIn(w, a).Some? {
      ReplayInMore(ReplayIn(w, a).value, b, c);
    }
  }

  lemma ConcatenatesNone(w: World, a: seq<Command>)
    ensures Concatenates(w, a, [])
  {
    assert a + [] == a;
  }

  lemma {:induction false} ReplayInConcat(w: World, a: seq<Command>, b: seq<Command>)
    ensures Concatenates(w, a, b)
    decreases |b|
  {
    if b == [] {
      ConcatenatesNone(w, a);
    } else {
      var first, c := b[..|b| - 1], b[|b| - 1];
      ReplayInConcat(w, a, first);
      ConcatenatesMore(w, a, first, c);
      assert b == first + [c];
    }
  }

  function AddedBy(cs: seq<Command>): set<string> {
    if cs == [] then {} else AddedBy(cs[..|cs| - 1]) + Added(cs[|cs| - 1])
  }

  predicate Mounts(c: Command) {
    c.Mkfs? || c.AddMount?
  }

  /** Commands on the mounted file system change it as they do alone, and leave the
      others alone except for the devices that they take. */
  lemma {:induction false} ReplayMounted(w: World, u: string, cs: seq<Command>)
    requires w.mounted == Some(u) && u in w.systems && forall i :: 0 <= i < |cs| ==> !Mounts(cs[i])
    ensures var fs := Replay(w.systems[u], cs);
            ReplayIn(w, cs) == if fs == None then None else Some(w.(systems := Spared(w.systems, u, AddedBy(cs))[u := fs.value]))
  {
    if cs == [] {
      assert Spared(w.systems, u, {})[u := w.systems[u]] == w.systems;
    } else {
      var before, c := cs[..|cs| - 1], cs[|cs| - 1];
      ReplayMounted(w, u, before);
      if Replay(w.systems[u], before).Some? {
        var fs := Replay(w.systems[u], before).value;
        SparedTwice(w.systems, u, AddedBy(before), Added(c), fs, if Exec(fs, c).Some? then Exec(fs, c).value else fs);
      }
    }
  }

  lemma SparedTwice(systems: map<string, Fs>, u: string, a: set<string>, b: set<string>, fs: Fs, next: Fs)
    ensures Spared(Spared(systems, u, a)[u := fs], u, b)[u := next] == Spared(systems, u, a + b)[u := next]
  {
  }

  lemma {:induction false} AddedByConcat(a: seq<Command>, b: seq<Command>)
    ensures AddedBy(a + b) == AddedBy(a) + AddedBy(b)
  {
    if b == [] {
      assert a + b == a;
    } else {
      var n := |b| - 1;
      AddedByConcat(a, b[..n]);
      assert (a + b)[..|a + b| - 1] == a + b[..n];
    }
  }

  lemma AddedByOne(c: Command)
    ensures AddedBy([c]) == Added(c)
  {
    assert [c][..0] == [];
    assert AddedBy([]) == {};
  }

  lemma GrowAdds(before: seq<string>, after: seq<string>)
    ensures AddedBy(Grow(before, after)) <= Devices(after) - Devices(before)
  {
    var add, balance := DeviceAdd(Without(after, before)), Balance(false, Mode(after));
    WithoutContents(after, before);
    AddedByOne(add);
    AddedByOne(balance);
    AddedByConcat([add], [balance]);
    assert [add] + [balance] == [add, balance];
  }

  lemma ConversionAdds(before: seq<string>, after: seq<string>)
    ensures AddedBy(Conversion(before, after)) <= Devices(after) - Devices(before)
    ensures forall i :: 0 <= i < |Conversion(before, after)| ==> !Mounts(Conversion(before, after)[i])
  {
    var grow, demote, shrink := Grow(before, after), Demote(before, after), Shrink(before, after);
    AddedByConcat(grow + demote, shrink);
    AddedByConcat(grow, demote);
    GrowAdds(before, after);
    OthersAdd(before, after);
    NoneMounts(before, after);
  }

  lemma OthersAdd(before: seq<string>, after: seq<string>)
    ensures AddedBy(Demote(before, after)) == {} && AddedBy(Shrink(before, after)) == {}
  {
    AddedByOne(Balance(true, Mode(after)));
    AddedByOne(DeviceDelete(Without(before, after)));
  }

  lemma NoneMounts(before: seq<string>, after: seq<string>)
    ensures forall i :: 0 <= i < |Conversion(before, after)| ==> !Mounts(Conversion(before, after)[i])
  {
    var grow, demote, shrink := Grow(before, after), Demote(before, after), Shrink(before, after);
    assert forall c :: c in grow || c in demote || c in shrink ==> !Mounts(c);
    forall i | 0 <= i < |Conversion(before, after)| ensures !Mounts(Conversion(before, after)[i]) {
      var c := Conversion(before, after)[i];
      assert c in grow + demote + shrink;
    }
  }

  /** `uuid` is mounted and is on exactly these devices with the profile for them. */
  predicate Serves(w: World, uuid: string, devices: seq<string>) {
    w.mounted == Some(uuid) && uuid in w.systems && w.systems[uuid] == Target(devices)
  }

  /** The whole plan in the world: what becomes of the file system that it mounts is
      what the conversion makes of it, and no other changes unless a selected device
      is taken from it. */
  lemma PlanInWorld(w: World, uuid: string, before: seq<string>, after: seq<string>)
    requires uuid in w.systems && after != []
    ensures var fs := Replay(w.systems[uuid], Conversion(before, after));
            var r := ReplayIn(w, Plan(before, after, uuid, false));
            && (r == None <==> fs == None)
            && (r.Some? ==>
                  && r.value.mounted == Some(uuid) && uuid in r.value.systems && r.value.systems[uuid] == fs.value
                  && (forall u :: u in w.systems && u != uuid && w.systems[u].devices !! Devices(after) ==> u in r.value.systems)
                  && (forall u :: u in r.value.systems && u != uuid ==> u in w.systems && r.value.systems[u] == w.systems[u]))
  {
    var mounted := w.(mounted := Some(uuid));
    assert [AddMount(uuid)][..0] == [] && ReplayIn(w, []) == Some(w);
    assert ReplayIn(w, [AddMount(uuid)]) == Some(mounted);
    ReplayInConcat(w, [AddMount(uuid)], Conversion(before, after));
    ConversionAdds(before, after);
    ReplayMounted(mounted, uuid, Conversion(before, after));
  }

  /** Formatting makes the target outright. */
  lemma FormatReachesTarget(w: World, before: seq<string>, after: seq<string>, uuid: string)
    requires NoDup(after) && after != [] && w.mounted == None
    ensures ReplayIn(w, Plan(before, after, uuid, true)).Some?
    ensures Serves(ReplayIn(w, Plan(before, after, uuid, true)).value, uuid, after)
  {
    NoDupSize(after);
    var mkfs, mount := Mkfs(uuid, Mode(after), after), AddMount(uuid);
    assert Plan(before, after, uuid, true) == [mkfs, mount];
    assert [mkfs, mount][..1] == [mkfs] && [mkfs][..0] == [];
    assert ReplayIn(w, []) == Some(w);
    assert ReplayIn(w, [mkfs]) == ExecIn(w, mkfs);
  }

  // ----- when a plan does what it is for --------------------------------------

  /** Each file system has the profile meant for its number of devices. */
  ghost predicate WellKept(w: World) {
    forall u :: u in w.systems ==> w.systems[u].devices != {} && w.systems[u].profile == ModeFor(|w.systems[u].devices|)
  }

  /** `before` are the devices in use: those of the file system in use, if any. */
  ghost predicate InUse(w: World, before: seq<string>) {
    && NoDup(before)
    && (w.mounted == None ==> before == [])
    && (w.mounted.Some? ==> w.mounted.value in w.systems && Devices(before) == w.systems[w.mounted.value].devices)
  }

  ghost predicate SomeShared(before: seq<string>, after: seq<string>) {
    exists d :: d in before && d in after
  }

  /** What a plan for `uuid` does, once everything is unmounted: the selection is
      reached if the file system in use is the one and is not shrunk without a
      balance, or if nothing is in use and the selection is the file system as it
      is; and the plan is carried out without error in one more case, when nothing
      is in use and the selection is not the file system. */
  lemma PlanServes(w: World, uuid: string, before: seq<string>, after: seq<string>)
    requires WellKept(w) && InUse(w, before) && NoDup(after) && after != []
    requires uuid in w.systems && (exists d :: d in after && d in w.systems[uuid].devices)
    requires w.mounted == Some(uuid) || !SomeShared(before, after)
    ensures var r := ReplayIn(w.(mounted := None), Plan(before, after, uuid, false));
            && (r.Some? <==> before == [] || (SomeShared(before, after) && !UnbalancedShrink(before, after)))
            && (r.Some? && Serves(r.value, uuid, after) <==>
                  if before == [] then w.systems[uuid].devices == Devices(after) else SomeShared(before, after) && !UnbalancedShrink(before, after))
  {
    var fs, w0 := w.systems[uuid], w.(mounted := None);
    PlanInWorld(w0, uuid, before, after);
    NoDupSize(after);
    NoDupSize(before);
    if before == [] {
      NothingToDo(fs, before, after);
    } else if w.mounted == Some(uuid) {
      var d :| d in after && d in fs.devices;
      assert d in Devices(before);
      assert fs == Target(before);
      SharedDeviceSuffices(before, after, d);
    } else {
      var d :| d in after && d in fs.devices;
      WrongMountIsRefused(fs, before, after, d);
    }
  }

  // ----- one request after another --------------------------------------------

  datatype Request = Activate(uuid: string, before: seq<string>, after: seq<string>) | Deactivate

  /** Everything is unmounted first. */
  function Act(w: World, r: Request): Option<World> {
    if r.Deactivate? then Some(w.(mounted := None))
    else ReplayIn(w.(mounted := None), Plan(r.before, r.after, r.uuid, false))
  }

  /** The requests of `PlanServes` that are served, if they take no device from
      another file system. */
  ghost predicate Admissible(w: World, r: Request) {
    r.Activate? ==>
      && InUse(w, r.before) && NoDup(r.after) && r.after != [] && r.uuid in w.systems
      && (forall u :: u in w.systems && u != r.uuid ==> w.systems[u].devices !! Devices(r.after))
      && if r.before == [] then w.systems[r.uuid].devices == Devices(r.after)
         else w.mounted == Some(r.uuid) && SomeShared(r.before, r.after) && !UnbalancedShrink(r.before, r.after)
  }

  lemma AdmissibleServes(w: World, r: Request)
    requires WellKept(w) && Admissible(w, r) && r.Activate?
    ensures Act(w, r).Some? && Serves(Act(w, r).value, r.uuid, r.after)
  {
    assert r.after[0] in Devices(r.after);
    if r.before != [] {
      var d :| d in r.before && d in r.after;
      assert d in Devices(r.before);
    }
    PlanServes(w, r.uuid, r.before, r.after);
  }

  lemma SameBut<K, V>(a: map<K, V>, b: map<K, V>, k: K)
    requires forall u :: u != k ==> (u in a <==> u in b) && (u in a ==> a[u] == b[u])
    ensures a - {k} == b - {k}
  {
  }

  lemma AdmissibleSpares(w: World, r: Request)
    requires WellKept(w) && Admissible(w, r) && r.Activate? && Act(w, r).Some?
    ensures Act(w, r).value.systems - {r.uuid} == w.systems - {r.uuid}
  {
    PlanInWorld(w.(mounted := None), r.uuid, r.before, r.after);
    var t := Act(w, r).value;
    assert forall u :: u in w.systems && u != r.uuid ==> u in t.systems;
    assert forall u :: u in t.systems && u != r.uuid ==> u in w.systems && t.systems[u] == w.systems[u];
    SameBut(t.systems, w.systems, r.uuid);
  }

  lemma StillWellKept(w: World, t: World, uuid: string, after: seq<string>)
    requires WellKept(w) && t.systems - {uuid} == w.systems - {uuid} && Serves(t, uuid, after) && NoDup(after) && after != []
    ensures WellKept(t)
  {
    NoDupSize(after);
    assert after[0] in Devices(after);
    forall u | u in t.systems ensures t.systems[u].devices != {} && t.systems[u].profile == ModeFor(|t.systems[u].devices|) {
      if u != uuid {
        assert u in t.systems - {uuid};
        assert u in w.systems && t.systems[u] == (t.systems - {uuid})[u] == w.systems[u];
      }
    }
  }

  /** Such a request is served, takes nothing from another file system, and leaves
      every file system with the profile meant for it. */
  lemma ActServes(w: World, r: Request)
    requires WellKept(w) && Admissible(w, r)
    ensures Act(w, r).Some? && WellKept(Act(w, r).value)
    ensures r.Activate? ==> Serves(Act(w, r).value, r.uuid, r.after) && Act(w, r).value.systems - {r.uuid} == w.systems - {r.uuid}
  {
    if r.Activate? {
      AdmissibleServes(w, r);
      AdmissibleSpares(w, r);
      StillWellKept(w, Act(w, r).value, r.uuid, r.after);
    }
  }

  ghost predicate Acts(states: seq<World>, rs: seq<Request>) {
    |states| == |rs| + 1 && forall i :: 0 <= i < |rs| ==> ActsOnce(states[i], rs[i], states[i + 1])
  }

  ghost predicate ActsOnce(w: World, r: Request, t: World) {
    Admissible(w, r) && Act(w, r) == Some(t)
  }

  /** Any number of activations and deactivations in a row keeps to the targets. */
  lemma {:induction false} ActsServe(states: seq<World>, rs: seq<Request>, k: nat)
    requires Acts(states, rs) && WellKept(states[0]) && k <= |rs|
    ensures WellKept(states[k])
    ensures k > 0 && rs[k - 1].Activate? ==> Serves(states[k], rs[k - 1].uuid, rs[k - 1].after)
    decreases k
  {
    if k > 0 {
      ActsServe(states, rs, k - 1);
      assert ActsOnce(states[k - 1], rs[k - 1], states[k - 1 + 1]);
      ActServes(states[k - 1], rs[k - 1]);
    }
  }
}
