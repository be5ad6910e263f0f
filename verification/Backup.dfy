/** Backup and restore of one application: stop, copy, start, with the archive in
    between.

    Every outside call has to be the next one in its operation; the call with number
    `failing` fails and ends the operation.  While the application runs, and in
    every hook, its directories may become anything: `life` says what. */
module Backup {
  import opened Archive
  import BackupFile
  import opened Directories
  import opened Helpers

  datatype Part = Current | Common

  datatype Script = CreatePreStop | CreatePostStop | RestorePreStop | RestorePostStop | RestorePreStart | RestorePostStart

  datatype Effect =
    | MakeTemp | Measure(part: Part) | CheckSpace | StatFile | Extract | FindApp | Hook(script: Script)
    | Stop | Start | Resolve | CopyOut(part: Part) | Wipe(part: Part) | CopyIn(part: Part) | Chown(part: Part)
    | WriteArchive | RemoveTemp

  datatype Operation = Creating | Restoring

  /** The place of a call in the order of an operation. */
  function Position(op: Operation, e: Effect): nat {
    if op == Creating then CreatePosition(e) else RestorePosition(e)
  }

  function CreatePosition(e: Effect): nat {
    match e
    case MakeTemp => 0
    case Measure(part) => if part == Current then 1 else 2
    case CheckSpace => 3
    case FindApp => 4
    case Hook(script) => if script == CreatePreStop then 5 else if script == CreatePostStop then 7 else NEVER
    case Stop => 6
    case CopyOut(part) => if part == Current then 8 else 9
    case Start => 10
    case WriteArchive => 11
    case RemoveTemp => 12
    case _ => NEVER
  }

  function RestorePosition(e: Effect): nat {
    match e
    case MakeTemp => 0
    case StatFile => 1
    case CheckSpace => 2
    case Extract => 3
    case FindApp => 4
    case Hook(script) => RestoreScript(script)
    case Stop => 6
    case Resolve => 8
    case Wipe(part) => FirstCall(part)
    case CopyIn(part) => FirstCall(part) + 1
    case Chown(part) => FirstCall(part) + 2
    case Start => 16
    case RemoveTemp => 18
    case _ => NEVER
  }

  function RestoreScript(script: Script): nat {
    match script
    case RestorePreStop => 5
    case RestorePostStop => 7
    case RestorePreStart => 15
    case RestorePostStart => 17
    case _ => NEVER
  }

  function FirstCall(part: Part): nat {
    if part == Current then 9 else 12
  }

  const NEVER: nat := 99

  const CREATE_CALLS: nat := 13
  const RESTORE_CALLS: nat := 19

  function Total(op: Operation): nat {
    if op == Creating then CREATE_CALLS else RESTORE_CALLS
  }

  function StartAt(op: Operation): nat {
    if op == Creating then 10 else 16
  }

  predicate IsHook(op: Operation, i: nat) {
    i == 5 || i == 7 || (op == Restoring && (i == 15 || i == 17))
  }

  /** What the place of a call says about it. */
  lemma Places(op: Operation, e: Effect)
    requires Position(op, e) < Total(op)
    ensures e.Hook? <==> IsHook(op, Position(op, e))
    ensures e.Stop? <==> Position(op, e) == 6
    ensures e.Start? <==> Position(op, e) == StartAt(op)
  {
  }

  lemma CreateOrder()
    ensures Position(Creating, Stop) == 6
    ensures Position(Creating, Hook(CreatePostStop)) == 7
    ensures Position(Creating, CopyOut(Current)) == 8 && Position(Creating, CopyOut(Common)) == 9
    ensures Position(Creating, Start) == 10
    ensures Position(Creating, WriteArchive) == 11 && Position(Creating, RemoveTemp) == 12
  {
  }

  lemma RefillOrder(part: Part)
    ensures Position(Restoring, Wipe(part)) == FirstCall(part)
    ensures Position(Restoring, CopyIn(part)) == FirstCall(part) + 1
    ensures Position(Restoring, Chown(part)) == FirstCall(part) + 2
  {
  }

  // ----- what happens meanwhile -----------------------------------------------

  /** What the application or a hook makes of the directories at a call. */
  type Life = (nat, Dirs) -> Dirs

  ghost predicate Lives(life: Life) {
    forall i: nat, d: Dirs :: SoundDirs(d) ==> SoundDirs(life(i, d)) && life(i, d).current.Some? == d.current.Some? && life(i, d).common.Some? == d.common.Some?
  }

  /** What a failing call leaves of a directory. */
  type Wreck = (nat, Option<Files>) -> Option<Files>

  ghost predicate Wrecks(wreck: Wreck) {
    forall i: nat, part: Option<Files> :: SoundPart(part) ==> SoundPart(wreck(i, part))
  }

  /** Whether the application runs when call `i` is made. */
  predicate RunningAt(op: Operation, running: bool, i: nat) {
    if i <= 6 then running else i > StartAt(op)
  }

  /** Whether it runs after an operation of `steps` calls. */
  predicate RunningAfter(op: Operation, running: bool, steps: nat) {
    if steps <= 7 then running else steps > StartAt(op) + 1
  }

  predicate MayWrite(op: Operation, running: bool, i: nat) {
    IsHook(op, i) || RunningAt(op, running, i)
  }

  /** The directories after the calls `from` to `to - 1` of an operation that leaves
      them alone itself. */
  function Evolve(op: Operation, life: Life, running: bool, from: nat, to: nat, d: Dirs): Dirs {
    if to <= from then d
    else
      var before := Evolve(op, life, running, from, to - 1, d);
      if MayWrite(op, running, to - 1) then life(to - 1, before) else before
  }

  lemma {:induction false} EvolveSound(op: Operation, life: Life, running: bool, from: nat, to: nat, d: Dirs)
    requires Lives(life) && SoundDirs(d)
    ensures var e := Evolve(op, life, running, from, to, d);
            SoundDirs(e) && e.current.Some? == d.current.Some? && e.common.Some? == d.common.Some?
  {
    if to > from {
      EvolveSound(op, life, running, from, to - 1, d);
    }
  }

  /** Nothing happens when nobody does anything. */
  lemma {:induction false} EvolveIdle(op: Operation, life: Life, running: bool, from: nat, to: nat, d: Dirs)
    requires forall i: nat, d: Dirs :: life(i, d) == d
    ensures Evolve(op, life, running, from, to, d) == d
  {
    if to > from {
      EvolveIdle(op, life, running, from, to - 1, d);
    }
  }

  /** From after the post-stop hook until the next hook or start the directories rest. */
  lemma Rests(op: Operation, life: Life, running: bool, d: Dirs, k: nat)
    requires 8 <= k <= if op == Creating then 11 else 15
    ensures Evolve(op, life, running, 0, k, d) == Evolve(op, life, running, 0, 8, d)
    decreases k
  {
    if k > 8 {
      Rests(op, life, running, d, k - 1);
    }
  }

  // ----- the calls ------------------------------------------------------------

  datatype Run = Run(steps: nat, dirs: Dirs, running: bool, trace: seq<Effect>)

  /** The calls made are the first of the operation, in order. */
  ghost predicate Follows(op: Operation, trace: seq<Effect>) {
    forall i :: 0 <= i < |trace| ==> Position(op, trace[i]) == i
  }

  /** Where a run has got to, if it left the directories alone since call `from`. */
  ghost predicate Got(op: Operation, life: Life, running: bool, from: nat, base: Dirs, r: Run, ok: bool) {
    && Follows(op, r.trace) && |r.trace| == r.steps
    && from <= r.steps && r.dirs == Evolve(op, life, running, from, r.steps, base)
    && r.running == if ok then RunningAt(op, running, r.steps) else RunningAfter(op, running, r.steps)
  }

  /** The next call; `works` says whether it can succeed at all. */
  method Make(op: Operation, e: Effect, r: Run, life: Life, failing: nat, works: bool, ghost running: bool, ghost from: nat, ghost base: Dirs)
    returns (ok: bool, next: Run)
    requires Got(op, life, running, from, base, r, true)
    requires r.steps <= failing && r.steps < Total(op) && Position(op, e) == r.steps
    ensures Got(op, life, running, from, base, next, ok)
    ensures next.steps == r.steps + 1 && (ok <==> works && next.steps <= failing)
  {
    Places(op, e);
    ok := works && r.steps != failing;
    var dirs := if r.running || e.Hook? then life(r.steps, r.dirs) else r.dirs;
    var runs := if ok && e.Stop? then false else if ok && e.Start? then true else r.running;
    next := Run(r.steps + 1, dirs, runs, r.trace + [e]);
  }

  /** How many calls are made when the first `limit` would be, but for a failure. */
  function Made(failing: nat, limit: nat): nat {
    if failing < limit then failing + 1 else limit
  }

  // ----- creating -------------------------------------------------------------

  /** Where a backup ends for want of a directory. */
  function CreateLimit(d: Dirs): nat {
    if d.current == None then 2 else if d.common == None then 3 else CREATE_CALLS
  }

  /** All before the application is stopped. */
  method Prepare(d: Dirs, running: bool, life: Life, failing: nat) returns (ok: bool, r: Run)
    ensures Got(Creating, life, running, 0, d, r, ok)
    ensures ok <==> d.Both() && 6 <= failing
    ensures r.steps == Made(failing, if ok then 6 else CreateLimit(d))
  {
    r := Run(0, d, running, []);
    ok, r := Make(Creating, MakeTemp, r, life, failing, true, running, 0, d);
    if !ok { return; }
    ok, r := Make(Creating, Measure(Current), r, life, failing, d.current.Some?, running, 0, d);
    if !ok { return; }
    ok, r := Make(Creating, Measure(Common), r, life, failing, d.common.Some?, running, 0, d);
    if !ok { return; }
    ok, r := Make(Creating, CheckSpace, r, life, failing, true, running, 0, d);
    if !ok { return; }
    ok, r := Make(Creating, FindApp, r, life, failing, true, running, 0, d);
    if !ok { return; }
    ok, r := Make(Creating, Hook(CreatePreStop), r, life, failing, true, running, 0, d);
  }

  /** What is copied out is the directories after the post-stop hook. */
  method StopAndCopy(d: Dirs, running: bool, life: Life, failing: nat, before: Run) returns (ok: bool, r: Run, temp: Files)
    requires d.Both() && SoundDirs(d) && Lives(life)
    requires Got(Creating, life, running, 0, d, before, true) && before.steps == 6 <= failing
    ensures Got(Creating, life, running, 0, d, r, ok)
    ensures r.steps == Made(failing, 10) && (ok <==> 10 <= failing)
    ensures ok ==> var copied := Evolve(Creating, life, running, 0, 8, d);
                   SoundDirs(copied) && Packed(temp, copied)
  {
    CreateOrder();
    r, temp := before, EMPTY;
    ok, r := Make(Creating, Stop, r, life, failing, true, running, 0, d);
    if !ok { return; }
    ok, r := Make(Creating, Hook(CreatePostStop), r, life, failing, true, running, 0, d);
    if !ok { return; }
    EvolveSound(Creating, life, running, 0, 8, d);
    ok, r := Make(Creating, CopyOut(Current), r, life, failing, true, running, 0, d);
    if !ok { return; }
    Rests(Creating, life, running, d, 9);
    var current := Copied(r.dirs.current.value);
    ok, r := Make(Creating, CopyOut(Common), r, life, failing, true, running, 0, d);
    if !ok { return; }
    Rests(Creating, life, running, d, 10);
    var common := Copied(r.dirs.common.value);
    temp := Pack(current, common);
    PackIsPacked(r.dirs);
  }

  /** `written` is false if the archive could not be written. */
  method StartAndWrite(d: Dirs, running: bool, life: Life, failing: nat, before: Run, temp: Files, ghost copied: Dirs)
    returns (ok: bool, r: Run, written: bool, entries: seq<Entry>)
    requires SoundDirs(copied) && Packed(temp, copied)
    requires Got(Creating, life, running, 0, d, before, true) && before.steps == 10 <= failing
    ensures Got(Creating, life, running, 0, d, r, ok)
    ensures r.steps == Made(failing, 13) && (ok <==> 13 <= failing)
    ensures written <==> 12 <= failing
    ensures written ==> ArchiveOf(entries, copied)
  {
    CreateOrder();
    r, written, entries := before, false, [];
    ok, r := Make(Creating, Start, r, life, failing, true, running, 0, d);
    if !ok { return; }
    ok, r := Make(Creating, WriteArchive, r, life, failing, true, running, 0, d);
    if !ok { return; }
    written := true;
    entries := Archived(temp, copied);
    ok, r := Make(Creating, RemoveTemp, r, life, failing, true, running, 0, d);
  }

  /** All calls of a backup. */
  method CreateCalls(d: Dirs, running: bool, life: Life, failing: nat) returns (ok: bool, r: Run, written: bool, entries: seq<Entry>)
    requires SoundDirs(d) && Lives(life)
    ensures Got(Creating, life, running, 0, d, r, ok)
    ensures r.steps == Made(failing, CreateLimit(d)) && (ok <==> d.Both() && CREATE_CALLS <= failing)
    ensures written <==> r.steps == 13
    ensures written ==> ArchiveOf(entries, Evolve(Creating, life, running, 0, 8, d))
  {
    written, entries := false, [];
    ok, r := Prepare(d, running, life, failing);
    if !ok { return; }
    var temp;
    ok, r, temp := StopAndCopy(d, running, life, failing, r);
    if !ok { return; }
    ghost var copied := Evolve(Creating, life, running, 0, 8, d);
    EvolveSound(Creating, life, running, 0, 8, d);
    ok, r, written, entries := StartAndWrite(d, running, life, failing, r, temp, copied);
  }

  // ----- restoring ------------------------------------------------------------

  /** What an extraction whose names lead out of the temporary directory may make of
      everything that is modelled: the directories of all applications, the archives,
      and, unless it fails, the temporary directory. */
  datatype Stray = Stray(dirs: map<string, Dirs>, archives: map<string, seq<Entry>>, temp: Option<Files>)

  ghost predicate SoundStray(stray: Stray) {
    AllSound(stray.dirs) && SoundPart(stray.temp)
  }

  /** The archive has a name that climbs above its start. */
  predicate Strays(archives: map<string, seq<Entry>>, fileName: string) {
    fileName in archives && !Contained(archives[fileName])
  }

  /** What is extracted, if anything can be. */
  function TempOf(archives: map<string, seq<Entry>>, fileName: string, stray: Stray): Option<Files> {
    if fileName !in archives then None
    else if Contained(archives[fileName]) then Unpacked(archives[fileName])
    else stray.temp
  }

  /** Extraction begins with the call after this many. */
  const EXTRACT_AT: nat := 3

  predicate Strayed(archives: map<string, seq<Entry>>, fileName: string, steps: nat) {
    Strays(archives, fileName) && steps > EXTRACT_AT
  }

  /** From which call on the directories develop undisturbed: from the extraction if
      it went astray, and otherwise from the first. */
  function Since(strayed: bool): nat {
    if strayed then EXTRACT_AT + 1 else 0
  }

  method ExtractTo(archives: map<string, seq<Entry>>, fileName: string, stray: Stray) returns (temp: Option<Files>)
    requires fileName in archives && SoundStray(stray)
    ensures temp == TempOf(archives, fileName, stray) && SoundPart(temp)
  {
    if Contained(archives[fileName]) {
      temp := Unpack(archives[fileName]);
    } else {
      temp := stray.temp;
    }
  }

  /** The calls up to the extraction. */
  method OpenArchive(archives: map<string, seq<Entry>>, fileName: string, d: Dirs, running: bool, life: Life, failing: nat)
    returns (ok: bool, r: Run)
    ensures Got(Restoring, life, running, 0, d, r, ok)
    ensures ok <==> fileName in archives && EXTRACT_AT <= failing
    ensures r.steps == Made(failing, if fileName !in archives then 2 else EXTRACT_AT)
  {
    r := Run(0, d, running, []);
    ok, r := Make(Restoring, MakeTemp, r, life, failing, true, running, 0, d);
    if !ok { return; }
    ok, r := Make(Restoring, StatFile, r, life, failing, fileName in archives, running, 0, d);
    if !ok { return; }
    ok, r := Make(Restoring, CheckSpace, r, life, failing, true, running, 0, d);
  }

  /** All before the application is stopped.  `strayDirs` is what an extraction that
      goes astray makes of the application's directories. */
  method Unarchive(archives: map<string, seq<Entry>>, fileName: string, stray: Stray, d: Dirs, strayDirs: Dirs, running: bool, life: Life, failing: nat)
    returns (ok: bool, r: Run, temp: Files)
    requires SoundStray(stray)
    ensures var strayed := Strayed(archives, fileName, r.steps);
            Got(Restoring, life, running, Since(strayed), if strayed then strayDirs else d, r, ok)
    ensures ok <==> TempOf(archives, fileName, stray).Some? && 6 <= failing
    ensures ok ==> SoundFiles(temp) && TempOf(archives, fileName, stray) == Some(temp)
    ensures r.steps == Made(failing, if fileName !in archives then 2 else if TempOf(archives, fileName, stray) == None then 4 else 6)
  {
    temp := EMPTY;
    ok, r := OpenArchive(archives, fileName, d, running, life, failing);
    if !ok { return; }
    var extracted := ExtractTo(archives, fileName, stray);
    ok, r := Make(Restoring, Extract, r, life, failing, extracted.Some?, running, 0, d);
    var strayed := Strayed(archives, fileName, r.steps);
    r := r.(dirs := if strayed then strayDirs else r.dirs);
    if !ok { return; }
    temp := extracted.value;
    ghost var from, base := Since(strayed), if strayed then strayDirs else d;
    ok, r := Make(Restoring, FindApp, r, life, failing, true, running, from, base);
    if !ok { return; }
    ok, r := Make(Restoring, Hook(RestorePreStop), r, life, failing, true, running, from, base);
  }

  method StopAndResolve(d: Dirs, running: bool, life: Life, failing: nat, before: Run, ghost from: nat) returns (ok: bool, r: Run)
    requires Got(Restoring, life, running, from, d, before, true) && before.steps == 6 <= failing
    ensures Got(Restoring, life, running, from, d, r, ok)
    ensures r.steps == Made(failing, 9) && (ok <==> d.current.Some? && 9 <= failing)
  {
    r := before;
    ok, r := Make(Restoring, Stop, r, life, failing, true, running, from, d);
    if !ok { return; }
    ok, r := Make(Restoring, Hook(RestorePostStop), r, life, failing, true, running, from, d);
    if !ok { return; }
    ok, r := Make(Restoring, Resolve, r, life, failing, d.current.Some?, running, from, d);
  }

  /** Recreates one directory, copies into it and hands it over.  A call that fails
      leaves of the directory what `wreck` says. */
  method Refill(files: Option<Files>, temp: Files, part: Part, name: string, owner: Option<Owner>, wreck: Wreck,
                dirs: Dirs, running: bool, life: Life, failing: nat, before: Run)
    returns (after: Option<Files>, ok: bool, r: Run)
    requires SoundPart(files) && SoundFiles(temp) && Wrecks(wreck) && FirstCall(part) <= failing
    requires before.steps == FirstCall(part) && Got(Restoring, life, running, FirstCall(part), dirs, before, true)
    ensures SoundPart(after)
    ensures Got(Restoring, life, running, FirstCall(part), dirs, r, ok) && r.dirs == dirs
    ensures ok <==> IsDir(temp, [name]) && owner.Some? && FirstCall(part) + 3 <= failing
    ensures ok ==> after.Some? && Refilled(temp, name, owner.value, after.value)
    ensures r.steps == Made(failing, FirstCall(part) + if IsDir(temp, [name]) then 3 else 2)
  {
    RefillOrder(part);
    var first := FirstCall(part);
    r, after := before, files;
    ok, r := Make(Restoring, Wipe(part), r, life, failing, true, running, first, dirs);
    if !ok {
      after := wreck(first, files);
      return;
    }
    EmptyIsSound();
    after := Some(EMPTY);
    ok, r := Make(Restoring, CopyIn(part), r, life, failing, IsDir(temp, [name]), running, first, dirs);
    if !ok {
      after := wreck(first + 1, after);
      return;
    }
    SubIsSound(temp, name);
    var copied := Copied(Sub(temp, name));
    after := Some(copied);
    ok, r := Make(Restoring, Chown(part), r, life, failing, owner.Some?, running, first, dirs);
    if !ok { return; }
    OwnedIsSound(copied, owner.value);
    RefilledBy(temp, name, owner.value);
    after := Some(OwnedBy(copied, owner.value));
  }

  lemma EmptyIsSound()
    ensures SoundFiles(EMPTY)
  {
  }

  /** What a restore puts in place of one directory, and of both. */
  ghost predicate PutBackPart(temp: Files, name: string, owner: Option<Owner>, part: Option<Files>) {
    owner.Some? && part.Some? && Refilled(temp, name, owner.value, part.value)
  }

  ghost predicate PutBack(temp: Files, owner: Option<Owner>, d: Dirs) {
    PutBackPart(temp, "current", owner, d.current) && PutBackPart(temp, "common", owner, d.common)
  }

  function ReplaceLimit(temp: Files, owner: Option<Owner>): nat {
    if !IsDir(temp, ["current"]) then 11
    else if owner == None then 12
    else if !IsDir(temp, ["common"]) then 14
    else RESTORE_CALLS
  }

  /** Both directories. */
  method Replace(d: Dirs, temp: Files, owner: Option<Owner>, wreck: Wreck, running: bool, life: Life, failing: nat, before: Run)
    returns (ok: bool, r: Run)
    requires SoundDirs(d) && SoundFiles(temp) && Wrecks(wreck) && 9 <= failing
    requires before.steps == 9 && Got(Restoring, life, running, 9, d, before, true)
    ensures SoundDirs(r.dirs) && Follows(Restoring, r.trace) && |r.trace| == r.steps
    ensures r.steps == if ok then 15 else Made(failing, ReplaceLimit(temp, owner))
    ensures ok <==> ReplaceLimit(temp, owner) == RESTORE_CALLS && 15 <= failing
    ensures ok ==> PutBack(temp, owner, r.dirs) && Got(Restoring, life, running, 15, r.dirs, r, true)
    ensures !ok ==> !r.running && (r.steps <= 12 ==> r.dirs.common == d.common) && (r.steps > 12 ==> PutBackPart(temp, "current", owner, r.dirs.current))
  {
    var current, common;
    current, ok, r := Refill(d.current, temp, Current, "current", owner, wreck, d, running, life, failing, before);
    var half := d.(current := current);
    r := r.(dirs := half);
    if !ok { return; }
    common, ok, r := Refill(d.common, temp, Common, "common", owner, wreck, half, running, life, failing, r);
    r := r.(dirs := half.(common := common));
  }

  method Restart(running: bool, life: Life, failing: nat, before: Run) returns (ok: bool, r: Run)
    requires before.steps == 15 <= failing && Got(Restoring, life, running, 15, before.dirs, before, true)
    ensures Got(Restoring, life, running, 15, before.dirs, r, ok)
    ensures r.steps == Made(failing, 19) && (ok <==> 19 <= failing)
  {
    r := before;
    ok, r := Make(Restoring, Hook(RestorePreStart), r, life, failing, true, running, 15, before.dirs);
    if !ok { return; }
    ok, r := Make(Restoring, Start, r, life, failing, true, running, 15, before.dirs);
    if !ok { return; }
    ok, r := Make(Restoring, Hook(RestorePostStart), r, life, failing, true, running, 15, before.dirs);
    if !ok { return; }
    ok, r := Make(Restoring, RemoveTemp, r, life, failing, true, running, 15, before.dirs);
  }

  // ----- the operations -------------------------------------------------------

  ghost predicate AllSound(dirs: map<string, Dirs>) {
    forall a :: a in dirs ==> SoundDirs(dirs[a])
  }

  /** What a restore leaves of the directories that were `d` before call `from`, by
      how far it gets. */
  ghost predicate RestoredAs(d: Dirs, from: nat, temp: Option<Files>, owner: Option<Owner>, running: bool, life: Life, steps: nat, after: Dirs) {
    && SoundDirs(after)
    && (steps <= 9 ==> after == Evolve(Restoring, life, running, from, steps, d))
    && (9 < steps <= 12 ==> after.common == Evolve(Restoring, life, running, from, 9, d).common)
    && (12 < steps <= 15 ==> temp.Some? && PutBackPart(temp.value, "current", owner, after.current))
    && (steps > 15 ==> temp.Some? && exists placed :: PutBack(temp.value, owner, placed) && after == Evolve(Restoring, life, running, 15, steps, placed))
  }

  /** From the stop on. */
  method PutInPlace(d: Dirs, temp: Files, owner: Option<Owner>, wreck: Wreck, running: bool, life: Life, failing: nat, before: Run, ghost from: nat)
    returns (ok: bool, r: Run)
    requires SoundDirs(d) && SoundFiles(temp) && Wrecks(wreck) && Lives(life)
    requires Got(Restoring, life, running, from, d, before, true) && before.steps == 6 <= failing
    ensures Follows(Restoring, r.trace) && |r.trace| == r.steps && r.steps > 6
    ensures r.steps == Made(failing, if d.current == None then 9 else ReplaceLimit(temp, owner))
    ensures ok <==> d.current.Some? && ReplaceLimit(temp, owner) == RESTORE_CALLS && RESTORE_CALLS <= failing
    ensures RestoredAs(d, from, Some(temp), owner, running, life, r.steps, r.dirs)
    ensures r.running == RunningAfter(Restoring, running, r.steps)
  {
    ok, r := StopAndResolve(d, running, life, failing, before, from);
    EvolveSound(Restoring, life, running, from, r.steps, d);
    if !ok { return; }
    ok, r := Replace(r.dirs, temp, owner, wreck, running, life, failing, r);
    if !ok { return; }
    ghost var placed := r.dirs;
    ok, r := Restart(running, life, failing, r);
    EvolveSound(Restoring, life, running, 15, r.steps, placed);
  }

  /** Where a restore into the directories `d` ends for want of something, once the
      application is known. */
  function LimitFrom(archives: map<string, seq<Entry>>, fileName: string, stray: Stray, d: Dirs, owner: Option<Owner>): nat {
    if fileName !in archives then 2
    else if TempOf(archives, fileName, stray) == None then 4
    else if d.current == None then 9
    else ReplaceLimit(TempOf(archives, fileName, stray).value, owner)
  }

  /** All calls of a restore. */
  method RestoreCalls(archives: map<string, seq<Entry>>, fileName: string, stray: Stray, d: Dirs, strayDirs: Dirs, owner: Option<Owner>,
                      wreck: Wreck, running: bool, life: Life, failing: nat)
    returns (ok: bool, r: Run)
    requires SoundDirs(d) && SoundDirs(strayDirs) && SoundStray(stray) && Lives(life) && Wrecks(wreck)
    ensures var limit := LimitFrom(archives, fileName, stray, if Strays(archives, fileName) then strayDirs else d, owner);
            r.steps == Made(failing, limit) && (ok <==> limit == RESTORE_CALLS <= failing)
    ensures var strayed := Strayed(archives, fileName, r.steps);
            RestoredAs(if strayed then strayDirs else d, Since(strayed), TempOf(archives, fileName, stray), owner, running, life, r.steps, r.dirs)
    ensures r.running == RunningAfter(Restoring, running, r.steps)
    ensures Follows(Restoring, r.trace) && |r.trace| == r.steps
  {
    var temp;
    ok, r, temp := Unarchive(archives, fileName, stray, d, strayDirs, running, life, failing);
    var strayed := Strayed(archives, fileName, r.steps);
    var base := if strayed then strayDirs else d;
    EvolveSound(Restoring, life, running, Since(strayed), r.steps, base);
    if ok {
      ok, r := PutInPlace(base, temp, owner, wreck, running, life, failing, r, Since(strayed));
    }
  }

  function DirsOf(dirs: map<string, Dirs>, app: string): Dirs {
    if app in dirs then dirs[app] else Dirs(None, None)
  }

  class Backup {
    const ownerOf: string -> Option<Owner>  // the system user of an application
    var dirs: map<string, Dirs>
    var archives: map<string, seq<Entry>>
    var running: set<string>
    ghost var trace: seq<Effect>

    constructor (ownerOf: string -> Option<Owner>)
      ensures this.ownerOf == ownerOf && Valid() && archives == map[] && trace == []
    {
      this.ownerOf := ownerOf;
      dirs, archives, running, trace := map[], map[], {}, [];
    }

    ghost predicate Valid()
      reads this
    {
      AllSound(dirs)
    }

    function Of(app: string): Dirs
      reads this
    {
      DirsOf(dirs, app)
    }

    /** Takes over what became of one application. */
    method Settle(app: string, r: Run)
      requires AllSound(dirs) && SoundDirs(r.dirs)
      modifies this`dirs, this`running, this`trace
      ensures AllSound(dirs) && Of(app) == r.dirs && dirs - {app} == old(dirs) - {app}
      ensures app in running <==> r.running
      ensures running - {app} == old(running) - {app}
      ensures trace == old(trace) + r.trace
    {
      dirs := dirs[app := r.dirs];
      running := if r.running then running + {app} else running - {app};
      trace := trace + r.trace;
    }

    /** `debris` is what a failing write leaves under the new name. */
    method Create(app: string, time: BackupFile.Time, life: Life, failing: nat, debris: Option<seq<Entry>>) returns (ok: bool, steps: nat)
      requires Valid() && Lives(life)
      modifies this
      ensures Valid()
      ensures steps == Made(failing, CreateLimit(old(Of(app))))
      ensures ok <==> old(Of(app)).Both() && CREATE_CALLS <= failing
      ensures Of(app) == Evolve(Creating, life, old(app in running), 0, steps, old(Of(app)))
      ensures steps == 13 ==> BackupFile.Name(app, time) in archives
                              && ArchiveOf(archives[BackupFile.Name(app, time)], Evolve(Creating, life, old(app in running), 0, 8, old(Of(app))))
      ensures steps <= 11 ==> archives == old(archives)
      ensures steps == 12 ==> archives == if debris == None then old(archives) else old(archives)[BackupFile.Name(app, time) := debris.value]
      ensures archives - {BackupFile.Name(app, time)} == old(archives) - {BackupFile.Name(app, time)}
      ensures app in running <==> RunningAfter(Creating, old(app in running), steps)
      ensures dirs - {app} == old(dirs) - {app} && running - {app} == old(running) - {app}
      ensures old(trace) <= trace && |trace| == |old(trace)| + steps && Follows(Creating, trace[|old(trace)|..])
    {
      var d, runs := Of(app), app in running;
      var r, written, entries;
      ok, r, written, entries := CreateCalls(d, runs, life, failing);
      steps := r.steps;
      if written {
        archives := Store(archives, BackupFile.Name(app, time), entries);
      } else if steps == 12 && debris.Some? {
        archives := Store(archives, BackupFile.Name(app, time), debris.value);
      }
      EvolveSound(Creating, life, runs, 0, steps, d);
      Settle(app, r);
    }

    static function Store(archives: map<string, seq<Entry>>, name: string, entries: seq<Entry>): (r: map<string, seq<Entry>>)
      ensures r == archives[name := entries] && r - {name} == archives - {name}
    {
      archives[name := entries]
    }

    /** The application's directories when an archive has been extracted. */
    function Found(fileName: string, stray: Stray, app: string): Dirs
      reads this
    {
      if Strays(archives, fileName) then DirsOf(stray.dirs, app) else Of(app)
    }

    /** Where a restore ends for want of something. */
    function RestoreLimit(fileName: string, stray: Stray): nat
      reads this
    {
      var app := BackupFile.Parse(fileName);
      if app == None then 0 else LimitFrom(archives, fileName, stray, Found(fileName, stray, app.value), ownerOf(app.value))
    }

    /** `stray` matters only if the archive has a name that climbs above its start,
        and then from the extraction on. */
    method Restore(fileName: string, stray: Stray, life: Life, wreck: Wreck, failing: nat) returns (ok: bool, steps: nat)
      requires Valid() && SoundStray(stray) && Lives(life) && Wrecks(wreck)
      modifies this
      ensures Valid()
      ensures steps == Made(failing, old(RestoreLimit(fileName, stray)))
      ensures ok <==> old(RestoreLimit(fileName, stray)) == RESTORE_CALLS <= failing
      ensures BackupFile.Parse(fileName) == None ==> dirs == old(dirs) && archives == old(archives) && running == old(running) && trace == old(trace)
      ensures steps > 0 ==> var app, strayed := BackupFile.Parse(fileName).value, Strayed(old(archives), fileName, steps);
                && RestoredAs(if strayed then DirsOf(stray.dirs, app) else old(Of(app)), Since(strayed), TempOf(old(archives), fileName, stray),
                              ownerOf(app), old(app in running), life, steps, Of(app))
                && dirs - {app} == (if strayed then stray.dirs else old(dirs)) - {app}
                && archives == (if strayed then stray.archives else old(archives))
                && (app in running <==> RunningAfter(Restoring, old(app in running), steps))
                && running - {app} == old(running) - {app}
      ensures old(trace) <= trace && |trace| == |old(trace)| + steps && Follows(Restoring, trace[|old(trace)|..])
    {
      var parsed := BackupFile.Parse(fileName);
      if parsed == None { return false, 0; }
      var app := parsed.value;
      var r;
      ok, r := RestoreCalls(archives, fileName, stray, Of(app), DirsOf(stray.dirs, app), ownerOf(app), wreck, app in running, life, failing);
      var strayed := Strayed(archives, fileName, r.steps);
      if strayed {
        dirs, archives := stray.dirs, stray.archives;
      }
      steps := r.steps;
      Settle(app, r);
    }
  }

  // ----- the round trip -------------------------------------------------------

  /** Both directories come back. */
  ghost predicate ComeBack(found: Dirs, owner: Owner, placed: Dirs) {
    && found.Both() && placed.Both()
    && ComesBack(found.current.value, owner, placed.current.value)
    && ComesBack(found.common.value, owner, placed.common.value)
  }

  lemma ArchivePutsBack(d: Dirs, entries: seq<Entry>, owner: Option<Owner>)
    requires ArchiveOf(entries, d)
    ensures Contained(entries) && Unpacked(entries).Some?
    ensures ReplaceLimit(Unpacked(entries).value, owner) == if owner == None then 12 else RESTORE_CALLS
    ensures forall placed :: PutBack(Unpacked(entries).value, owner, placed) ==> ComeBack(d, owner.value, placed)
  {
    ArchiveGivesBack(d, entries);
    var temp := Unpacked(entries).value;
    forall placed | PutBack(temp, owner, placed) ensures ComeBack(d, owner.value, placed) {
      PackedComesBack(temp, d, owner.value, placed.current.value, placed.common.value);
    }
  }

  /** Restoring an archive of `copied`. */
  method RestoreOf(b: Backup, app: string, name: string, stray: Stray, life: Life, wreck: Wreck, failing: nat, ghost copied: Dirs) returns (ok: bool)
    requires b.Valid() && SoundStray(stray) && Lives(life) && Wrecks(wreck)
    requires BackupFile.Parse(name) == Some(app) && name in b.archives && ArchiveOf(b.archives[name], copied)
    modifies b
    ensures ok <==> old(b.Of(app)).current.Some? && b.ownerOf(app).Some? && RESTORE_CALLS <= failing
    ensures ok ==> exists placed :: ComeBack(copied, b.ownerOf(app).value, placed)
                     && b.Of(app) == Evolve(Restoring, life, old(app in b.running), 15, RESTORE_CALLS, placed)
  {
    ghost var temp, runs := Unpacked(b.archives[name]), app in b.running;
    ArchivePutsBack(copied, b.archives[name], b.ownerOf(app));
    var steps;
    ok, steps := b.Restore(name, stray, life, wreck, failing);
    if ok {
      ghost var placed :| PutBack(temp.value, b.ownerOf(app), placed) && b.Of(app) == Evolve(Restoring, life, runs, 15, RESTORE_CALLS, placed);
      assert ComeBack(copied, b.ownerOf(app).value, placed);
    }
  }

  /** A backup, any later changes to any application, and a restore of it.  If both
      go through, what the restore puts in place before the pre-start hook is what
      the backup found after its post-stop hook, whatever the application and all
      hooks do meanwhile; from there on the directories are the application's. */
  method BackupThenRestore(b: Backup, app: string, time: BackupFile.Time, life: Life, failing: nat, debris: Option<seq<Entry>>,
                           laterDirs: map<string, Dirs>, laterRunning: set<string>, stray: Stray, laterLife: Life, wreck: Wreck, laterFailing: nat)
    returns (ok: bool)
    requires b.Valid() && BackupFile.Attributable(app) && Lives(life) && Lives(laterLife) && Wrecks(wreck)
    requires AllSound(laterDirs) && SoundStray(stray)
    modifies b
    ensures ok <==> old(b.Of(app)).Both() && CREATE_CALLS <= failing && b.ownerOf(app).Some?
                    && app in laterDirs && laterDirs[app].current.Some? && RESTORE_CALLS <= laterFailing
    ensures ok ==> var found := Evolve(Creating, life, old(app in b.running), 0, 8, old(b.Of(app)));
                   exists placed :: ComeBack(found, b.ownerOf(app).value, placed)
                     && b.Of(app) == Evolve(Restoring, laterLife, app in laterRunning, 15, RESTORE_CALLS, placed)
  {
    ghost var found := Evolve(Creating, life, app in b.running, 0, 8, b.Of(app));
    EvolveSound(Creating, life, app in b.running, 0, 8, b.Of(app));
    var created, steps := b.Create(app, time, life, failing, debris);
    if !created {
      return false;
    }
    b.dirs, b.running := laterDirs, laterRunning;
    BackupFile.ParseOfName(app, time);
    ok := RestoreOf(b, app, BackupFile.Name(app, time), stray, laterLife, wreck, laterFailing, found);
  }

  /** Who writes meanwhile: until the copy the hooks, and the application as long as it
      runs; from the pre-start hook on both hooks, and the application once started. */
  lemma WhoWrites(life: Life, d: Dirs)
    ensures Evolve(Creating, life, false, 0, 8, d) == life(7, life(5, d))
    ensures Evolve(Creating, life, true, 0, 8, d) == life(7, life(6, life(5, life(4, life(3, life(2, life(1, life(0, d))))))))
    ensures forall running :: Evolve(Restoring, life, running, 15, RESTORE_CALLS, d) == life(18, life(17, life(15, d)))
  {
    WritesUntilStop(life, d);
    forall running ensures Evolve(Restoring, life, running, 15, RESTORE_CALLS, d) == life(18, life(17, life(15, d))) {
      assert Evolve(Restoring, life, running, 15, 16, d) == life(15, d);
      assert Evolve(Restoring, life, running, 15, 17, d) == life(15, d);
      assert Evolve(Restoring, life, running, 15, 18, d) == life(17, life(15, d));
    }
  }

  lemma WritesUntilStop(life: Life, d: Dirs)
    ensures Evolve(Creating, life, false, 0, 8, d) == life(7, life(5, d))
    ensures Evolve(Creating, life, true, 0, 8, d) == life(7, life(6, life(5, life(4, life(3, life(2, life(1, life(0, d))))))))
  {
    forall running: bool ensures Evolve(Creating, life, running, 0, 2, d) == if running then life(1, life(0, d)) else d {
      assert Evolve(Creating, life, running, 0, 1, d) == if running then life(0, d) else d;
    }
    forall running: bool ensures Evolve(Creating, life, running, 0, 5, d) == if running then life(4, life(3, life(2, life(1, life(0, d))))) else d {
      assert Evolve(Creating, life, running, 0, 3, d) == if running then life(2, life(1, life(0, d))) else d;
      assert Evolve(Creating, life, running, 0, 4, d) == if running then life(3, life(2, life(1, life(0, d)))) else d;
    }
    assert Evolve(Creating, life, false, 0, 6, d) == life(5, d);
    assert Evolve(Creating, life, false, 0, 7, d) == life(5, d);
    assert Evolve(Creating, life, true, 0, 6, d) == life(5, Evolve(Creating, life, true, 0, 5, d));
    assert Evolve(Creating, life, true, 0, 7, d) == life(6, Evolve(Creating, life, true, 0, 6, d));
  }

  /** With nobody else at work, the directories come back as they were, less sockets. */
  lemma UndisturbedRoundTrip(life: Life, laterLife: Life, running: bool, laterRunning: bool, d: Dirs, owner: Owner, placed: Dirs)
    requires (forall i: nat, e: Dirs :: life(i, e) == e) && (forall i: nat, e: Dirs :: laterLife(i, e) == e)
    requires ComeBack(Evolve(Creating, life, running, 0, 8, d), owner, placed)
    ensures ComeBack(d, owner, Evolve(Restoring, laterLife, laterRunning, 15, RESTORE_CALLS, placed))
  {
    EvolveIdle(Creating, life, running, 0, 8, d);
    EvolveIdle(Restoring, laterLife, laterRunning, 15, RESTORE_CALLS, placed);
  }

  // ----- the order of the calls -----------------------------------------------

  predicate Touches(e: Effect) {
    e.CopyOut? || e.CopyIn? || e.Wipe? || e.Chown?
  }

  /** In every trace of an operation, a call that touches the directories is made
      after the stop and before any start, when neither the application nor a hook
      can write. */
  lemma TouchedWhileStopped(op: Operation, trace: seq<Effect>, j: nat, running: bool)
    requires Follows(op, trace) && |trace| <= Total(op) && j < |trace| && Touches(trace[j])
    ensures 6 < j && trace[6] == Stop && (forall i :: 6 < i <= j ==> trace[i] != Start)
    ensures !MayWrite(op, running, j)
  {
    assert Position(op, trace[j]) == j;
    assert Position(op, trace[6]) == 6;
    Places(op, trace[6]);
    forall i | 6 < i <= j ensures trace[i] != Start {
      assert Position(op, trace[i]) == i;
    }
  }
}
