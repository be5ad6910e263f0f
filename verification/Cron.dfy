/** Automatic backups: when each application is due, and what a run records.

    Times are Unix seconds; `zone` is the offset of local time in seconds. */
module Cron {
  import opened Helpers
  import opened UserConfig

  // ----- the scheduler --------------------------------------------------------

  /** 1 January of year 1, which stands for "never". */
  const ZERO_TIME: int := -62135596800

  /** Truncation to the hour is taken in absolute time, whatever the zone. */
  function ClockHour(time: int): int {
    time / 3600
  }

  function LocalDay(time: int, zone: int): int {
    (time + zone) / 86400
  }

  function LocalHour(time: int, zone: int): int {
    (time + zone) / 3600 % 24
  }

  /** Monday is 1 and Sunday is 7; day 0 of the Unix epoch was a Thursday. */
  function WeekDay(time: int, zone: int): int {
    var w := (LocalDay(time, zone) + 4) % 7;
    if w == 0 then 7 else w
  }

  /** The settings name this hour of this day. */
  predicate Matches(day: int, hour: int, time: int, zone: int) {
    (day == 0 || WeekDay(time, zone) == day) && LocalHour(time, zone) == hour
  }

  /** `time` falls into hour `hour` of local day `n`, counted from the epoch. */
  predicate InHour(n: int, hour: int, time: int, zone: int) {
    0 <= hour < 24 && 0 <= time + zone - (n * 86400 + hour * 3600) < 3600
  }

  /** The Monday of the first full week is day 4. */
  predicate OnDay(n: int, day: int) {
    day == 0 || (1 <= day <= 7 && (n - 4) % 7 == day - 1)
  }

  /** What the settings name, told by the calendar. */
  lemma MatchesIff(day: int, hour: int, time: int, zone: int)
    ensures Matches(day, hour, time, zone) <==> exists n :: InHour(n, hour, time, zone) && OnDay(n, day)
  {
    var n := LocalDay(time, zone);
    DayHour(time + zone);
    if Matches(day, hour, time, zone) {
      assert InHour(n, hour, time, zone) && OnDay(n, day);
    }
    if m :| InHour(m, hour, time, zone) && OnDay(m, day) {
      OneHour(m, hour, time, zone);
    }
  }

  lemma OneHour(n: int, hour: int, time: int, zone: int)
    requires InHour(n, hour, time, zone)
    ensures n == LocalDay(time, zone) && hour == LocalHour(time, zone)
  {
    var rest := time + zone - n * 86400;
    assert (time + zone) / 86400 == n;
    assert (time + zone) / 3600 == n * 24 + hour;
  }

  lemma DayHour(t: int)
    ensures 0 <= t - (t / 86400 * 86400 + t / 3600 % 24 * 3600) < 3600
  {
    assert t / 3600 / 24 == t / 86400;
  }

  function ShouldRun(day: int, hour: int, now: int, last: int, zone: int): (due: bool)
    ensures due <==> ClockHour(now) != ClockHour(last) && Matches(day, hour, now, zone)
  {
    if ClockHour(now) == ClockHour(last) then false
    else if day == 0 then LocalHour(now, zone) == hour
    else if WeekDay(now, zone) == day then LocalHour(now, zone) == hour
    else false
  }

  function LastTime(t: Table, app: string, mode: string): int {
    var v := GetBackupAppTime(t, app, mode);
    if v == None then ZERO_TIME else v.value
  }

  // ----- one run of the job ---------------------------------------------------

  /** A backup or restore that succeeded, with the settings it was due under. */
  datatype Success = Success(app: string, mode: string, time: int, day: int, hour: int)

  /** Whether `app` is worked on now. */
  predicate Due(t: Table, app: string, now: int, zone: int) {
    && app != "syncthing"
    && ShouldRun(GetBackupAutoDay(t), GetBackupAutoHour(t), now, LastTime(t, app, GetBackupAuto(t)), zone)
  }

  /** Values outside the whitelist are treated as restore. */
  function ModeRun(auto: string): string {
    if auto == "backup" then "backup" else "restore"
  }

  /** One application: `works` says whether its backup or restore would succeed. */
  function Visit(t: Table, app: string, works: bool, now: int, zone: int): (Table, seq<Success>) {
    if Due(t, app, now, zone) && works then
      var mode := ModeRun(GetBackupAuto(t));
      (WithBackupAppTime(t, app, mode, now), [Success(app, mode, now, GetBackupAutoDay(t), GetBackupAutoHour(t))])
    else (t, [])
  }

  function Visits(t: Table, apps: seq<string>, works: seq<bool>, now: int, zone: int): (Table, seq<Success>)
    requires |works| == |apps|
  {
    if apps == [] then (t, []) else
    var n := |apps| - 1;
    var (t1, done1) := Visits(t, apps[..n], works[..n], now, zone);
    var (t2, done2) := Visit(t1, apps[n], works[n], now, zone);
    (t2, done1 + done2)
  }

  /** The whole job, unless it is switched off. */
  function RunOnce(t: Table, apps: seq<string>, works: seq<bool>, now: int, zone: int): (Table, seq<Success>)
    requires |works| == |apps|
  {
    if GetBackupAuto(t) == "no" then (t, []) else Visits(t, apps, works, now, zone)
  }

  predicate IsListed(auto: string) {
    auto == "no" || auto == "backup" || auto == "restore"
  }

  class BackupJob {
    const config: UserConfig

    constructor (config: UserConfig)
      ensures this.config == config
    {
      this.config := config;
    }

    method Run(apps: seq<string>, works: seq<bool>, now: int, zone: int) returns (done: seq<Success>)
      requires |works| == |apps|
      modifies config
      ensures (config.db, done) == RunOnce(old(config.db), apps, works, now, zone)
      ensures IsListed(GetBackupAuto(old(config.db))) && NoDup(apps) ==> SucceedExactly(old(config.db), apps, works, now, zone, done)
    {
      if IsListed(GetBackupAuto(config.db)) && NoDup(apps) {
        WhoSucceeds(config.db, apps, works, now, zone);
      }
      if GetBackupAuto(config.db) == "no" {
        return [];
      }
      done := VisitAll(apps, works, now, zone);
    }

    method VisitAll(apps: seq<string>, works: seq<bool>, now: int, zone: int) returns (done: seq<Success>)
      requires |works| == |apps|
      modifies config
      ensures (config.db, done) == Visits(old(config.db), apps, works, now, zone)
    {
      done := [];
      var auto := GetBackupAuto(config.db);
      var day := GetBackupAutoDay(config.db);
      var hour := GetBackupAutoHour(config.db);
      for i := 0 to |apps|
        invariant (config.db, done) == Visits(old(config.db), apps[..i], works[..i], now, zone)
        invariant SettingsAre(config.db, auto, day, hour)
      {
        assert apps[..i + 1][..i] == apps[..i] && works[..i + 1][..i] == works[..i];
        assert done + [] == done;
        KeepsSettings(config.db, apps[i], ModeRun(auto), now);
        var app := apps[i];
        if app == "syncthing" {
          continue;
        }
        var last := LastTime(config.db, app, auto);
        if ShouldRun(day, hour, now, last, zone) && works[i] {
          if auto == "backup" {
            config.SetBackupAppTime(app, "backup", now);
            done := done + [Success(app, "backup", now, day, hour)];
          } else {
            config.SetBackupAppTime(app, "restore", now);
            done := done + [Success(app, "restore", now, day, hour)];
          }
        }
      }
      assert apps[..|apps|] == apps && works[..|works|] == works;
    }
  }

  /** The last success of an application that is not visited stays what it was. */
  lemma {:induction false} OthersStay(t: Table, apps: seq<string>, works: seq<bool>, now: int, zone: int, app: string)
    requires |works| == |apps| && IsMode(GetBackupAuto(t)) && app !in apps
    ensures var after := Visits(t, apps, works, now, zone).0;
            && SettingsAre(after, GetBackupAuto(t), GetBackupAutoDay(t), GetBackupAutoHour(t))
            && forall mode :: IsMode(mode) ==> GetBackupAppTime(after, app, mode) == GetBackupAppTime(t, app, mode)
  {
    if apps != [] {
      var n := |apps| - 1;
      OthersStay(t, apps[..n], works[..n], now, zone, app);
      var t1 := Visits(t, apps[..n], works[..n], now, zone).0;
      KeepsSettings(t1, apps[n], ModeRun(GetBackupAuto(t1)), now);
      forall mode | IsMode(mode) ensures GetBackupAppTime(Visit(t1, apps[n], works[n], now, zone).0, app, mode) == GetBackupAppTime(t1, app, mode) {
        AppTimeKeysDiffer(apps[n], ModeRun(GetBackupAuto(t1)), app, mode);
      }
    }
  }

  ghost predicate Succeeds(done: seq<Success>, app: string) {
    exists k :: 0 <= k < |done| && done[k].app == app
  }

  lemma SucceedsConcat(a: seq<Success>, b: seq<Success>, app: string)
    ensures Succeeds(a + b, app) <==> Succeeds(a, app) || Succeeds(b, app)
  {
    if k :| 0 <= k < |a| && a[k].app == app {
      assert (a + b)[k].app == app;
    }
    if k :| 0 <= k < |b| && b[k].app == app {
      assert (a + b)[|a| + k].app == app;
    }
  }

  lemma OneMoreSucceeds(t: Table, t1: Table, visited: string, works: bool, now: int, zone: int, app: string)
    requires IsMode(GetBackupAuto(t)) && SettingsAre(t1, GetBackupAuto(t), GetBackupAutoDay(t), GetBackupAutoHour(t))
    requires GetBackupAppTime(t1, visited, GetBackupAuto(t)) == GetBackupAppTime(t, visited, GetBackupAuto(t))
    ensures Succeeds(Visit(t1, visited, works, now, zone).1, app) <==> visited == app && works && Due(t, app, now, zone)
  {
    var done := Visit(t1, visited, works, now, zone).1;
    assert Due(t1, visited, now, zone) <==> Due(t, visited, now, zone);
    assert done != [] ==> done[0].app == visited;
  }

  /** Who succeeds in one run over different applications: those whose backup or
      restore works, other than syncthing, outside the clock hour of their last
      success, at the configured hour of a matching day; nobody if it is switched off. */
  ghost predicate SucceedExactly(t: Table, apps: seq<string>, works: seq<bool>, now: int, zone: int, done: seq<Success>)
    requires |works| == |apps|
  {
    forall app :: Succeeds(done, app) <==>
      && app != "syncthing" && (exists i :: 0 <= i < |apps| && apps[i] == app && works[i])
      && (GetBackupAuto(t) == "backup" || GetBackupAuto(t) == "restore")
      && ClockHour(now) != ClockHour(LastTime(t, app, GetBackupAuto(t)))
      && Matches(GetBackupAutoDay(t), GetBackupAutoHour(t), now, zone)
  }

  lemma WhoSucceeds(t: Table, apps: seq<string>, works: seq<bool>, now: int, zone: int)
    requires |works| == |apps| && IsListed(GetBackupAuto(t)) && NoDup(apps)
    ensures SucceedExactly(t, apps, works, now, zone, RunOnce(t, apps, works, now, zone).1)
  {
    if GetBackupAuto(t) != "no" {
      forall app ensures Succeeds(Visits(t, apps, works, now, zone).1, app) <==> Works(apps, works, app) && Due(t, app, now, zone) {
        WhoSucceedsHere(t, apps, works, now, zone, app);
      }
    }
  }

  /** `app` is in the list, and its backup or restore works. */
  ghost predicate Works(apps: seq<string>, works: seq<bool>, app: string)
    requires |works| == |apps|
  {
    exists i :: 0 <= i < |apps| && apps[i] == app && works[i]
  }

  lemma WorksMore(apps: seq<string>, works: seq<bool>, app: string)
    requires |works| == |apps| && apps != []
    ensures var n := |apps| - 1; Works(apps, works, app) <==> Works(apps[..n], works[..n], app) || (apps[n] == app && works[n])
  {
    var n := |apps| - 1;
    assert forall i :: 0 <= i < n ==> apps[i] == apps[..n][i] && works[i] == works[..n][i];
  }

  lemma {:induction false} WhoSucceedsHere(t: Table, apps: seq<string>, works: seq<bool>, now: int, zone: int, app: string)
    requires |works| == |apps| && IsMode(GetBackupAuto(t)) && NoDup(apps)
    ensures Succeeds(Visits(t, apps, works, now, zone).1, app) <==> Works(apps, works, app) && Due(t, app, now, zone)
  {
    if apps != [] {
      var n := |apps| - 1;
      WhoSucceedsHere(t, apps[..n], works[..n], now, zone, app);
      OthersStay(t, apps[..n], works[..n], now, zone, apps[n]);
      var (t1, done1) := Visits(t, apps[..n], works[..n], now, zone);
      SucceedsConcat(done1, Visit(t1, apps[n], works[n], now, zone).1, app);
      OneMoreSucceeds(t, t1, apps[n], works[n], now, zone, app);
      WorksMore(apps, works, app);
    }
  }

  predicate SettingsAre(t: Table, auto: string, day: int, hour: int) {
    GetBackupAuto(t) == auto && GetBackupAutoDay(t) == day && GetBackupAutoHour(t) == hour
  }

  lemma KeepsSettings(t: Table, app: string, mode: string, now: int)
    requires IsMode(mode)
    ensures SettingsAre(WithBackupAppTime(t, app, mode, now), GetBackupAuto(t), GetBackupAutoDay(t), GetBackupAutoHour(t))
  {
    AppTimeKeysDiffer(app, mode, app, mode);
  }

  /** The three settings as the interface sets them: each is read back, except a
      mode outside the list, which is ignored. */
  method SetAuto(config: UserConfig, auto: string, day: int, hour: int)
    modifies config
    ensures config.db == WithBackupAutoHour(WithBackupAutoDay(WithBackupAuto(old(config.db), auto), day), hour)
    ensures GetBackupAuto(config.db) == if auto in {"no", "backup", "restore"} then auto else GetBackupAuto(old(config.db))
    ensures Fits(day, 64) ==> GetBackupAutoDay(config.db) == day
    ensures Fits(hour, 64) ==> GetBackupAutoHour(config.db) == hour
  {
    ParseOfFormat(day, 64);
    ParseOfFormat(hour, 64);
    config.SetBackupAuto(auto);
    config.SetBackupAutoDay(day);
    config.SetBackupAutoHour(hour);
  }

  // ----- over whole runs ------------------------------------------------------

  /** What can happen between two looks at the table. */
  datatype Event =
    | Tick(apps: seq<string>, works: seq<bool>, now: int)
    | SetAuto(auto: string)
    | SetDay(day: int)
    | SetHour(hour: int)

  datatype State = State(table: Table, done: seq<Success>, clock: int)

  /** The clock does not go back and stays within 32 bits. */
  predicate Possible(s: State, e: Event) {
    e.Tick? ==> |e.works| == |e.apps| && s.clock <= e.now && Fits(e.now, 32)
  }

  function Next(s: State, e: Event, zone: int): State
    requires Possible(s, e)
  {
    match e
    case Tick(apps, works, now) =>
      var (t, done) := RunOnce(s.table, apps, works, now, zone);
      State(t, s.done + done, now)
    case SetAuto(auto) => s.(table := WithBackupAuto(s.table, auto))
    case SetDay(day) => s.(table := WithBackupAutoDay(s.table, day))
    case SetHour(hour) => s.(table := WithBackupAutoHour(s.table, hour))
  }

  /** Every success is at or before the time recorded for its application and mode,
      which is not in the future, and no two share a clock hour. */
  ghost predicate Recorded(t: Table, done: seq<Success>, clock: int) {
    && (forall i :: 0 <= i < |done| ==>
          var e := done[i];
          var v := GetBackupAppTime(t, e.app, e.mode);
          IsMode(e.mode) && e.app != "syncthing" && v.Some? && e.time <= v.value <= clock)
    && (forall i, j :: 0 <= i < j < |done| && done[i].app == done[j].app && done[i].mode == done[j].mode ==>
          ClockHour(done[i].time) < ClockHour(done[j].time))
  }

  ghost predicate Inv(s: State) {
    && GetBackupAuto(s.table) in {"no", "backup", "restore"}
    && Recorded(s.table, s.done, s.clock)
  }

  lemma ClockHourMonotone(a: int, b: int)
    requires a <= b
    ensures ClockHour(a) <= ClockHour(b)
  {
  }

  lemma VisitRecorded(t: Table, done: seq<Success>, app: string, works: bool, now: int, zone: int)
    requires Recorded(t, done, now) && IsMode(GetBackupAuto(t)) && Fits(now, 32)
    ensures var (after, more) := Visit(t, app, works, now, zone);
            Recorded(after, done + more, now) && GetBackupAuto(after) == GetBackupAuto(t)
  {
    if Due(t, app, now, zone) && works {
      var mode := GetBackupAuto(t);
      var (after, more) := Visit(t, app, works, now, zone);
      ParseOfFormat(now, 32);
      KeepsSettings(t, app, mode, now);
      assert GetBackupAppTime(after, app, mode) == Some(now);
      forall i | 0 <= i < |done|
        ensures var v := GetBackupAppTime(after, done[i].app, done[i].mode); v.Some? && done[i].time <= v.value <= now
        ensures done[i].app == app && done[i].mode == mode ==> ClockHour(done[i].time) < ClockHour(now)
      {
        AppTimeKeysDiffer(app, mode, done[i].app, done[i].mode);
        ClockHourMonotone(done[i].time, LastTime(t, done[i].app, done[i].mode));
        ClockHourMonotone(LastTime(t, done[i].app, done[i].mode), now);
      }
    } else {
      assert done + [] == done;
    }
  }

  lemma Regrouped(a: seq<Success>, b: seq<Success>, c: seq<Success>)
    ensures a + (b + c) == (a + b) + c
  {
  }

  lemma {:induction false} VisitsRecorded(t: Table, done: seq<Success>, apps: seq<string>, works: seq<bool>, now: int, zone: int)
    requires |works| == |apps| && Recorded(t, done, now) && IsMode(GetBackupAuto(t)) && Fits(now, 32)
    ensures var (after, more) := Visits(t, apps, works, now, zone);
            Recorded(after, done + more, now) && GetBackupAuto(after) == GetBackupAuto(t)
  {
    if apps == [] {
      assert done + [] == done;
    } else {
      var n := |apps| - 1;
      var (t1, done1) := Visits(t, apps[..n], works[..n], now, zone);
      var (t2, done2) := Visit(t1, apps[n], works[n], now, zone);
      Regrouped(done, done1, done2);
      VisitsRecorded(t, done, apps[..n], works[..n], now, zone);
      VisitRecorded(t1, done + done1, apps[n], works[n], now, zone);
    }
  }

  lemma InvStep(s: State, e: Event, zone: int)
    requires Inv(s) && Possible(s, e)
    ensures Inv(Next(s, e, zone))
  {
    match e
    case Tick(apps, works, now) =>
      if GetBackupAuto(s.table) != "no" {
        VisitsRecorded(s.table, s.done, apps, works, now, zone);
      }
    case _ =>
      forall i | 0 <= i < |s.done|
        ensures GetBackupAppTime(Next(s, e, zone).table, s.done[i].app, s.done[i].mode) == GetBackupAppTime(s.table, s.done[i].app, s.done[i].mode)
      {
        AppTimeKeysDiffer(s.done[i].app, s.done[i].mode, s.done[i].app, s.done[i].mode);
      }
  }

  /** `states` are passed through when `events` happen. */
  ghost predicate IsRun(states: seq<State>, events: seq<Event>, zone: int) {
    && |states| == |events| + 1
    && forall i :: 0 <= i < |events| ==> Possible(states[i], events[i]) && states[i + 1] == Next(states[i], events[i], zone)
  }

  lemma {:induction false} InvRun(states: seq<State>, events: seq<Event>, zone: int, k: nat)
    requires IsRun(states, events, zone) && Inv(states[0]) && k <= |events|
    ensures Inv(states[k])
  {
    if k > 0 {
      InvRun(states, events, zone, k - 1);
      InvStep(states[k - 1], events[k - 1], zone);
    }
  }

  /** The first state of a run: nothing has succeeded yet, and the mode is a listed one. */
  predicate Starts(s: State) {
    s.done == [] && GetBackupAuto(s.table) in {"no", "backup", "restore"}
  }

  /** In every run each application and mode succeeds at most once in a clock hour. */
  lemma OncePerClockHour(states: seq<State>, events: seq<Event>, zone: int, i: nat, j: nat)
    requires IsRun(states, events, zone) && Starts(states[0])
    requires i < j < |states[|events|].done|
    ensures var done := states[|events|].done;
            done[i].app == done[j].app && done[i].mode == done[j].mode ==> ClockHour(done[i].time) < ClockHour(done[j].time)
  {
    InvRun(states, events, zone, |events|);
  }

  /** A failing attempt changes nothing, and in the same clock hour the application
      stays due exactly as long as the configured hour lasts. */
  lemma FailureStaysDue(t: Table, app: string, now: int, later: int, zone: int)
    requires Due(t, app, now, zone) && ClockHour(later) == ClockHour(now)
    ensures Visit(t, app, false, now, zone) == (t, [])
    ensures Due(t, app, later, zone) <==> Matches(GetBackupAutoDay(t), GetBackupAutoHour(t), later, zone)
    ensures zone % 3600 == 0 ==> Due(t, app, later, zone)
  {
    if zone % 3600 == 0 {
      SameHour(now, later, zone);
    }
  }

  lemma SameHour(a: int, b: int, zone: int)
    requires ClockHour(a) == ClockHour(b) && zone % 3600 == 0
    ensures (a + zone) / 3600 == (b + zone) / 3600 && LocalHour(a, zone) == LocalHour(b, zone) && LocalDay(a, zone) == LocalDay(b, zone)
  {
    assert (a + zone) / 3600 == ClockHour(a) + zone / 3600;
    assert (b + zone) / 3600 == ClockHour(b) + zone / 3600;
    assert LocalDay(a, zone) == (a + zone) / 3600 / 24;
    assert LocalDay(b, zone) == (b + zone) / 3600 / 24;
  }

  /** With a whole-hour zone, two due times that agree on the local day and hour
      are in one clock hour. */
  lemma SameDayAndHour(a: int, b: int, zone: int)
    requires zone % 3600 == 0
    requires LocalDay(a, zone) == LocalDay(b, zone) && LocalHour(a, zone) == LocalHour(b, zone)
    ensures ClockHour(a) == ClockHour(b)
  {
    assert LocalDay(a, zone) == (a + zone) / 3600 / 24;
    assert LocalDay(b, zone) == (b + zone) / 3600 / 24;
    assert (a + zone) / 3600 == ClockHour(a) + zone / 3600;
    assert (b + zone) / 3600 == ClockHour(b) + zone / 3600;
  }

  /** Every success happened at an hour that the settings of its time name. */
  ghost predicate AllMatch(done: seq<Success>, zone: int) {
    forall i :: 0 <= i < |done| ==> Matches(done[i].day, done[i].hour, done[i].time, zone)
  }

  lemma {:induction false} VisitsMatch(t: Table, apps: seq<string>, works: seq<bool>, now: int, zone: int)
    requires |works| == |apps|
    ensures AllMatch(Visits(t, apps, works, now, zone).1, zone)
  {
    if apps != [] {
      VisitsMatch(t, apps[..|apps| - 1], works[..|apps| - 1], now, zone);
    }
  }

  lemma {:induction false} AllMatchRun(states: seq<State>, events: seq<Event>, zone: int, k: nat)
    requires IsRun(states, events, zone) && states[0].done == [] && k <= |events|
    ensures AllMatch(states[k].done, zone)
  {
    if k > 0 {
      AllMatchRun(states, events, zone, k - 1);
      if events[k - 1].Tick? {
        VisitsMatch(states[k - 1].table, events[k - 1].apps, events[k - 1].works, events[k - 1].now, zone);
      }
    }
  }

  /** In every run each success is a backup or a restore of an application other
      than syncthing, at the configured hour of a matching day, not in the future. */
  lemma EverySuccess(states: seq<State>, events: seq<Event>, zone: int, i: nat)
    requires IsRun(states, events, zone) && Starts(states[0])
    requires i < |states[|events|].done|
    ensures var e := states[|events|].done[i];
            && e.app != "syncthing" && IsMode(e.mode) && e.time <= states[|events|].clock
            && Matches(e.day, e.hour, e.time, zone)
            && exists n :: InHour(n, e.hour, e.time, zone) && OnDay(n, e.day)
  {
    MatchesIff(states[|events|].done[i].day, states[|events|].done[i].hour, states[|events|].done[i].time, zone);
    InvRun(states, events, zone, |events|);
    AllMatchRun(states, events, zone, |events|);
  }

  /** With a whole-hour zone and the hour left alone, an application and mode
      succeeds at most once in a day. */
  lemma OncePerDay(states: seq<State>, events: seq<Event>, zone: int, i: nat, j: nat)
    requires zone % 3600 == 0
    requires IsRun(states, events, zone) && Starts(states[0])
    requires i < j < |states[|events|].done|
    ensures var done := states[|events|].done;
            done[i].app == done[j].app && done[i].mode == done[j].mode && done[i].hour == done[j].hour ==>
              LocalDay(done[i].time, zone) != LocalDay(done[j].time, zone)
  {
    OncePerClockHour(states, events, zone, i, j);
    EverySuccess(states, events, zone, i);
    EverySuccess(states, events, zone, j);
    var done := states[|events|].done;
    if LocalDay(done[i].time, zone) == LocalDay(done[j].time, zone) && done[i].hour == done[j].hour {
      SameDayAndHour(done[i].time, done[j].time, zone);
    }
  }

  /** In any other zone the configured hour spans two clock hours, and the job is
      due a second time within it although it has just succeeded. */
  lemma DueTwice(zone: int, hour: int) returns (first: int, second: int)
    requires zone % 3600 != 0 && -86400 < zone < 86400 && 0 <= hour < 24
    ensures first < second && Fits(first, 32) && Fits(second, 32)
    ensures LocalDay(first, zone) == LocalDay(second, zone)
    ensures Matches(0, hour, first, zone) && ShouldRun(0, hour, second, first, zone)
  {
    first := hour * 3600 - zone;
    second := first + 3600 - 1;
    assert (first + zone) / 3600 == hour && (second + zone) / 3600 == hour;
    assert (first + zone) / 86400 == 0 && (second + zone) / 86400 == 0;
    assert first % 3600 != 0;
  }

  /** One tick for one application that succeeds. */
  lemma TickSucceeds(s: State, app: string, now: int, zone: int)
    requires Due(s.table, app, now, zone) && GetBackupAuto(s.table) == "backup" && Fits(now, 32) && s.clock <= now
    ensures var after := Next(s, Tick([app], [true], now), zone);
            && after.table == WithBackupAppTime(s.table, app, "backup", now) && after.clock == now
            && after.done == s.done + [Success(app, "backup", now, GetBackupAutoDay(s.table), GetBackupAutoHour(s.table))]
            && GetBackupAppTime(after.table, app, "backup") == Some(now)
            && SettingsAre(after.table, "backup", GetBackupAutoDay(s.table), GetBackupAutoHour(s.table))
  {
    ParseOfFormat(now, 32);
    KeepsSettings(s.table, app, "backup", now);
    var apps, works := [app], [true];
    assert apps[..0] == [] && works[..0] == [];
    assert Visits(s.table, apps[..0], works[..0], now, zone) == (s.table, []);
    var (table, done) := Visit(s.table, app, true, now, zone);
    assert [] + done == done;
    assert Visits(s.table, apps, works, now, zone) == (table, done);
  }

  /** So in every zone that is not a whole number of hours from UTC, and for every
      configured hour, there is a run in which one application is backed up twice
      within that hour of one day. */
  lemma PartHourZoneRunsTwice(zone: int, hour: int) returns (states: seq<State>, events: seq<Event>)
    requires zone % 3600 != 0 && -86400 < zone < 86400 && 0 <= hour < 24
    ensures IsRun(states, events, zone) && Starts(states[0]) && |events| == 2
    ensures var done := states[2].done;
            && |done| == 2
            && done[0].app == done[1].app && done[0].mode == done[1].mode && done[0].hour == done[1].hour == hour
            && LocalDay(done[0].time, zone) == LocalDay(done[1].time, zone)
            && LocalHour(done[0].time, zone) == LocalHour(done[1].time, zone) == hour
  {
    var app := "a";
    var first, second := DueTwice(zone, hour);
    var empty: Table := map[];
    var table := WithBackupAutoHour(WithBackupAuto(empty, "backup"), hour);
    ParseOfFormat(hour, 64);
    AppTimeKeysDiffer(app, "backup", app, "backup");
    assert SettingsAre(table, "backup", 0, hour) && GetBackupAppTime(table, app, "backup") == None;
    var s0 := State(table, [], first);
    assert ClockHour(first) != ClockHour(ZERO_TIME);
    TickSucceeds(s0, app, first, zone);
    var s1 := Next(s0, Tick([app], [true], first), zone);
    TickSucceeds(s1, app, second, zone);
    var s2 := Next(s1, Tick([app], [true], second), zone);
    states := [s0, s1, s2];
    events := [Tick([app], [true], first), Tick([app], [true], second)];
  }

  /** What a success at `now` leaves behind: within 32 bits the job is no longer
      due; beyond them the time is not read back and it is due again at once. */
  lemma DueAgain(t: Table, app: string, now: int, zone: int)
    requires Due(t, app, now, zone) && IsMode(GetBackupAuto(t)) && ClockHour(now) != ClockHour(ZERO_TIME)
    ensures Due(Visit(t, app, true, now, zone).0, app, now, zone) <==> !Fits(now, 32)
  {
    ParseOfFormat(now, 32);
    KeepsSettings(t, app, GetBackupAuto(t), now);
  }
}
