/** The access-change coalescer: any number of `Trigger` calls share one runner.

    `AccessChangeRunner` is the object itself.  The rest of the module is its
    protocol under interleaving: every critical section is one atomic step, and
    the two gaps in which the mutex is not held (between unlock and spawn, and
    between clearing `dirty` and calling the event) are program points. */
module AccessChange {

  // ----- the object -----------------------------------------------------------

  class AccessChangeRunner {
    var dirty: bool
    var running: bool

    constructor ()
      ensures !dirty && !running
    {
      dirty, running := false, false;
    }

    /** The critical section of `Trigger`; the caller spawns `run` iff `spawn`. */
    method Trigger() returns (spawn: bool)
      modifies this
      ensures (Flags(dirty, running), spawn) == MarkFlags(old(Flags(dirty, running)))
      ensures dirty && running && (spawn <==> !old(running))
    {
      dirty := true;
      if running {
        return false;
      }
      running := true;
      return true;
    }

    /** The critical section at the top of the loop of `run`. */
    method Check() returns (proceed: bool)
      modifies this
      ensures (Flags(dirty, running), proceed) == CheckFlags(old(Flags(dirty, running)))
      ensures proceed == old(dirty) && !dirty && running == (old(running) && proceed)
    {
      if !dirty {
        running := false;
        return false;
      }
      dirty := false;
      return true;
    }

    /** The loop of `run`.  `landed[i]` says whether some `Trigger` gets in
        while event `i` is being executed; nothing lands after the script ends. */
    method Run(landed: seq<bool>) returns (events: nat)
      requires running
      modifies this
      ensures !dirty && !running
      ensures events == 0 <==> !old(dirty)
      ensures events <= |landed| + 1 && forall i :: 0 <= i < events - 1 ==> landed[i]
      ensures 0 < events <= |landed| ==> !landed[events - 1]
    {
      events := 0;
      var proceed := Check();
      while proceed
        invariant running == proceed && !dirty
        invariant events == 0 ==> proceed == old(dirty)
        invariant 0 < events ==> old(dirty)
        invariant events <= |landed| + 1 && forall i :: 0 <= i < events - 1 ==> landed[i]
        invariant 0 < events ==> proceed == (events <= |landed| && landed[events - 1])
        decreases |landed| + 1 - events, proceed
      {
        events := events + 1;
        if events <= |landed| && landed[events - 1] {
          var spawn := Trigger();
          assert !spawn;
        }
        proceed := Check();
      }
    }
  }

  // ----- the protocol ---------------------------------------------------------

  datatype Flags = Flags(dirty: bool, running: bool)

  function MarkFlags(f: Flags): (Flags, bool) {
    (Flags(true, true), !f.running)
  }

  function CheckFlags(f: Flags): (Flags, bool) {
    if f.dirty then (Flags(false, f.running), true) else (Flags(false, false), false)
  }

  /** Where a `Trigger` call, and then the runner that it spawned, has got to. */
  datatype Pc =
    | Returned     // the call found a live runner
    | Spawning     // mutex released, runner not started yet
    | AtCheck      // runner about to take the mutex
    | BeforeEvent  // `dirty` cleared, event not called yet
    | InEvent
    | Exited

  datatype Observation = Triggered(call: nat) | Started(call: nat) | Ended(call: nat)

  datatype State = State(flags: Flags, calls: map<nat, Pc>, history: seq<Observation>)

  datatype Step =
    | Mark(call: nat)   // critical section of a new `Trigger` call
    | Spawn(call: nat)
    | Check(call: nat)  // critical section of the runner
    | Begin(call: nat)
    | End(call: nat)

  const INITIAL := State(Flags(false, false), map[], [])

  predicate At(calls: map<nat, Pc>, c: nat, pc: Pc) {
    c in calls && calls[c] == pc
  }

  predicate Enabled(s: State, step: Step) {
    match step
    case Mark(c) => c !in s.calls
    case Spawn(c) => At(s.calls, c, Spawning)
    case Check(c) => At(s.calls, c, AtCheck)
    case Begin(c) => At(s.calls, c, BeforeEvent)
    case End(c) => At(s.calls, c, InEvent)
  }

  function Next(s: State, step: Step): State
    requires Enabled(s, step)
  {
    match step
    case Mark(c) =>
      var (f, spawn) := MarkFlags(s.flags);
      State(f, s.calls[c := if spawn then Spawning else Returned], s.history + [Triggered(c)])
    case Spawn(c) =>
      s.(calls := s.calls[c := AtCheck])
    case Check(c) =>
      var (f, proceed) := CheckFlags(s.flags);
      s.(flags := f, calls := s.calls[c := if proceed then BeforeEvent else Exited])
    case Begin(c) =>
      s.(calls := s.calls[c := InEvent], history := s.history + [Started(c)])
    case End(c) =>
      s.(calls := s.calls[c := AtCheck], history := s.history + [Ended(c)])
  }

  /** `states` are the states passed through when `steps` are taken from `states[0]`. */
  ghost predicate IsRun(states: seq<State>, steps: seq<Step>) {
    && |states| == |steps| + 1
    && forall i :: 0 <= i < |steps| ==> Enabled(states[i], steps[i]) && states[i + 1] == Next(states[i], steps[i])
  }

  // ----- what is observed -----------------------------------------------------

  function Triggers(h: seq<Observation>): nat {
    if h == [] then 0 else Triggers(h[..|h| - 1]) + if h[|h| - 1].Triggered? then 1 else 0
  }

  function Starts(h: seq<Observation>): nat {
    if h == [] then 0 else Starts(h[..|h| - 1]) + if h[|h| - 1].Started? then 1 else 0
  }

  /** Runners whose event has started and not ended. */
  function Open(h: seq<Observation>): set<nat> {
    if h == [] then {} else OpenAfter(Open(h[..|h| - 1]), h[|h| - 1])
  }

  function OpenAfter(open: set<nat>, o: Observation): set<nat> {
    match o
    case Triggered(_) => open
    case Started(c) => open + {c}
    case Ended(c) => open - {c}
  }

  /** Some trigger has not been followed by the start of an event. */
  ghost predicate Owing(h: seq<Observation>) {
    exists i :: 0 <= i < |h| && h[i].Triggered? && forall j :: i < j < |h| ==> !h[j].Started?
  }

  lemma Extend(h: seq<Observation>, o: Observation)
    ensures Triggers(h + [o]) == Triggers(h) + if o.Triggered? then 1 else 0
    ensures Starts(h + [o]) == Starts(h) + if o.Started? then 1 else 0
    ensures Open(h + [o]) == OpenAfter(Open(h), o)
    ensures Owing(h + [o]) <==> o.Triggered? || (Owing(h) && !o.Started?)
  {
    var g := h + [o];
    assert g[..|g| - 1] == h;
    if o.Triggered? {
      assert g[|h|].Triggered?;
    } else if Owing(h) && !o.Started? {
      var i :| 0 <= i < |h| && h[i].Triggered? && forall j :: i < j < |h| ==> !h[j].Started?;
      assert g[i].Triggered?;
    }
    if Owing(g) && !o.Triggered? {
      var i :| 0 <= i < |g| && g[i].Triggered? && forall j :: i < j < |g| ==> !g[j].Started?;
      assert h[i].Triggered?;
      assert !g[|h|].Started?;
      assert forall j :: i < j < |h| ==> !h[j].Started? by {
        forall j | i < j < |h| ensures !h[j].Started? { assert g[j] == h[j]; }
      }
    }
  }

  // ----- the invariant --------------------------------------------------------

  predicate LivePc(pc: Pc) {
    pc != Returned && pc != Exited
  }

  /** Calls that still have to spawn their runner, or whose runner has not exited. */
  function Live(calls: map<nat, Pc>): set<nat> {
    set c | c in calls && LivePc(calls[c])
  }

  ghost predicate SomeAt(calls: map<nat, Pc>, pc: Pc) {
    exists c :: At(calls, c, pc)
  }

  /** Event starts that are already bound to happen. */
  ghost function Debt(s: State): nat {
    (if s.flags.dirty then 1 else 0) + if SomeAt(s.calls, BeforeEvent) then 1 else 0
  }

  ghost predicate AtMostOne(ids: set<nat>) {
    forall c, d :: c in ids && d in ids ==> c == d
  }

  ghost predicate Inv(s: State) {
    && AtMostOne(Live(s.calls))
    && (s.flags.running <==> Live(s.calls) != {})
    && (s.flags.dirty ==> s.flags.running)
    && (SomeAt(s.calls, Spawning) ==> s.flags.dirty)
    && (Owing(s.history) ==> Debt(s) > 0)
    && (forall c :: c in Open(s.history) <==> At(s.calls, c, InEvent))
    && Starts(s.history) + Debt(s) <= Triggers(s.history)
  }

  lemma LiveAt(calls: map<nat, Pc>)
    ensures forall c, pc :: LivePc(pc) && At(calls, c, pc) ==> c in Live(calls)
    ensures Live(calls) == {} ==> forall pc :: LivePc(pc) ==> !SomeAt(calls, pc)
  {
  }

  /** When the only live call moves to `to`, nothing else is live. */
  lemma OnlyLive(calls: map<nat, Pc>, c: nat, to: Pc)
    requires AtMostOne(Live(calls)) && c in Live(calls)
    ensures Live(calls[c := to]) == if LivePc(to) then {c} else {}
    ensures forall pc :: LivePc(pc) ==> (SomeAt(calls, pc) <==> pc == calls[c]) && (SomeAt(calls[c := to], pc) <==> pc == to)
    ensures forall d, pc :: LivePc(pc) && d != c ==> !At(calls, d, pc) && !At(calls[c := to], d, pc)
  {
    var after := calls[c := to];
    assert forall d :: d in calls && LivePc(calls[d]) ==> d in Live(calls);
    assert At(calls, c, calls[c]) && At(after, c, to);
    assert forall d :: d in Live(after) ==> d == c;
  }

  /** A new call is live exactly when nothing was. */
  lemma NewCall(calls: map<nat, Pc>, c: nat, pc: Pc)
    requires c !in calls
    ensures Live(calls[c := pc]) == Live(calls) + if LivePc(pc) then {c} else {}
    ensures forall q :: SomeAt(calls[c := pc], q) <==> SomeAt(calls, q) || q == pc
    ensures forall d, q :: q != pc ==> (At(calls[c := pc], d, q) <==> At(calls, d, q))
  {
    var after := calls[c := pc];
    assert At(after, c, pc);
    forall q ensures SomeAt(after, q) <==> SomeAt(calls, q) || q == pc {
      assert forall d :: d != c ==> (At(after, d, q) <==> At(calls, d, q));
    }
  }

  lemma InvMark(s: State, c: nat)
    requires Inv(s) && Enabled(s, Mark(c))
    ensures Inv(Next(s, Mark(c)))
  {
    var t := Next(s, Mark(c));
    NewCall(s.calls, c, t.calls[c]);
    Extend(s.history, Triggered(c));
    LiveAt(s.calls);
  }

  lemma InvSpawn(s: State, c: nat)
    requires Inv(s) && Enabled(s, Spawn(c))
    ensures Inv(Next(s, Spawn(c)))
  {
    OnlyLive(s.calls, c, AtCheck);
  }

  lemma InvCheck(s: State, c: nat)
    requires Inv(s) && Enabled(s, Check(c))
    ensures Inv(Next(s, Check(c)))
  {
    var t := Next(s, Check(c));
    OnlyLive(s.calls, c, t.calls[c]);
    LiveAt(t.calls);
    assert !SomeAt(t.calls, Spawning);
  }

  lemma InvEvent(s: State, step: Step)
    requires Inv(s) && Enabled(s, step) && (step.Begin? || step.End?)
    ensures Inv(Next(s, step))
  {
    var t := Next(s, step);
    OnlyLive(s.calls, step.call, t.calls[step.call]);
    Extend(s.history, if step.Begin? then Started(step.call) else Ended(step.call));
  }

  lemma InvStep(s: State, step: Step)
    requires Inv(s) && Enabled(s, step)
    ensures Inv(Next(s, step))
  {
    match step
    case Mark(c) => InvMark(s, c);
    case Spawn(c) => InvSpawn(s, c);
    case Check(c) => InvCheck(s, c);
    case Begin(_) => InvEvent(s, step);
    case End(_) => InvEvent(s, step);
  }

  // ----- over whole runs ------------------------------------------------------

  lemma {:induction false} InvRun(states: seq<State>, steps: seq<Step>, k: nat)
    requires IsRun(states, steps) && Inv(states[0]) && k <= |steps|
    ensures Inv(states[k])
  {
    if k > 0 {
      InvRun(states, steps, k - 1);
      InvStep(states[k - 1], steps[k - 1]);
    }
  }

  ghost predicate Reachable(s: State) {
    exists states: seq<State>, steps: seq<Step> :: IsRun(states, steps) && states[0] == INITIAL && s == states[|steps|]
  }

  lemma ReachableInv(s: State)
    requires Reachable(s)
    ensures Inv(s)
  {
    var states: seq<State>, steps: seq<Step> :| IsRun(states, steps) && states[0] == INITIAL && s == states[|steps|];
    InvRun(states, steps, |steps|);
  }

  /** Mutual exclusion: one runner, one event, and the flags mean what they say. */
  lemma OneRunnerOneEvent(s: State)
    requires Reachable(s)
    ensures |Live(s.calls)| == if s.flags.running then 1 else 0
    ensures |Open(s.history)| <= 1
    ensures s.flags.dirty ==> s.flags.running
    ensures Starts(s.history) <= Triggers(s.history)
  {
    ReachableInv(s);
    AtMostOneSize(Live(s.calls));
    forall c, d | c in Open(s.history) && d in Open(s.history) ensures c == d {
      assert c in Live(s.calls) && d in Live(s.calls);
    }
    AtMostOneSize(Open(s.history));
  }

  lemma AtMostOneSize(ids: set<nat>)
    requires AtMostOne(ids)
    ensures |ids| == if ids == {} then 0 else 1
  {
    if c :| c in ids {
      assert ids == {c};
    }
  }

  /** No wakeup is lost: when the runner is idle, every trigger has been followed
      by an event that started after it and has ended. */
  lemma NoLostTrigger(s: State, i: nat)
    requires Reachable(s) && !s.flags.running
    requires i < |s.history| && s.history[i].Triggered?
    ensures exists j, k :: i < j < k < |s.history| && s.history[j].Started? && s.history[k] == Ended(s.history[j].call)
  {
    ReachableInv(s);
    var h := s.history;
    LiveAt(s.calls);
    assert !Owing(h);
    var j :| i < j < |h| && h[j].Started?;
    var k := EndOf(h, j);
  }

  /** An event that is no longer open has ended. */
  lemma {:induction false} EndOf(h: seq<Observation>, j: nat) returns (k: nat)
    requires j < |h| && h[j].Started? && h[j].call !in Open(h)
    ensures j < k < |h| && h[k] == Ended(h[j].call)
    decreases |h|
  {
    k := |h| - 1;
    if h[k] != Ended(h[j].call) {
      k := EndOf(h[..k], j);
    }
  }

  ghost predicate Quiet(steps: seq<Step>) {
    forall i :: 0 <= i < |steps| ==> !steps[i].Mark?
  }

  /** How far the runner is from exiting if nobody triggers it again. */
  ghost function Rank(s: State): nat {
    (if s.flags.dirty then 3 else 0) +
    (if SomeAt(s.calls, Spawning) then 2 else 0) +
    (if SomeAt(s.calls, AtCheck) then 1 else 0) +
    (if SomeAt(s.calls, BeforeEvent) then 3 else 0) +
    (if SomeAt(s.calls, InEvent) then 2 else 0)
  }

  /** `step` brings the end nearer, and neither adds nor drops an owed start. */
  ghost predicate Nearer(s: State, step: Step)
    requires Enabled(s, step)
  {
    var t := Next(s, step);
    Starts(t.history) + Debt(t) == Starts(s.history) + Debt(s) && Rank(t) < Rank(s)
  }

  lemma QuietFlags(s: State, step: Step)
    requires Inv(s) && Enabled(s, step) && (step.Spawn? || step.Check?)
    ensures Nearer(s, step)
  {
    OnlyLive(s.calls, step.call, Next(s, step).calls[step.call]);
  }

  lemma QuietEvent(s: State, step: Step)
    requires Inv(s) && Enabled(s, step) && (step.Begin? || step.End?)
    ensures Nearer(s, step)
  {
    OnlyLive(s.calls, step.call, Next(s, step).calls[step.call]);
    Extend(s.history, if step.Begin? then Started(step.call) else Ended(step.call));
  }

  lemma QuietStep(s: State, step: Step)
    requires Inv(s) && Enabled(s, step) && !step.Mark?
    ensures Starts(Next(s, step).history) + Debt(Next(s, step)) == Starts(s.history) + Debt(s)
    ensures Rank(Next(s, step)) < Rank(s)
  {
    match step
    case Spawn(_) => QuietFlags(s, step);
    case Check(_) => QuietFlags(s, step);
    case Begin(_) => QuietEvent(s, step);
    case End(_) => QuietEvent(s, step);
  }

  lemma {:induction false} QuietRun(states: seq<State>, steps: seq<Step>)
    requires IsRun(states, steps) && Inv(states[0]) && Quiet(steps)
    ensures Starts(states[|steps|].history) + Debt(states[|steps|]) == Starts(states[0].history) + Debt(states[0])
    ensures |steps| + Rank(states[|steps|]) <= Rank(states[0])
    decreases |steps|
  {
    if steps != [] {
      var n := |steps| - 1;
      QuietRun(states[..n + 1], steps[..n]);
      InvRun(states, steps, n);
      QuietStep(states[n], steps[n]);
    }
  }

  /** While the runner is live something other than a trigger can happen. */
  lemma Progress(s: State)
    requires Inv(s)
    ensures s.flags.running <==> exists step: Step :: !step.Mark? && Enabled(s, step)
  {
    if c :| c in Live(s.calls) {
      assert Enabled(s, Spawn(c)) || Enabled(s, Check(c)) || Enabled(s, Begin(c)) || Enabled(s, End(c));
    }
    if step: Step :| !step.Mark? && Enabled(s, step) {
      assert step.call in Live(s.calls);
    }
  }

  /** Termination: once triggers stop, at most six more steps can be taken, and a
      run that can be taken no further has left the runner idle. */
  lemma StopsAfterLastTrigger(states: seq<State>, steps: seq<Step>)
    requires IsRun(states, steps) && Reachable(states[0]) && Quiet(steps)
    ensures |steps| <= 6
    ensures (forall step: Step :: !step.Mark? ==> !Enabled(states[|steps|], step)) <==> !states[|steps|].flags.running
  {
    ReachableInv(states[0]);
    QuietRun(states, steps);
    InvRun(states, steps, |steps|);
    Progress(states[|steps|]);
    RankBound(states[0]);
  }

  lemma RankBound(s: State)
    requires Inv(s)
    ensures Rank(s) <= 6
  {
    if c :| c in Live(s.calls) {
      OnlyLive(s.calls, c, s.calls[c]);
    } else {
      LiveAt(s.calls);
    }
  }

  /** How many events start after the last trigger: one, plus one more exactly
      when the trigger came between the runner clearing `dirty` and calling the
      event.  "At most one" is therefore false of the code. */
  lemma StartsAfterLastTrigger(states: seq<State>, steps: seq<Step>)
    requires IsRun(states, steps) && Reachable(states[0])
    requires steps != [] && steps[0].Mark? && Quiet(steps[1..])
    requires !states[|steps|].flags.running
    ensures Starts(states[|steps|].history) - Starts(states[0].history) == if SomeAt(states[0].calls, BeforeEvent) then 2 else 1
  {
    ReachableInv(states[0]);
    InvStep(states[0], steps[0]);
    var c := steps[0].call;
    NewCall(states[0].calls, c, states[1].calls[c]);
    Extend(states[0].history, Triggered(c));
    QuietRun(states[1..], steps[1..]);
    InvRun(states, steps, |steps|);
    LiveAt(states[|steps|].calls);
  }

  /** From every reachable state the runner can be drained. */
  lemma {:induction false} Drain(s: State) returns (states: seq<State>, steps: seq<Step>)
    requires Inv(s)
    ensures IsRun(states, steps) && states[0] == s && Quiet(steps) && !states[|steps|].flags.running
    decreases Rank(s)
  {
    states, steps := [s], [];
    Progress(s);
    if s.flags.running {
      var step: Step :| !step.Mark? && Enabled(s, step);
      QuietStep(s, step);
      InvStep(s, step);
      var rest, more := Drain(Next(s, step));
      states, steps := [s] + rest, [step] + more;
      assert forall i :: 0 < i < |steps| ==> steps[i] == more[i - 1] && states[i] == rest[i - 1] && states[i + 1] == rest[i];
    }
  }

  /** A runner that has cleared the flag but not yet called the event. */
  lemma BeforeEventIsReachable() returns (s: State)
    ensures Reachable(s) && At(s.calls, 0, BeforeEvent) && 1 !in s.calls
  {
    var s1 := Next(INITIAL, Mark(0));
    var s2 := Next(s1, Spawn(0));
    s := Next(s2, Check(0));
    var states, steps := [INITIAL, s1, s2, s], [Mark(0), Spawn(0), Check(0)];
    assert IsRun(states, steps) && states[|steps|] == s;
  }

  /** There is a run in which two events start after the last trigger. */
  lemma TwoStartsAfterLastTrigger() returns (states: seq<State>, steps: seq<Step>)
    ensures IsRun(states, steps) && Reachable(states[0])
    ensures steps != [] && steps[0].Mark? && Quiet(steps[1..]) && !states[|steps|].flags.running
    ensures Starts(states[|steps|].history) - Starts(states[0].history) == 2
  {
    var s := BeforeEventIsReachable();
    ReachableInv(s);
    InvStep(s, Mark(1));
    var rest, more := Drain(Next(s, Mark(1)));
    states, steps := [s] + rest, [Mark(1)] + more;
    assert forall i :: 0 < i < |steps| ==> steps[i] == more[i - 1] && states[i] == rest[i - 1] && states[i + 1] == rest[i];
    assert steps[1..] == more;
    StartsAfterLastTrigger(states, steps);
  }
}
