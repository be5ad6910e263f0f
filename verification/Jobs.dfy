/** The single-slot job master shared by any number of offerers and workers.

    A job is a number, `None` is the nil function.  The critical sections of the
    master are atomic; between them a worker is at a program point of `Do`. */
module Jobs {
  import opened Helpers

  datatype Status = Idle | Waiting | Busy

  // ----- the critical sections -------------------------------------------------

  datatype Slot = Slot(status: Status, job: Option<nat>, name: string)

  const FREE := Slot(Idle, None, "")

  /** An offer is accepted only by a free slot. */
  function OfferTo(s: Slot, name: string, job: Option<nat>): (Slot, bool) {
    if s.status == Idle then (Slot(Waiting, job, name), true) else (s, false)
  }

  /** A waiting job is handed out; the worker cannot tell a nil job from none. */
  function TakeFrom(s: Slot): (Slot, Option<nat>) {
    if s.status == Waiting then (s.(status := Busy), s.job) else (s, None)
  }

  function CompleteIn(s: Slot): (Slot, bool) {
    if s.status == Busy then (FREE, true) else (s, false)
  }

  // ----- the objects ----------------------------------------------------------

  class SingleJobMaster {
    var status: Status
    var job: Option<nat>
    var name: string

    constructor ()
      ensures Now() == FREE
    {
      status, job, name := Idle, None, "";
    }

    /** What the status page shows. */
    method Status() returns (name: string, status: Status)
      ensures name == this.name && status == this.status
    {
      return this.name, this.status;
    }

    function Now(): Slot
      reads this
    {
      Slot(status, job, name)
    }

    method Offer(name: string, job: Option<nat>) returns (accepted: bool)
      modifies this
      ensures (Now(), accepted) == OfferTo(old(Now()), name, job)
      ensures accepted <==> old(status) == Idle
      ensures accepted ==> status == Waiting && this.job == job && this.name == name
      ensures !accepted ==> status == old(status) && this.job == old(this.job) && this.name == old(this.name)
    {
      if status == Idle {
        status := Waiting;
        this.job := job;
        this.name := name;
        return true;
      }
      return false;
    }

    method Take() returns (taken: Option<nat>)
      modifies this
      ensures (Now(), taken) == TakeFrom(old(Now()))
      ensures name == old(name) && job == old(job)
      ensures old(status) == Waiting ==> taken == old(job) && status == Busy
      ensures old(status) != Waiting ==> taken == None && status == old(status)
    {
      if status == Waiting {
        status := Busy;
        return job;
      }
      return None;
    }

    method Complete() returns (ok: bool)
      modifies this
      ensures (Now(), ok) == CompleteIn(old(Now()))
      ensures ok <==> old(status) == Busy
      ensures ok ==> status == Idle && job == None && name == ""
      ensures !ok ==> status == old(status) && job == old(job) && name == old(name)
    {
      if status == Busy {
        status := Idle;
        job := None;
        name := "";
        return true;
      }
      return false;
    }
  }

  class Worker {
    const master: SingleJobMaster
    var executed: seq<nat>

    constructor (master: SingleJobMaster)
      ensures this.master == master && executed == []
    {
      this.master := master;
      executed := [];
    }

    /** One round of the worker when nobody else touches the master meanwhile. */
    method Do() returns (ran: bool)
      modifies this, master
      ensures ran <==> old(master.status) == Waiting && old(master.job).Some?
      ensures executed == if ran then old(executed) + [old(master.job).value] else old(executed)
      ensures ran ==> master.Now() == FREE
      ensures !ran && old(master.status) != Waiting ==> master.Now() == old(master.Now())
      ensures !ran && old(master.status) == Waiting ==> master.status == Busy && master.job == None
    {
      var job := master.Take();
      if job == None {
        return false;
      }
      executed := executed + [job.value];
      var ok := master.Complete();
      assert ok;
      return true;
    }
  }

  // ----- the protocol ---------------------------------------------------------

  datatype Pc = Holding(job: nat) | Running(job: nat) | Ran(job: nat)

  /** Workers missing from `workers` are polling.  `failures` counts the
      `Complete` calls that reported an error. */
  datatype State = State(
    slot: Slot,
    workers: map<nat, Pc>,
    accepted: seq<Option<nat>>,
    started: seq<nat>,
    finished: seq<nat>,
    failures: nat)

  datatype Step =
    | Offer(name: string, job: Option<nat>)
    | Take(worker: nat)
    | Start(worker: nat)
    | Finish(worker: nat)
    | Complete(worker: nat)

  const INITIAL := State(FREE, map[], [], [], [], 0)

  predicate Enabled(s: State, step: Step) {
    match step
    case Offer(_, _) => true
    case Take(w) => w !in s.workers
    case Start(w) => w in s.workers && s.workers[w].Holding?
    case Finish(w) => w in s.workers && s.workers[w].Running?
    case Complete(w) => w in s.workers && s.workers[w].Ran?
  }

  function Next(s: State, step: Step): State
    requires Enabled(s, step)
  {
    match step
    case Offer(name, job) =>
      var (slot, accepted) := OfferTo(s.slot, name, job);
      if accepted then s.(slot := slot, accepted := s.accepted + [job]) else s.(slot := slot)
    case Take(w) =>
      var (slot, taken) := TakeFrom(s.slot);
      if taken == None then s.(slot := slot) else s.(slot := slot, workers := s.workers[w := Holding(taken.value)])
    case Start(w) =>
      var job := s.workers[w].job;
      s.(workers := s.workers[w := Running(job)], started := s.started + [job])
    case Finish(w) =>
      var job := s.workers[w].job;
      s.(workers := s.workers[w := Ran(job)], finished := s.finished + [job])
    case Complete(w) =>
      var (slot, ok) := CompleteIn(s.slot);
      s.(slot := slot, workers := s.workers - {w}, failures := s.failures + if ok then 0 else 1)
  }

  ghost predicate IsRun(states: seq<State>, steps: seq<Step>) {
    && |states| == |steps| + 1
    && forall i :: 0 <= i < |steps| ==> Enabled(states[i], steps[i]) && states[i + 1] == Next(states[i], steps[i])
  }

  ghost predicate Reachable(s: State) {
    exists states: seq<State>, steps: seq<Step> :: IsRun(states, steps) && states[0] == INITIAL && s == states[|steps|]
  }

  // ----- the invariant --------------------------------------------------------

  function Jobs(ids: seq<nat>): (r: seq<Option<nat>>)
    ensures |r| == |ids| && forall i :: 0 <= i < |ids| ==> r[i] == Some(ids[i])
  {
    seq(|ids|, i requires 0 <= i < |ids| => Some(ids[i]))
  }

  /** A nil job has been taken: nobody is going to complete it. */
  predicate Wedged(s: State) {
    s.slot.status == Busy && s.slot.job == None
  }

  /** The jobs accepted but not started, read off the program points. */
  ghost function Unstarted(s: State): seq<Option<nat>> {
    if s.slot.status == Waiting || Wedged(s) then [s.slot.job]
    else if w :| w in s.workers && s.workers[w].Holding? then [Some(s.workers[w].job)]
    else []
  }

  ghost function Unfinished(s: State): seq<nat> {
    if w :| w in s.workers && s.workers[w].Running? then [s.workers[w].job] else []
  }

  ghost predicate Inv(s: State) {
    && (forall v, w :: v in s.workers && w in s.workers ==> v == w)
    && (s.slot.status == Busy && s.slot.job.Some? <==> |s.workers| == 1)
    && (forall w :: w in s.workers ==> s.slot.job == Some(s.workers[w].job))
    && (s.slot.status == Idle ==> s.slot == FREE)
    && s.accepted == Jobs(s.started) + Unstarted(s)
    && s.started == s.finished + Unfinished(s)
    && s.failures == 0
  }

  lemma Singleton(m: map<nat, Pc>)
    requires forall v, w :: v in m && w in m ==> v == w
    ensures m != map[] ==> exists w :: w in m && m == map[w := m[w]] && |m| == 1
  {
    if w :| w in m {
      assert m == map[w := m[w]];
    }
  }

  lemma InvStep(s: State, step: Step)
    requires Inv(s) && Enabled(s, step)
    ensures Inv(Next(s, step))
  {
    Singleton(s.workers);
    var t := Next(s, step);
    match step
    case Offer(_, job) => assert s.slot.status == Idle ==> s.workers == map[];
    case Take(w) => assert s.slot.status == Waiting ==> s.workers == map[];
    case Start(w) =>
      assert s.workers == map[w := s.workers[w]];
      assert t.workers == map[w := t.workers[w]];
      assert Jobs(t.started) == Jobs(s.started) + [Some(s.workers[w].job)];
    case Finish(w) =>
      assert s.workers == map[w := s.workers[w]];
      assert t.workers == map[w := t.workers[w]];
    case Complete(w) =>
      assert s.workers == map[w := s.workers[w]];
      assert t.workers == map[];
  }

  // ----- over whole runs ------------------------------------------------------

  lemma {:induction false} InvRun(states: seq<State>, steps: seq<Step>, k: nat)
    requires IsRun(states, steps) && Inv(states[0]) && k <= |steps|
    ensures Inv(states[k])
  {
    if k > 0 {
      InvRun(states, steps, k - 1);
      InvStep(states[k - 1], steps[k - 1]);
    }
  }

  lemma ReachableInv(s: State)
    requires Reachable(s)
    ensures Inv(s)
  {
    var states: seq<State>, steps: seq<Step> :| IsRun(states, steps) && states[0] == INITIAL && s == states[|steps|];
    InvRun(states, steps, |steps|);
  }

  /** Jobs are executed once each, in the order accepted, with at most one not
      finished; `Complete` never fails; and the slot is busy exactly while one
      worker holds a job, unless a nil job has been taken. */
  lemma ExactlyOnce(s: State)
    requires Reachable(s)
    ensures Jobs(s.finished) <= Jobs(s.started) <= s.accepted && |s.accepted| <= |s.finished| + 1
    ensures s.slot.status == Idle ==> Jobs(s.finished) == s.accepted
    ensures s.failures == 0
    ensures |s.workers| == (if s.slot.status == Busy then 1 else 0) <==> !Wedged(s)
    ensures |s.started| - |s.finished| == 1 <==> exists w :: w in s.workers && s.workers[w].Running?
  {
    ReachableInv(s);
    Singleton(s.workers);
    assert Jobs(s.started) == Jobs(s.finished) + Jobs(Unfinished(s));
    if w :| w in s.workers {
      assert s.workers == map[w := s.workers[w]];
    }
  }

  /** A rejected offer changes nothing, and an offer is rejected exactly while a
      job is outstanding or its worker has yet to report it. */
  lemma RejectedOffer(s: State, name: string, job: Option<nat>)
    requires Reachable(s)
    ensures Next(s, Offer(name, job)) == s <==> |s.accepted| > |s.finished| || exists w :: w in s.workers && s.workers[w].Ran?
  {
    ExactlyOnce(s);
    ReachableInv(s);
    Singleton(s.workers);
  }

  /** Taking a nil job is fatal: nothing is accepted or started ever again. */
  lemma {:induction false} NilWedges(states: seq<State>, steps: seq<Step>)
    requires IsRun(states, steps) && Reachable(states[0]) && Wedged(states[0])
    ensures states[|steps|] == states[0]
    decreases |steps|
  {
    ReachableInv(states[0]);
    Singleton(states[0].workers);
    if steps != [] {
      NilWedges(states[..|steps|], steps[..|steps| - 1]);
    }
  }

  /** It happens: one nil offer and one poll suffice. */
  lemma WedgeIsReachable() returns (s: State)
    ensures Reachable(s) && Wedged(s)
  {
    var offered := Next(INITIAL, Offer("", None));
    s := Next(offered, Take(0));
    var states, steps := [INITIAL, offered, s], [Offer("", None), Take(0)];
    assert IsRun(states, steps) && states[|steps|] == s;
  }

  /** Only a nil offer can wedge the master. */
  lemma WedgedByNil(s: State)
    requires Reachable(s)
    ensures Wedged(s) ==> s.accepted != [] && s.accepted[|s.accepted| - 1] == None
    ensures None in s.accepted <==> Wedged(s) || (s.slot.status == Waiting && s.slot.job == None)
  {
    ReachableInv(s);
    NilOutstanding(s);
  }

  lemma NilOutstanding(s: State)
    requires Inv(s)
    ensures None in s.accepted <==> Wedged(s) || (s.slot.status == Waiting && s.slot.job == None)
  {
    var n := |s.started|;
    assert forall i :: 0 <= i < n ==> s.accepted[i] == Some(s.started[i]);
    if Unstarted(s) != [] {
      assert s.accepted[n] == Unstarted(s)[0];
    }
  }

  // ----- progress -------------------------------------------------------------

  /** How many moves an outstanding job still needs. */
  ghost function Remaining(s: State): nat {
    if s.slot.status == Idle || Wedged(s) then 0
    else if s.slot.status == Waiting then 4
    else if w :| w in s.workers then
      match s.workers[w]
      case Holding(_) => 3
      case Running(_) => 2
      case Ran(_) => 1
    else 0
  }

  /** While a job is outstanding, whatever any offerer or worker does either changes
      nothing or brings it one move nearer its end. */
  lemma EveryStepAdvances(s: State, step: Step)
    requires Inv(s) && None !in s.accepted && s.slot.status != Idle && Enabled(s, step)
    ensures var t := Next(s, step);
            && Inv(t) && t.accepted == s.accepted && !Wedged(t)
            && (t == s || Remaining(t) == Remaining(s) - 1)
            && (Remaining(t) == 0 <==> t.slot.status == Idle)
  {
    NilOutstanding(s);
    InvStep(s, step);
    var t := Next(s, step);
    NilOutstanding(t);
    Singleton(s.workers);
    Singleton(t.workers);
  }

  /** How often the state changes along the way. */
  ghost function Changes(states: seq<State>): nat {
    if |states| < 2 then 0
    else Changes(states[..|states| - 1]) + if states[|states| - 1] == states[|states| - 2] then 0 else 1
  }

  /** So in every run, offers included, an outstanding job has gone through as many
      moves as there were changes, until it is done. */
  lemma {:induction false} EveryRunAdvances(states: seq<State>, steps: seq<Step>)
    requires IsRun(states, steps) && Inv(states[0]) && None !in states[0].accepted
    requires forall k :: 0 <= k < |steps| ==> states[k].slot.status != Idle
    ensures var t := states[|steps|];
            && Inv(t) && t.accepted == states[0].accepted
            && Changes(states) + Remaining(t) == Remaining(states[0])
    decreases |steps|
  {
    var n := |steps|;
    if n > 0 {
      EveryRunAdvances(states[..n], steps[..n - 1]);
      EveryStepAdvances(states[n - 1], steps[n - 1]);
    }
  }

  /** What moves an outstanding job on. */
  ghost function Drive(s: State): (step: Step)
    requires Inv(s) && !Wedged(s) && s.slot.status != Idle
    ensures Enabled(s, step) && !step.Offer? && Next(s, step) != s
  {
    Singleton(s.workers);
    if s.slot.status == Waiting then Take(0)
    else
      var w :| w in s.workers;
      match s.workers[w]
      case Holding(_) => Start(w)
      case Running(_) => Finish(w)
      case Ran(_) => Complete(w)
  }

  /** Without a further offer an accepted job can always be driven to completion,
      in at most four steps. */
  lemma {:induction false} Completes(s: State) returns (states: seq<State>, steps: seq<Step>)
    requires Inv(s) && None !in s.accepted
    ensures IsRun(states, steps) && states[0] == s && |steps| == Remaining(s)
    ensures forall i :: 0 <= i < |steps| ==> !steps[i].Offer?
    ensures var t := states[|steps|]; t.slot == FREE && t.accepted == s.accepted == Jobs(t.finished)
    decreases Remaining(s)
  {
    if s.slot.status == Idle {
      Singleton(s.workers);
      states, steps := [s], [];
      assert Jobs(s.finished) == s.accepted;
    } else {
      NilOutstanding(s);
      var step := Drive(s);
      EveryStepAdvances(s, step);
      var rest, more := Completes(Next(s, step));
      states, steps := FirstStep(s, step, rest, more);
    }
  }

  lemma FirstStep(s: State, step: Step, rest: seq<State>, more: seq<Step>) returns (states: seq<State>, steps: seq<Step>)
    requires Enabled(s, step) && IsRun(rest, more) && rest[0] == Next(s, step)
    ensures states == [s] + rest && steps == [step] + more && IsRun(states, steps)
  {
    states, steps := [s] + rest, [step] + more;
    assert forall i :: 0 < i < |steps| ==> steps[i] == more[i - 1] && states[i] == rest[i - 1] && states[i + 1] == rest[i];
  }
}
