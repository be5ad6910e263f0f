/** The out-of-memory watcher: under pressure it signals the worst process that
    it may signal, and only that one. */
module Oom {
  import opened Helpers

  datatype Victim = Victim(pid: int, comm: string, cgroup: string, rss: nat, adj: int, score: nat)

  /** An entry of the process directory: `pid` if its name is a number, `victim` if
      it can be read. */
  datatype Entry = Entry(isDir: bool, pid: Option<int>, victim: Option<Victim>)

  datatype Sig = Term | Probe | Kill

  datatype Signal = Signal(pid: int, sig: Sig)

  datatype Sent = Delivered | NoSuchProcess | Refused

  // ----- who may be signalled -------------------------------------------------

  const PROTECTED_COMMS := ["systemd", "sshd", "init", "snapd", "dbus-daemon", "login"]
  const PROTECTED_CGROUPS := ["snap.platform.", "snap.users.", "init.scope", "ssh.service", "sshd.service"]

  predicate Contains(s: string, sub: string) {
    exists i :: 0 <= i <= |s| && sub <= s[i..]
  }

  predicate Protected(v: Victim) {
    v.comm in PROTECTED_COMMS || exists s :: s in PROTECTED_CGROUPS && Contains(v.cgroup, s)
  }

  method IsProtected(v: Victim) returns (r: bool)
    ensures r == Protected(v)
  {
    for i := 0 to |PROTECTED_COMMS|
      invariant forall j :: 0 <= j < i ==> v.comm != PROTECTED_COMMS[j]
    {
      if v.comm == PROTECTED_COMMS[i] {
        return true;
      }
    }
    for i := 0 to |PROTECTED_CGROUPS|
      invariant forall j :: 0 <= j < i ==> !Contains(v.cgroup, PROTECTED_CGROUPS[j])
    {
      if Contains(v.cgroup, PROTECTED_CGROUPS[i]) {
        return true;
      }
    }
    return false;
  }

  predicate Eligible(e: Entry, self: int) {
    && e.isDir && e.pid.Some? && e.pid.value > 1 && e.pid.value != self
    && e.victim.Some? && e.victim.value.rss != 0 && !Protected(e.victim.value)
  }

  /** The victims of the eligible entries carry the entry's number. */
  predicate Readable(e: Entry) {
    e.victim.Some? ==> e.pid == Some(e.victim.value.pid)
  }

  /** A thousand times the score. */
  function Score(v: Victim): nat {
    v.rss * (1000 + if v.adj > 0 then v.adj else 0)
  }

  function Scored(v: Victim): Victim {
    v.(score := Score(v))
  }

  // ----- choosing -------------------------------------------------------------

  predicate Worse(v: Victim, w: Victim) {
    v.score > w.score
  }

  method Candidates(entries: seq<Entry>, self: int) returns (sorted: seq<Victim>)
    ensures forall v :: v in sorted <==> exists e :: e in entries && Eligible(e, self) && v == Scored(e.victim.value)
    ensures Ordered(sorted, Worse)
  {
    var out: seq<Victim> := [];
    for i := 0 to |entries|
      invariant forall v :: v in out <==> exists e :: e in entries[..i] && Eligible(e, self) && v == Scored(e.victim.value)
    {
      assert entries[..i + 1] == entries[..i] + [entries[i]];
      var e := entries[i];
      if !e.isDir { continue; }
      if e.pid == None { continue; }
      if e.pid.value <= 1 || e.pid.value == self { continue; }
      if e.victim == None { continue; }
      if e.victim.value.rss == 0 { continue; }
      var protected := IsProtected(e.victim.value);
      if protected { continue; }
      out := out + [Scored(e.victim.value)];
    }
    assert entries[..|entries|] == entries;
    sorted := Sort(out, Worse);
    SameMembers(sorted, out);
  }

  // ----- killing --------------------------------------------------------------

  /** What the system answers: `alive` are the probes made before the grace period
      is over, in order. */
  datatype Answers = Answers(term: Sent, alive: seq<bool>, kill: Sent)

  function Signals(pid: int, probes: nat, kill: bool): (r: seq<Signal>)
    ensures |r| == 1 + probes + if kill then 1 else 0
    ensures forall i :: 0 <= i < |r| ==> r[i] == Signal(pid, if i == 0 then Term else if i <= probes then Probe else Kill)
  {
    [Signal(pid, Term)] + seq(probes, _ => Signal(pid, Probe)) + if kill then [Signal(pid, Kill)] else []
  }

  ghost predicate AllAlive(answers: Answers) {
    forall i :: 0 <= i < |answers.alive| ==> answers.alive[i]
  }

  /** The probes sent are those up to the first that found nobody, and the kill
      follows exactly when none did. */
  ghost predicate Escalation(answers: Answers, probes: nat, kill: bool) {
    && probes <= |answers.alive|
    && (forall i :: 0 <= i < probes - 1 ==> answers.alive[i])
    && (answers.term != Delivered ==> probes == 0)
    && (answers.term == Delivered && probes < |answers.alive| ==> probes > 0 && !answers.alive[probes - 1])
    && (kill <==> answers.term == Delivered && AllAlive(answers))
  }

  /** `v` is signalled: asked to stop, probed, and killed if nothing helped. */
  ghost predicate Signalled(entries: seq<Entry>, self: int, answers: Answers, ok: bool, signals: seq<Signal>, v: Victim, probes: nat, kill: bool) {
    && IsWorst(entries, self, v)
    && signals == Signals(v.pid, probes, kill)
    && Escalation(answers, probes, kill)
    && (ok <==> answers.term != Refused && (kill ==> answers.kill != Refused))
  }

  /** The processes found; none if their directory cannot be read. */
  function Found(entries: Option<seq<Entry>>): seq<Entry> {
    if entries == None then [] else entries.value
  }

  method KillWorst(entries: Option<seq<Entry>>, self: int, answers: Answers) returns (ok: bool, signals: seq<Signal>)
    ensures (forall e :: e in Found(entries) ==> !Eligible(e, self)) ==> !ok && signals == []
    ensures (exists e :: e in Found(entries) && Eligible(e, self)) ==>
              exists v, probes, kill :: Signalled(Found(entries), self, answers, ok, signals, v, probes, kill)
  {
    if entries == None {
      return false, [];
    }
    ok, signals := KillFound(entries.value, self, answers);
  }

  method KillFound(entries: seq<Entry>, self: int, answers: Answers) returns (ok: bool, signals: seq<Signal>)
    ensures (forall e :: e in entries ==> !Eligible(e, self)) ==> !ok && signals == []
    ensures (exists e :: e in entries && Eligible(e, self)) ==> exists v, probes, kill :: Signalled(entries, self, answers, ok, signals, v, probes, kill)
  {
    var candidates := Candidates(entries, self);
    signals := [];
    if |candidates| == 0 {
      assert forall e :: e in entries && Eligible(e, self) ==> Scored(e.victim.value) in candidates;
      return false, signals;
    }
    var v := candidates[0];
    assert v in candidates;
    forall e | e in entries && Eligible(e, self) ensures Score(e.victim.value) <= v.score {
      assert Scored(e.victim.value) in candidates;
    }
    signals := [Signal(v.pid, Term)];
    assert signals == Signals(v.pid, 0, false);
    if answers.term != Delivered {
      ok := answers.term == NoSuchProcess;
      assert Signalled(entries, self, answers, ok, signals, v, 0, false);
      return;
    }
    for i := 0 to |answers.alive|
      invariant signals == Signals(v.pid, i, false)
      invariant forall j :: 0 <= j < i ==> answers.alive[j]
    {
      signals := signals + [Signal(v.pid, Probe)];
      assert signals == Signals(v.pid, i + 1, false);
      if !answers.alive[i] {
        ok := true;
        assert Signalled(entries, self, answers, ok, signals, v, i + 1, false);
        return;
      }
    }
    signals := signals + [Signal(v.pid, Kill)];
    ok := answers.kill != Refused;
    assert signals == Signals(v.pid, |answers.alive|, true);
    assert Signalled(entries, self, answers, ok, signals, v, |answers.alive|, true);
  }

  /** An eligible victim with the greatest score of all eligible ones. */
  ghost predicate IsWorst(entries: seq<Entry>, self: int, v: Victim) {
    && (exists e :: e in entries && Eligible(e, self) && v == Scored(e.victim.value))
    && forall e :: e in entries && Eligible(e, self) ==> Score(e.victim.value) <= v.score
  }

  function PressureExceeded(avail: real, psi: Option<real>): bool {
    avail < 0.08 || (psi.Some? && psi.value > 40.0)
  }

  /** `sub` occurs in `s`. */
  ghost predicate HasPart(s: string, sub: string) {
    exists before, after :: s == before + sub + after
  }

  lemma ContainsIff(s: string, sub: string)
    ensures Contains(s, sub) <==> HasPart(s, sub)
  {
    if i :| 0 <= i <= |s| && sub <= s[i..] {
      assert s == s[..i] + sub + s[i + |sub|..];
    }
    if before, after :| s == before + sub + after {
      assert sub <= s[|before|..];
    }
  }

  /** The control group contains a protected part. */
  ghost predicate InProtectedGroup(v: Victim) {
    exists s :: s in PROTECTED_CGROUPS && HasPart(v.cgroup, s)
  }

  lemma ProtectedIff(v: Victim)
    ensures Protected(v) <==> v.comm in PROTECTED_COMMS || InProtectedGroup(v)
  {
    forall s ensures Contains(v.cgroup, s) <==> HasPart(v.cgroup, s) {
      ContainsIff(v.cgroup, s);
    }
  }

  /** An entry of a process that may be signalled: a readable one with memory, neither
      protected nor this process nor the first. */
  ghost predicate MayBeSignalled(e: Entry, self: int) {
    && e.isDir && e.pid.Some? && e.pid.value > 1 && e.pid.value != self && e.victim.Some?
    && var v := e.victim.value; v.rss > 0 && v.comm !in PROTECTED_COMMS && !InProtectedGroup(v)
  }

  lemma EligibleIff(e: Entry, self: int)
    ensures Eligible(e, self) <==> MayBeSignalled(e, self)
  {
    if e.victim.Some? {
      ProtectedIff(e.victim.value);
    }
  }

  /** `v` takes at least as much memory as `w`, each weighted by its own adjustment:
      by a thousandth more for every unit above zero. */
  predicate AtLeastAsBad(v: Victim, w: Victim) {
    var more: nat, less: nat := if v.adj > 0 then v.adj else 0, if w.adj > 0 then w.adj else 0;
    v.rss as real * (1.0 + more as real / 1000.0) >= w.rss as real * (1.0 + less as real / 1000.0)
  }

  lemma WorseIsWorse(v: Victim, w: Victim)
    ensures AtLeastAsBad(v, w) <==> Score(v) >= Score(w)
  {
    ScoreAsReal(v);
    ScoreAsReal(w);
  }

  lemma ScoreAsReal(v: Victim)
    ensures var more: nat := if v.adj > 0 then v.adj else 0; Score(v) as real == 1000.0 * (v.rss as real * (1.0 + more as real / 1000.0))
  {
    var more: nat := if v.adj > 0 then v.adj else 0;
    assert (v.rss * (1000 + more)) as real == v.rss as real * (1000 + more) as real;
    assert (1000 + more) as real == 1000.0 * (1.0 + more as real / 1000.0);
  }

  /** Signals that may be sent: all to one process, the worst of those that may be
      signalled. */
  ghost predicate Legal(entries: seq<Entry>, self: int, signals: seq<Signal>, v: Victim) {
    && (exists e :: e in entries && MayBeSignalled(e, self) && e.pid == Some(v.pid) && v == e.victim.value.(score := v.score))
    && (forall e :: e in entries && MayBeSignalled(e, self) ==> AtLeastAsBad(v, e.victim.value))
    && forall i :: 0 <= i < |signals| ==> signals[i].pid == v.pid
  }

  /** A kill is only the last signal, after a request to stop and after every probe
      found the process alive; and then it is sent. */
  ghost predicate LastResort(answers: Answers, signals: seq<Signal>) {
    && (forall i :: 0 <= i < |signals| && signals[i].sig == Kill ==> i == |signals| - 1)
    && (signals != [] ==> signals[0].sig == Term)
    && (signals != [] && signals[|signals| - 1].sig == Kill <==> signals != [] && answers.term == Delivered && AllAlive(answers))
    && (signals != [] && answers.term == Delivered && AllAlive(answers) ==> |signals| == |answers.alive| + 2)
  }

  lemma SignalledIsLegal(entries: seq<Entry>, self: int, answers: Answers, ok: bool, signals: seq<Signal>, v: Victim, probes: nat, kill: bool)
    requires forall e :: e in entries ==> Readable(e)
    requires Signalled(entries, self, answers, ok, signals, v, probes, kill)
    ensures Legal(entries, self, signals, v)
    ensures LastResort(answers, signals)
  {
    var e :| e in entries && Eligible(e, self) && v == Scored(e.victim.value);
    assert Readable(e);
    forall f | f in entries ensures Eligible(f, self) <==> MayBeSignalled(f, self) {
      EligibleIff(f, self);
    }
    forall f | f in entries && MayBeSignalled(f, self) ensures AtLeastAsBad(v, f.victim.value) {
      WorseIsWorse(v, f.victim.value);
    }
    assert |signals| == 1 + probes + if kill then 1 else 0;
  }

  /** One tick: nothing without pressure, and otherwise the worst process and no
      other.  `avail` is missing if memory cannot be read; without signals, the tick
      is in order only if it was read and shows no pressure. */
  method Tick(avail: Option<real>, psi: Option<real>, entries: Option<seq<Entry>>, self: int, answers: Answers) returns (ok: bool, signals: seq<Signal>)
    requires forall e :: e in Found(entries) ==> Readable(e)
    ensures signals != [] <==> avail.Some? && (avail.value < 0.08 || (psi.Some? && psi.value > 40.0))
                               && exists e :: e in Found(entries) && MayBeSignalled(e, self)
    ensures signals != [] ==> exists v :: Legal(Found(entries), self, signals, v)
    ensures LastResort(answers, signals)
    ensures signals == [] ==> (ok <==> avail.Some? && avail.value >= 0.08 && (psi == None || psi.value <= 40.0))
    ensures signals != [] ==> (ok <==> answers.term != Refused && (signals[|signals| - 1].sig == Kill ==> answers.kill != Refused))
  {
    if avail == None {
      return false, [];
    }
    forall e | e in Found(entries) ensures Eligible(e, self) <==> MayBeSignalled(e, self) {
      EligibleIff(e, self);
    }
    if !PressureExceeded(avail.value, psi) {
      return true, [];
    }
    ok, signals := KillWorst(entries, self, answers);
    if exists e :: e in Found(entries) && Eligible(e, self) {
      ghost var v, probes, kill :| Signalled(Found(entries), self, answers, ok, signals, v, probes, kill);
      SignalledIsLegal(Found(entries), self, answers, ok, signals, v, probes, kill);
    }
  }
}
