/** The stability event log: an append-only file, rotated when it grows too
    large, and read back through a ring buffer.

    The file is the sequence of its JSON lines.  A write that stops inside a line
    leaves a torn one, at which every reader stops.  `history` is every event that
    was ever written whole; `surviving` leaves out those written behind a torn
    line, which no reader will see. */
module EventLog {
  import opened Helpers

  const MAX_LOG_FILE_BYTES := 256 * 1024
  const KEEP_EVENTS := 1000
  const DEFAULT_LIMIT := 100

  /** `time` is 0 for an event that carries no time yet. */
  datatype Event = Event(time: nat, body: nat)

  datatype Line = Whole(event: Event, bytes: nat) | Torn(bytes: nat)

  /** How far a write gets; `readable` says that only the line end is missing. */
  datatype Wrote = All | Cut(bytes: nat, readable: bool)

  /** How the system calls of one `Append` end. */
  datatype Io = Io(canOpen: bool, wrote: Wrote, sized: bool, replaced: bool)

  // ----- what the log should answer -------------------------------------------

  /** The last `k` elements, or all of them. */
  function Last<T>(s: seq<T>, k: nat): (r: seq<T>)
    ensures |r| == if |s| < k then |s| else k
  {
    if |s| < k then s else s[|s| - k..]
  }

  function Reverse<T>(s: seq<T>): (r: seq<T>)
    ensures |r| == |s| && forall i :: 0 <= i < |s| ==> r[i] == s[|s| - 1 - i]
  {
    if s == [] then [] else Reverse(s[1..]) + [s[0]]
  }

  function Stamped(e: Event, now: nat): Event {
    if e.time == 0 then e.(time := now) else e
  }

  // ----- the file -------------------------------------------------------------

  function Size(lines: seq<Line>): nat {
    if lines == [] then 0 else lines[0].bytes + Size(lines[1..])
  }

  function Contents(file: Option<seq<Line>>): seq<Line> {
    if file == None then [] else file.value
  }

  predicate IsTorn(lines: seq<Line>) {
    exists i :: 0 <= i < |lines| && lines[i].Torn?
  }

  /** What a decoder gets: the events before the first torn line. */
  function Visible(lines: seq<Line>): seq<Event> {
    if lines == [] || lines[0].Torn? then [] else [lines[0].event] + Visible(lines[1..])
  }

  lemma {:induction false} VisibleAt(lines: seq<Line>, i: nat)
    requires i <= |Visible(lines)|
    ensures i <= |lines|
    ensures i < |Visible(lines)| ==> i < |lines| && lines[i].Whole? && lines[i].event == Visible(lines)[i]
    ensures i == |Visible(lines)| && i < |lines| ==> lines[i].Torn?
  {
    if i > 0 {
      VisibleAt(lines[1..], i - 1);
    }
  }

  /** What a write leaves behind. */
  function Left(length: Event -> nat, e: Event, wrote: Wrote): seq<Line> {
    match wrote
    case All => [Whole(e, length(e))]
    case Cut(bytes, readable) => if bytes == 0 then [] else if readable then [Whole(e, bytes)] else [Torn(bytes)]
  }

  predicate IsReadable(wrote: Wrote) {
    wrote.All? || (wrote.bytes > 0 && wrote.readable)
  }

  function Lines(length: Event -> nat, events: seq<Event>): (r: seq<Line>)
    ensures |r| == |events| && forall i :: 0 <= i < |events| ==> r[i] == Whole(events[i], length(events[i]))
  {
    seq(|events|, i requires 0 <= i < |events| => Whole(events[i], length(events[i])))
  }

  /** The file after one `Append`. */
  function Appended(length: Event -> nat, file: Option<seq<Line>>, e: Event, io: Io): Option<seq<Line>> {
    if !io.canOpen then file
    else
      var grown := Contents(file) + Left(length, e, io.wrote);
      Some(Rotated(length, grown, MustRotate(grown, io)))
  }

  predicate MustRotate(grown: seq<Line>, io: Io) {
    io.wrote.All? && io.sized && Size(grown) > MAX_LOG_FILE_BYTES && io.replaced
  }

  /** `Visible` is the longest prefix without a torn line. */
  lemma {:induction false} VisibleIs(lines: seq<Line>, events: seq<Event>)
    requires |events| <= |lines| && forall i :: 0 <= i < |events| ==> lines[i].Whole? && lines[i].event == events[i]
    requires |events| < |lines| ==> lines[|events|].Torn?
    ensures Visible(lines) == events
  {
    if events != [] {
      VisibleIs(lines[1..], events[1..]);
      assert events == [events[0]] + events[1..];
    }
  }

  lemma {:induction false} VisibleAll(lines: seq<Line>)
    ensures |Visible(lines)| <= |lines| && (|Visible(lines)| == |lines| <==> !IsTorn(lines))
  {
    if lines != [] {
      VisibleAll(lines[1..]);
      assert IsTorn(lines) <==> lines[0].Torn? || IsTorn(lines[1..]) by {
        assert lines == [lines[0]] + lines[1..];
        if i :| 0 <= i < |lines[1..]| && lines[1..][i].Torn? {
          assert lines[i + 1].Torn?;
        }
        if i :| 0 <= i < |lines| && lines[i].Torn? {
          assert i > 0 ==> lines[1..][i - 1].Torn?;
        }
      }
    }
  }

  predicate SeenUpTo(a: seq<Line>, b: seq<Line>) {
    Visible(a + b) == if IsTorn(a) then Visible(a) else Visible(a) + Visible(b)
  }

  lemma SeenUpToMore(l: Line, a: seq<Line>, b: seq<Line>)
    requires SeenUpTo(a, b)
    ensures SeenUpTo([l] + a, b)
  {
    var more := [l] + a;
    assert (more + b)[1..] == a + b && more[1..] == a;
    VisibleAll(more);
    VisibleAll(a);
  }

  lemma SeenUpToNone(b: seq<Line>)
    ensures SeenUpTo([], b)
  {
    assert [] + b == b;
  }

  /** Nothing is seen behind a torn line. */
  lemma {:induction false} VisibleConcat(a: seq<Line>, b: seq<Line>)
    ensures Visible(a + b) == if IsTorn(a) then Visible(a) else Visible(a) + Visible(b)
  {
    if a == [] {
      SeenUpToNone(b);
    } else {
      VisibleConcat(a[1..], b);
      SeenUpToMore(a[0], a[1..], b);
      assert [a[0]] + a[1..] == a;
    }
  }

  // ----- ring arithmetic ------------------------------------------------------

  /** The remainder operator of the implementation language, which truncates. */
  function Rem(a: int, b: int): int
    requires b > 0
  {
    if a < 0 then -(-a % b) else a % b
  }

  lemma ModUnique(a: int, q: int, b: int, r: int)
    requires 0 <= r < b && a == q * b + r
    ensures a % b == r
  {
    Multiple(a / b - q, b);
  }

  lemma ModShift(a: int, b: int, k: int)
    requires b > 0
    ensures (a % b + k) % b == (a + k) % b
    ensures (a + b) % b == a % b
  {
    ModUnique(a % b + k, (a + k) / b - a / b, b, (a + k) % b);
    ModUnique(a + b, a / b + 1, b, a % b);
  }

  /** Slots of a ring of size `b` collide only a multiple of `b` apart. */
  lemma SlotsDiffer(i: int, j: int, b: int)
    requires b > 0 && i < j < i + b
    ensures i % b != j % b
  {
    Multiple(j / b - i / b, b);
  }

  /** The ring holds the last events among the first `n`. */
  ghost predicate HoldsLast(ring: seq<Event>, events: seq<Event>, n: nat)
    requires |ring| > 0 && n <= |events|
  {
    forall j :: 0 <= j < n && n - |ring| <= j ==> ring[j % |ring|] == events[j]
  }

  lemma HoldsAt(ring: seq<Event>, events: seq<Event>, j: nat)
    requires |ring| > 0 && HoldsLast(ring, events, |events|) && |events| - |ring| <= j < |events|
    ensures ring[j % |ring|] == events[j]
  {
  }

  lemma Overwrite(ring: seq<Event>, events: seq<Event>, n: nat)
    requires |ring| > 0 && n < |events| && HoldsLast(ring, events, n)
    ensures HoldsLast(ring[n % |ring| := events[n]], events, n + 1)
  {
    forall j | 0 <= j < n && n + 1 - |ring| <= j ensures j % |ring| != n % |ring| {
      SlotsDiffer(j, n, |ring|);
    }
  }

  /** Both index computations of the reader hit the slot that they mean. */
  lemma RingIndex(n: nat, i: nat, limit: nat)
    requires limit > 0 && i < n && i < limit
    ensures Rem(Rem(n - 1 - i, limit) + limit, limit) == (n - 1 - i) % limit
    ensures Rem((if n > limit then Rem(n, limit) else 0) + i, limit) == (if n > limit then n - limit + i else i) % limit
  {
    ModShift(n - 1 - i, limit, limit);
    ModShift(n, limit, i);
    ModShift(n - limit + i, limit, 0);
  }

  /** Which event is read in the `i`th step. */
  function Wanted(n: nat, i: nat, limit: nat, reverse: bool): nat
    requires i < n && i < limit
  {
    if reverse then n - 1 - i else if n > limit then n - limit + i else i
  }

  /** The two index computations of the reader. */
  method Index(n: nat, i: nat, limit: nat, reverse: bool) returns (idx: int)
    requires i < n && i < limit
    ensures 0 <= idx < limit && idx == Wanted(n, i, limit, reverse) % limit
  {
    RingIndex(n, i, limit);
    if reverse {
      idx := Rem(Rem(n - 1 - i, limit) + limit, limit);
    } else {
      var start := if n > limit then Rem(n, limit) else 0;
      idx := Rem(start + i, limit);
    }
  }

  lemma LastAt<T>(s: seq<T>, k: nat, j: nat)
    requires j < |Last(s, k)|
    ensures Last(s, k)[j] == s[|s| - |Last(s, k)| + j]
  {
  }

  lemma WantedIsNext(events: seq<Event>, i: nat, limit: nat, reverse: bool)
    requires i < |events| && i < limit
    ensures Answer(events, limit, reverse)[i] == events[Wanted(|events|, i, limit, reverse)]
  {
    var last := Last(events, limit);
    if reverse {
      assert Reverse(last)[i] == last[|last| - 1 - i];
      LastAt(events, limit, |last| - 1 - i);
    } else {
      LastAt(events, limit, i);
    }
  }

  function Answer(events: seq<Event>, limit: nat, reverse: bool): (r: seq<Event>)
    ensures |r| == if |events| < limit then |events| else limit
  {
    if reverse then Reverse(Last(events, limit)) else Last(events, limit)
  }

  // ----- what is remembered ---------------------------------------------------

  /** Everything `Recent` can be asked for is still to be seen. */
  ghost predicate Remembers(seen: seq<Event>, surviving: seq<Event>) {
    && seen == Last(surviving, |seen|)
    && (|surviving| <= KEEP_EVENTS ==> seen == surviving)
    && (|surviving| > KEEP_EVENTS ==> |seen| >= KEEP_EVENTS)
  }

  lemma LastOfLast<T>(s: seq<T>, n: nat, k: nat)
    requires n <= |s|
    ensures Last(Last(s, n), k) == Last(s, if n < k then n else k)
  {
    var last := Last(s, n);
    assert last == s[|s| - n..];
    if k <= n {
      assert last[n - k..] == s[|s| - k..];
    }
  }

  lemma LastGrows<T>(s: seq<T>, n: nat, x: T)
    requires n <= |s|
    ensures Last(s, n) + [x] == Last(s + [x], n + 1)
  {
    assert (s + [x])[|s| - n..] == s[|s| - n..] + [x];
  }

  lemma RemembersGrowth(seen: seq<Event>, surviving: seq<Event>, e: Event)
    requires Remembers(seen, surviving)
    ensures Remembers(seen + [e], surviving + [e])
  {
    LastGrows(surviving, |seen|, e);
  }

  lemma RemembersRotation(seen: seq<Event>, surviving: seq<Event>)
    requires Remembers(seen, surviving)
    ensures Remembers(Last(seen, KEEP_EVENTS), surviving)
  {
    LastOfLast(surviving, |seen|, KEEP_EVENTS);
  }

  lemma GrownRemembers(length: Event -> nat, lines: seq<Line>, surviving: seq<Event>, e: Event, wrote: Wrote)
    requires Remembers(Visible(lines), surviving)
    ensures Remembers(Visible(lines + Left(length, e, wrote)), if IsReadable(wrote) && !IsTorn(lines) then surviving + [e] else surviving)
  {
    VisibleConcat(lines, Left(length, e, wrote));
    LeftVisible(length, e, wrote);
    RemembersGrowth(Visible(lines), surviving, e);
    assert Visible(lines) + [] == Visible(lines);
  }

  lemma LeftVisible(length: Event -> nat, e: Event, wrote: Wrote)
    ensures Visible(Left(length, e, wrote)) == if IsReadable(wrote) then [e] else []
  {
    VisibleIs(Left(length, e, wrote), if IsReadable(wrote) then [e] else []);
  }

  function Rotated(length: Event -> nat, lines: seq<Line>, rotate: bool): seq<Line> {
    if rotate then Lines(length, Last(Visible(lines), KEEP_EVENTS)) else lines
  }

  /** Rotation keeps what can be asked for. */
  lemma RotatedRemembers(length: Event -> nat, lines: seq<Line>, surviving: seq<Event>, rotate: bool)
    requires Remembers(Visible(lines), surviving)
    ensures Remembers(Visible(Rotated(length, lines, rotate)), surviving)
  {
    if rotate {
      RemembersRotation(Visible(lines), surviving);
      VisibleIs(Lines(length, Last(Visible(lines), KEEP_EVENTS)), Last(Visible(lines), KEEP_EVENTS));
    }
  }

  /** One append, whatever fails, forgets nothing that survives. */
  lemma AppendedRemembers(length: Event -> nat, file: Option<seq<Line>>, surviving: seq<Event>, e: Event, io: Io)
    requires Remembers(Visible(Contents(file)), surviving)
    ensures Remembers(Visible(Contents(Appended(length, file, e, io))), Survives(surviving, IsTorn(Contents(file)), e, io))
  {
    if io.canOpen {
      var lines := Contents(file);
      var grown := lines + Left(length, e, io.wrote);
      GrownRemembers(length, lines, surviving, e, io.wrote);
      RotatedRemembers(length, grown, Survives(surviving, IsTorn(lines), e, io), MustRotate(grown, io));
    }
  }

  function Survives(surviving: seq<Event>, torn: bool, e: Event, io: Io): seq<Event> {
    if io.canOpen && IsReadable(io.wrote) && !torn then surviving + [e] else surviving
  }

  /** Up to 1000 the newest seen are the newest surviving; beyond, exactly when the
      file reaches back that far. */
  lemma RemembersLast(seen: seq<Event>, surviving: seq<Event>, k: nat)
    requires Remembers(seen, surviving)
    ensures Last(seen, k) == Last(surviving, k) <==> k <= |seen| || |seen| == |surviving|
    ensures k <= KEEP_EVENTS ==> Last(seen, k) == Last(surviving, k)
  {
    LastOfLast(surviving, |seen|, k);
    if k > |seen| {
      assert Last(seen, k) == seen;
    }
  }

  lemma ReverseOfLast(s: seq<Event>, n: nat)
    ensures Reverse(Last(s, n)) <= Reverse(s)
  {
    var r, last := Reverse(s), Last(s, n);
    assert forall i :: 0 <= i < |last| ==> Reverse(last)[i] == r[i];
  }

  // ----- whole runs of appends ------------------------------------------------

  datatype Call = Call(event: Event, now: nat, io: Io)

  function FileAfter(length: Event -> nat, calls: seq<Call>): Option<seq<Line>> {
    if calls == [] then None
    else
      var c := calls[|calls| - 1];
      Appended(length, FileAfter(length, calls[..|calls| - 1]), Stamped(c.event, c.now), c.io)
  }

  /** Every event that was written whole. */
  function HistoryAfter(calls: seq<Call>): seq<Event> {
    if calls == [] then []
    else
      var c := calls[|calls| - 1];
      Survives(HistoryAfter(calls[..|calls| - 1]), false, Stamped(c.event, c.now), c.io)
  }

  function SurvivingAfter(length: Event -> nat, calls: seq<Call>): seq<Event> {
    if calls == [] then []
    else
      var before, c := calls[..|calls| - 1], calls[|calls| - 1];
      Survives(SurvivingAfter(length, before), IsTorn(Contents(FileAfter(length, before))), Stamped(c.event, c.now), c.io)
  }

  /** After any appends, with any rotations and any failures, the newest `k`
      events that a reader can ask for are the newest `k` surviving. */
  lemma {:induction false} NothingSurvivingIsLost(length: Event -> nat, calls: seq<Call>, k: nat)
    requires k <= KEEP_EVENTS
    ensures Remembers(Visible(Contents(FileAfter(length, calls))), SurvivingAfter(length, calls))
    ensures Last(Visible(Contents(FileAfter(length, calls))), k) == Last(SurvivingAfter(length, calls), k)
  {
    if calls != [] {
      var before, c := calls[..|calls| - 1], calls[|calls| - 1];
      NothingSurvivingIsLost(length, before, k);
      AppendedRemembers(length, FileAfter(length, before), SurvivingAfter(length, before), Stamped(c.event, c.now), c.io);
    }
    RemembersLast(Visible(Contents(FileAfter(length, calls))), SurvivingAfter(length, calls), k);
  }

  /** For every written event, whether it was written to a file without a torn line. */
  function KeptAfter(length: Event -> nat, calls: seq<Call>): seq<bool> {
    if calls == [] then []
    else
      var before, c := calls[..|calls| - 1], calls[|calls| - 1];
      Noted(KeptAfter(length, before), IsTorn(Contents(FileAfter(length, before))), c.io)
  }

  function Noted(kept: seq<bool>, torn: bool, io: Io): seq<bool> {
    if io.canOpen && IsReadable(io.wrote) then kept + [!torn] else kept
  }

  /** The events that are marked. */
  function Sift(history: seq<Event>, kept: seq<bool>): seq<Event>
    requires |history| == |kept|
  {
    if history == [] then []
    else
      var n := |history| - 1;
      Sift(history[..n], kept[..n]) + if kept[n] then [history[n]] else []
  }

  /** The newest `k` are marked. */
  ghost predicate AllKept(kept: seq<bool>, k: nat) {
    forall i :: 0 <= i < |kept| && |kept| - k <= i ==> kept[i]
  }

  lemma SiftMore(history: seq<Event>, kept: seq<bool>, torn: bool, e: Event, io: Io)
    requires |history| == |kept|
    ensures |Survives(history, false, e, io)| == |Noted(kept, torn, io)|
    ensures Sift(Survives(history, false, e, io), Noted(kept, torn, io)) == Survives(Sift(history, kept), torn, e, io)
  {
    assert (history + [e])[..|history|] == history && (kept + [!torn])[..|kept|] == kept;
  }

  lemma {:induction false} SiftMembers(history: seq<Event>, kept: seq<bool>)
    requires |history| == |kept|
    ensures forall e :: e in Sift(history, kept) ==> e in history
  {
    if history != [] {
      var n := |history| - 1;
      SiftMembers(history[..n], kept[..n]);
      assert history == history[..n] + [history[n]];
    }
  }

  lemma LastMore<T>(s: seq<T>, x: T, k: nat)
    requires k > 0
    ensures Last(s + [x], k) == Last(s, k - 1) + [x]
  {
    if k - 1 <= |s| {
      LastGrows(s, k - 1, x);
    }
  }

  lemma KeptMore(kept: seq<bool>, b: bool, k: nat)
    requires k > 0
    ensures AllKept(kept + [b], k) <==> b && AllKept(kept, k - 1)
  {
    var more := kept + [b];
    if b && AllKept(kept, k - 1) {
      assert forall i :: 0 <= i < |kept| ==> more[i] == kept[i];
    }
    if AllKept(more, k) {
      assert more[|kept|];
      forall i | 0 <= i < |kept| && |kept| - (k - 1) <= i ensures kept[i] {
        assert more[i];
      }
    }
  }

  /** The newest `k` of `s` are those of `history` if, and without repetitions only
      if, all of these are marked. */
  ghost predicate ShowsMarks(s: seq<Event>, history: seq<Event>, kept: seq<bool>, k: nat) {
    && (AllKept(kept, k) ==> Last(s, k) == Last(history, k))
    && (NoDup(history) && Last(s, k) == Last(history, k) ==> AllKept(kept, k))
  }

  lemma MarkedMore(s: seq<Event>, h: seq<Event>, m: seq<bool>, e: Event, k: nat)
    requires k > 0 && ShowsMarks(s, h, m, k - 1)
    ensures ShowsMarks(s + [e], h + [e], m + [true], k)
  {
    KeptMore(m, true, k);
    LastMore(h, e, k);
    LastMore(s, e, k);
    Cancel(Last(s, k - 1), Last(h, k - 1), e);
    NoDupBefore(h, e);
  }

  lemma HiddenMore(s: seq<Event>, h: seq<Event>, m: seq<bool>, e: Event, k: nat)
    requires k > 0 && forall x :: x in s ==> x in h
    ensures ShowsMarks(s, h + [e], m + [false], k)
  {
    KeptMore(m, false, k);
    LastMore(h, e, k);
    NoDupBefore(h, e);
    if e !in s {
      NotLast(s, e, k);
    }
  }

  lemma NoDupBefore(h: seq<Event>, e: Event)
    ensures NoDup(h + [e]) ==> NoDup(h) && e !in h
  {
    if NoDup(h + [e]) {
      assert forall i :: 0 <= i < |h| ==> (h + [e])[i] == h[i] && (h + [e])[|h|] == e;
    }
  }

  /** The newest `k` are all marked exactly when sifting does not show in them. */
  lemma {:induction false} LastSifted(history: seq<Event>, kept: seq<bool>, k: nat)
    requires |history| == |kept|
    ensures ShowsMarks(Sift(history, kept), history, kept, k)
    decreases |history|
  {
    if k == 0 {
      assert Last(Sift(history, kept), 0) == [] && Last(history, 0) == [];
    } else if history != [] {
      var n := |history| - 1;
      var h, m, e := history[..n], kept[..n], history[n];
      assert history == h + [e] && kept == m + [kept[n]];
      if kept[n] {
        LastSifted(h, m, k - 1);
        MarkedMore(Sift(h, m), h, m, e, k);
      } else {
        SiftMembers(h, m);
        HiddenMore(Sift(h, m), h, m, e, k);
        assert Sift(h, m) + [] == Sift(h, m);
      }
    }
  }

  lemma Cancel(s: seq<Event>, t: seq<Event>, e: Event)
    ensures s + [e] == t + [e] <==> s == t
  {
    assert (s + [e])[..|s|] == s && (t + [e])[..|t|] == t;
  }

  lemma NotLast(s: seq<Event>, e: Event, k: nat)
    requires e !in s
    ensures forall t: seq<Event> :: Last(s, k) != t + [e]
  {
    forall t: seq<Event> ensures Last(s, k) != t + [e] {
      assert (t + [e])[|t|] == e;
      assert e !in Last(s, k);
    }
  }

  lemma {:induction false} SurvivingIsSifted(length: Event -> nat, calls: seq<Call>)
    ensures |HistoryAfter(calls)| == |KeptAfter(length, calls)|
    ensures SurvivingAfter(length, calls) == Sift(HistoryAfter(calls), KeptAfter(length, calls))
  {
    if calls != [] {
      var before, c := calls[..|calls| - 1], calls[|calls| - 1];
      SurvivingIsSifted(length, before);
      SiftMore(HistoryAfter(before), KeptAfter(length, before), IsTorn(Contents(FileAfter(length, before))), Stamped(c.event, c.now), c.io);
    }
  }

  /** What a reader gets.  Of any number of events that can be asked for, the newest
      read are the newest ever written if none of them was written behind a torn
      line; and, unless two written events are equal, only if. */
  lemma ReadsHistoryIff(length: Event -> nat, calls: seq<Call>, k: nat)
    requires k <= KEEP_EVENTS
    ensures var read, history := Last(Visible(Contents(FileAfter(length, calls))), k), HistoryAfter(calls);
            && (AllKept(KeptAfter(length, calls), k) ==> read == Last(history, k))
            && (NoDup(history) ==> (read == Last(history, k) <==> AllKept(KeptAfter(length, calls), k)))
  {
    NothingSurvivingIsLost(length, calls, k);
    SurvivingIsSifted(length, calls);
    LastSifted(HistoryAfter(calls), KeptAfter(length, calls), k);
  }

  /** Without a write that stops inside a line nothing is ever hidden. */
  lemma {:induction false} NeverTorn(length: Event -> nat, calls: seq<Call>)
    requires forall i :: 0 <= i < |calls| && calls[i].io.canOpen && calls[i].io.wrote.Cut? ==> calls[i].io.wrote.bytes == 0 || calls[i].io.wrote.readable
    ensures !IsTorn(Contents(FileAfter(length, calls))) && SurvivingAfter(length, calls) == HistoryAfter(calls)
  {
    if calls != [] {
      NeverTorn(length, calls[..|calls| - 1]);
    }
  }

  lemma SmallSize(newest: nat)
    ensures forall e: Event :: Size([Torn(1), Whole(e, newest)]) == 1 + newest
  {
    forall e: Event ensures Size([Torn(1), Whole(e, newest)]) == 1 + newest {
      var lines := [Torn(1), Whole(e, newest)];
      assert lines[1..] == [Whole(e, newest)];
      assert Size(lines[1..]) == newest + Size([]);
    }
  }

  lemma FirstIsTorn(length: Event -> nat, lost: Event)
    ensures Appended(length, None, Stamped(lost, 1), Io(true, Cut(1, false), true, true)) == Some([Torn(1)])
  {
    assert [] + [Torn(1)] == [Torn(1)];
  }

  /** A whole line behind a torn one. */
  lemma BehindTorn(length: Event -> nat, newest: Event)
    requires length(newest) <= 1000
    ensures Appended(length, Some([Torn(1)]), newest, Io(true, All, true, true)) == Some([Torn(1), Whole(newest, length(newest))])
  {
    SmallSize(length(newest));
    assert [Torn(1)] + [Whole(newest, length(newest))] == [Torn(1), Whole(newest, length(newest))];
  }

  /** Otherwise the event written after a torn one is not seen. */
  lemma TornHidesNewest(length: Event -> nat, lost: Event, newest: Event)
    requires length(newest) <= 1000 && newest.time > 0
    ensures var calls := [Call(lost, 1, Io(true, Cut(1, false), true, true)), Call(newest, 1, Io(true, All, true, true))];
            Last(HistoryAfter(calls), 1) == [newest] && Visible(Contents(FileAfter(length, calls))) == []
  {
    var first, second := Call(lost, 1, Io(true, Cut(1, false), true, true)), Call(newest, 1, Io(true, All, true, true));
    TwoCalls(length, first, second);
    FirstIsTorn(length, lost);
    BehindTorn(length, newest);
  }

  lemma TwoCalls(length: Event -> nat, first: Call, second: Call)
    ensures FileAfter(length, [first, second]) ==
            Appended(length, Appended(length, None, Stamped(first.event, first.now), first.io), Stamped(second.event, second.now), second.io)
    ensures HistoryAfter([first, second]) ==
            Survives(Survives([], false, Stamped(first.event, first.now), first.io), false, Stamped(second.event, second.now), second.io)
  {
    assert [] + [first] == [first] && [first] + [second] == [first, second];
    AfterOne(length, [], first);
    AfterOne(length, [first], second);
  }

  lemma AfterOne(length: Event -> nat, before: seq<Call>, c: Call)
    ensures FileAfter(length, before + [c]) == Appended(length, FileAfter(length, before), Stamped(c.event, c.now), c.io)
    ensures HistoryAfter(before + [c]) == Survives(HistoryAfter(before), false, Stamped(c.event, c.now), c.io)
    ensures SurvivingAfter(length, before + [c]) == Survives(SurvivingAfter(length, before), IsTorn(Contents(FileAfter(length, before))), Stamped(c.event, c.now), c.io)
    ensures KeptAfter(length, before + [c]) == Noted(KeptAfter(length, before), IsTorn(Contents(FileAfter(length, before))), c.io)
  {
    assert (before + [c])[..|before|] == before;
  }

  ghost predicate Accounted(history: seq<Event>, surviving: seq<Event>, kept: seq<bool>) {
    |history| == |kept| && surviving == Sift(history, kept)
  }

  lemma AccountedMore(history: seq<Event>, surviving: seq<Event>, kept: seq<bool>, torn: bool, e: Event, io: Io)
    requires Accounted(history, surviving, kept)
    ensures Accounted(Survives(history, false, e, io), Survives(surviving, torn, e, io), Noted(kept, torn, io))
  {
    SiftMore(history, kept, torn, e, io);
  }

  lemma ReverseInjective(s: seq<Event>, t: seq<Event>)
    ensures Reverse(s) == Reverse(t) <==> s == t
  {
    if Reverse(s) == Reverse(t) {
      assert forall i :: 0 <= i < |s| ==> s[i] == Reverse(s)[|s| - 1 - i];
      assert forall i :: 0 <= i < |t| ==> t[i] == Reverse(t)[|t| - 1 - i];
    }
  }

  // ----- the log --------------------------------------------------------------

  /** The three ghost fields of a log agree with its file. */
  ghost predicate Agrees(file: Option<seq<Line>>, history: seq<Event>, surviving: seq<Event>, kept: seq<bool>) {
    Remembers(Visible(Contents(file)), surviving) && Accounted(history, surviving, kept)
  }

  lemma AgreesAfter(length: Event -> nat, before: Option<seq<Line>>, file: Option<seq<Line>>, history: seq<Event>, surviving: seq<Event>, kept: seq<bool>, e: Event, io: Io)
    requires Agrees(before, history, surviving, kept) && file == Appended(length, before, e, io)
    ensures var torn := IsTorn(Contents(before));
            Agrees(file, Survives(history, false, e, io), Survives(surviving, torn, e, io), Noted(kept, torn, io))
  {
    AppendedRemembers(length, before, surviving, e, io);
    AccountedMore(history, surviving, kept, IsTorn(Contents(before)), e, io);
  }

  /** The line of the event gets into the file, with or without its end. */
  predicate Written(io: Io) {
    io.canOpen && match io.wrote { case All => true case Cut(bytes, readable) => readable && bytes > 0 }
  }

  /** What an append adds to the history. */
  ghost predicate Records(before: seq<Event>, after: seq<Event>, e: Event, now: nat, io: Io) {
    && (Written(io) ==> |after| == |before| + 1 && after[..|before|] == before && Dated(after[|before|], e, now))
    && (!Written(io) ==> after == before)
  }

  lemma RecordsStamped(history: seq<Event>, e: Event, now: nat, io: Io)
    ensures Records(history, Survives(history, false, Stamped(e, now), io), e, now, io)
  {
  }

  /** What the file and the ghost fields are after these calls, from an empty log. */
  ghost predicate After(length: Event -> nat, calls: seq<Call>, file: Option<seq<Line>>, history: seq<Event>, surviving: seq<Event>, kept: seq<bool>) {
    && file == FileAfter(length, calls) && history == HistoryAfter(calls)
    && surviving == SurvivingAfter(length, calls) && kept == KeptAfter(length, calls)
  }

  lemma AfterMore(length: Event -> nat, file: Option<seq<Line>>, history: seq<Event>, surviving: seq<Event>, kept: seq<bool>, c: Call)
    ensures var e, torn := Stamped(c.event, c.now), IsTorn(Contents(file));
            forall calls :: After(length, calls, file, history, surviving, kept) ==>
              After(length, calls + [c], Appended(length, file, e, c.io), Survives(history, false, e, c.io), Survives(surviving, torn, e, c.io), Noted(kept, torn, c.io))
  {
    forall calls | After(length, calls, file, history, surviving, kept)
      ensures var e, torn := Stamped(c.event, c.now), IsTorn(Contents(file));
              After(length, calls + [c], Appended(length, file, e, c.io), Survives(history, false, e, c.io), Survives(surviving, torn, e, c.io), Noted(kept, torn, c.io))
    {
      AfterOne(length, calls, c);
    }
  }

  /** `x` is `e`, which gets the time `now` if it carries none. */
  predicate Dated(x: Event, e: Event, now: nat) {
    x.body == e.body && (e.time == 0 ==> x.time == now) && (e.time > 0 ==> x.time == e.time)
  }

  class EventLog {
    const length: Event -> nat  // bytes of the JSON line of an event
    var file: Option<seq<Line>>
    ghost var history: seq<Event>
    ghost var surviving: seq<Event>
    ghost var kept: seq<bool>  // which of `history` are in `surviving`

    constructor (length: Event -> nat)
      ensures this.length == length && file == None && history == [] && Valid() && IsAfter([])
    {
      this.length := length;
      file, history, surviving, kept := None, [], [], [];
    }

    function Events(): seq<Event>
      reads this
    {
      Visible(Contents(file))
    }

    ghost predicate Valid()
      reads this
    {
      Agrees(file, history, surviving, kept)
    }

    /** This is the log after these calls, from an empty one. */
    ghost predicate IsAfter(calls: seq<Call>)
      reads this
    {
      After(length, calls, file, history, surviving, kept)
    }

    /** The ring-buffer reader, in both directions; `None` if an existing file
        cannot be opened. */
    method ReadLast(limit: nat, reverse: bool, opens: bool) returns (out: Option<seq<Event>>)
      requires limit > 0
      ensures out == if file.Some? && !opens then None else Some(Answer(Events(), limit, reverse))
    {
      if file == None {
        return Some([]);
      }
      if !opens {
        return None;
      }
      var lines := file.value;
      ghost var events := Visible(lines);
      var ring := new Event[limit];
      var n := 0;
      while n < |lines| && lines[n].Whole?
        invariant n <= |events| && n <= |lines|
        invariant HoldsLast(ring[..], events, n)
      {
        VisibleAt(lines, n);
        Overwrite(ring[..], events, n);
        ring[n % limit] := lines[n].event;
        n := n + 1;
      }
      VisibleAt(lines, n);
      var read := ReadRing(ring, n, reverse, events);
      out := Some(read);
    }

    method ReadRing(ring: array<Event>, n: nat, reverse: bool, ghost events: seq<Event>) returns (out: seq<Event>)
      requires ring.Length > 0 && n == |events| && HoldsLast(ring[..], events, n)
      ensures out == Answer(events, ring.Length, reverse)
    {
      var limit := ring.Length;
      var count := if n > limit then limit else n;
      ghost var answer := Answer(events, limit, reverse);
      out := [];
      for i := 0 to count
        invariant out == answer[..i]
      {
        var idx := Index(n, i, limit, reverse);
        WantedIsNext(events, i, limit, reverse);
        HoldsAt(ring[..], events, Wanted(n, i, limit, reverse));
        assert ring[idx] == answer[i] && answer[..i + 1] == answer[..i] + [answer[i]];
        out := out + [ring[idx]];
      }
    }

    /** Rewrites the file from what can be read of it. */
    method Rotate(keep: nat, replaced: bool)
      requires keep > 0 && file.Some?
      modifies this`file
      ensures file == if replaced then Some(Lines(length, Last(old(Events()), keep))) else old(file)
    {
      var events := ReadLast(keep, false, replaced);
      if replaced {
        file := Some(Lines(length, events.value));
      }
    }

    /** Appends one line, and rotates when the file has grown too large. */
    method Write(stamped: Event, io: Io) returns (ok: bool)
      modifies this`file
      ensures file == Appended(length, old(file), stamped, io)
      ensures ok && io.sized ==> Size(Contents(file)) <= MAX_LOG_FILE_BYTES || |Contents(file)| <= KEEP_EVENTS
      ensures !ok <==> !io.canOpen || io.wrote.Cut? || (io.sized && !io.replaced && Size(Contents(file)) > MAX_LOG_FILE_BYTES)
    {
      if !io.canOpen {
        return false;
      }
      if file == None {
        file := Some([]);  // opened with O_CREATE
      }
      file := Some(file.value + Left(length, stamped, io.wrote));
      if io.wrote.Cut? {
        return false;
      }
      var size := if io.sized then Size(file.value) else 0;
      if size > MAX_LOG_FILE_BYTES {
        Rotate(KEEP_EVENTS, io.replaced);
        return io.replaced;
      }
      return true;
    }

    method Append(e: Event, now: nat, io: Io) returns (ok: bool)
      requires Valid()
      modifies this
      ensures Valid()
      ensures file == Appended(length, old(file), Stamped(e, now), io)
      ensures history == Survives(old(history), false, Stamped(e, now), io)
      ensures surviving == Survives(old(surviving), IsTorn(Contents(old(file))), Stamped(e, now), io)
      ensures kept == Noted(old(kept), IsTorn(Contents(old(file))), io)
      ensures Records(old(history), history, e, now, io)
      ensures forall calls :: old(IsAfter(calls)) ==> IsAfter(calls + [Call(e, now, io)])
      ensures ok && io.sized ==> Size(Contents(file)) <= MAX_LOG_FILE_BYTES || |Contents(file)| <= KEEP_EVENTS
      ensures !ok <==> !io.canOpen || io.wrote.Cut? || (io.sized && !io.replaced && Size(Contents(file)) > MAX_LOG_FILE_BYTES)
    {
      ghost var before, torn := file, IsTorn(Contents(file));
      var stamped := Stamped(e, now);
      ok := Write(stamped, io);
      AgreesAfter(length, before, file, history, surviving, kept, stamped, io);
      RecordsStamped(history, e, now, io);
      AfterMore(length, before, history, surviving, kept, Call(e, now, io));
      Account(Survives(history, false, stamped, io), Survives(surviving, torn, stamped, io), Noted(kept, torn, io));
    }

    /** Brings the ghost fields up to date. */
    ghost method Account(history: seq<Event>, surviving: seq<Event>, kept: seq<bool>)
      requires Agrees(file, history, surviving, kept)
      modifies this`history, this`surviving, this`kept
      ensures Valid() && this.history == history && this.surviving == surviving && this.kept == kept
    {
      this.history, this.surviving, this.kept := history, surviving, kept;
    }

    method Recent(limit: int, opens: bool) returns (out: Option<seq<Event>>)
      requires Valid()
      ensures out == None <==> file.Some? && !opens
      ensures out.Some? ==> var k := if limit <= 0 then DEFAULT_LIMIT else limit;
              out.value <= Reverse(surviving)
              && (out.value == Reverse(Last(surviving, k)) <==> k <= |Events()| || |Events()| == |surviving|)
      ensures out.Some? && limit <= KEEP_EVENTS ==> out.value == Reverse(Last(surviving, if limit <= 0 then DEFAULT_LIMIT else limit))
    {
      var k: nat := if limit <= 0 then DEFAULT_LIMIT else limit;
      RemembersLast(Events(), surviving, k);
      ReverseOfLast(surviving, |Last(Events(), k)|);
      LastOfLast(surviving, |Events()|, k);
      out := ReadLast(k, true, opens);
    }
  }

  /** Whatever else fails, an event written to a file without a torn line is what is
      then read first. */
  method AppendThenRecent(log: EventLog, e: Event, now: nat, io: Io) returns (out: Option<seq<Event>>)
    requires log.Valid() && !IsTorn(Contents(log.file)) && Written(io)
    modifies log
    ensures out.Some? && |out.value| == 1 && Dated(out.value[0], e, now)
  {
    NewestIsRead(log.surviving, e, now, io);
    var _ := log.Append(e, now, io);
    out := log.Recent(1, true);
  }

  lemma NewestIsRead(surviving: seq<Event>, e: Event, now: nat, io: Io)
    requires Written(io)
    ensures var newest := Reverse(Last(Survives(surviving, false, Stamped(e, now), io), 1)); |newest| == 1 && Dated(newest[0], e, now)
  {
    RecordsStamped(surviving, e, now, io);
  }

  /** The limit handler of the REST interface: `requested` is the number given,
      if there was one. */
  function RequestedLimit(requested: Option<int>): (limit: int)
    ensures 1 <= limit <= KEEP_EVENTS
    ensures requested.Some? && 1 <= requested.value <= KEEP_EVENTS ==> limit == requested.value
    ensures requested == None || requested.value < 1 || requested.value > KEEP_EVENTS ==> limit == DEFAULT_LIMIT
  {
    if requested.Some? && requested.value > 0 && requested.value <= 1000 then requested.value else 100
  }

  /** The health endpoint: a request is answered from the unbounded history if, and
      unless events repeat only if, none of the events asked for was written behind
      a torn line. */
  method HealthEvents(log: EventLog, requested: Option<int>, opens: bool) returns (out: Option<seq<Event>>)
    requires log.Valid()
    ensures out == None <==> log.file.Some? && !opens
    ensures out.Some? ==> out.value == Reverse(Last(log.surviving, RequestedLimit(requested)))
    ensures out.Some? && AllKept(log.kept, RequestedLimit(requested)) ==> out.value == Reverse(Last(log.history, RequestedLimit(requested)))
    ensures out.Some? && NoDup(log.history) && out.value == Reverse(Last(log.history, RequestedLimit(requested))) ==> AllKept(log.kept, RequestedLimit(requested))
  {
    var k := RequestedLimit(requested);
    LastSifted(log.history, log.kept, k);
    ReverseInjective(Last(log.surviving, k), Last(log.history, k));
    out := log.Recent(k, opens);
  }
}
