/** Backup file names: written with a time stamp, parsed back to the application,
    and compared to find the newest. */
module BackupFile {
  import opened Helpers
  import opened Text

  // ----- time stamps ----------------------------------------------------------

  /** A wall-clock time as it is formatted. */
  datatype Time = Time(year: nat, month: nat, day: nat, hour: nat, minute: nat, second: nat)

  /** Years beyond 9999 would need a fifth digit. */
  predicate Formattable(t: Time) {
    t.year < 10000 && t.month < 100 && t.day < 100 && t.hour < 100 && t.minute < 100 && t.second < 100
  }

  function Pow10(w: nat): nat {
    if w == 0 then 1 else 10 * Pow10(w - 1)
  }

  /** `n` in `w` digits, with leading zeros. */
  function Pad(n: nat, w: nat): (s: string)
    ensures |s| == w && Digits(s)
  {
    if w == 0 then [] else Pad(n / 10, w - 1) + [DigitChar(n % 10)]
  }

  /** The layout "2006-0102-150405". */
  function Stamp(t: Time): (s: string)
    ensures |s| == 16
  {
    Pad(t.year, 4) + "-" + Pad(t.month, 2) + Pad(t.day, 2) + "-" + Pad(t.hour, 2) + Pad(t.minute, 2) + Pad(t.second, 2)
  }

  function Name(app: string, t: Time): string {
    app + "-" + Stamp(t) + ".tar.gz"
  }

  predicate Earlier(t: Time, u: Time) {
    t.year < u.year || (t.year == u.year && (
    t.month < u.month || (t.month == u.month && (
    t.day < u.day || (t.day == u.day && (
    t.hour < u.hour || (t.hour == u.hour && (
    t.minute < u.minute || (t.minute == u.minute && t.second < u.second)))))))))
  }

  lemma TenOrder(n: nat, m: nat)
    ensures n < m <==> n / 10 < m / 10 || (n / 10 == m / 10 && n % 10 < m % 10)
    ensures n == m <==> n / 10 == m / 10 && n % 10 == m % 10
  {
  }

  /** One more digit decides among those that agree so far. */
  lemma DigitOrder(a: string, b: string, x: nat, y: nat)
    requires |a| == |b| && x < 10 && y < 10
    ensures Less(a + [DigitChar(x)], b + [DigitChar(y)]) <==> Less(a, b) || (a == b && x < y)
    ensures a + [DigitChar(x)] == b + [DigitChar(y)] <==> a == b && x == y
  {
    var s, t := [DigitChar(x)], [DigitChar(y)];
    LessConcat(a, b, s, t);
    assert Less(s, t) <==> x < y;
    if a + s == b + t {
      assert a == (a + s)[..|a|] && b == (b + t)[..|b|];
      assert DigitValue((a + s)[|a|]) == x && DigitValue((b + t)[|b|]) == y;
    }
  }

  lemma TenBelow(n: nat, p: nat)
    requires n < 10 * p
    ensures n / 10 < p
  {
  }

  lemma PadStep(n: nat, w: nat)
    requires w > 0 && n < Pow10(w)
    ensures Pad(n, w) == Pad(n / 10, w - 1) + [DigitChar(n % 10)] && n / 10 < Pow10(w - 1)
  {
    TenBelow(n, Pow10(w - 1));
  }

  /** Fixed width makes the text order the number order. */
  lemma {:induction false} PadOrder(n: nat, m: nat, w: nat)
    requires n < Pow10(w) && m < Pow10(w)
    ensures Less(Pad(n, w), Pad(m, w)) <==> n < m
    ensures Pad(n, w) == Pad(m, w) <==> n == m
    decreases w
  {
    if w > 0 {
      PadStep(n, w);
      PadStep(m, w);
      TenOrder(n, m);
      var x, y, c, d := n / 10, m / 10, n % 10, m % 10;
      PadOrder(x, y, w - 1);
      DigitOrder(Pad(x, w - 1), Pad(y, w - 1), c, d);
    }
  }

  lemma Pow10Values()
    ensures Pow10(2) == 100 && Pow10(4) == 10000
  {
    assert Pow10(1) == 10;
    assert Pow10(3) == 1000;
  }

  /** One more field decides among those that agree so far. */
  lemma FieldOrder(n: nat, m: nat, w: nat, x: string, y: string)
    requires n < Pow10(w) && m < Pow10(w)
    ensures Less(Pad(n, w) + x, Pad(m, w) + y) <==> n < m || (n == m && Less(x, y))
  {
    PadOrder(n, m, w);
    LessConcat(Pad(n, w), Pad(m, w), x, y);
  }

  /** Two fields of two digits. */
  function Pair(x: nat, y: nat, tail: string): string {
    Pad(x, 2) + (Pad(y, 2) + tail)
  }

  function Seconds(t: Time): string {
    Pad(t.second, 2) + ".tar.gz"
  }

  function Clock(t: Time): string {
    Pair(t.hour, t.minute, Seconds(t))
  }

  lemma PairOrder(x: nat, y: nat, tail: string, x': nat, y': nat, tail': string)
    requires x < 100 && y < 100 && x' < 100 && y' < 100
    ensures Less(Pair(x, y, tail), Pair(x', y', tail')) <==> x < x' || (x == x' && (y < y' || (y == y' && Less(tail, tail'))))
  {
    Pow10Values();
    FieldOrder(x, x', 2, Pad(y, 2) + tail, Pad(y', 2) + tail');
    FieldOrder(y, y', 2, tail, tail');
  }

  lemma ClockOrder(t: Time, u: Time)
    requires Formattable(t) && Formattable(u)
    ensures Less(Clock(t), Clock(u)) <==>
              t.hour < u.hour || (t.hour == u.hour && (t.minute < u.minute || (t.minute == u.minute && t.second < u.second)))
  {
    Pow10Values();
    PairOrder(t.hour, t.minute, Seconds(t), u.hour, u.minute, Seconds(u));
    FieldOrder(t.second, u.second, 2, ".tar.gz", ".tar.gz");
    LessIrreflexive(".tar.gz");
  }

  function MonthOn(t: Time): string {
    Pair(t.month, t.day, "-" + Clock(t))
  }

  lemma MonthOrder(t: Time, u: Time)
    requires Formattable(t) && Formattable(u)
    ensures Less(MonthOn(t), MonthOn(u)) <==>
              t.month < u.month || (t.month == u.month && (t.day < u.day || (t.day == u.day && Less(Clock(t), Clock(u)))))
  {
    PairOrder(t.month, t.day, "-" + Clock(t), u.month, u.day, "-" + Clock(u));
    LessPrefix("-", Clock(t), Clock(u));
  }

  lemma NameParts(app: string, t: Time)
    ensures Name(app, t) == app + ("-" + (Pad(t.year, 4) + ("-" + MonthOn(t))))
  {
  }

  /** Among backups of one application, names are ordered as their times are. */
  lemma NameOrder(app: string, t: Time, u: Time)
    requires Formattable(t) && Formattable(u)
    ensures Less(Name(app, t), Name(app, u)) <==> Earlier(t, u)
  {
    Pow10Values();
    NameParts(app, t);
    NameParts(app, u);
    LessPrefix(app, "-" + (Pad(t.year, 4) + ("-" + MonthOn(t))), "-" + (Pad(u.year, 4) + ("-" + MonthOn(u))));
    LessPrefix("-", Pad(t.year, 4) + ("-" + MonthOn(t)), Pad(u.year, 4) + ("-" + MonthOn(u)));
    FieldOrder(t.year, u.year, 4, "-" + MonthOn(t), "-" + MonthOn(u));
    LessPrefix("-", MonthOn(t), MonthOn(u));
    MonthOrder(t, u);
    ClockOrder(t, u);
  }

  // ----- parsing --------------------------------------------------------------

  /** `-\d{4}-\d{4}` matches at `i`. */
  predicate DateAt(s: string, i: nat) {
    && i + 10 <= |s|
    && s[i] == '-' && Digits(s[i + 1..i + 5])
    && s[i + 5] == '-' && Digits(s[i + 6..i + 10])
  }

  function FirstDate(s: string, i: nat): (j: Option<nat>)
    requires i <= |s|
    ensures j == None <==> forall k :: i <= k <= |s| ==> !DateAt(s, k)
    ensures j.Some? ==> i <= j.value <= |s| && DateAt(s, j.value) && forall k :: i <= k < j.value ==> !DateAt(s, k)
    decreases |s| - i
  {
    if DateAt(s, i) then Some(i) else if i == |s| then None else FirstDate(s, i + 1)
  }

  /** `(.*?)-\d{4}-\d{4}.*`: the application a file name stands for. */
  function Parse(fileName: string): Option<string> {
    var j := FirstDate(fileName, 0);
    if j == None then None else Some(fileName[LineStart(fileName, j.value)..j.value])
  }

  predicate EndsInYear(app: string) {
    |app| >= 5 && app[|app| - 5] == '-' && Digits(app[|app| - 4..])
  }

  /** Names for which a backup is attributed to its own application. */
  ghost predicate Attributable(app: string) {
    OneLine(app) && !EndsInYear(app) && forall i :: 0 <= i <= |app| ==> !DateAt(app, i)
  }

  /** Either of the two ways in which the pattern sees a date at the start of `rest`,
      on its own or when a date follows. */
  predicate LooksLikeDate(rest: string) {
    (|rest| == 5 && EndsInYear(rest)) || DateAt(rest, 0)
  }

  lemma NameTail(app: string, t: Time) returns (tail: string)
    ensures Name(app, t) == app + tail && DateAt(tail, 0)
  {
    var day := Pad(t.month, 2) + Pad(t.day, 2);
    tail := "-" + Pad(t.year, 4) + "-" + day + "-" + Pad(t.hour, 2) + Pad(t.minute, 2) + Pad(t.second, 2) + ".tar.gz";
    assert Stamp(t) == Pad(t.year, 4) + "-" + day + "-" + Pad(t.hour, 2) + Pad(t.minute, 2) + Pad(t.second, 2);
    assert tail == "-" + Stamp(t) + ".tar.gz";
    assert Name(app, t) == app + tail;
    assert tail[1..5] == Pad(t.year, 4) && tail[6..10] == day;
  }

  /** Where the pattern matches in a name that is continued by what looks like a date. */
  lemma DatesBeforeRest(app: string, rest: string, i: nat)
    requires LooksLikeDate(rest) && i <= |app|
    ensures i < |app| ==> (DateAt(app + rest, i) <==> DateAt(app, i) || (i == |app| - 5 && EndsInYear(app)))
    ensures i == |app| ==> (DateAt(app + rest, i) <==> DateAt(rest, 0))
  {
    var name, n := app + rest, |app|;
    if i == n {
      assert DateAt(rest, 0) || DateAt(name, i) ==> name[i + 1..i + 5] == rest[1..5] && name[i + 6..i + 10] == rest[6..10];
    } else if i + 10 <= n {
      assert name[i + 1..i + 5] == app[i + 1..i + 5] && name[i + 6..i + 10] == app[i + 6..i + 10];
    } else if i + 10 <= |name| {
      if i > n - 5 {
        assert name[i + 1..i + 5][n - i - 1] == '-';
      } else if i < n - 5 {
        assert name[i + 6..i + 10][n - i - 6] == '-';
      } else {
        assert name[i + 1..i + 5] == app[n - 4..];
        assert name[i + 6..i + 10] == rest[1..5];
      }
    }
  }

  /** Where the date pattern can match in a written name: inside the application's
      name, across its end if that looks like a year, and where it belongs. */
  lemma DatesInName(app: string, t: Time, i: nat)
    requires i <= |app|
    ensures DateAt(Name(app, t), i) <==> DateAt(app, i) || (i == |app| - 5 && EndsInYear(app)) || i == |app|
  {
    var tail := NameTail(app, t);
    DatesBeforeRest(app, tail, i);
  }

  /** Where the application ends in a name that a backup of `app` writes. */
  function Cut(app: string): (j: nat)
    ensures j <= |app|
  {
    var j := FirstDate(app, 0);
    if j.Some? then j.value else if EndsInYear(app) then |app| - 5 else |app|
  }

  /** The application whose backups those of `app` are taken for. */
  function ReadAs(app: string): string {
    app[LineStart(app, Cut(app))..Cut(app)]
  }

  lemma FirstDateIs(s: string, j: nat)
    requires j <= |s| && DateAt(s, j) && forall i :: 0 <= i < j ==> !DateAt(s, i)
    ensures FirstDate(s, 0) == Some(j)
  {
  }

  lemma CutIsFirst(app: string, tail: string)
    requires DateAt(tail, 0)
    ensures FirstDate(app + tail, 0) == Some(Cut(app))
  {
    var j, name := Cut(app), app + tail;
    DatesBeforeRest(app, tail, j);
    forall i | 0 <= i < j ensures !DateAt(name, i) {
      DatesBeforeRest(app, tail, i);
    }
    FirstDateIs(name, j);
  }

  lemma {:induction false} LineStartBefore(s: string, tail: string, i: nat)
    requires i <= |s|
    ensures LineStart(s + tail, i) == LineStart(s, i)
  {
    if i > 0 {
      LineStartBefore(s, tail, i - 1);
    }
  }

  /** Whatever the time, a backup of `app` is read as one of `ReadAs(app)`. */
  lemma ParseIsReadAs(app: string, t: Time)
    ensures Parse(Name(app, t)) == Some(ReadAs(app))
  {
    var tail := NameTail(app, t);
    CutIsFirst(app, tail);
    LineStartBefore(app, tail, Cut(app));
    var k, j := LineStart(app, Cut(app)), Cut(app);
    assert (app + tail)[k..j] == app[k..j];
  }

  /** That is `app` itself exactly for these names. */
  lemma ReadAsItself(app: string)
    ensures ReadAs(app) == app <==> Attributable(app)
  {
    var j := Cut(app);
    var k := LineStart(app, j);
    assert k > 0 || j < |app| ==> |app[k..j]| < |app|;
    assert app[..|app|] == app;
    if j == |app| {
      assert OneLine(app) <==> k == 0;
    }
  }

  /** Reading back the name of a backup gives its application exactly for these names. */
  lemma ParseOfName(app: string, t: Time)
    ensures Parse(Name(app, t)) == Some(app) <==> Attributable(app)
  {
    ParseIsReadAs(app, t);
    ReadAsItself(app);
  }

  /** `other` is `app` continued by what looks like a year or a date. */
  predicate Continues(app: string, other: string) {
    |app| <= |other| && other[..|app|] == app && LooksLikeDate(other[|app|..])
  }

  /** Exactly when the backups of another application are read as those of `app`,
      for names of one line. */
  lemma ReadAsAnother(app: string, other: string)
    requires OneLine(other) && other != app
    ensures ReadAs(other) == app <==> Attributable(app) && Continues(app, other)
  {
    if ReadAs(other) == app {
      ReadAsIsContinued(app, other);
    }
    if Attributable(app) && Continues(app, other) {
      ContinuedReadsAs(app, other);
    }
  }

  lemma ReadAsIsContinued(app: string, other: string)
    requires OneLine(other) && other != app && ReadAs(other) == app
    ensures Attributable(app) && Continues(app, other)
  {
    ReadAsIsPrefix(app, other);
    PrefixIsContinued(app, other);
  }

  lemma ReadAsIsPrefix(app: string, other: string)
    requires OneLine(other) && ReadAs(other) == app
    ensures |app| == Cut(other) && other[..|app|] == app && OneLine(app)
  {
    OneLineCut(other);
  }

  lemma PrefixIsContinued(app: string, other: string)
    requires OneLine(app) && other != app && Cut(other) == |app| && other[..|app|] == app
    ensures Attributable(app) && Continues(app, other)
  {
    var rest := other[|app|..];
    assert other == app + rest;
    CutLooksLikeDate(app, rest);
  }

  lemma ContinuedReadsAs(app: string, other: string)
    requires OneLine(other) && Attributable(app) && Continues(app, other)
    ensures ReadAs(other) == app
  {
    var rest := other[|app|..];
    CutAtRest(app, rest);
    assert other == app + rest;
    OneLineCut(other);
  }

  lemma OneLineCut(other: string)
    requires OneLine(other)
    ensures ReadAs(other) == other[..Cut(other)] && |ReadAs(other)| == Cut(other)
    ensures Cut(other) == |other| ==> ReadAs(other) == other
  {
    assert OneLine(other[..Cut(other)]);
  }

  lemma CutLooksLikeDate(app: string, rest: string)
    requires OneLine(app) && rest != [] && Cut(app + rest) == |app|
    ensures Attributable(app) && LooksLikeDate(rest)
  {
    var other := app + rest;
    RestLooksLikeDate(app, rest);
    forall i | 0 <= i < |app| ensures !DateAt(app, i) {
      DatesBeforeRest(app, rest, i);
    }
    if |app| >= 5 {
      DatesBeforeRest(app, rest, |app| - 5);
    }
  }

  lemma RestLooksLikeDate(app: string, rest: string)
    requires rest != [] && Cut(app + rest) == |app|
    ensures LooksLikeDate(rest)
    ensures forall i :: 0 <= i < |app| ==> !DateAt(app + rest, i)
  {
    var other, j := app + rest, |app|;
    if FirstDate(other, 0) == None {
      assert rest[|rest| - 4..] == other[|other| - 4..];
    } else {
      assert rest[1..5] == other[j + 1..j + 5] && rest[6..10] == other[j + 6..j + 10];
    }
  }

  lemma CutAtRest(app: string, rest: string)
    requires Attributable(app) && LooksLikeDate(rest)
    ensures Cut(app + rest) == |app|
  {
    var other := app + rest;
    forall i | 0 <= i < |app| ensures !DateAt(other, i) {
      DatesBeforeRest(app, rest, i);
    }
    DatesBeforeRest(app, rest, |app|);
    if !DateAt(rest, 0) {
      assert other[|other| - 4..] == rest[|rest| - 4..];
      assert EndsInYear(other);
    }
  }

  // ----- the newest backup ----------------------------------------------------

  /** `files` are the names in the backup directory. */
  method LatestBackup(files: seq<string>, app: string) returns (latest: Option<string>)
    ensures latest == None <==> forall f :: f in files ==> Parse(f) != Some(app)
    ensures latest.Some? ==> IsLatest(files, app, latest.value)
  {
    var appFiles := OfApp(files, app);
    if |appFiles| > 0 {
      LessIsWeakOrder();
      var sorted := Sort(appFiles, Less);
      LastIsGreatest(appFiles, sorted);
      latest := Some(sorted[|sorted| - 1]);
    } else {
      latest := None;
      assert forall f :: f in files && Parse(f) == Some(app) ==> f in appFiles;
    }
  }

  method OfApp(files: seq<string>, app: string) returns (appFiles: seq<string>)
    ensures forall f :: f in appFiles <==> f in files && Parse(f) == Some(app)
  {
    appFiles := [];
    for i := 0 to |files|
      invariant forall f :: f in appFiles <==> f in files[..i] && Parse(f) == Some(app)
    {
      assert files[..i + 1] == files[..i] + [files[i]];
      if Parse(files[i]) == Some(app) {
        appFiles := appFiles + [files[i]];
      }
    }
    assert files[..|files|] == files;
  }

  ghost predicate IsLatest(files: seq<string>, app: string, latest: string) {
    && latest in files && Parse(latest) == Some(app)
    && forall f :: f in files && Parse(f) == Some(app) ==> !Less(latest, f)
  }

  /** `f` is the name of a backup of `app`. */
  ghost predicate Own(f: string, app: string) {
    exists t: Time :: WrittenAt(f, app, t)
  }

  ghost predicate WrittenAt(f: string, app: string, t: Time) {
    Formattable(t) && f == Name(app, t)
  }

  /** `f` is a backup of `app`, and no backup of `app` here is newer. */
  ghost predicate Newest(files: seq<string>, app: string, f: string) {
    exists t: Time :: WrittenAt(f, app, t) && forall u :: Formattable(u) && Name(app, u) in files ==> !Earlier(t, u)
  }

  /** `f` is among the files and is above everything else that is read as one of `app`. */
  ghost predicate Outranks(files: seq<string>, app: string, f: string) {
    && f in files && Own(f, app)
    && forall g :: g in files && Parse(g) == Some(app) && !Own(g, app) ==> Less(g, f)
  }

  /** Exactly when the latest name in a directory, whatever it holds, is the
      application's newest backup. */
  lemma LatestIsNewest(files: seq<string>, app: string, latest: string)
    requires IsLatest(files, app, latest)
    ensures Newest(files, app, latest) <==> Attributable(app) && exists f :: Outranks(files, app, f)
  {
    if Newest(files, app, latest) {
      NewestOutranks(files, app, latest);
    }
    if f :| Attributable(app) && Outranks(files, app, f) {
      OutrankedIsOwn(files, app, latest, f);
      var t: Time :| WrittenAt(latest, app, t);
      forall u | Formattable(u) && Name(app, u) in files ensures !Earlier(t, u) {
        ParseOfName(app, u);
        NameOrder(app, t, u);
      }
    }
  }

  lemma NewestOutranks(files: seq<string>, app: string, latest: string)
    requires IsLatest(files, app, latest) && Newest(files, app, latest)
    ensures Attributable(app) && Outranks(files, app, latest)
  {
    var t: Time :| WrittenAt(latest, app, t);
    ParseOfName(app, t);
    forall g | g in files && Parse(g) == Some(app) && !Own(g, app) ensures Less(g, latest) {
      LessTotal(g, latest);
    }
  }

  lemma OutrankedIsOwn(files: seq<string>, app: string, latest: string, f: string)
    requires IsLatest(files, app, latest) && Attributable(app) && Outranks(files, app, f)
    ensures Own(latest, app)
  {
    var t: Time :| WrittenAt(f, app, t);
    ParseOfName(app, t);
    LessAsymmetric(latest, f);
  }

  /** `f` is a backup of `app` or of one whose backups are not read as those of `app`. */
  ghost predicate Unmistaken(f: string, app: string) {
    exists other :: Own(f, other) && (other == app || ReadAs(other) != app)
  }

  lemma UnmistakenIsOwn(f: string, app: string)
    requires Unmistaken(f, app) && Parse(f) == Some(app)
    ensures Own(f, app) && Attributable(app)
  {
    var other :| Own(f, other) && (other == app || ReadAs(other) != app);
    var t: Time :| WrittenAt(f, other, t);
    ParseIsReadAs(other, t);
    ReadAsItself(app);
  }

  /** So it is whenever no other application's backups are read as those of `app`. */
  lemma LatestUnlessMistaken(files: seq<string>, app: string, latest: string)
    requires IsLatest(files, app, latest) && forall f :: f in files ==> Unmistaken(f, app)
    ensures Newest(files, app, latest)
  {
    UnmistakenIsOwn(latest, app);
    forall f | f in files && Parse(f) == Some(app) ensures Own(f, app) {
      UnmistakenIsOwn(f, app);
    }
    assert Outranks(files, app, latest);
    LatestIsNewest(files, app, latest);
  }

  lemma Hundreds(x: nat, y: nat)
    requires x < 100 && y < 100
    ensures (100 * x + y) / 10 / 10 == x && (100 * x + y) / 10 % 10 == y / 10 && (100 * x + y) % 10 == y % 10
  {
  }

  lemma LastTwo(n: nat, w: nat)
    ensures Pad(n, w + 2) == Pad(n / 10 / 10, w) + [DigitChar(n / 10 % 10), DigitChar(n % 10)]
  {
    assert Pad(n, w + 2) == Pad(n / 10, w + 1) + [DigitChar(n % 10)];
    assert Pad(n / 10, w + 1) == Pad(n / 10 / 10, w) + [DigitChar(n / 10 % 10)];
  }

  /** Two fields of two digits are one of four. */
  lemma PadPair(x: nat, y: nat, tail: string)
    requires x < 100 && y < 100
    ensures Pair(x, y, tail) == Pad(100 * x + y, 4) + tail
  {
    Hundreds(x, y);
    var n := 100 * x + y;
    LastTwo(n, 2);
    LastTwo(y, 0);
    Joined(Pad(x, 2), Pad(y, 2), tail, Pad(n, 4));
  }

  lemma Joined(a: string, b: string, c: string, ab: string)
    requires a + b == ab
    ensures a + (b + c) == ab + c
  {
  }

  function Four(n: nat, tail: string): string {
    "-" + (Pad(n, 4) + tail)
  }

  lemma FourOrder(n: nat, tail: string, m: nat, tail': string)
    requires n < 10000 && m < 10000
    ensures Less(Four(n, tail), Four(m, tail')) <==> n < m || (n == m && Less(tail, tail'))
  {
    Pow10Values();
    LessPrefix("-", Pad(n, 4) + tail, Pad(m, 4) + tail');
    FieldOrder(n, m, 4, tail, tail');
  }

  function AfterYear(t: Time): string {
    Four(100 * t.month + t.day, "-" + Clock(t))
  }

  lemma ClockInFours(t: Time)
    requires Formattable(t)
    ensures "-" + Clock(t) == Four(100 * t.hour + t.minute, Seconds(t))
  {
    PadPair(t.hour, t.minute, Seconds(t));
  }

  lemma AfterYearInFields(t: Time)
    requires Formattable(t)
    ensures "-" + MonthOn(t) == AfterYear(t)
  {
    PadPair(t.month, t.day, "-" + Clock(t));
  }

  /** The fields of a name, four digits at a time. */
  lemma NameInFours(app: string, t: Time)
    requires Formattable(t)
    ensures Name(app, t) == app + Four(t.year, AfterYear(t))
  {
    NameParts(app, t);
    AfterYearInFields(t);
  }

  function YearLike(app: string, n: nat): string {
    app + "-" + Pad(n, 4)
  }

  lemma YearLikeIsMistaken(app: string, n: nat)
    requires Attributable(app)
    ensures YearLike(app, n) != app && ReadAs(YearLike(app, n)) == app
  {
    var rest := "-" + Pad(n, 4);
    assert rest[|rest| - 4..] == Pad(n, 4);
    assert YearLike(app, n) == app + rest;
    CutAtRest(app, rest);
    var other := app + rest;
    assert other[..|app|] == app && OneLine(app);
  }

  /** The name of a backup of "app-n" is above that of a backup of `app` exactly if
      n is later than the year of the latter, or the same and the fields beyond
      compare so, each shifted by one. */
  lemma YearLikeOrder(app: string, n: nat, t: Time, u: Time)
    requires Formattable(t) && Formattable(u) && n < 10000
    ensures Less(Name(app, t), Name(YearLike(app, n), u)) <==>
              t.year < n || (t.year == n && (
              100 * t.month + t.day < u.year || (100 * t.month + t.day == u.year &&
              100 * t.hour + t.minute < 100 * u.month + u.day)))
  {
    NameInFours(app, t);
    YearLikeInFours(app, n, u);
    var rest, rest' := AfterYear(t), Four(u.year, AfterYear(u));
    LessPrefix(app, Four(t.year, rest), Four(n, rest'));
    FourOrder(t.year, rest, n, rest');
    AfterYearOrder(t, u);
  }

  lemma AfterYearOrder(t: Time, u: Time)
    requires Formattable(t) && Formattable(u)
    ensures Less(AfterYear(t), Four(u.year, AfterYear(u))) <==>
              100 * t.month + t.day < u.year || (100 * t.month + t.day == u.year && 100 * t.hour + t.minute < 100 * u.month + u.day)
  {
    ClockInFours(t);
    FourOrder(100 * t.month + t.day, "-" + Clock(t), u.year, AfterYear(u));
    FourOrder(100 * t.hour + t.minute, Seconds(t), 100 * u.month + u.day, "-" + Clock(u));
    DigitAboveDash(t, Clock(u));
  }

  lemma DigitAboveDash(t: Time, rest: string)
    ensures !Less(Seconds(t), "-" + rest)
  {
    assert IsDigit(Seconds(t)[0]);
  }

  lemma YearLikeInFours(app: string, n: nat, u: Time)
    requires Formattable(u)
    ensures Name(YearLike(app, n), u) == app + Four(n, Four(u.year, AfterYear(u)))
  {
    NameInFours(YearLike(app, n), u);
    var rest := Four(u.year, AfterYear(u));
    assert app + "-" + Pad(n, 4) + rest == app + Four(n, rest);
  }

  /** So a backup of "app-n" hides every backup of `app` made before year n. */
  lemma AnotherIsLatest(app: string, n: nat, t: Time, u: Time)
    requires Attributable(app) && Formattable(t) && Formattable(u) && t.year < n < 10000
    ensures var files := [Name(app, t), Name(YearLike(app, n), u)];
            IsLatest(files, app, Name(YearLike(app, n), u)) && !Newest(files, app, Name(YearLike(app, n), u))
  {
    var files := [Name(app, t), Name(YearLike(app, n), u)];
    ParseOfName(app, t);
    YearLikeIsMistaken(app, n);
    ParseIsReadAs(YearLike(app, n), u);
    YearLikeOrder(app, n, t, u);
    LessAsymmetric(files[0], files[1]);
    LessIrreflexive(files[1]);
    var f := files[1];
    assert |f| == |app| + 29;
    forall v: Time ensures |Name(app, v)| != |f| {
      assert |Name(app, v)| == |app| + 24;
    }
  }
}
