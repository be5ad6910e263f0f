/** Directory trees, the archive they are walked into, and extraction.

    A tree maps paths relative to its root to nodes; the root is the empty path. */
module Archive {
  import opened Helpers
  import opened Text

  type Path = seq<string>

  datatype Owner = Owner(uid: nat, gid: nat)

  datatype Node = Dir(owner: Owner) | File(owner: Owner, content: string) | Socket(owner: Owner)

  type Files = map<Path, Node>

  datatype Entry = Entry(path: Path, node: Node)

  /** What the daemon creates belongs to it. */
  const DAEMON := Owner(0, 0)

  /** An empty directory made by the daemon. */
  const EMPTY: Files := map[[] := Dir(DAEMON)]

  function Parent(p: Path): Path
    requires p != []
  {
    p[..|p| - 1]
  }

  predicate IsDir(files: Files, p: Path) {
    p in files && files[p].Dir?
  }

  ghost predicate Tree(files: Files) {
    IsDir(files, []) && forall p {:trigger Parent(p)} :: p in files && p != [] ==> IsDir(files, Parent(p))
  }

  // ----- walking --------------------------------------------------------------

  function Children(files: Files, dir: Path): set<string> {
    set p | p in files && dir < p && |p| == |dir| + 1 :: p[|dir|]
  }

  ghost function Below(files: Files, dir: Path): set<Path> {
    set p | p in files && dir < p
  }

  /** Everything under the children of `dir` that are in `names`. */
  ghost function BelowNamed(files: Files, dir: Path, names: seq<string>): set<Path> {
    set p | p in files && dir < p && p[|dir|] in names
  }

  ghost function Paths(entries: seq<Entry>): set<Path> {
    set e | e in entries :: e.path
  }

  /** `entries` lists exactly `scope`, once each, with their nodes, and every
      directory (other than those in `base`) before what is in it. */
  ghost predicate Lists(files: Files, base: set<Path>, scope: set<Path>, entries: seq<Entry>) {
    Paths(entries) == scope && Distinct(entries) && InOrder(files, base, entries)
  }

  ghost predicate Distinct(entries: seq<Entry>) {
    forall i, j :: 0 <= i < j < |entries| ==> entries[i].path != entries[j].path
  }

  ghost predicate InOrder(files: Files, base: set<Path>, entries: seq<Entry>) {
    forall i :: 0 <= i < |entries| ==> Listed(files, base + Paths(entries[..i]), entries[i])
  }

  ghost predicate Listed(files: Files, seen: set<Path>, e: Entry) {
    e.path in files && e.path != [] && e.node == files[e.path] && !e.node.Socket? && Parent(e.path) in seen
  }

  lemma PathsConcat(a: seq<Entry>, b: seq<Entry>)
    ensures Paths(a + b) == Paths(a) + Paths(b)
  {
  }

  lemma DistinctConcat(a: seq<Entry>, b: seq<Entry>)
    requires Distinct(a) && Distinct(b) && Paths(a) !! Paths(b)
    ensures Distinct(a + b)
  {
    var all := a + b;
    forall i, j | 0 <= i < j < |all| ensures all[i].path != all[j].path {
      if i < |a| <= j {
        assert a[i].path in Paths(a) && b[j - |a|].path in Paths(b);
      }
    }
  }

  lemma InOrderConcat(files: Files, base: set<Path>, a: seq<Entry>, b: seq<Entry>)
    requires InOrder(files, base, a) && InOrder(files, base + Paths(a), b)
    ensures InOrder(files, base, a + b)
  {
    var all := a + b;
    forall i | 0 <= i < |all| ensures Listed(files, base + Paths(all[..i]), all[i]) {
      if i < |a| {
        assert all[..i] == a[..i];
      } else {
        var c := b[..i - |a|];
        assert all[..i] == a + c;
        PathsConcat(a, c);
        assert base + Paths(a) + Paths(c) == base + Paths(a + c);
        assert Listed(files, base + Paths(a) + Paths(c), b[i - |a|]);
      }
    }
  }

  lemma ListsConcat(files: Files, base: set<Path>, s: set<Path>, t: set<Path>, a: seq<Entry>, b: seq<Entry>)
    requires Lists(files, base, s, a) && Lists(files, base + s, t, b) && s !! t
    ensures Lists(files, base, s + t, a + b)
  {
    PathsConcat(a, b);
    DistinctConcat(a, b);
    InOrderConcat(files, base, a, b);
  }

  lemma ListsOne(files: Files, base: set<Path>, e: Entry)
    requires Listed(files, base, e)
    ensures Lists(files, base, {e.path}, [e])
  {
    assert [e][..0] == [];
  }

  lemma ListsMoreBase(files: Files, base: set<Path>, more: set<Path>, scope: set<Path>, entries: seq<Entry>)
    requires Lists(files, base, scope, entries) && base <= more
    ensures Lists(files, more, scope, entries)
  {
    forall i | 0 <= i < |entries| ensures Listed(files, more + Paths(entries[..i]), entries[i]) {
      assert Listed(files, base + Paths(entries[..i]), entries[i]);
    }
  }

  /** `filepath.Walk` below `dir`; `None` is an error, which a socket causes. */
  method Walk(files: Files, dir: Path) returns (entries: Option<seq<Entry>>)
    requires Tree(files) && IsDir(files, dir)
    ensures entries == None <==> exists p :: p in Below(files, dir) && files[p].Socket?
    ensures entries.Some? ==> Lists(files, {dir}, Below(files, dir), entries.value)
    decreases Below(files, dir)
  {
    var names := SortedNames(Children(files, dir));
    var list := [];
    for k := 0 to |names|
      invariant Lists(files, {dir}, BelowNamed(files, dir, names[..k]), list)
      invariant forall p :: p in BelowNamed(files, dir, names[..k]) ==> !files[p].Socket?
    {
      var path := dir + [names[k]];
      ChildPath(files, dir, names[k]);
      assert path in Below(files, dir);
      var e := Entry(path, files[path]);
      if e.node.Socket? {
        return None;
      }
      var sub := [];
      if e.node.Dir? {
        assert path !in Below(files, path) && Below(files, path) <= Below(files, dir);
        var walked := Walk(files, path);
        if walked == None {
          ghost var p :| p in Below(files, path) && files[p].Socket?;
          assert p in Below(files, dir);
          return None;
        }
        sub := walked.value;
      } else {
        NothingBelow(files, path);
        assert Lists(files, {path}, {}, []);
      }
      AddChild(files, dir, names, k, list, e, sub);
      list := list + ([e] + sub);
    }
    AllNamed(files, dir, names);
    return Some(list);
  }

  lemma ChildPath(files: Files, dir: Path, name: string)
    ensures name in Children(files, dir) <==> dir + [name] in files
  {
    var path := dir + [name];
    assert dir < path && path[|dir|] == name;
    if name in Children(files, dir) {
      var p :| p in files && dir < p && |p| == |dir| + 1 && p[|dir|] == name;
      assert p == path;
    }
  }

  lemma {:induction false} AncestorIn(files: Files, p: Path, n: nat)
    requires Tree(files) && p in files && n < |p|
    ensures IsDir(files, p[..n])
    decreases |p| - n
  {
    if n + 1 < |p| {
      AncestorIn(files, p, n + 1);
      assert Parent(p[..n + 1]) == p[..n];
    } else {
      assert Parent(p) == p[..n];
    }
  }

  lemma NothingBelow(files: Files, path: Path)
    requires Tree(files) && path in files && !files[path].Dir?
    ensures Below(files, path) == {}
  {
    if p :| p in Below(files, path) {
      assert p[..|path|] == path;
      AncestorIn(files, p, |path|);
    }
  }

  lemma AllNamed(files: Files, dir: Path, names: seq<string>)
    requires Tree(files) && forall x :: x in names <==> x in Children(files, dir)
    ensures BelowNamed(files, dir, names) == Below(files, dir) && names[..|names|] == names
  {
    forall p | p in Below(files, dir) ensures p[|dir|] in names {
      var q := p[..|dir| + 1];
      if |dir| + 1 < |p| {
        AncestorIn(files, p, |dir| + 1);
      } else {
        assert q == p;
      }
      assert q == dir + [p[|dir|]];
      ChildPath(files, dir, p[|dir|]);
    }
  }

  /** A child and all that is below it join the list. */
  lemma AddChild(files: Files, dir: Path, names: seq<string>, k: nat, list: seq<Entry>, e: Entry, sub: seq<Entry>)
    requires k < |names| && Ascending(names) && e.path == dir + [names[k]] && e.path in files && e.node == files[e.path] && !e.node.Socket?
    requires Lists(files, {dir}, BelowNamed(files, dir, names[..k]), list)
    requires Lists(files, {e.path}, Below(files, e.path), sub)
    requires forall p :: p in BelowNamed(files, dir, names[..k]) ==> !files[p].Socket?
    ensures Lists(files, {dir}, BelowNamed(files, dir, names[..k + 1]), list + ([e] + sub))
    ensures forall p :: p in BelowNamed(files, dir, names[..k + 1]) ==> !files[p].Socket?
  {
    var before := BelowNamed(files, dir, names[..k]);
    var below := Below(files, e.path);
    NextName(files, dir, names, k);
    assert Parent(e.path) == dir;
    ListsOne(files, {dir}, e);
    ListsMoreBase(files, {e.path}, {dir} + {e.path}, below, sub);
    ListsConcat(files, {dir}, {e.path}, below, [e], sub);
    ListsMoreBase(files, {dir}, {dir} + before, {e.path} + below, [e] + sub);
    ListsConcat(files, {dir}, before, {e.path} + below, list, [e] + sub);
    NoSockets(files, {e.path}, below, sub);
  }

  /** One more name adds that child and everything below it. */
  lemma NextName(files: Files, dir: Path, names: seq<string>, k: nat)
    requires k < |names| && Ascending(names) && dir + [names[k]] in files
    ensures var path := dir + [names[k]];
            BelowNamed(files, dir, names[..k + 1]) == BelowNamed(files, dir, names[..k]) + ({path} + Below(files, path))
            && BelowNamed(files, dir, names[..k]) !! {path} + Below(files, path)
            && path !in Below(files, path)
  {
    var path := dir + [names[k]];
    assert names[..k + 1] == names[..k] + [names[k]];
    assert names[k] !in names[..k] by {
      LessIrreflexive(names[k]);
    }
    assert forall p: Path :: path <= p ==> dir < p && p[|dir|] == names[k];
    forall p: Path | dir < p && p[|dir|] == names[k] ensures p == path || path < p {
      assert p[..|dir| + 1] == path;
    }
    forall p ensures p in BelowNamed(files, dir, names[..k + 1]) <==> p in BelowNamed(files, dir, names[..k]) || p in {path} + Below(files, path) {
    }
  }

  lemma NoSockets(files: Files, base: set<Path>, scope: set<Path>, entries: seq<Entry>)
    requires Lists(files, base, scope, entries)
    ensures forall p :: p in scope ==> p in files && !files[p].Socket?
  {
    forall p | p in scope ensures p in files && !files[p].Socket? {
      var i :| 0 <= i < |entries| && entries[i].path == p;
      assert Listed(files, base + Paths(entries[..i]), entries[i]);
    }
  }

  // ----- creating and extracting ----------------------------------------------

  /** `createTarGz`: the root itself gets no entry. */
  method CreateTarGz(files: Files) returns (entries: Option<seq<Entry>>)
    requires Tree(files)
    ensures entries == None <==> exists p :: p in files && files[p].Socket?
    ensures entries.Some? ==> IsArchive(files, entries.value)
  {
    entries := Walk(files, []);
    assert forall p :: p in files && files[p].Socket? ==> p in Below(files, []);
    assert Below(files, []) == files.Keys - {[]};
  }

  ghost predicate IsArchive(files: Files, entries: seq<Entry>) {
    Lists(files, {[]}, files.Keys - {[]}, entries)
  }

  /** `os.MkdirAll`: what exists stays as it is; a file in the way is an error. */
  function MkdirAll(files: Files, p: Path): Option<Files>
    requires IsDir(files, [])
    decreases |p|
  {
    if p in files then (if files[p].Dir? then Some(files) else None)
    else
      var above := MkdirAll(files, Parent(p));
      if above == None then None else Some(above.value[p := Dir(DAEMON)])
  }

  lemma {:induction false} MkdirAllKeeps(files: Files, p: Path)
    requires IsDir(files, []) && MkdirAll(files, p).Some?
    ensures IsDir(MkdirAll(files, p).value, p) && IsDir(MkdirAll(files, p).value, [])
    decreases |p|
  {
    if p !in files {
      MkdirAllKeeps(files, Parent(p));
    }
  }

  /** One round of the extraction loop. */
  function ExtractEntry(files: Files, e: Entry): Option<Files>
    requires IsDir(files, [])
  {
    match e.node
    case Dir(owner) =>
      var made := MkdirAll(files, e.path);
      if made == None then None else Some(made.value[e.path := Dir(owner)])
    case File(owner, content) =>
      if e.path == [] then None
      else
        var made := MkdirAll(files, Parent(e.path));
        if made == None || (e.path in made.value && !made.value[e.path].File?) then None
        else Some(made.value[e.path := File(owner, content)])
    case Socket(_) => Some(files)
  }

  lemma ExtractEntryKeepsRoot(files: Files, e: Entry)
    requires IsDir(files, []) && ExtractEntry(files, e).Some?
    ensures IsDir(ExtractEntry(files, e).value, [])
  {
    if e.node.Dir? {
      MkdirAllKeeps(files, e.path);
    } else if e.node.File? {
      MkdirAllKeeps(files, Parent(e.path));
    }
  }

  function Extracted(entries: seq<Entry>): (r: Option<Files>)
    ensures r.Some? ==> IsDir(r.value, [])
  {
    if entries == [] then Some(EMPTY)
    else
      var before := Extracted(entries[..|entries| - 1]);
      if before == None then None
      else
        var e := entries[|entries| - 1];
        var after := ExtractEntry(before.value, e);
        if after == None then None else
        ExtractEntryKeepsRoot(before.value, e);
        after
  }

  lemma {:induction false} MkdirAllTree(files: Files, p: Path)
    requires Tree(files) && MkdirAll(files, p).Some?
    ensures Tree(MkdirAll(files, p).value)
    decreases |p|
  {
    if p !in files {
      MkdirAllTree(files, Parent(p));
      MkdirAllKeeps(files, Parent(p));
    }
  }

  lemma ExtractEntryTree(files: Files, e: Entry)
    requires Tree(files) && ExtractEntry(files, e).Some?
    ensures Tree(ExtractEntry(files, e).value)
  {
    if e.node.Dir? {
      MkdirAllTree(files, e.path);
      MkdirAllKeeps(files, e.path);
    } else if e.node.File? {
      MkdirAllTree(files, Parent(e.path));
      MkdirAllKeeps(files, Parent(e.path));
    }
  }

  /** Whatever is in an archive, what comes out is a tree. */
  lemma {:induction false} ExtractedTree(entries: seq<Entry>)
    requires Extracted(entries).Some?
    ensures Tree(Extracted(entries).value)
  {
    if entries != [] {
      ExtractedTree(entries[..|entries| - 1]);
      ExtractEntryTree(Extracted(entries[..|entries| - 1]).value, entries[|entries| - 1]);
    }
  }

  /** The root and the nodes at `paths`. */
  ghost function Part(files: Files, paths: set<Path>): Files {
    map p | p in files && (p == [] || p in paths) :: if p == [] then Dir(DAEMON) else files[p]
  }

  lemma ExtractListed(files: Files, seen: set<Path>, e: Entry)
    requires Tree(files) && Listed(files, {[]} + seen, e) && e.path !in seen
    ensures IsDir(Part(files, seen), []) && ExtractEntry(Part(files, seen), e) == Some(Part(files, seen + {e.path}))
  {
    var before := Part(files, seen);
    assert IsDir(files, Parent(e.path));
    assert IsDir(before, Parent(e.path));
    assert e.path !in before;
    assert before[e.path := e.node] == Part(files, seen + {e.path});
    assert MkdirAll(before, Parent(e.path)) == Some(before);
    assert MkdirAll(before, e.path) == Some(before[e.path := Dir(DAEMON)]);
    assert before[e.path := Dir(DAEMON)][e.path := e.node] == before[e.path := e.node];
  }

  lemma ExtractOneMore(files: Files, first: seq<Entry>, e: Entry)
    requires Tree(files) && Extracted(first) == Some(Part(files, Paths(first)))
    requires Listed(files, {[]} + Paths(first), e) && e.path !in Paths(first)
    ensures Extracted(first + [e]) == Some(Part(files, Paths(first + [e])))
  {
    ExtractListed(files, Paths(first), e);
    PathsConcat(first, [e]);
    assert Paths([e]) == {e.path};
    assert (first + [e])[..|first|] == first;
  }

  lemma NoPart(files: Files)
    requires Tree(files)
    ensures Part(files, Paths([])) == EMPTY
  {
  }

  /** Extraction gives exactly the part of the tree that was listed. */
  lemma {:induction false} ExtractedPart(files: Files, entries: seq<Entry>, k: nat)
    requires Tree(files) && Distinct(entries) && InOrder(files, {[]}, entries) && k <= |entries|
    ensures Extracted(entries[..k]) == Some(Part(files, Paths(entries[..k])))
    decreases k
  {
    if k == 0 {
      NoPart(files);
      assert entries[..0] == [];
    } else {
      ExtractedPart(files, entries, k - 1);
      ListedAt(files, {[]}, entries, k - 1);
      NewPath(entries, k - 1);
      ExtractedNext(files, entries, k - 1);
    }
  }

  lemma ListedAt(files: Files, base: set<Path>, entries: seq<Entry>, i: nat)
    requires InOrder(files, base, entries) && i < |entries|
    ensures Listed(files, base + Paths(entries[..i]), entries[i])
  {
  }

  lemma ExtractedNext(files: Files, entries: seq<Entry>, i: nat)
    requires Tree(files) && i < |entries| && Extracted(entries[..i]) == Some(Part(files, Paths(entries[..i])))
    requires Listed(files, {[]} + Paths(entries[..i]), entries[i]) && entries[i].path !in Paths(entries[..i])
    ensures Extracted(entries[..i + 1]) == Some(Part(files, Paths(entries[..i + 1])))
  {
    assert entries[..i + 1] == entries[..i] + [entries[i]];
    ExtractOneMore(files, entries[..i], entries[i]);
  }

  lemma NewPath(entries: seq<Entry>, n: nat)
    requires Distinct(entries) && n < |entries|
    ensures entries[n].path !in Paths(entries[..n])
  {
  }

  lemma WholePart(files: Files)
    requires Tree(files)
    ensures Part(files, files.Keys - {[]}) == files[[] := Dir(DAEMON)]
  {
  }

  /** Extraction undoes archiving: names, contents, kinds and owners of everything
      below the root come back. */
  lemma RoundTrip(files: Files, entries: seq<Entry>)
    requires Tree(files) && IsArchive(files, entries)
    ensures Extracted(entries) == Some(files[[] := Dir(DAEMON)])
  {
    ExtractedPart(files, entries, |entries|);
    assert entries[..|entries|] == entries;
    WholePart(files);
  }

  function WithoutSockets(entries: seq<Entry>): seq<Entry> {
    if entries == [] then []
    else
      var e := entries[|entries| - 1];
      WithoutSockets(entries[..|entries| - 1]) + if e.node.Socket? then [] else [e]
  }

  /** Entries that are neither directories nor files are skipped. */
  lemma {:induction false} SocketsAreSkipped(entries: seq<Entry>)
    ensures Extracted(entries) == Extracted(WithoutSockets(entries))
  {
    if entries == [] {
      assert WithoutSockets(entries) == entries;
    } else {
      var before, e := entries[..|entries| - 1], entries[|entries| - 1];
      SocketsAreSkipped(before);
      assert entries == before + [e];
      ExtractedMore(before, e);
      ExtractedMore(WithoutSockets(before), e);
      assert WithoutSockets(before) + [] == WithoutSockets(before);
    }
  }

  // ----- names in an archive --------------------------------------------------

  /** One component of a name, as `filepath.Join` cleans it. */
  function Walked(at: Path, c: string): Path {
    if c == "" || c == "." then at
    else if c == ".." then (if at == [] then [] else Parent(at))
    else at + [c]
  }

  /** `filepath.Join(dest, name)`, with the name split at the slashes. */
  function Join(dest: Path, name: Path): Path {
    if name == [] then dest else Walked(Join(dest, name[..|name| - 1]), name[|name| - 1])
  }

  /** How many levels a name climbs above where it starts, and what it then goes down. */
  function Climb(name: Path): (nat, Path) {
    if name == [] then (0, [])
    else
      var (ups, rest) := Climb(name[..|name| - 1]);
      var c := name[|name| - 1];
      if c == "" || c == "." then (ups, rest)
      else if c != ".." then (ups, rest + [c])
      else if rest != [] then (ups, Parent(rest))
      else (ups + 1, [])
  }

  function Above(dest: Path, ups: nat): Path {
    if ups <= |dest| then dest[..|dest| - ups] else []
  }

  lemma {:induction false} JoinClimbs(dest: Path, name: Path)
    ensures var (ups, rest) := Climb(name); Join(dest, name) == Above(dest, ups) + rest
  {
    if name != [] {
      var before := name[..|name| - 1];
      JoinClimbs(dest, before);
      var (ups, rest) := Climb(before);
      if rest != [] {
        assert Parent(Above(dest, ups) + rest) == Above(dest, ups) + Parent(rest);
      }
    }
  }

  /** Exactly which names stay below a destination: those that climb out of it only
      to come back down through the same directories. */
  lemma StaysBelow(dest: Path, name: Path)
    ensures var (ups, rest) := Climb(name);
            dest <= Join(dest, name) <==> dest[|Above(dest, ups)|..] <= rest
  {
    JoinClimbs(dest, name);
    var (ups, rest) := Climb(name);
    var above := Above(dest, ups);
    assert dest == above + dest[|above|..];
    if dest <= above + rest {
      assert rest == (above + rest)[|above|..];
      assert forall i :: 0 <= i < |dest| - |above| ==> rest[i] == (above + rest)[|above| + i] == dest[|above| + i];
    }
  }

  /** And below every destination: those that never climb above their start. */
  lemma StaysBelowAll(name: Path)
    ensures (forall dest: Path :: dest <= Join(dest, name)) <==> Climb(name).0 == 0
  {
    var (ups, rest) := Climb(name);
    if ups == 0 {
      forall dest: Path ensures dest <= Join(dest, name) {
        JoinClimbs(dest, name);
      }
    } else {
      var other := if rest == [] then "a" else rest[0] + "a";
      var dest := [other];
      StaysBelow(dest, name);
      assert Above(dest, ups) == [] && dest[0..] == dest;
      assert !(dest <= rest);
    }
  }

  predicate Contained(entries: seq<Entry>) {
    forall i :: 0 <= i < |entries| ==> Climb(entries[i].path).0 == 0
  }

  function Cleaned(entries: seq<Entry>): (r: seq<Entry>)
    ensures |r| == |entries| && forall i :: 0 <= i < |r| ==> r[i] == Entry(Climb(entries[i].path).1, entries[i].node)
  {
    seq(|entries|, i requires 0 <= i < |entries| => Entry(Climb(entries[i].path).1, entries[i].node))
  }

  // ----- extraction somewhere -------------------------------------------------

  function ExtractAt(host: Files, dest: Path, e: Entry): Option<Files>
    requires IsDir(host, [])
  {
    ExtractEntry(host, Entry(Join(dest, e.path), e.node))
  }

  function ExtractedIn(host: Files, dest: Path, entries: seq<Entry>): (r: Option<Files>)
    requires IsDir(host, [])
    ensures r.Some? ==> IsDir(r.value, [])
  {
    if entries == [] then Some(host)
    else
      var before := ExtractedIn(host, dest, entries[..|entries| - 1]);
      if before == None then None
      else
        var e := entries[|entries| - 1];
        var after := ExtractAt(before.value, dest, e);
        if after == None then None else
        ExtractEntryKeepsRoot(before.value, Entry(Join(dest, e.path), e.node));
        after
  }

  lemma {:induction false} ExtractedStuck(host: Files, dest: Path, entries: seq<Entry>, k: nat)
    requires IsDir(host, []) && k <= |entries| && ExtractedIn(host, dest, entries[..k]) == None
    ensures ExtractedIn(host, dest, entries) == None
    decreases |entries| - k
  {
    if k < |entries| {
      assert entries[..k + 1][..k] == entries[..k];
      ExtractedStuck(host, dest, entries, k + 1);
    } else {
      assert entries[..k] == entries;
    }
  }

  /** `extractTarGz`: `host` is the whole file system. */
  method ExtractTarGz(host: Files, dest: Path, entries: seq<Entry>) returns (files: Option<Files>)
    requires IsDir(host, [])
    ensures files == ExtractedIn(host, dest, entries)
  {
    var out := host;
    for i := 0 to |entries|
      invariant ExtractedIn(host, dest, entries[..i]) == Some(out)
    {
      assert entries[..i + 1][..i] == entries[..i];
      var next := ExtractAt(out, dest, entries[i]);
      if next == None {
        ExtractedStuck(host, dest, entries, i + 1);
        return None;
      }
      out := next.value;
    }
    assert entries[..|entries|] == entries;
    return Some(out);
  }

  /** `host` with `files` as its directory `dest`. */
  ghost function Graft(host: Files, dest: Path, files: Files): Files {
    map p | p in Elsewhere(host, dest) + Moved(dest, files) :: if dest <= p then files[p[|dest|..]] else host[p]
  }

  function Elsewhere(host: Files, dest: Path): set<Path> {
    set p | p in host && !(dest <= p)
  }

  ghost function Moved(dest: Path, files: Files): (r: set<Path>)
    ensures forall p :: p in r <==> dest <= p && p[|dest|..] in files
  {
    var r := set q | q in files :: dest + q;
    assert forall q: Path :: (dest + q)[|dest|..] == q;
    assert forall p: Path :: dest <= p ==> p == dest + p[|dest|..];
    r
  }

  lemma GraftAt(host: Files, dest: Path, files: Files, q: Path)
    ensures dest + q in Graft(host, dest, files) <==> q in files
    ensures q in files ==> Graft(host, dest, files)[dest + q] == files[q]
  {
    assert (dest + q)[|dest|..] == q;
  }

  lemma GraftPut(host: Files, dest: Path, files: Files, q: Path, n: Node)
    ensures Graft(host, dest, files)[dest + q := n] == Graft(host, dest, files[q := n])
  {
    var a, b := Graft(host, dest, files)[dest + q := n], Graft(host, dest, files[q := n]);
    assert (dest + q)[|dest|..] == q;
    forall p: Path ensures (p in a <==> p in b) && (p in a && p in b ==> a[p] == b[p]) {
      assert dest <= p ==> p == dest + p[|dest|..];
    }
  }

  ghost function GraftAll(host: Files, dest: Path, files: Option<Files>): Option<Files> {
    if files == None then None else Some(Graft(host, dest, files.value))
  }

  lemma ParentBelow(dest: Path, q: Path)
    requires q != []
    ensures Parent(dest + q) == dest + Parent(q) && |Parent(q)| == |q| - 1
  {
  }

  lemma {:induction false} GraftMkdir(host: Files, dest: Path, files: Files, q: Path)
    requires IsDir(files, []) && IsDir(Graft(host, dest, files), [])
    ensures MkdirAll(Graft(host, dest, files), dest + q) == GraftAll(host, dest, MkdirAll(files, q))
    decreases |q|
  {
    GraftAt(host, dest, files, q);
    if q !in files {
      ParentBelow(dest, q);
      GraftMkdir(host, dest, files, Parent(q));
      var above := MkdirAll(files, Parent(q));
      if above.Some? {
        GraftPut(host, dest, above.value, q, Dir(DAEMON));
      }
    }
  }

  /** Extracting a name below the destination is extracting it there alone. */
  lemma GraftEntry(host: Files, dest: Path, files: Files, q: Path, node: Node)
    requires IsDir(files, []) && IsDir(Graft(host, dest, files), []) && (dest != [] ==> IsDir(Graft(host, dest, files), Parent(dest)))
    ensures ExtractEntry(Graft(host, dest, files), Entry(dest + q, node)) == GraftAll(host, dest, ExtractEntry(files, Entry(q, node)))
  {
    var graft := Graft(host, dest, files);
    match node
    case Dir(owner) =>
      GraftMkdir(host, dest, files, q);
      if MkdirAll(files, q).Some? {
        GraftPut(host, dest, MkdirAll(files, q).value, q, Dir(owner));
      }
    case File(owner, content) =>
      if q == [] {
        assert dest + q == dest;
        GraftAt(host, dest, files, []);
      } else {
        ParentBelow(dest, q);
        GraftMkdir(host, dest, files, Parent(q));
        var made := MkdirAll(files, Parent(q));
        if made.Some? {
          GraftAt(host, dest, made.value, q);
          GraftPut(host, dest, made.value, q, File(owner, content));
        }
      }
    case Socket(_) =>
  }

  /** The entry leads below the destination, perhaps after climbing out of it. */
  predicate Stays(dest: Path, e: Entry) {
    dest <= Join(dest, e.path)
  }

  /** The entry with its name as seen from the destination. */
  function Seen(dest: Path, e: Entry): Entry {
    if Stays(dest, e) then Entry(Join(dest, e.path)[|dest|..], e.node) else e
  }

  function SeenFrom(dest: Path, entries: seq<Entry>): (r: seq<Entry>)
    ensures |r| == |entries| && forall i :: 0 <= i < |r| ==> r[i] == Seen(dest, entries[i])
  {
    seq(|entries|, i requires 0 <= i < |entries| => Seen(dest, entries[i]))
  }

  /** Extraction into a new directory, of an archive whose names all lead below it,
      changes nothing else and makes there what the names say. */
  lemma {:induction false} ExtractionStaysBelow(host: Files, dest: Path, entries: seq<Entry>)
    requires (forall e :: e in entries ==> Stays(dest, e)) && IsDir(host, []) && Graft(host, dest, EMPTY) == host
    requires dest != [] ==> IsDir(host, Parent(dest))
    ensures ExtractedIn(host, dest, entries) == GraftAll(host, dest, Extracted(SeenFrom(dest, entries)))
    ensures ExtractedIn(host, dest, entries).Some? ==> SameOutside(host, ExtractedIn(host, dest, entries).value, dest)
    decreases |entries|
  {
    if entries == [] {
      assert SeenFrom(dest, entries) == [];
    } else {
      var before, e := entries[..|entries| - 1], entries[|entries| - 1];
      assert entries == before + [e];
      ExtractionStaysBelow(host, dest, before);
      ExtractedInMore(host, dest, before, e);
      var seen := Seen(dest, e);
      ExtractedMore(SeenFrom(dest, before), seen);
      assert SeenFrom(dest, entries) == SeenFrom(dest, before) + [seen];
      var files := Extracted(SeenFrom(dest, before));
      if files.Some? {
        OneBelow(host, dest, files.value, e);
      }
    }
    if Extracted(SeenFrom(dest, entries)).Some? {
      GraftElsewhere(host, dest, Extracted(SeenFrom(dest, entries)).value);
    }
  }

  /** Names that never climb above their start are seen alike from everywhere. */
  lemma SeenFromAnywhere(dest: Path, entries: seq<Entry>)
    requires Contained(entries)
    ensures (forall e :: e in entries ==> Stays(dest, e)) && SeenFrom(dest, entries) == Cleaned(entries)
  {
    forall i | 0 <= i < |entries| ensures Join(dest, entries[i].path) == dest + Climb(entries[i].path).1 {
      JoinClimbs(dest, entries[i].path);
    }
    forall e | e in entries ensures Stays(dest, e) {
      var i :| 0 <= i < |entries| && entries[i] == e;
    }
  }

  lemma ExtractedMore(first: seq<Entry>, e: Entry)
    ensures Extracted(first + [e]) == if Extracted(first) == None then None else ExtractEntry(Extracted(first).value, e)
  {
    assert (first + [e])[..|first|] == first;
  }

  lemma ExtractedInMore(host: Files, dest: Path, first: seq<Entry>, e: Entry)
    requires IsDir(host, [])
    ensures ExtractedIn(host, dest, first + [e]) ==
            if ExtractedIn(host, dest, first) == None then None else ExtractAt(ExtractedIn(host, dest, first).value, dest, e)
  {
    assert (first + [e])[..|first|] == first;
  }

  lemma OneBelow(host: Files, dest: Path, files: Files, e: Entry)
    requires Stays(dest, e) && IsDir(files, []) && IsDir(host, []) && (dest != [] ==> IsDir(host, Parent(dest)))
    ensures IsDir(Graft(host, dest, files), [])
    ensures ExtractAt(Graft(host, dest, files), dest, e) == GraftAll(host, dest, ExtractEntry(files, Seen(dest, e)))
  {
    var q := Join(dest, e.path)[|dest|..];
    assert Join(dest, e.path) == dest + q;
    GraftRoot(host, dest, files);
    GraftEntry(host, dest, files, q, e.node);
  }

  /** The directories above the destination stay. */
  lemma GraftRoot(host: Files, dest: Path, files: Files)
    requires IsDir(files, []) && IsDir(host, []) && (dest != [] ==> IsDir(host, Parent(dest)))
    ensures IsDir(Graft(host, dest, files), []) && (dest != [] ==> IsDir(Graft(host, dest, files), Parent(dest)))
  {
    GraftAt(host, dest, files, []);
    assert dest + [] == dest;
    if dest != [] {
      assert !(dest <= Parent(dest));
    }
  }

  /** Outside the destination nothing changes. */
  lemma GraftElsewhere(host: Files, dest: Path, files: Files)
    ensures SameOutside(host, Graft(host, dest, files), dest)
  {
  }

  // ----- what extraction does elsewhere ---------------------------------------

  predicate SameAt(x: Files, y: Files, p: Path) {
    (p in x <==> p in y) && (p in x && p in y ==> x[p] == y[p])
  }

  ghost predicate SameOutside(x: Files, y: Files, dest: Path) {
    forall p: Path :: !(dest <= p) ==> SameAt(x, y, p)
  }

  /** The entry leads below the destination, makes nothing, or makes what is there. */
  predicate Harmless(host: Files, dest: Path, e: Entry) {
    var target := Join(dest, e.path);
    dest <= target || e.node.Socket? || (target in host && host[target] == e.node)
  }

  lemma ParentStaysBelow(dest: Path, q: Path)
    requires dest <= q && q != dest
    ensures q != [] && dest <= Parent(q)
  {
    assert q[..|q|] == q;
    assert Parent(q)[..|dest|] == q[..|dest|];
  }

  lemma {:induction false} MkdirBelow(host: Files, dest: Path, q: Path)
    requires IsDir(host, []) && IsDir(host, dest) && dest <= q && MkdirAll(host, q).Some?
    ensures SameOutside(host, MkdirAll(host, q).value, dest)
    decreases |q|
  {
    if q !in host {
      ParentStaysBelow(dest, q);
      MkdirBelow(host, dest, Parent(q));
      PutBelow(host, MkdirAll(host, Parent(q)).value, dest, q, Dir(DAEMON));
    }
  }

  lemma PutBelow(host: Files, files: Files, dest: Path, q: Path, n: Node)
    requires SameOutside(host, files, dest) && dest <= q
    ensures SameOutside(host, files[q := n], dest)
  {
    var put := files[q := n];
    forall p: Path | !(dest <= p) ensures SameAt(host, put, p) {
      assert SameAt(host, files, p);
    }
  }

  /** Exactly when extracting an entry leaves everything outside the destination as
      it is, in content, kind and owner. */
  lemma ExtractElsewhere(host: Files, dest: Path, e: Entry)
    requires Tree(host) && IsDir(host, dest) && ExtractAt(host, dest, e).Some?
    ensures SameOutside(host, ExtractAt(host, dest, e).value, dest) <==> Harmless(host, dest, e)
  {
    var target, after := Join(dest, e.path), ExtractAt(host, dest, e).value;
    if !e.node.Socket? {
      if dest <= target {
        if e.node.Dir? {
          MkdirBelow(host, dest, target);
          PutBelow(host, MkdirAll(host, target).value, dest, target, e.node);
        } else {
          FileIsBelow(host, dest, target, e.node);
          MkdirBelow(host, dest, Parent(target));
          PutBelow(host, MkdirAll(host, Parent(target)).value, dest, target, e.node);
        }
      } else {
        WrittenWhereItLeads(host, target, e.node);
        assert SameAt(host, after, target) <==> target in host && host[target] == e.node;
      }
    }
  }

  /** A file cannot take the place of a directory. */
  lemma NoFileOverDir(host: Files, dir: Path, node: Node)
    requires Tree(host) && IsDir(host, dir) && node.File?
    ensures ExtractEntry(host, Entry(dir, node)) == None
  {
    if dir != [] {
      assert IsDir(host, Parent(dir));
      assert MkdirAll(host, Parent(dir)) == Some(host);
    }
  }

  lemma FileIsBelow(host: Files, dest: Path, target: Path, node: Node)
    requires Tree(host) && IsDir(host, dest) && dest <= target && node.File? && ExtractEntry(host, Entry(target, node)).Some?
    ensures target != [] && dest <= Parent(target)
  {
    NoFileOverDir(host, dest, node);
    ParentStaysBelow(dest, target);
  }

  /** A file or directory is written where its name leads, and nothing else changes
      if it is there already. */
  lemma WrittenWhereItLeads(host: Files, target: Path, node: Node)
    requires Tree(host) && !node.Socket? && ExtractEntry(host, Entry(target, node)).Some?
    ensures var after := ExtractEntry(host, Entry(target, node)).value;
            && target in after && after[target] == node
            && (target in host && host[target] == node ==> after == host)
  {
    if target in host && target != [] {
      assert IsDir(host, Parent(target));
      assert MkdirAll(host, Parent(target)) == Some(host);
    }
  }

  lemma {:induction false} MkdirAllStays(files: Files, p: Path, q: Path)
    requires IsDir(files, []) && MkdirAll(files, p).Some? && IsDir(files, q)
    ensures IsDir(MkdirAll(files, p).value, q)
    decreases |p|
  {
    if p !in files {
      MkdirAllStays(files, Parent(p), q);
    }
  }

  /** No directory goes away. */
  lemma ExtractEntryStays(files: Files, e: Entry, q: Path)
    requires IsDir(files, []) && ExtractEntry(files, e).Some? && IsDir(files, q)
    ensures IsDir(ExtractEntry(files, e).value, q)
  {
    if e.node.Dir? {
      MkdirAllStays(files, e.path, q);
    } else if e.node.File? {
      MkdirAllStays(files, Parent(e.path), q);
    }
  }

  /** Extraction is under way to its end with nothing outside changed at any entry. */
  ghost predicate Quiet(host: Files, dest: Path, entries: seq<Entry>)
    requires IsDir(host, [])
    decreases |entries|
  {
    ExtractedIn(host, dest, entries).Some? && SameOutside(host, ExtractedIn(host, dest, entries).value, dest)
    && (entries != [] ==> Quiet(host, dest, entries[..|entries| - 1]))
  }

  /** Exactly when extracting an archive leaves everything outside the destination as
      it is from beginning to end. */
  lemma {:induction false} ExtractionElsewhere(host: Files, dest: Path, entries: seq<Entry>)
    requires Tree(host) && IsDir(host, dest) && ExtractedIn(host, dest, entries).Some?
    ensures Tree(ExtractedIn(host, dest, entries).value) && IsDir(ExtractedIn(host, dest, entries).value, dest)
    ensures Quiet(host, dest, entries) <==> forall e :: e in entries ==> Harmless(host, dest, e)
    decreases |entries|
  {
    if entries != [] {
      var before, e := entries[..|entries| - 1], entries[|entries| - 1];
      assert entries == before + [e];
      ExtractionElsewhere(host, dest, before);
      var files := ExtractedIn(host, dest, before).value;
      ExtractEntryTree(files, Entry(Join(dest, e.path), e.node));
      ExtractEntryStays(files, Entry(Join(dest, e.path), e.node), dest);
      ExtractElsewhere(files, dest, e);
      if Quiet(host, dest, before) {
        SameTwice(host, files, ExtractedIn(host, dest, entries).value, dest, e);
      }
    }
  }

  lemma SameTwice(host: Files, files: Files, after: Files, dest: Path, e: Entry)
    requires SameOutside(host, files, dest)
    ensures SameOutside(host, after, dest) <==> SameOutside(files, after, dest)
    ensures Harmless(host, dest, e) <==> Harmless(files, dest, e)
  {
    assert forall p: Path :: !(dest <= p) ==> (SameAt(host, after, p) <==> SameAt(files, after, p)) by {
      forall p: Path | !(dest <= p) ensures SameAt(host, after, p) <==> SameAt(files, after, p) {
        assert SameAt(host, files, p);
      }
    }
    var target := Join(dest, e.path);
    assert !(dest <= target) ==> SameAt(host, files, target);
  }

  /** It can happen. */
  lemma EscapeIsPossible()
    ensures ExtractedIn(map[[] := Dir(DAEMON), ["t"] := Dir(DAEMON)], ["t"], [Entry(["..", "e"], File(DAEMON, ""))])
            == Some(map[[] := Dir(DAEMON), ["t"] := Dir(DAEMON), ["e"] := File(DAEMON, "")])
  {
    var host: Files, e := map[[] := Dir(DAEMON), ["t"] := Dir(DAEMON)], Entry(["..", "e"], File(DAEMON, ""));
    assert ["..", "e"][..1] == [".."] && [".."][..0] == [];
    assert Join(["t"], [".."]) == Walked(Join(["t"], []), "..") == [];
    assert Join(["t"], e.path) == ["e"] && Parent(["e"]) == [];
    assert [e][..0] == [];
    assert ExtractedIn(host, ["t"], []) == Some(host);
  }

  // ----- the round trip somewhere ---------------------------------------------

  predicate CleanName(c: string) {
    c != "" && c != "." && c != ".."
  }

  /** Names that a directory can have. */
  ghost predicate Named(files: Files) {
    forall p :: p in files ==> Clean(p)
  }

  predicate Clean(p: Path) {
    forall i :: 0 <= i < |p| ==> CleanName(p[i])
  }

  /** Joining is walking on from where one is: down into what a plain name says, up
      again by "..", nowhere by "." or nothing, and never above the root. */
  lemma {:induction false} JoinConcat(dest: Path, a: Path, b: Path)
    ensures Join(dest, a + b) == Join(Join(dest, a), b)
    decreases |b|
  {
    if b == [] {
      assert a + b == a;
    } else {
      var before, c := b[..|b| - 1], b[|b| - 1];
      JoinConcat(dest, a, before);
      JoinMore(dest, a + before, c);
      JoinMore(Join(dest, a), before, c);
      assert b == before + [c];
      assert a + (before + [c]) == (a + before) + [c];
    }
  }

  lemma JoinMore(dest: Path, name: Path, c: string)
    ensures Join(dest, name + [c]) == Walked(Join(dest, name), c)
  {
    assert (name + [c])[..|name|] == name;
  }

  lemma JoinOne(dest: Path, c: string)
    ensures c in {"", "."} ==> Join(dest, [c]) == dest
    ensures c == ".." ==> Join(dest, [c]) == if dest == [] then [] else dest[..|dest| - 1]
    ensures CleanName(c) ==> Join(dest, [c]) == dest + [c] && Join(dest, [c, ".."]) == dest
  {
    var one := [c];
    assert one[..0] == [];
    assert Join(dest, one) == Walked(Join(dest, []), c);
    JoinConcat(dest, one, [".."]);
    assert one + [".."] == [c, ".."];
    var up := [".."];
    assert up[..0] == [];
    assert Join(dest + [c], up) == Walked(Join(dest + [c], []), "..");
  }

  lemma {:induction false} JoinIsClean(dest: Path, name: Path)
    requires Clean(dest)
    ensures Clean(Join(dest, name))
  {
    if name != [] {
      JoinIsClean(dest, name[..|name| - 1]);
    }
  }

  lemma {:induction false} CleanClimb(p: Path)
    requires Clean(p)
    ensures Climb(p) == (0, p)
  {
    if p != [] {
      CleanClimb(p[..|p| - 1]);
      assert p == p[..|p| - 1] + [p[|p| - 1]];
    }
  }

  lemma {:induction false} ClimbIsClean(name: Path)
    ensures Clean(Climb(name).1)
  {
    if name != [] {
      ClimbIsClean(name[..|name| - 1]);
    }
  }

  lemma {:induction false} MkdirAllNamed(files: Files, p: Path)
    requires IsDir(files, []) && Named(files) && Clean(p) && MkdirAll(files, p).Some?
    ensures Named(MkdirAll(files, p).value)
    decreases |p|
  {
    if p !in files {
      MkdirAllNamed(files, Parent(p));
    }
  }

  lemma ExtractEntryNamed(files: Files, e: Entry)
    requires IsDir(files, []) && Named(files) && Clean(e.path) && ExtractEntry(files, e).Some?
    ensures Named(ExtractEntry(files, e).value)
  {
    if e.node.Dir? {
      MkdirAllNamed(files, e.path);
    } else if e.node.File? {
      MkdirAllNamed(files, Parent(e.path));
    }
  }

  lemma {:induction false} ExtractedNamed(entries: seq<Entry>)
    requires Extracted(entries).Some? && forall i :: 0 <= i < |entries| ==> Clean(entries[i].path)
    ensures Named(Extracted(entries).value)
  {
    if entries != [] {
      ExtractedNamed(entries[..|entries| - 1]);
      ExtractEntryNamed(Extracted(entries[..|entries| - 1]).value, entries[|entries| - 1]);
    }
  }

  lemma CleanedNamed(entries: seq<Entry>)
    requires Extracted(Cleaned(entries)).Some?
    ensures Named(Extracted(Cleaned(entries)).value)
  {
    forall i | 0 <= i < |entries| ensures Clean(Cleaned(entries)[i].path) {
      ClimbIsClean(entries[i].path);
    }
    ExtractedNamed(Cleaned(entries));
  }

  lemma ArchiveIsContained(files: Files, entries: seq<Entry>)
    requires Named(files) && IsArchive(files, entries)
    ensures Contained(entries) && Cleaned(entries) == entries
  {
    forall i | 0 <= i < |entries| ensures Climb(entries[i].path) == (0, entries[i].path) {
      assert Listed(files, {[]} + Paths(entries[..i]), entries[i]);
      CleanClimb(entries[i].path);
    }
  }

  /** Wherever an archive of a tree is extracted, the tree comes back there and the
      rest of the file system is as it was. */
  lemma RoundTripIn(host: Files, dest: Path, files: Files, entries: seq<Entry>)
    requires Tree(files) && Named(files) && IsArchive(files, entries)
    requires IsDir(host, []) && Graft(host, dest, EMPTY) == host && (dest != [] ==> IsDir(host, Parent(dest)))
    ensures ExtractedIn(host, dest, entries) == Some(Graft(host, dest, files[[] := Dir(DAEMON)]))
  {
    ArchiveIsContained(files, entries);
    SeenFromAnywhere(dest, entries);
    ExtractionStaysBelow(host, dest, entries);
    RoundTrip(files, entries);
  }
}
