/** The two directories of an application, how they are packed for an archive, and
    how they come out of it. */
module Directories {
  import opened Archive
  import opened Helpers

  /** `None` is a directory that is missing. */
  datatype Dirs = Dirs(current: Option<Files>, common: Option<Files>) {
    predicate Both() {
      current.Some? && common.Some?
    }
  }

  /** A directory as a file system can have it. */
  ghost predicate SoundFiles(files: Files) {
    Tree(files) && Named(files)
  }

  ghost predicate SoundPart(part: Option<Files>) {
    part.Some? ==> SoundFiles(part.value)
  }

  ghost predicate SoundDirs(d: Dirs) {
    SoundPart(d.current) && SoundPart(d.common)
  }

  // ----- packing --------------------------------------------------------------

  /** What copying with the socket filter transfers. */
  function Copied(files: Files): Files {
    map p | p in files && !files[p].Socket? :: files[p]
  }

  function Prefixed(name: string, files: Files): (r: set<Path>)
    ensures forall p :: p in r <==> p != [] && p[0] == name && p[1..] in files
  {
    var r := set q | q in files :: [name] + q;
    assert forall p: Path :: p != [] && p[0] == name ==> p == [name] + p[1..];
    assert forall q: Path :: ([name] + q)[1..] == q;
    r
  }

  function Suffixes(name: string, files: Files): (r: set<Path>)
    ensures forall q :: q in r <==> [name] + q in files
  {
    var r := set p | p in files && p != [] && p[0] == name :: p[1..];
    assert forall p: Path :: p != [] && p[0] == name ==> p == [name] + p[1..];
    assert forall q: Path :: ([name] + q)[1..] == q;
    r
  }

  /** A directory with two directories in it. */
  function Pair(a: string, x: Files, b: string, y: Files): Files {
    map p | p in {[]} + Prefixed(a, x) + Prefixed(b, y) ::
      if p == [] then Dir(DAEMON) else if p[0] == a && p[1..] in x then x[p[1..]] else y[p[1..]]
  }

  /** The temporary directory that is archived. */
  function Pack(current: Files, common: Files): Files {
    Pair("current", current, "common", common)
  }

  /** What is in the directory `name`. */
  function Sub(files: Files, name: string): Files {
    map q | q in Suffixes(name, files) :: files[[name] + q]
  }

  /** The directory after `chown`, which is not recursive. */
  function OwnedBy(files: Files, owner: Owner): Files {
    files[[] := Dir(owner)]
  }

  lemma CopiedTree(files: Files)
    requires Tree(files)
    ensures Tree(Copied(files))
  {
  }

  lemma PairTree(a: string, x: Files, b: string, y: Files)
    requires Tree(x) && Tree(y) && a != b
    ensures Tree(Pair(a, x, b, y))
  {
    var pair := Pair(a, x, b, y);
    forall p | p in pair && p != [] ensures IsDir(pair, Parent(p)) {
      if |p| > 1 {
        assert Parent(p)[1..] == Parent(p[1..]);
      }
    }
  }

  lemma PairSockets(a: string, x: Files, b: string, y: Files)
    ensures forall p :: p in Pair(a, Copied(x), b, Copied(y)) ==> !Pair(a, Copied(x), b, Copied(y))[p].Socket?
  {
  }

  lemma PairAt(a: string, x: Files, b: string, y: Files, q: Path)
    requires a != b
    ensures [a] + q in Pair(a, x, b, y) <==> q in x
    ensures q in x ==> Pair(a, x, b, y)[[a] + q] == x[q]
    ensures [b] + q in Pair(a, x, b, y) <==> q in y
    ensures q in y ==> Pair(a, x, b, y)[[b] + q] == y[q]
  {
    assert ([a] + q)[1..] == q && ([b] + q)[1..] == q;
  }

  /** The parts come apart as they were put together. */
  lemma SubOfPair(a: string, x: Files, b: string, y: Files)
    requires a != b
    ensures Sub(Pair(a, x, b, y), a) == x
    ensures Sub(Pair(a, x, b, y), b) == y
  {
    var pair := Pair(a, x, b, y);
    forall q: Path ensures SameAt(Sub(pair, a), x, q) {
      PairAt(a, x, b, y, q);
    }
    forall q: Path ensures SameAt(Sub(pair, b), y, q) {
      PairAt(a, x, b, y, q);
    }
    SameEverywhere(Sub(pair, a), x);
    SameEverywhere(Sub(pair, b), y);
  }

  lemma SameEverywhere(x: Files, y: Files)
    requires forall q: Path :: SameAt(x, y, q)
    ensures x == y
  {
    assert forall q: Path :: q in x ==> SameAt(x, y, q);
    assert forall q: Path :: q in y ==> SameAt(x, y, q);
  }

  // ----- into an archive and out of it ----------------------------------------

  /** `q` in `to` is `p` in `from`, unless that is a socket. */
  predicate Transferred(from: Files, p: Path, to: Files, q: Path) {
    && (q in to <==> p in from && !from[p].Socket?)
    && (q in to && p in from ==> to[q] == from[p])
  }

  predicate PackedAt(temp: Files, current: Files, common: Files, p: Path) {
    if p == [] then p in temp && temp[p] == Dir(DAEMON)
    else if p[0] == "current" then Transferred(current, p[1..], temp, p)
    else if p[0] == "common" then Transferred(common, p[1..], temp, p)
    else p !in temp
  }

  /** `temp` holds the two directories without their sockets, and nothing else. */
  ghost predicate Packed(temp: Files, d: Dirs) {
    d.Both() && forall p: Path :: PackedAt(temp, d.current.value, d.common.value, p)
  }

  /** An archive of these two directories. */
  ghost predicate ArchiveOf(entries: seq<Entry>, d: Dirs) {
    d.Both() && SoundDirs(d) && exists temp :: Packed(temp, d) && IsArchive(temp, entries)
  }

  lemma PackIsPacked(d: Dirs)
    requires d.Both()
    ensures Packed(Pack(Copied(d.current.value), Copied(d.common.value)), d)
  {
    var x, y := Copied(d.current.value), Copied(d.common.value);
    forall p: Path ensures PackedAt(Pack(x, y), d.current.value, d.common.value, p) {
      if p != [] && p[0] == "current" {
        assert ["current"] + p[1..] == p;
        PairAt("current", x, "common", y, p[1..]);
      } else if p != [] && p[0] == "common" {
        assert ["common"] + p[1..] == p;
        PairAt("current", x, "common", y, p[1..]);
      }
    }
  }

  lemma PackedOnce(temp: Files, other: Files, d: Dirs)
    requires Packed(temp, d) && Packed(other, d)
    ensures temp == other
  {
    forall p: Path ensures SameAt(temp, other, p) {
      assert PackedAt(temp, d.current.value, d.common.value, p) && PackedAt(other, d.current.value, d.common.value, p);
    }
    SameEverywhere(temp, other);
  }

  method Archived(temp: Files, ghost d: Dirs) returns (entries: seq<Entry>)
    requires SoundDirs(d) && Packed(temp, d)
    ensures ArchiveOf(entries, d)
  {
    PackIsPacked(d);
    PackedOnce(temp, Pack(Copied(d.current.value), Copied(d.common.value)), d);
    ghost var current, common := d.current.value, d.common.value;
    CopiedTree(current);
    CopiedTree(common);
    PairTree("current", Copied(current), "common", Copied(common));
    PairSockets("current", Copied(current), "common", Copied(common));
    CopiedTwice(current);
    CopiedTwice(common);
    var written := CreateTarGz(temp);
    entries := written.value;
  }

  /** What an archive holds, whatever way its names take. */
  function Unpacked(entries: seq<Entry>): (r: Option<Files>)
    ensures r.Some? ==> IsDir(r.value, [])
  {
    Extracted(Cleaned(entries))
  }

  const TEMP := "t"
  const TEMP_HOST: Files := map[[] := Dir(DAEMON), [TEMP] := Dir(DAEMON)]

  /** Extraction into a new temporary directory. */
  method Unpack(entries: seq<Entry>) returns (temp: Option<Files>)
    requires Contained(entries)
    ensures temp == Unpacked(entries)
    ensures temp.Some? ==> SoundFiles(temp.value)
  {
    FreshTemp();
    SeenFromAnywhere([TEMP], entries);
    ExtractionStaysBelow(TEMP_HOST, [TEMP], entries);
    var host := ExtractTarGz(TEMP_HOST, [TEMP], entries);
    if host == None {
      return None;
    }
    SubOfGraft(TEMP_HOST, TEMP, Unpacked(entries).value);
    ExtractedTree(Cleaned(entries));
    CleanedNamed(entries);
    return Some(Sub(host.value, TEMP));
  }

  lemma FreshTemp()
    ensures IsDir(TEMP_HOST, []) && IsDir(TEMP_HOST, Parent([TEMP])) && Graft(TEMP_HOST, [TEMP], EMPTY) == TEMP_HOST
  {
    var graft := Graft(TEMP_HOST, [TEMP], EMPTY);
    assert Parent([TEMP]) == [];
    assert [TEMP][|[TEMP]|..] == [];
    forall p: Path ensures SameAt(graft, TEMP_HOST, p) {
      if p in graft && [TEMP] <= p {
        assert p == [TEMP] + p[1..];
      }
    }
    SameEverywhere(graft, TEMP_HOST);
  }

  lemma SubOfGraft(host: Files, name: string, files: Files)
    ensures Sub(Graft(host, [name], files), name) == files
  {
    forall q: Path ensures SameAt(Sub(Graft(host, [name], files), name), files, q) {
      GraftAt(host, [name], files, q);
    }
    SameEverywhere(Sub(Graft(host, [name], files), name), files);
  }

  /** The directory that a restore makes of the part `name`. */
  ghost predicate Refilled(temp: Files, name: string, owner: Owner, files: Files) {
    && [] in files && files[[]] == Dir(owner)
    && forall q: Path :: q != [] ==> Transferred(temp, [name] + q, files, q)
  }

  lemma RefilledBy(temp: Files, name: string, owner: Owner)
    ensures Refilled(temp, name, owner, OwnedBy(Copied(Sub(temp, name)), owner))
  {
  }

  /** `placed` is the directory `found` without its sockets; its top directory
      belongs to `owner`, and everything in it is as it was. */
  ghost predicate ComesBack(found: Files, owner: Owner, placed: Files) {
    && [] in placed && placed[[]] == Dir(owner)
    && (forall p: Path :: p != [] ==> (p in placed <==> p in found && (found[p].Dir? || found[p].File?)))
    && (forall p: Path :: p != [] && p in placed ==> placed[p] == found[p])
  }

  /** Packed and unpacked again. */
  lemma PackedComesBack(temp: Files, d: Dirs, owner: Owner, current: Files, common: Files)
    requires Packed(temp, d) && Refilled(temp, "current", owner, current) && Refilled(temp, "common", owner, common)
    ensures ComesBack(d.current.value, owner, current) && ComesBack(d.common.value, owner, common)
  {
    forall q: Path ensures Transferred(d.current.value, q, temp, ["current"] + q) {
      PackedPart(temp, d, "current", q);
    }
    forall q: Path ensures Transferred(d.common.value, q, temp, ["common"] + q) {
      PackedPart(temp, d, "common", q);
    }
    PartComesBack(d.current.value, temp, "current", owner, current);
    PartComesBack(d.common.value, temp, "common", owner, common);
  }

  lemma PackedPart(temp: Files, d: Dirs, name: string, q: Path)
    requires Packed(temp, d) && (name == "current" || name == "common")
    ensures Transferred(if name == "current" then d.current.value else d.common.value, q, temp, [name] + q)
  {
    var p := [name] + q;
    assert p[0] == name && p[1..] == q;
    assert PackedAt(temp, d.current.value, d.common.value, p);
  }

  lemma PartComesBack(found: Files, temp: Files, name: string, owner: Owner, placed: Files)
    requires Refilled(temp, name, owner, placed)
    requires forall q: Path :: Transferred(found, q, temp, [name] + q)
    ensures ComesBack(found, owner, placed)
  {
    forall q: Path | q != []
      ensures q in placed <==> q in found && (found[q].Dir? || found[q].File?)
      ensures q in placed ==> placed[q] == found[q]
    {
      assert Transferred(found, q, temp, [name] + q);
      assert Transferred(temp, [name] + q, placed, q);
    }
  }

  lemma OwnedIsSound(files: Files, owner: Owner)
    requires SoundFiles(files)
    ensures SoundFiles(OwnedBy(files, owner))
  {
    var owned := OwnedBy(files, owner);
    forall p | p in owned && p != [] ensures IsDir(owned, Parent(p)) {
      assert IsDir(files, Parent(p));
    }
  }

  lemma SubIsSound(files: Files, name: string)
    requires SoundFiles(files) && IsDir(files, [name])
    ensures SoundFiles(Copied(Sub(files, name)))
  {
    var sub := Sub(files, name);
    assert [name] + [] == [name];
    forall q | q in sub && q != [] ensures IsDir(sub, Parent(q)) {
      assert Parent([name] + q) == [name] + Parent(q);
      assert IsDir(files, Parent([name] + q));
    }
    forall q | q in sub ensures Clean(q) {
      assert Clean([name] + q);
      assert forall i :: 0 <= i < |q| ==> q[i] == ([name] + q)[i + 1];
    }
    CopiedTree(sub);
  }

  lemma PairGivesBack(a: string, x: Files, b: string, y: Files, entries: seq<Entry>)
    requires a != b && Tree(x) && Tree(y) && Copied(x) == x && Copied(y) == y
    requires IsArchive(Pair(a, x, b, y), entries)
    ensures Extracted(entries) == Some(Pair(a, x, b, y))
    ensures IsDir(Pair(a, x, b, y), [a]) && IsDir(Pair(a, x, b, y), [b])
    ensures Sub(Pair(a, x, b, y), a) == x && Sub(Pair(a, x, b, y), b) == y
  {
    PairTree(a, x, b, y);
    PairSockets(a, x, b, y);
    RoundTrip(Pair(a, x, b, y), entries);
    PairRoot(a, x, b, y);
    SubOfPair(a, x, b, y);
  }

  /** An archive of two directories is unpacked to what was packed. */
  lemma ArchiveGivesBack(d: Dirs, entries: seq<Entry>)
    requires ArchiveOf(entries, d)
    ensures Contained(entries) && Unpacked(entries).Some?
    ensures var out := Unpacked(entries).value; Packed(out, d) && IsDir(out, ["current"]) && IsDir(out, ["common"])
  {
    var current, common := d.current.value, d.common.value;
    PackIsPacked(d);
    var temp :| Packed(temp, d) && IsArchive(temp, entries);
    PackedOnce(temp, Pack(Copied(current), Copied(common)), d);
    CopiedTree(current);
    CopiedTree(common);
    CopiedTwice(current);
    CopiedTwice(common);
    NamedPack("current", Copied(current), "common", Copied(common));
    ArchiveIsContained(temp, entries);
    PairGivesBack("current", Copied(current), "common", Copied(common), entries);
  }

  lemma PairRoot(a: string, x: Files, b: string, y: Files)
    requires Tree(x) && Tree(y) && a != b
    ensures Pair(a, x, b, y)[[] := Dir(DAEMON)] == Pair(a, x, b, y)
    ensures IsDir(Pair(a, x, b, y), [a]) && IsDir(Pair(a, x, b, y), [b])
  {
    PairAt(a, x, b, y, []);
    assert [a] + [] == [a] && [b] + [] == [b];
  }

  lemma CopiedTwice(files: Files)
    ensures Copied(Copied(files)) == Copied(files)
  {
  }

  lemma NamedPack(a: string, x: Files, b: string, y: Files)
    requires Named(x) && Named(y) && CleanName(a) && CleanName(b)
    ensures Named(Pair(a, x, b, y))
  {
    forall p | p in Pair(a, x, b, y) ensures Clean(p) {
      if p != [] {
        assert p == [p[0]] + p[1..];
      }
    }
  }
}
