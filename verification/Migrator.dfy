/** The schema migrations of the configuration database. */
module Migrator {
  import opened Database
  import opened Helpers

  const LATEST: nat := 6

  // ----- the migrations -------------------------------------------------------

  function CreateConfigTable(db: Db): Db {
    if db.config.Some? then db else db.(config := Some(map[]))
  }

  function CreateOidcClientTable(db: Db): Db {
    if db.clients.Some? then db else db.(clients := Some(ClientTable(true, [])))
  }

  function CreateCustomProxyTable(db: Db): Db {
    if db.proxies.Some? then db else db.(proxies := Some(ProxyTable(false, false, map[])))
  }

  /** `None`: altering a table that is not there is an error. */
  function AddCustomProxyHttps(db: Db): Option<Db> {
    if db.proxies == None then None
    else if db.proxies.value.hasHttps then Some(db)
    else
      var rows := db.proxies.value.rows;
      Some(db.(proxies := Some(ProxyTable(true, db.proxies.value.hasAuthelia, map n | n in rows :: rows[n].(https := Some(0))))))
  }

  function AddCustomProxyAuthelia(db: Db): Option<Db> {
    if db.proxies == None then None
    else if db.proxies.value.hasAuthelia then Some(db)
    else
      var rows := db.proxies.value.rows;
      Some(db.(proxies := Some(ProxyTable(db.proxies.value.hasHttps, true, map n | n in rows :: rows[n].(authelia := Some(0))))))
  }

  /** Whether the `insert .. select` of the last migration picks this row. */
  predicate Picked(r: ClientRow, uris: map<nat, UriRow>) {
    r.redirectUri.Text? && r.redirectUri.text != "" && r.id !in ClientIds(uris)
  }

  function ClientIds(uris: map<nat, UriRow>): set<string> {
    set k | k in uris :: uris[k].clientId
  }

  /** One row for every picked client; `uris` is the table before the statement. */
  function InsertPicked(rows: seq<ClientRow>, uris: map<nat, UriRow>): map<nat, UriRow> {
    if rows == [] then uris else
    var r := rows[|rows| - 1];
    var before := InsertPicked(rows[..|rows| - 1], uris);
    if Picked(r, uris) then InsertUri(before, r.id, r.redirectUri.text) else before
  }

  function DropRedirectUri(rows: seq<ClientRow>): (r: seq<ClientRow>)
    ensures |r| == |rows| && forall i :: 0 <= i < |rows| ==> r[i] == rows[i].(redirectUri := Absent)
  {
    seq(|rows|, i requires 0 <= i < |rows| => rows[i].(redirectUri := Absent))
  }

  function NormalizeOidcRedirectUris(db: Db): Db {
    var uris := if db.uris == None then map[] else db.uris.value;
    if db.clients == None || !db.clients.value.legacy then db.(uris := Some(uris))
    else
      var rows := db.clients.value.rows;
      db.(uris := Some(InsertPicked(rows, uris)), clients := Some(ClientTable(false, DropRedirectUri(rows))))
  }

  function Migration(k: nat, db: Db): Option<Db>
    requires 1 <= k <= LATEST
  {
    match k
    case 1 => Some(CreateConfigTable(db))
    case 2 => Some(CreateOidcClientTable(db))
    case 3 => Some(CreateCustomProxyTable(db))
    case 4 => AddCustomProxyHttps(db)
    case 5 => AddCustomProxyAuthelia(db)
    case _ => Some(NormalizeOidcRedirectUris(db))
  }

  /** Migrations up to `target`, stopping at the first that fails. */
  function UpTo(db: Db, target: nat): (Db, bool)
    requires target <= LATEST
  {
    if target <= db.version then (db, true) else
    var (before, ok) := UpTo(db, target - 1);
    if !ok then (before, false)
    else
      var after := Migration(target, before);
      if after == None then (before, false) else (after.value.(version := target), true)
  }

  class Migrator {
    var db: Db

    constructor (db: Db)
      ensures this.db == db
    {
      this.db := db;
    }

    /** Applies the pending migrations in order, each in its own transaction; a
        version above the latest means all of them. */
    method MigrateTo(version: nat) returns (ok: bool)
      modifies this
      ensures (db, ok) == UpTo(old(db), if version > LATEST then LATEST else version)
    {
      var last := if version > LATEST then LATEST else version;
      var next := db.version + 1;
      while next <= last
        invariant next == db.version + 1
        invariant next <= last + 1 ==> UpTo(old(db), db.version) == (db, true)
        invariant next > last + 1 ==> db == old(db)
      {
        var after := Migration(next, db);
        if after == None {
          StuckAt(old(db), next, last);
          return false;
        }
        db := after.value.(version := next);
        next := next + 1;
      }
      return true;
    }

    method Migrate() returns (ok: bool)
      modifies this
      ensures (db, ok) == UpTo(old(db), LATEST)
    {
      ok := MigrateTo(LATEST);
    }
  }

  /** A failing migration stops everything after it. */
  lemma {:induction false} StuckAt(db: Db, k: nat, target: nat)
    requires db.version < k <= target <= LATEST && UpTo(db, k - 1).1 && Migration(k, UpTo(db, k - 1).0) == None
    ensures UpTo(db, target) == (UpTo(db, k - 1).0, false)
    decreases target
  {
    if k < target {
      StuckAt(db, k, target - 1);
    }
  }

  // ----- composition ----------------------------------------------------------

  /** Migrating in two goes is migrating in one. */
  lemma {:induction false} InTwoGoes(db: Db, k: nat, target: nat)
    requires k <= target <= LATEST && UpTo(db, k).1
    ensures UpTo(UpTo(db, k).0, target) == UpTo(db, target)
  {
    VersionReached(db, k);
    if target > k && target > db.version {
      InTwoGoes(db, k, target - 1);
    }
  }

  lemma {:induction false} VersionReached(db: Db, target: nat)
    requires target <= LATEST && UpTo(db, target).1
    ensures UpTo(db, target).0.version == if target <= db.version then db.version else target
  {
    if target > db.version {
      VersionReached(db, target - 1);
    }
  }

  lemma MigratingAgainChangesNothing(db: Db)
    requires UpTo(db, LATEST).1
    ensures UpTo(UpTo(db, LATEST).0, LATEST) == (UpTo(db, LATEST).0, true)
  {
    InTwoGoes(db, LATEST, LATEST);
  }

  // ----- meaning --------------------------------------------------------------

  function Rows(db: Db): seq<ClientRow> {
    if db.clients == None then [] else db.clients.value.rows
  }

  function Uris(db: Db): map<nat, UriRow> {
    if db.uris == None then map[] else db.uris.value
  }

  function Proxies(db: Db): map<string, ProxyRow> {
    if db.proxies == None then map[] else db.proxies.value.rows
  }

  /** The URIs that a client means to have: those in the URI table, or else the
      non-empty one in its own row. */
  function MeantUris(r: ClientRow, uris: map<nat, UriRow>): seq<string> {
    match r.redirectUri
    case Text(u) => if u == "" || exists k :: k in uris && uris[k].clientId == r.id then UrisOf(uris, r.id) else [u]
    case _ => UrisOf(uris, r.id)
  }

  /** The clients of a database at any stage. */
  function MeantClients(db: Db): (r: seq<Client>)
    ensures |r| == |Rows(db)|
    ensures forall i :: 0 <= i < |r| ==> r[i] == ClientOf(Rows(db)[i], Uris(db)).(redirectUris := MeantUris(Rows(db)[i], Uris(db)))
  {
    seq(|Rows(db)|, i requires 0 <= i < |Rows(db)| => ClientOf(Rows(db)[i], Uris(db)).(redirectUris := MeantUris(Rows(db)[i], Uris(db))))
  }

  /** The tables and columns that the recorded version promises. */
  ghost predicate Consistent(db: Db) {
    && WellFormed(db)
    && db.version <= LATEST
    && (db.version >= 1 ==> db.config.Some?)
    && (db.version >= 2 ==> db.clients.Some?)
    && (db.version >= 3 ==> db.proxies.Some?)
    && (db.version >= 4 ==> db.proxies.value.hasHttps)
    && (db.version >= 5 ==> db.proxies.value.hasAuthelia)
    && (db.version >= 6 ==> db.uris.Some? && !db.clients.value.legacy)
  }

  /** A proxy after migration: as it was, with 0 for flags it did not have. */
  predicate KeptProxy(before: ProxyRow, after: ProxyRow) {
    && after.host == before.host && after.port == before.port
    && (after.https == before.https || (before.https == None && after.https == Some(0)))
    && (after.authelia == before.authelia || (before.authelia == None && after.authelia == Some(0)))
  }

  /** `after` says what `before` said. */
  ghost predicate Preserved(before: Db, after: Db) {
    && (before.config.Some? ==> after.config == before.config)
    && (before.config == None ==> after.config == None || after.config == Some(map[]))
    && Proxies(after).Keys == Proxies(before).Keys
    && (forall n :: n in Proxies(before) ==> KeptProxy(Proxies(before)[n], Proxies(after)[n]))
    && MeantClients(after) == MeantClients(before)
  }

  lemma {:induction false} NoUris(uris: map<nat, UriRow>, id: string)
    requires id !in ClientIds(uris)
    ensures UrisOf(uris, id) == []
    decreases |uris|
  {
    if uris != map[] {
      var k := MaxRowid(uris);
      NoUris(uris - {k}, id);
      UrisAfterLast(uris - {k}, k, uris[k], id);
      assert uris == (uris - {k})[k := uris[k]];
    }
  }

  lemma PickOther(rows: seq<ClientRow>, uris: map<nat, UriRow>, id: string)
    requires rows != [] && rows[|rows| - 1].id != id
    ensures UrisOf(InsertPicked(rows, uris), id) == UrisOf(InsertPicked(rows[..|rows| - 1], uris), id)
  {
    var r, before := rows[|rows| - 1], InsertPicked(rows[..|rows| - 1], uris);
    if Picked(r, uris) {
      UrisAfterInsert(before, r.id, r.redirectUri.text, id);
    }
  }

  lemma {:induction false} PickNone(rows: seq<ClientRow>, uris: map<nat, UriRow>, id: string)
    requires forall i :: 0 <= i < |rows| ==> rows[i].id != id
    ensures UrisOf(InsertPicked(rows, uris), id) == UrisOf(uris, id)
  {
    if rows != [] {
      PickNone(rows[..|rows| - 1], uris, id);
      PickOther(rows, uris, id);
    }
  }

  lemma PickLast(rows: seq<ClientRow>, uris: map<nat, UriRow>)
    requires UniqueIds(rows) && rows != []
    ensures var r := rows[|rows| - 1]; UrisOf(InsertPicked(rows, uris), r.id) == MeantUris(r, uris)
  {
    var n := |rows| - 1;
    var r := rows[n];
    PickNone(rows[..n], uris, r.id);
    if Picked(r, uris) {
      UrisAfterInsert(InsertPicked(rows[..n], uris), r.id, r.redirectUri.text, r.id);
      NoUris(uris, r.id);
    }
  }

  /** The `insert .. select` gives every client the URIs it meant to have. */
  lemma {:induction false} PickOne(rows: seq<ClientRow>, uris: map<nat, UriRow>, i: nat)
    requires UniqueIds(rows) && i < |rows|
    ensures UrisOf(InsertPicked(rows, uris), rows[i].id) == MeantUris(rows[i], uris)
  {
    var n := |rows| - 1;
    if i < n {
      PickOne(rows[..n], uris, i);
      PickOther(rows, uris, rows[i].id);
    } else {
      PickLast(rows, uris);
    }
  }

  lemma NormalizePreserves(db: Db)
    requires WellFormed(db)
    ensures Preserved(db, NormalizeOidcRedirectUris(db))
    ensures WellFormed(NormalizeOidcRedirectUris(db))
  {
    var after := NormalizeOidcRedirectUris(db);
    if db.clients.Some? && db.clients.value.legacy {
      var rows := db.clients.value.rows;
      forall i | 0 <= i < |rows| ensures MeantClients(after)[i] == MeantClients(db)[i] {
        PickOne(rows, Uris(db), i);
      }
    }
  }

  lemma MigrationPreserves(k: nat, db: Db)
    requires 1 <= k <= LATEST && Consistent(db) && db.version == k - 1
    ensures Migration(k, db).Some?
    ensures var after := Migration(k, db).value.(version := k); Consistent(after) && Preserved(db, after)
  {
    if k == LATEST {
      NormalizePreserves(db);
    }
    var after := Migration(k, db).value.(version := k);
    assert k != LATEST ==> MeantClients(after) == MeantClients(db);
  }

  lemma PreservedTransitive(a: Db, b: Db, c: Db)
    requires Preserved(a, b) && Preserved(b, c)
    ensures Preserved(a, c)
  {
  }

  /** One more migration on a database that says what `db` said. */
  lemma PreservedNext(db: Db, before: Db, k: nat)
    requires 1 <= k <= LATEST && Consistent(before) && before.version == k - 1 && Preserved(db, before)
    ensures Migration(k, before).Some?
    ensures var after := Migration(k, before).value.(version := k); Consistent(after) && Preserved(db, after)
  {
    MigrationPreserves(k, before);
    PreservedTransitive(db, before, Migration(k, before).value.(version := k));
  }

  lemma UpToNext(db: Db, k: nat)
    requires db.version < k <= LATEST && UpTo(db, k - 1).1 && Migration(k, UpTo(db, k - 1).0).Some?
    ensures UpTo(db, k) == (Migration(k, UpTo(db, k - 1).0).value.(version := k), true)
  {
  }

  lemma PreservedItself(db: Db)
    ensures Preserved(db, db)
  {
  }

  lemma {:induction false} UpToPreserves(db: Db, target: nat)
    requires target <= LATEST && Consistent(db)
    ensures UpTo(db, target).1 && Consistent(UpTo(db, target).0) && Preserved(db, UpTo(db, target).0)
  {
    if target > db.version {
      UpToPreserves(db, target - 1);
      VersionReached(db, target - 1);
      PreservedNext(db, UpTo(db, target - 1).0, target);
      UpToNext(db, target);
    } else {
      PreservedItself(db);
    }
  }

  /** From any legacy database, whatever tables and columns it has, all migrations
      succeed, reach the one schema, keep every row, default new flags to 0, and
      list every client as it was, with the URI of its own row if that is not empty
      and there is none in the URI table, and with those in the table otherwise. */
  lemma MigrationsPreserveMeaning(db: Db)
    requires Consistent(db)
    ensures UpTo(db, LATEST).1
    ensures var after, rows := UpTo(db, LATEST).0, Rows(db);
            && after.version == LATEST && Ready(after) && Consistent(after)
            && |List(after)| == |rows|
            && forall i :: 0 <= i < |rows| ==> ListedAs(rows[i], Uris(db), List(after)[i])
    ensures var after := UpTo(db, LATEST).0;
            && after.config == (if db.config == None then Some(map[]) else db.config)
            && Proxies(after).Keys == Proxies(db).Keys
            && forall n :: n in Proxies(db) ==> KeptProxy(Proxies(db)[n], Proxies(after)[n])
  {
    ListIsMeant(db);
    var rows := Rows(db);
    forall i | 0 <= i < |rows| ensures ListedAs(rows[i], Uris(db), MeantClients(db)[i]) {
    }
  }

  /** `c` says what the row and the URI table said. */
  ghost predicate ListedAs(r: ClientRow, uris: map<nat, UriRow>, c: Client) {
    && Represents(r, c)
    && (forall u :: r.redirectUri == Text(u) && u != "" && NoneFor(uris, r.id) ==> c.redirectUris == [u])
    && (r.redirectUri == Text("") || !r.redirectUri.Text? || !NoneFor(uris, r.id) ==> c.redirectUris == UrisOf(uris, r.id))
  }

  ghost predicate NoneFor(uris: map<nat, UriRow>, id: string) {
    forall k :: k in uris ==> uris[k].clientId != id
  }

  lemma ListIsMeant(db: Db)
    requires Consistent(db)
    ensures UpTo(db, LATEST).1
    ensures var after := UpTo(db, LATEST).0;
            && after.version == LATEST && Ready(after) && Consistent(after)
            && Preserved(db, after)
            && List(after) == MeantClients(db)
  {
    UpToPreserves(db, LATEST);
    VersionReached(db, LATEST);
    var after := UpTo(db, LATEST).0;
    forall i | 0 <= i < |List(after)| ensures List(after)[i] == MeantClients(after)[i] {
      assert Rows(after)[i] in Rows(after);
    }
    assert List(after) == MeantClients(after);
  }

  /** The schema of every version, from an empty database. */
  lemma FreshDatabase(k: nat)
    requires k <= LATEST
    ensures UpTo(Db(None, None, None, None, 0), k) == (Db(
      if k >= 1 then Some(map[]) else None,
      if k >= 2 then Some(ClientTable(k < 6, [])) else None,
      if k >= 3 then Some(ProxyTable(k >= 4, k >= 5, map[])) else None,
      if k >= 6 then Some(map[]) else None,
      k), true)
  {
    if k > 0 {
      FreshDatabase(k - 1);
    }
  }

  /** Even if the recorded version is lost, running all migrations again on a
      migrated database leaves it as it is. */
  lemma RerunFromScratch(db: Db)
    requires Consistent(db) && db.version == LATEST
    ensures UpTo(db.(version := 0), LATEST) == (db, true)
  {
    var d := db.(version := 0);
    assert UpTo(d, 0) == (d, true);
    assert UpTo(d, 1) == (d.(version := 1), true);
    assert UpTo(d, 2) == (d.(version := 2), true);
    assert UpTo(d, 3) == (d.(version := 3), true);
    assert UpTo(d, 4) == (d.(version := 4), true);
    assert UpTo(d, 5) == (d.(version := 5), true);
  }

  /** The only databases that cannot be migrated: those recorded at version 3 or 4
      whose proxy table is missing. */
  lemma WhenMigrationFails(db: Db)
    requires db.version <= LATEST
    ensures !UpTo(db, LATEST).1 <==> 3 <= db.version <= 4 && db.proxies == None
  {
    ProxiesAt(db, LATEST);
  }

  lemma {:induction false} ProxiesAt(db: Db, target: nat)
    requires db.version <= LATEST && target <= LATEST
    ensures UpTo(db, target).1 <==> !(3 <= db.version <= 4 && db.proxies == None && target > db.version)
    ensures UpTo(db, target).1 ==> (UpTo(db, target).0.proxies.Some? <==> db.proxies.Some? || (db.version < 3 <= target))
  {
    if target > db.version {
      ProxiesAt(db, target - 1);
    }
  }
}
