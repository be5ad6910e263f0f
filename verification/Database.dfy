/** The configuration database as relations, with the OIDC client store on it. */
module Database {
  import opened Helpers

  /** A value in a column that may have been dropped. */
  datatype Cell = Absent | Null | Text(text: string)

  datatype ClientRow = ClientRow(id: string, secret: string, requirePkce: int, authMethod: string, redirectUri: Cell)

  /** Rows in rowid order; `legacy` says whether there is a redirect_uri column. */
  datatype ClientTable = ClientTable(legacy: bool, rows: seq<ClientRow>)

  datatype ProxyRow = ProxyRow(host: string, port: int, https: Option<int>, authelia: Option<int>)

  datatype ProxyTable = ProxyTable(hasHttps: bool, hasAuthelia: bool, rows: map<string, ProxyRow>)

  datatype UriRow = UriRow(clientId: string, uri: string)

  /** `version` is the last migration recorded as applied. */
  datatype Db = Db(
    config: Option<map<string, string>>,
    clients: Option<ClientTable>,
    proxies: Option<ProxyTable>,
    uris: Option<map<nat, UriRow>>,
    version: nat)

  ghost predicate UniqueIds(rows: seq<ClientRow>) {
    forall i, j :: 0 <= i < j < |rows| ==> rows[i].id != rows[j].id
  }

  ghost predicate WellFormed(db: Db) {
    && (db.clients.Some? ==> UniqueIds(db.clients.value.rows)
                             && forall r :: r in db.clients.value.rows ==> (r.redirectUri.Absent? <==> !db.clients.value.legacy))
    && (db.proxies.Some? ==> forall n :: n in db.proxies.value.rows ==>
                               (db.proxies.value.rows[n].https.Some? <==> db.proxies.value.hasHttps)
                               && (db.proxies.value.rows[n].authelia.Some? <==> db.proxies.value.hasAuthelia))
  }

  // ----- rows of oidc_redirect_uri --------------------------------------------

  lemma {:induction false} MaxExists(keys: set<nat>)
    requires keys != {}
    ensures exists k :: k in keys && forall j :: j in keys ==> j <= k
  {
    var k :| k in keys;
    if keys != {k} {
      MaxExists(keys - {k});
      var m :| m in keys - {k} && forall j :: j in keys - {k} ==> j <= m;
      var top := if m < k then k else m;
      forall j | j in keys ensures j <= top {
        assert j == k || j in keys - {k};
      }
    }
  }

  function MaxRowid(uris: map<nat, UriRow>): (k: nat)
    requires uris != map[]
    ensures k in uris && forall j :: j in uris ==> j <= k
  {
    assert uris.Keys != {};
    MaxExists(uris.Keys);
    var k :| k in uris.Keys && forall j :: j in uris.Keys ==> j <= k;
    k
  }

  /** The rowid of the next insertion; that of a deleted last row is used again. */
  function NextRowid(uris: map<nat, UriRow>): nat {
    if uris == map[] then 1 else MaxRowid(uris) + 1
  }

  /** `order by rowid` */
  function ByRowid(uris: map<nat, UriRow>): seq<UriRow>
    decreases |uris|
  {
    if uris == map[] then [] else
    var k := MaxRowid(uris);
    ByRowid(uris - {k}) + [uris[k]]
  }

  function UrisIn(rows: seq<UriRow>, id: string): seq<string> {
    if rows == [] then [] else
    UrisIn(rows[..|rows| - 1], id) + if rows[|rows| - 1].clientId == id then [rows[|rows| - 1].uri] else []
  }

  function UrisOf(uris: map<nat, UriRow>, id: string): seq<string> {
    UrisIn(ByRowid(uris), id)
  }

  function InsertUri(uris: map<nat, UriRow>, id: string, uri: string): map<nat, UriRow> {
    uris[NextRowid(uris) := UriRow(id, uri)]
  }

  function DeleteUris(uris: map<nat, UriRow>, id: string): map<nat, UriRow> {
    map k | k in uris && uris[k].clientId != id :: uris[k]
  }

  lemma ByRowidLast(uris: map<nat, UriRow>)
    requires uris != map[]
    ensures ByRowid(uris) == ByRowid(uris - {MaxRowid(uris)}) + [uris[MaxRowid(uris)]]
  {
  }

  lemma UrisAfterLast(uris: map<nat, UriRow>, k: nat, row: UriRow, id: string)
    requires forall j :: j in uris ==> j < k
    ensures UrisOf(uris[k := row], id) == UrisOf(uris, id) + if row.clientId == id then [row.uri] else []
  {
    var more := uris[k := row];
    assert k in more;
    assert MaxRowid(more) == k;
    assert more - {k} == uris;
    ByRowidLast(more);
    var rows := ByRowid(more);
    assert rows[..|rows| - 1] == ByRowid(uris) && rows[|rows| - 1] == row;
  }

  lemma UrisAfterInsert(uris: map<nat, UriRow>, id: string, uri: string, other: string)
    ensures UrisOf(InsertUri(uris, id, uri), other) == UrisOf(uris, other) + if id == other then [uri] else []
  {
    UrisAfterLast(uris, NextRowid(uris), UriRow(id, uri), other);
  }

  lemma DeleteWithLast(uris: map<nat, UriRow>, k: nat, row: UriRow, id: string)
    requires k !in uris
    ensures var left := DeleteUris(uris, id);
            DeleteUris(uris[k := row], id) == if row.clientId == id then left else left[k := row]
  {
  }

  lemma {:induction false} UrisAfterDelete(uris: map<nat, UriRow>, id: string, other: string)
    ensures UrisOf(DeleteUris(uris, id), other) == if id == other then [] else UrisOf(uris, other)
    decreases |uris|
  {
    if uris == map[] {
      assert DeleteUris(uris, id) == map[];
    } else {
      var k, row := MaxRowid(uris), uris[MaxRowid(uris)];
      var rest := uris - {k};
      UrisAfterDelete(rest, id, other);
      assert uris == rest[k := row];
      UrisAfterLast(rest, k, row, other);
      DeleteWithLast(rest, k, row, id);
      if row.clientId != id {
        UrisAfterLast(DeleteUris(rest, id), k, row, other);
      }
    }
  }

  // ----- the store ------------------------------------------------------------

  datatype Client = Client(id: string, secret: string, redirectUris: seq<string>, requirePkce: bool, authMethod: string)

  function ClientOf(r: ClientRow, uris: map<nat, UriRow>): Client {
    Client(r.id, r.secret, UrisOf(uris, r.id), r.requirePkce != 0, r.authMethod)
  }

  /** The columns of a row are the fields of the client. */
  predicate Represents(r: ClientRow, c: Client) {
    r.id == c.id && r.secret == c.secret && r.authMethod == c.authMethod && (r.requirePkce == 0 <==> !c.requirePkce)
  }

  /** What `Clients` lists. */
  function ClientsOf(rows: seq<ClientRow>, uris: map<nat, UriRow>): (r: seq<Client>)
    ensures |r| == |rows| && forall i :: 0 <= i < |r| ==> r[i] == ClientOf(rows[i], uris)
  {
    seq(|rows|, i requires 0 <= i < |rows| => ClientOf(rows[i], uris))
  }

  /** `INSERT OR REPLACE`: the row with this id goes, the new one comes last. */
  function ReplaceRow(rows: seq<ClientRow>, r: ClientRow): seq<ClientRow> {
    WithoutId(rows, r.id) + [r]
  }

  function WithoutId(rows: seq<ClientRow>, id: string): (r: seq<ClientRow>)
    ensures forall x :: x in r <==> x in rows && x.id != id
    ensures UniqueIds(rows) ==> UniqueIds(r)
  {
    if rows == [] then [] else
    var rest := WithoutId(rows[..|rows| - 1], id);
    assert rows == rows[..|rows| - 1] + [rows[|rows| - 1]];
    if rows[|rows| - 1].id == id then rest else rest + [rows[|rows| - 1]]
  }

  function InsertUris(uris: map<nat, UriRow>, id: string, redirectUris: seq<string>): map<nat, UriRow> {
    if redirectUris == [] then uris
    else InsertUri(InsertUris(uris, id, redirectUris[..|redirectUris| - 1]), id, redirectUris[|redirectUris| - 1])
  }

  /** The database after a committed `AddClient`. */
  function Added(db: Db, c: Client): Db
    requires db.clients.Some? && db.uris.Some?
  {
    var t := db.clients.value;
    var row := ClientRow(c.id, c.secret, if c.requirePkce then 1 else 0, c.authMethod, if t.legacy then Null else Absent);
    db.(clients := Some(t.(rows := ReplaceRow(t.rows, row))),
        uris := Some(InsertUris(DeleteUris(db.uris.value, c.id), c.id, c.redirectUris)))
  }

  /** A missing map entry reads as the empty list. */
  function Entry(m: map<string, seq<string>>, id: string): seq<string> {
    if id in m then m[id] else []
  }

  method CollectUris(uriRows: seq<UriRow>) returns (urisByClient: map<string, seq<string>>)
    ensures forall id :: Entry(urisByClient, id) == UrisIn(uriRows, id)
  {
    urisByClient := map[];
    for i := 0 to |uriRows|
      invariant forall id :: Entry(urisByClient, id) == UrisIn(uriRows[..i], id)
    {
      assert uriRows[..i + 1][..i] == uriRows[..i];
      var id := uriRows[i].clientId;
      urisByClient := urisByClient[id := Entry(urisByClient, id) + [uriRows[i].uri]];
    }
    assert uriRows[..|uriRows|] == uriRows;
  }

  class Oidc {
    var db: Db

    constructor (db: Db)
      ensures this.db == db
    {
      this.db := db;
    }

    /** `None` is a query error. */
    method Clients() returns (clients: Option<seq<Client>>)
      ensures clients == if db.uris == None || db.clients == None then None else Some(ClientsOf(db.clients.value.rows, db.uris.value))
      ensures clients.Some? ==> db.clients.Some? && |clients.value| == |db.clients.value.rows|
                                && forall i :: 0 <= i < |clients.value| ==> Represents(db.clients.value.rows[i], clients.value[i])
    {
      if db.uris == None {
        return None;
      }
      var urisByClient := CollectUris(ByRowid(db.uris.value));
      if db.clients == None {
        return None;
      }
      var rows := db.clients.value.rows;
      var list := [];
      for i := 0 to |rows|
        invariant list == ClientsOf(rows, db.uris.value)[..i]
      {
        var uris := Entry(urisByClient, rows[i].id);
        list := list + [Client(rows[i].id, rows[i].secret, uris, rows[i].requirePkce != 0, rows[i].authMethod)];
      }
      assert list == ClientsOf(rows, db.uris.value);
      return Some(list);
    }

    /** The transaction works on a copy; call number `failing` to the database
        (begin, insert, delete, one insert for every URI, commit) fails. */
    method AddClient(client: Client, failing: nat) returns (ok: bool)
      modifies this
      ensures ok <==> old(db).clients.Some? && old(db).uris.Some? && |client.redirectUris| + 4 <= failing
      ensures Ready(old(db)) ==> (ok <==> Commits(Call(client, failing)))
      ensures ok ==> db == Added(old(db), client)
      ensures ok ==> var rows := db.clients.value.rows; rows != [] && Represents(rows[|rows| - 1], client)
      ensures !ok ==> db == old(db)
    {
      var tx := db;
      if failing == 0 {
        return false;
      }
      if failing == 1 || tx.clients == None {
        return false;
      }
      var t := tx.clients.value;
      var row := ClientRow(client.id, client.secret, if client.requirePkce then 1 else 0, client.authMethod, if t.legacy then Null else Absent);
      tx := tx.(clients := Some(t.(rows := ReplaceRow(t.rows, row))));
      if failing == 2 || tx.uris == None {
        return false;
      }
      var uris := DeleteUris(tx.uris.value, client.id);
      for i := 0 to |client.redirectUris|
        invariant failing >= 3 + i
        invariant uris == InsertUris(DeleteUris(db.uris.value, client.id), client.id, client.redirectUris[..i])
      {
        if failing == 3 + i {
          return false;
        }
        assert client.redirectUris[..i + 1][..i] == client.redirectUris[..i];
        uris := InsertUri(uris, client.id, client.redirectUris[i]);
      }
      assert client.redirectUris[..|client.redirectUris|] == client.redirectUris;
      tx := tx.(uris := Some(uris));
      if failing == 3 + |client.redirectUris| {
        return false;
      }
      db := tx;
      return true;
    }
  }

  // ----- refinement to a map from id to client --------------------------------

  function Find(clients: seq<Client>, id: string): Option<Client> {
    if clients == [] then None
    else if clients[|clients| - 1].id == id then Some(clients[|clients| - 1])
    else Find(clients[..|clients| - 1], id)
  }

  ghost predicate Ready(db: Db) {
    WellFormed(db) && db.clients.Some? && db.uris.Some?
  }

  function List(db: Db): seq<Client>
    requires db.clients.Some? && db.uris.Some?
  {
    ClientsOf(db.clients.value.rows, db.uris.value)
  }

  lemma {:induction false} UrisAfterInserts(uris: map<nat, UriRow>, id: string, redirectUris: seq<string>, other: string)
    ensures UrisOf(InsertUris(uris, id, redirectUris), other) == UrisOf(uris, other) + if id == other then redirectUris else []
  {
    if redirectUris != [] {
      var n := |redirectUris| - 1;
      UrisAfterInserts(uris, id, redirectUris[..n], other);
      UrisAfterInsert(InsertUris(uris, id, redirectUris[..n]), id, redirectUris[n], other);
      assert redirectUris == redirectUris[..n] + [redirectUris[n]];
    }
  }

  lemma FindStep(rows: seq<ClientRow>, r: ClientRow, uris: map<nat, UriRow>, id: string)
    ensures Find(ClientsOf(rows + [r], uris), id) == if r.id == id then Some(ClientOf(r, uris)) else Find(ClientsOf(rows, uris), id)
  {
    assert ClientsOf(rows + [r], uris)[..|rows|] == ClientsOf(rows, uris);
  }

  lemma WithoutIdStep(rows: seq<ClientRow>, r: ClientRow, id: string)
    ensures WithoutId(rows + [r], id) == WithoutId(rows, id) + if r.id == id then [] else [r]
  {
    assert (rows + [r])[..|rows|] == rows;
  }

  /** Whoever is listed under `other` is the same in both. */
  ghost predicate SameElsewhere(rows: seq<ClientRow>, id: string, uris: map<nat, UriRow>, newer: map<nat, UriRow>, other: string) {
    Find(ClientsOf(WithoutId(rows, id), newer), other) == Find(ClientsOf(rows, uris), other)
  }

  lemma FindElsewhereStep(before: seq<ClientRow>, r: ClientRow, id: string, uris: map<nat, UriRow>, newer: map<nat, UriRow>, other: string)
    requires other != id && UrisOf(newer, other) == UrisOf(uris, other)
    requires SameElsewhere(before, id, uris, newer, other)
    ensures SameElsewhere(before + [r], id, uris, newer, other)
  {
    FindStep(before, r, uris, other);
    FindStep(WithoutId(before, id), r, newer, other);
    WithoutIdStep(before, r, id);
  }

  lemma NoneElsewhere(id: string, uris: map<nat, UriRow>, newer: map<nat, UriRow>, other: string)
    ensures SameElsewhere([], id, uris, newer, other)
  {
  }

  /** Listing the same rows against URIs that differ only for `id`. */
  lemma {:induction false} FindElsewhere(rows: seq<ClientRow>, id: string, uris: map<nat, UriRow>, newer: map<nat, UriRow>, other: string)
    requires other != id && UrisOf(newer, other) == UrisOf(uris, other)
    ensures SameElsewhere(rows, id, uris, newer, other)
  {
    if rows == [] {
      NoneElsewhere(id, uris, newer, other);
    } else {
      var before, r := rows[..|rows| - 1], rows[|rows| - 1];
      FindElsewhere(before, id, uris, newer, other);
      FindElsewhereStep(before, r, id, uris, newer, other);
      assert rows == before + [r];
    }
  }

  lemma StillReady(db: Db, c: Client)
    requires Ready(db)
    ensures Ready(Added(db, c))
  {
  }

  /** One committed `AddClient` is one update of the map, whatever rowids the new
      rows get; URIs are listed as given, duplicates and all. */
  lemma AddClientIsUpdate(db: Db, c: Client, id: string)
    requires Ready(db)
    ensures Find(List(Added(db, c)), id) == if id == c.id then Some(c) else Find(List(db), id)
  {
    var t := db.clients.value;
    var after := Added(db, c);
    var uris := after.uris.value;
    UrisAfterInserts(DeleteUris(db.uris.value, c.id), c.id, c.redirectUris, id);
    UrisAfterDelete(db.uris.value, c.id, id);
    var rows := after.clients.value.rows;
    FindStep(WithoutId(t.rows, c.id), rows[|rows| - 1], uris, id);
    if id == c.id {
      assert UrisOf(uris, id) == c.redirectUris;
    } else {
      FindElsewhere(t.rows, c.id, db.uris.value, uris, id);
    }
  }

  datatype Call = Call(client: Client, failing: nat)

  predicate Commits(call: Call) {
    |call.client.redirectUris| + 4 <= call.failing
  }

  /** A run of `AddClient` calls, each of which may fail anywhere and roll back. */
  ghost function After(db: Db, calls: seq<Call>): (r: Db)
    requires Ready(db)
    ensures Ready(r)
  {
    if calls == [] then db else
    var before := After(db, calls[..|calls| - 1]);
    var call := calls[|calls| - 1];
    StillReady(before, call.client);
    if Commits(call) then Added(before, call.client) else before
  }

  /** The client written by the last committed call for this id. */
  function LastWritten(calls: seq<Call>, id: string): Option<Client> {
    if calls == [] then None else
    var call := calls[|calls| - 1];
    if Commits(call) && call.client.id == id then Some(call.client) else LastWritten(calls[..|calls| - 1], id)
  }

  /** `Clients()` is a last-writer-wins map. */
  lemma {:induction false} LastWriterWins(db: Db, calls: seq<Call>, id: string)
    requires Ready(db)
    ensures Find(List(After(db, calls)), id) == if LastWritten(calls, id).Some? then LastWritten(calls, id) else Find(List(db), id)
    ensures forall i, j :: 0 <= i < j < |List(After(db, calls))| ==> List(After(db, calls))[i].id != List(After(db, calls))[j].id
  {
    if calls != [] {
      var before := calls[..|calls| - 1];
      LastWriterWins(db, before, id);
      AddClientIsUpdate(After(db, before), calls[|calls| - 1].client, id);
    }
  }
}
