/** The snapshot and the restore as they run against a database that enforces its keys after every statement. */
module BackupService {
  import opened Options
  import opened BackupCells
  import opened Backup
  import opened BackupRestore

  datatype Outcome = Restored | NotEmpty | MissingMigrations | Failed

  const CHUNK := 500

  function IndexOf(rows: seq<Row>, id: Cell): (i: nat)
    requires HasKey(rows, User, id)
    ensures i < |rows| && KeyOf(User, rows[i]) == id
    ensures forall j :: 0 <= j < i ==> KeyOf(User, rows[j]) != id
  {
    if KeyOf(User, rows[0]) == id then 0
    else
      assert HasKey(rows[1..], User, id) by {
        var k :| 0 <= k < |rows| && KeyOf(User, rows[k]) == id;
        assert rows[1..][k - 1] == rows[k];
      }
      1 + IndexOf(rows[1..], id)
  }

  function SnapshotOf(db: Tables): map<Table, seq<JsonRow>> { map t: Table | true :: EncodeRows(Rows(db, t)) }

  /** The tables of a snapshot as decodeValue and the column types read them; None when something throws. */
  function DecodeRows(sch: Schema, t: Table, rows: seq<JsonRow>): Option<seq<Row>> {
    if forall i :: 0 <= i < |rows| ==> Storable(sch, t, rows[i])
    then Some(seq(|rows|, i requires 0 <= i < |rows| => DecodeRow(sch, t, rows[i])))
    else None
  }

  predicate RowsCopyable(sch: Schema, t: Table, rows: seq<Row>)
  {
    forall i :: 0 <= i < |rows| ==> Copyable(sch, t, rows[i])
  }

  lemma DecodedRows(sch: Schema, t: Table, rows: seq<Row>)
    ensures DecodeRows(sch, t, EncodeRows(rows)) == if RowsCopyable(sch, t, rows)
            then Some(CopyRows(sch, t, rows)) else None
  {
    var encoded := EncodeRows(rows);
    forall i | 0 <= i < |rows| ensures encoded[i] == EncodeRow(rows[i]) {}
    if RowsCopyable(sch, t, rows) {
      forall i | 0 <= i < |rows|
        ensures DecodeRow(sch, t, encoded[i]) == Copy(sch, t, rows[i])
      {
        DecodedIsCopy(sch, t, rows[i]);
      }
      assert DecodeRows(sch, t, encoded).value == CopyRows(sch, t, rows);
    } else {
      var i :| 0 <= i < |rows| && !Copyable(sch, t, rows[i]);
      assert !Storable(sch, t, encoded[i]);
    }
  }

  /** Detached, row by row, is what the model of the first pass loads. */
  lemma DetachedRows(db: Tables, t: Table)
    ensures FirstPass(db, t) == DetachAll(t, Rows(db, t))
  {
  }

  function DetachAll(t: Table, rows: seq<Row>): seq<Row> {
    seq(|rows|, i requires 0 <= i < |rows| => FirstPassRow(t, rows[i]))
  }

  lemma EmptyStart(db: Tables, tables: Tables)
    requires forall t: Table :: t in tables && tables[t] == []
    ensures Intact(tables) && tables == Partial(db, User, 0)
  {
    forall t: Table ensures DistinctKeys(t, Rows(tables, t)) {}
    var p := Partial(db, User, 0);
    forall t: Table ensures p[t] == tables[t] {}
    assert p == tables;
  }

  predicate CopyableUpTo(sch: Schema, db: Tables, k: nat) {
    forall t: Table :: Pos(t) < k ==> RowsCopyable(sch, t, Rows(db, t))
  }

  lemma NextCopyable(sch: Schema, db: Tables, k: nat)
    requires k < |BACKUP_TABLES| && CopyableUpTo(sch, db, k)
    requires RowsCopyable(sch, BACKUP_TABLES[k], Rows(db, BACKUP_TABLES[k]))
    ensures CopyableUpTo(sch, db, k + 1)
  {
    forall t: Table | Pos(t) == k ensures t == BACKUP_TABLES[k] { assert BACKUP_TABLES[Pos(t)] == t; }
  }

  lemma EveryTable(sch: Schema, db: Tables)
    requires CopyableUpTo(sch, db, |BACKUP_TABLES|)
    ensures AllCopyable(sch, db)
  {
    forall t: Table, i | 0 <= i < |Rows(db, t)| ensures Copyable(sch, t, Rows(db, t)[i]) {
      assert Pos(t) < |BACKUP_TABLES| && RowsCopyable(sch, t, Rows(db, t));
    }
  }

  lemma UsersStamped(sch: Schema, db: Tables)
    requires SchemaOk(sch) && Valid(sch, db)
    ensures forall r :: r in Rows(Copies(sch, db), User) ==> "updatedAt" in r
  {
    var users := Rows(Copies(sch, db), User);
    forall r | r in users ensures "updatedAt" in r {
      var i :| 0 <= i < |users| && users[i] == r;
      CopyTable(sch, db, User, i);
      CopyKeepsReferences(sch, User, Rows(db, User)[i]);
    }
  }

  lemma NextAttached(db: Tables, n: nat, now: string)
    requires n < |Rows(db, User)| && "updatedAt" in Rows(db, User)[n]
    ensures Rows(Attached(db, n, now), User)[n] == Detached(Rows(db, User)[n])
    ensures WithRows(Attached(db, n, now), User,
                     Rows(Attached(db, n, now), User)[n := Touched(Rows(db, User)[n], now)]) == Attached(db, n + 1, now)
  {
    var a, b := Attached(db, n, now), Attached(db, n + 1, now);
    var rows := Rows(a, User)[n := Touched(Rows(db, User)[n], now)];
    OneMoreTaken(TouchedUsers(db, now), FirstPass(db, User), n);
    assert rows == b[User];
    forall u: Table | u != User ensures a[u] == b[u] {}
    SameBut(a, b, User, rows);
  }

  lemma OneMoreTaken(a: seq<Row>, b: seq<Row>, n: nat)
    requires |a| == |b| && n < |a|
    ensures (a[..n] + b[n..])[n] == b[n]
    ensures (a[..n] + b[n..])[n := a[n]] == a[..n + 1] + b[n + 1..]
  {
  }

  lemma AttachNothing(db: Tables, n: nat, now: string)
    requires n < |Rows(db, User)| && "updatedAt" in Rows(db, User)[n] && !RefersOn(Rows(db, User)[n])
    ensures Attached(db, n + 1, now) == Attached(db, n, now)
  {
    var a := Attached(db, n, now);
    NextAttached(db, n, now);
    AttachOne(Rows(db, User)[n], now);
    assert Rows(a, User)[n := Rows(a, User)[n]] == Rows(a, User);
    SameBut(a, a, User, Rows(a, User));
  }

  lemma UserFound(db: Tables, n: nat, now: string)
    requires Intact(db) && n < |Rows(db, User)|
    ensures HasKey(Rows(Attached(db, n, now), User), User, KeyOf(User, Rows(db, User)[n]))
    ensures IndexOf(Rows(Attached(db, n, now), User), KeyOf(User, Rows(db, User)[n])) == n
  {
    var a := Rows(Attached(db, n, now), User);
    AttachedKey(db, n, now, User, n);
    assert KeyOf(User, a[n]) == KeyOf(User, Rows(db, User)[n]);
    AttachedIntact(db, n, now);
    assert DistinctKeys(User, a);
  }

  class Database {
    const schema: Schema
    const migrations: set<string>
    var tables: Tables

    /** createSnapshot: one table after another inside one transaction. */
    method CreateSnapshot() returns (snapshot: Snapshot)
      ensures snapshot == Snapshot(migrations, SnapshotOf(tables))
    {
      var out: map<Table, seq<JsonRow>> := map[];
      for k := 0 to |BACKUP_TABLES|
        invariant out == map t: Table | Pos(t) < k :: EncodeRows(Rows(tables, t))
      {
        PosOfOrder(k);
        assert forall t: Table :: Pos(t) == k ==> t == BACKUP_TABLES[k] by {
          forall t: Table | Pos(t) == k ensures t == BACKUP_TABLES[k] { SamePosition(t, BACKUP_TABLES[k]); }
        }
        out := out[BACKUP_TABLES[k] := EncodeRows(Rows(tables, BACKUP_TABLES[k]))];
      }
      assert out == SnapshotOf(tables);
      snapshot := Snapshot(migrations, out);
    }

    /** One INSERT of many rows: all of them or, against a key, none. */
    method CreateMany(t: Table, rows: seq<Row>) returns (ok: bool)
      requires Intact(tables)
      modifies this`tables
      ensures ok <==> Insertable(old(tables), t, rows)
      ensures tables == if ok then WithRows(old(tables), t, Rows(old(tables), t) + rows) else old(tables)
      ensures Intact(tables)
    {
      ok := Insertable(tables, t, rows);
      if ok {
        InsertKeepsIntact(tables, t, rows);
        tables := WithRows(tables, t, Rows(tables, t) + rows);
      }
    }

    /** user.update by id with the client's own updatedAt. */
    method UpdateUser(id: Cell, data: Row, now: string) returns (ok: bool)
      requires HasKey(Rows(tables, User), User, id)
      modifies this`tables
      ensures var i := IndexOf(Rows(old(tables), User), id);
              var row := Updated(Rows(old(tables), User)[i], data, now);
              var next := WithRows(old(tables), User, Rows(old(tables), User)[i := row]);
              && (ok <==> RefsOk(next, User, row))
              && tables == if ok then next else old(tables)
    {
      var rows := Rows(tables, User);
      var i := IndexOf(rows, id);
      var row := Updated(rows[i], data, now);
      var next := WithRows(tables, User, rows[i := row]);
      ok := RefsOk(next, User, row);
      if ok { tables := next; }
    }

    /** The first pass over one table, 500 rows at a time; no chunk is refused. */
    method LoadTable(t: Table, rows: seq<Row>, ghost db: Tables) returns (ok: bool)
      requires Intact(db) && rows == FirstPass(db, t)
      requires Intact(tables) && tables == Partial(db, t, 0)
      modifies this`tables
      ensures ok && Intact(tables) && tables == Partial(db, t, |rows|)
    {
      var i := 0;
      while i < |rows|
        invariant 0 <= i <= |rows|
        invariant Intact(tables) && tables == Partial(db, t, i)
      {
        var j := if i + CHUNK < |rows| then i + CHUNK else |rows|;
        ChunkFits(db, t, i, j, rows[i..j]);
        ok := CreateMany(t, rows[i..j]);
        if !ok { return; }
        i := j;
      }
      ok := true;
    }

    /** The second pass: users one by one, those with references only; no update is refused. */
    method AttachUsers(users: seq<Row>, now: string, ghost db: Tables) returns (ok: bool)
      requires Intact(db) && users == Rows(db, User) && forall r :: r in users ==> "updatedAt" in r
      requires tables == Attached(db, 0, now)
      modifies this`tables
      ensures ok && Intact(tables) && tables == Attached(db, |users|, now)
    {
      AttachedIntact(db, 0, now);
      for n := 0 to |users|
        invariant Intact(tables) && tables == Attached(db, n, now)
      {
        AttachedIntact(db, n + 1, now);
        ok := AttachUser(users[n], n, now, db);
        if !ok { return; }
      }
      ok := true;
    }

    method AttachUser(user: Row, n: nat, now: string, ghost db: Tables) returns (ok: bool)
      requires Intact(db) && n < |Rows(db, User)| && user == Rows(db, User)[n] && "updatedAt" in user
      requires tables == Attached(db, n, now)
      modifies this`tables
      ensures ok && tables == Attached(db, n + 1, now)
    {
      var data := References(user);
      AttachOne(user, now);
      NextAttached(db, n, now);
      ok := true;
      if data != map[] {
        UserFound(db, n, now);
        AttachedRefs(db, n + 1, now, User, n);
        ok := UpdateUser(KeyOf(User, user), data, now);
      } else {
        AttachNothing(db, n, now);
      }
    }

    /** One table: decode it, leave out the deferred columns, load it. */
    method LoadNext(rows: seq<JsonRow>, t: Table, ghost db: Tables, ghost copy: Tables) returns (ok: bool)
      requires copy == Copies(schema, db) && Intact(copy) && rows == EncodeRows(Rows(db, t))
      requires Intact(tables) && tables == Partial(copy, t, 0)
      modifies this`tables
      ensures ok <==> RowsCopyable(schema, t, Rows(db, t))
      ensures ok ==> tables == Partial(copy, t, |FirstPass(copy, t)|)
      ensures Intact(tables)
    {
      DecodedRows(schema, t, Rows(db, t));
      var decoded := DecodeRows(schema, t, rows);
      if decoded.None? { return false; }
      DetachedRows(copy, t);
      ok := LoadTable(t, DetachAll(t, decoded.value), copy);
    }

    method LoadStage(snapshot: map<Table, seq<JsonRow>>, k: nat, now: string, ghost db: Tables, ghost copy: Tables)
      returns (ok: bool)
      requires copy == Copies(schema, db) && Intact(copy) && snapshot == SnapshotOf(db)
      requires k < |BACKUP_TABLES| && Intact(tables) && tables == Stage(copy, k, now) && CopyableUpTo(schema, db, k)
      modifies this`tables
      ensures ok ==> tables == Stage(copy, k + 1, now) && CopyableUpTo(schema, db, k + 1)
      ensures !ok ==> !AllCopyable(schema, db)
      ensures Intact(tables)
    {
      var t := BACKUP_TABLES[k];
      ok := LoadNext(snapshot[t], t, db, copy);
      if ok {
        NextStage(copy, k, now);
        NextCopyable(schema, db, k);
      } else {
        NotEveryTable(schema, db, t);
      }
    }

    /** The first pass. The first table that does not decode ends the call. */
    method LoadTables(snapshot: map<Table, seq<JsonRow>>, now: string, ghost db: Tables, ghost copy: Tables)
      returns (ok: bool)
      requires copy == Copies(schema, db) && Intact(copy) && snapshot == SnapshotOf(db)
      requires Intact(tables) && tables == Stage(copy, 0, now)
      modifies this`tables
      ensures ok <==> AllCopyable(schema, db)
      ensures ok ==> tables == Attached(copy, 0, now)
      ensures Intact(tables)
    {
      for k := 0 to |BACKUP_TABLES|
        invariant CopyableUpTo(schema, db, k)
        invariant Intact(tables) && tables == Stage(copy, k, now)
      {
        ok := LoadStage(snapshot, k, now, db, copy);
        if !ok { return; }
      }
      EveryTable(schema, db);
      ok := true;
    }

    /** Both passes. */
    method LoadAll(snapshot: map<Table, seq<JsonRow>>, now: string, ghost db: Tables) returns (ok: bool)
      requires SchemaOk(schema) && Valid(schema, db) && snapshot == SnapshotOf(db)
      requires forall t: Table :: t in tables && tables[t] == []
      modifies this`tables
      ensures ok <==> AllCopyable(schema, db)
      ensures ok ==> tables == Final(Copies(schema, db), now)
      ensures Intact(tables)
    {
      ghost var copy := Copies(schema, db);
      CopiesIntact(schema, db);
      EmptyStart(copy, tables);
      ok := LoadTables(snapshot, now, db, copy);
      if !ok { return; }
      assert RowsCopyable(schema, User, Rows(db, User));
      DecodedRows(schema, User, Rows(db, User));
      UsersStamped(schema, db);
      ok := AttachUsers(DecodeRows(schema, User, snapshot[User]).value, now, copy);
    }

    /** The counts before anything is written. */
    method IsEmpty() returns (empty: bool)
      ensures empty <==> forall t: Table :: Rows(tables, t) == []
    {
      for k := 0 to |BACKUP_TABLES|
        invariant forall t: Table :: Pos(t) < k ==> Rows(tables, t) == []
      {
        if Rows(tables, BACKUP_TABLES[k]) != [] { return false; }
        forall t: Table | Pos(t) == k ensures t == BACKUP_TABLES[k] { assert BACKUP_TABLES[Pos(t)] == t; }
      }
      empty := true;
    }

    /**
     * restoreSnapshot of what createSnapshot made of `db`. It refuses a database with rows in it or without the
     * snapshot's migrations; a failure rolls everything back; success leaves `Final` of the copies.
     */
    method Restore(snapshot: Snapshot, now: string, ghost db: Tables) returns (outcome: Outcome)
      requires SchemaOk(schema) && Valid(schema, db) && snapshot.tables == SnapshotOf(db)
      requires Complete(tables)
      modifies this`tables
      ensures outcome.NotEmpty? <==> !(forall t: Table :: Rows(old(tables), t) == [])
      ensures outcome.MissingMigrations? <==> !outcome.NotEmpty? && !(snapshot.migrations <= migrations)
      ensures outcome.Failed? ==> !AllCopyable(schema, db)
      ensures outcome.Restored? ==>
                AllCopyable(schema, db) && tables == Final(Copies(schema, db), now) && Intact(tables)
      ensures !outcome.Restored? ==> tables == old(tables)
    {
      var empty := IsEmpty();
      if !empty { return NotEmpty; }
      if !(snapshot.migrations <= migrations) { return MissingMigrations; }
      var before := tables;
      forall t: Table ensures tables[t] == [] { assert Rows(tables, t) == []; }
      var ok := LoadAll(snapshot.tables, now, db);
      if !ok {
        tables := before;
        return Failed;
      }
      return Outcome.Restored;
    }

    /**
     * Into an empty database with the migrations, the restore gives back exactly `db` if and only if the conditions
     * hold.
     */
    method RestoreFresh(snapshot: Snapshot, now: string, ghost db: Tables) returns (outcome: Outcome)
      requires SchemaOk(schema) && Valid(schema, db) && snapshot == Snapshot(migrations, SnapshotOf(db))
      requires Complete(tables) && forall t: Table :: Rows(tables, t) == []
      modifies this`tables
      ensures outcome.Restored? <==> AllCopyable(schema, db)
      ensures outcome.Restored? && tables == db <==> Unambiguous(db) && UsersUntouched(db, now)
    {
      RestoreIsExactIff(schema, db, now);
      outcome := Restore(snapshot, now, db);
    }
  }

  /** The tables when the first k have been loaded. */
  function Stage(db: Tables, k: nat, now: string): Tables
    requires k <= |BACKUP_TABLES|
  {
    if k < |BACKUP_TABLES| then Partial(db, BACKUP_TABLES[k], 0) else Attached(db, 0, now)
  }

  lemma NextStage(db: Tables, k: nat, now: string)
    requires k < |BACKUP_TABLES|
    ensures Partial(db, BACKUP_TABLES[k], |FirstPass(db, BACKUP_TABLES[k])|) == Stage(db, k + 1, now)
  {
    if k + 1 < |BACKUP_TABLES| { NextTable(db, k); } else { AttachedStarts(db, now); }
  }

  lemma NotEveryTable(sch: Schema, db: Tables, t: Table)
    requires !RowsCopyable(sch, t, Rows(db, t))
    ensures !AllCopyable(sch, db)
  {
    var i :| 0 <= i < |Rows(db, t)| && !Copyable(sch, t, Rows(db, t)[i]);
  }
}
