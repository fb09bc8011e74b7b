/** createSnapshot, restoreSnapshot, and when the second gives back exactly what the first saw. */
module BackupRestore {
  import opened Options
  import opened BackupCells
  import opened Backup

  /** The column types of each table. */
  type Schema = Table -> map<Column, Kind>

  type JsonRow = map<Column, Json>

  datatype Snapshot = Snapshot(migrations: set<string>, tables: map<Table, seq<JsonRow>>)

  predicate HasColumn(sch: Schema, t: Table, c: Column) { c in sch(t) && !sch(t)[c].JsonKind? }

  /** Keys and references are not JSON columns, and users carry an updatedAt. */
  ghost predicate SchemaOk(sch: Schema) {
    && (forall t: Table :: HasColumn(sch, t, PrimaryKey(t)))
    && (forall f :: 0 <= f < |FOREIGN_KEYS| ==> HasColumn(sch, FOREIGN_KEYS[f].table, FOREIGN_KEYS[f].column))
    && HasColumn(sch, User, "updatedAt")
  }

  predicate Typed(sch: Schema, t: Table, r: Row) {
    r.Keys == sch(t).Keys && forall c :: c in r ==> HasKind(r[c], sch(t)[c])
  }

  /** A database that could exist: every row of its column types, distinct keys, no dangling reference. */
  ghost predicate Valid(sch: Schema, db: Tables) {
    && Complete(db) && Intact(db)
    && forall t: Table, i {:trigger Rows(db, t)[i]} :: 0 <= i < |Rows(db, t)| ==> Typed(sch, t, Rows(db, t)[i])
  }

  function EncodeRow(r: Row): JsonRow { map c | c in r :: Encode(r[c]) }

  function EncodeRows(rows: seq<Row>): seq<JsonRow> { seq(|rows|, i requires 0 <= i < |rows| => EncodeRow(rows[i])) }

  predicate Storable(sch: Schema, t: Table, j: JsonRow) {
    forall c :: c in j ==> c in sch(t) && Store(sch(t)[c], Decode(j[c])).Some?
  }

  function DecodeRow(sch: Schema, t: Table, j: JsonRow): Row
    requires Storable(sch, t, j)
  {
    map c | c in j :: Store(sch(t)[c], Decode(j[c])).value
  }

  /** The row survives being written and read. */
  predicate Copyable(sch: Schema, t: Table, r: Row) { Storable(sch, t, EncodeRow(r)) }

  function CopyCell(sch: Schema, t: Table, c: Column, cell: Cell): Cell {
    if c in sch(t) && Restored(sch(t)[c], cell).Some? then Restored(sch(t)[c], cell).value else cell
  }

  /** The row a restore makes of a row, if it makes one. */
  function Copy(sch: Schema, t: Table, r: Row): Row { map c | c in r :: CopyCell(sch, t, c, r[c]) }

  predicate AllCopyable(sch: Schema, db: Tables) {
    forall t: Table, i {:trigger Rows(db, t)[i]} :: 0 <= i < |Rows(db, t)| ==> Copyable(sch, t, Rows(db, t)[i])
  }

  function CopyRows(sch: Schema, t: Table, rows: seq<Row>): seq<Row> {
    seq(|rows|, i requires 0 <= i < |rows| => Copy(sch, t, rows[i]))
  }

  function Copies(sch: Schema, db: Tables): Tables { map t: Table | true :: CopyRows(sch, t, Rows(db, t)) }

  // --- Rows -----------------------------------------------------------------------------------------

  predicate AmbiguousIn(r: Row) { exists c :: c in r && Ambiguous(r[c]) }

  lemma CopiedCell(sch: Schema, t: Table, r: Row, c: Column)
    requires Typed(sch, t, r) && c in r
    ensures Copyable(sch, t, r) ==> Restored(sch(t)[c], r[c]) == Some(Copy(sch, t, r)[c])
    ensures HasColumn(sch, t, c) ==> Restored(sch(t)[c], r[c]) == Some(r[c]) && Copy(sch, t, r)[c] == r[c]
  {
    KindSurvives(sch(t)[c], r[c]);
    if Copyable(sch, t, r) { assert c in EncodeRow(r); }
  }

  /** What decodeValue and the columns make of an encoded row is its copy. */
  lemma DecodedIsCopy(sch: Schema, t: Table, r: Row)
    requires Copyable(sch, t, r)
    ensures DecodeRow(sch, t, EncodeRow(r)) == Copy(sch, t, r)
  {
    forall c | c in r ensures DecodeRow(sch, t, EncodeRow(r))[c] == Copy(sch, t, r)[c] { assert c in EncodeRow(r); }
  }

  /** A row is copied exactly as it was unless one of its JSON documents is ambiguous; then it never is. */
  lemma RowComesBackIff(sch: Schema, t: Table, r: Row)
    requires Typed(sch, t, r)
    ensures Copyable(sch, t, r) && Copy(sch, t, r) == r <==> !AmbiguousIn(r)
  {
    forall c | c in r
      ensures Restored(sch(t)[c], r[c]) == Some(r[c]) <==> !Ambiguous(r[c])
    {
      CellComesBackIff(sch(t)[c], r[c]);
    }
    if !AmbiguousIn(r) {
      forall c | c in EncodeRow(r) ensures c in sch(t) && Store(sch(t)[c], Decode(EncodeRow(r)[c])) == Some(r[c]) {
        assert Restored(sch(t)[c], r[c]) == Some(r[c]);
      }
      assert Copyable(sch, t, r);
      assert Copy(sch, t, r) == r;
    } else {
      var c :| c in r && Ambiguous(r[c]);
      CopiedCell(sch, t, r, c);
    }
  }

  /** The copy of a row has its keys and references. */
  lemma CopyKeepsReferences(sch: Schema, t: Table, r: Row)
    requires SchemaOk(sch) && Typed(sch, t, r)
    ensures KeyOf(t, Copy(sch, t, r)) == KeyOf(t, r)
    ensures forall f :: 0 <= f < |FOREIGN_KEYS| && FOREIGN_KEYS[f].table == t ==>
              FOREIGN_KEYS[f].column in r && FOREIGN_KEYS[f].column in Copy(sch, t, r)
              && Copy(sch, t, r)[FOREIGN_KEYS[f].column] == r[FOREIGN_KEYS[f].column]
    ensures t == User ==>
              "updatedAt" in r && "updatedAt" in Copy(sch, t, r) && Copy(sch, t, r)["updatedAt"] == r["updatedAt"]
  {
    assert HasColumn(sch, t, PrimaryKey(t));
    CopiedCell(sch, t, r, PrimaryKey(t));
    forall f | 0 <= f < |FOREIGN_KEYS| && FOREIGN_KEYS[f].table == t
      ensures FOREIGN_KEYS[f].column in r && FOREIGN_KEYS[f].column in Copy(sch, t, r)
      ensures Copy(sch, t, r)[FOREIGN_KEYS[f].column] == r[FOREIGN_KEYS[f].column]
    {
      assert HasColumn(sch, t, FOREIGN_KEYS[f].column);
      CopiedCell(sch, t, r, FOREIGN_KEYS[f].column);
    }
    if t == User { CopiedCell(sch, t, r, "updatedAt"); }
  }

  lemma CopiesIntact(sch: Schema, db: Tables)
    requires SchemaOk(sch) && Valid(sch, db)
    ensures Intact(Copies(sch, db))
  {
    var copy := Copies(sch, db);
    forall t: Table, i | 0 <= i < |Rows(db, t)| ensures KeyOf(t, Rows(copy, t)[i]) == KeyOf(t, Rows(db, t)[i]) {
      CopyKeepsReferences(sch, t, Rows(db, t)[i]);
    }
    forall t: Table ensures DistinctKeys(t, Rows(copy, t)) { assert DistinctKeys(t, Rows(db, t)); }
    forall t: Table, i | 0 <= i < |Rows(copy, t)| ensures RefsOk(copy, t, Rows(copy, t)[i]) {
      var r := Rows(db, t)[i];
      CopyKeepsReferences(sch, t, r);
      assert RefsOk(db, t, r);
      CopiedRefs(sch, db, t, r);
    }
  }

  lemma CopiedRefs(sch: Schema, db: Tables, t: Table, r: Row)
    requires SchemaOk(sch) && Typed(sch, t, r) && RefsOk(db, t, r)
    requires forall u: Table, i ::
               0 <= i < |Rows(db, u)| ==> KeyOf(u, Rows(Copies(sch, db), u)[i]) == KeyOf(u, Rows(db, u)[i])
    ensures RefsOk(Copies(sch, db), t, Copy(sch, t, r))
  {
    var copy, q := Copies(sch, db), Copy(sch, t, r);
    CopyKeepsReferences(sch, t, r);
    forall f | 0 <= f < |FOREIGN_KEYS| && FOREIGN_KEYS[f].table == t ensures RefOk(copy, q, FOREIGN_KEYS[f]) {
      var fk := FOREIGN_KEYS[f];
      assert RefOk(db, r, fk);
      if !q[fk.column].Null? {
        var k :| 0 <= k < |Rows(db, fk.target)| && KeyOf(fk.target, Rows(db, fk.target)[k]) == r[fk.column];
        assert KeyOf(fk.target, Rows(copy, fk.target)[k]) == q[fk.column];
      }
    }
  }

  // --- When the restored database is the original ---------------------------------------------------------

  /** What a restore leaves: every row copied, and users with references stamped with the time of the restore. */
  function Final(copy: Tables, now: string): Tables { Attached(copy, |Rows(copy, User)|, now) }

  predicate Unambiguous(db: Tables) {
    forall t: Table, i {:trigger Rows(db, t)[i]} :: 0 <= i < |Rows(db, t)| ==> !AmbiguousIn(Rows(db, t)[i])
  }

  /** No user refers to another user or to a file, or it was last changed at the very moment of the restore. */
  predicate UsersUntouched(db: Tables, now: string) {
    forall i {:trigger Rows(db, User)[i]} :: 0 <= i < |Rows(db, User)| ==>
      RefersOn(Rows(db, User)[i]) ==> "updatedAt" in Rows(db, User)[i] && Rows(db, User)[i]["updatedAt"] == Date(now)
  }

  lemma FinalRow(copy: Tables, now: string, t: Table, i: nat)
    requires i < |Rows(copy, t)| && (t == User ==> "updatedAt" in Rows(copy, t)[i])
    ensures |Rows(Final(copy, now), t)| == |Rows(copy, t)|
    ensures Rows(Final(copy, now), t)[i] == if t == User then Touched(Rows(copy, t)[i], now) else Rows(copy, t)[i]
  {
  }

  /** Row by row: the restored row is the original exactly if nothing in it is ambiguous and it needs no second pass. */
  lemma RestoredRowIff(sch: Schema, t: Table, r: Row, now: string)
    requires SchemaOk(sch) && Typed(sch, t, r) && Copyable(sch, t, r)
    ensures (if t == User then Touched(Copy(sch, t, r), now) else Copy(sch, t, r)) == r
            <==> !AmbiguousIn(r) && (t == User && RefersOn(r) ==> "updatedAt" in r && r["updatedAt"] == Date(now))
  {
    RowComesBackIff(sch, t, r);
    CopyKeepsReferences(sch, t, r);
    if t == User { TouchedIff(sch, r, now); }
  }

  lemma TouchedIff(sch: Schema, r: Row, now: string)
    requires SchemaOk(sch) && Typed(sch, User, r) && Copyable(sch, User, r)
    ensures Touched(Copy(sch, User, r), now) == r
            <==> Copy(sch, User, r) == r && (RefersOn(r) ==> "updatedAt" in r && r["updatedAt"] == Date(now))
  {
    CopyKeepsReferences(sch, User, r);
    SameReferences(sch, r);
    StampIff(Copy(sch, User, r), r, "updatedAt", Date(now));
  }

  lemma StampIff(q: Row, r: Row, c: Column, stamp: Cell)
    requires c in q && c in r && q[c] == r[c]
    ensures q[c := stamp] == r <==> q == r && r[c] == stamp
  {
    if q[c := stamp] == r {
      assert r[c] == stamp;
      assert q[c := q[c]] == q;
    }
  }

  lemma DeferredIsColumn(sch: Schema, c: Column)
    requires SchemaOk(sch) && c in USER_DEFERRED_COLUMNS
    ensures HasColumn(sch, User, c)
  {
    assert FOREIGN_KEYS[0].column == "createdById" && FOREIGN_KEYS[1].column == "teamLeadId";
    assert FOREIGN_KEYS[2].column == "avatarFileId";
    var f := if c == "createdById" then 0 else if c == "teamLeadId" then 1 else 2;
    assert FOREIGN_KEYS[f].table == User && FOREIGN_KEYS[f].column == c;
  }

  lemma SameReferences(sch: Schema, r: Row)
    requires SchemaOk(sch) && Typed(sch, User, r) && Copyable(sch, User, r)
    ensures RefersOn(Copy(sch, User, r)) <==> RefersOn(r)
  {
    var q := Copy(sch, User, r);
    forall c | c in USER_DEFERRED_COLUMNS ensures c in r && c in q && q[c] == r[c] {
      DeferredIsColumn(sch, c);
      CopiedCell(sch, User, r, c);
    }
    SameIn(q, r);
  }

  lemma SameIn(q: Row, r: Row)
    requires forall c :: c in USER_DEFERRED_COLUMNS ==> c in r && c in q && q[c] == r[c]
    ensures RefersOn(q) <==> RefersOn(r)
  {
  }

  lemma CopyTable(sch: Schema, db: Tables, t: Table, i: nat)
    requires i < |Rows(db, t)|
    ensures |Rows(Copies(sch, db), t)| == |Rows(db, t)| && Rows(Copies(sch, db), t)[i] == Copy(sch, t, Rows(db, t)[i])
  {
  }

  /**
   * Restoring a snapshot gives back exactly the original rows if and only if no JSON document is ambiguous and no
   * user needs the second pass: that pass cannot leave a user's updatedAt as it was.
   */
  lemma RestoreIsExactIff(sch: Schema, db: Tables, now: string)
    requires SchemaOk(sch) && Valid(sch, db)
    ensures AllCopyable(sch, db) && Final(Copies(sch, db), now) == db <==> Unambiguous(db) && UsersUntouched(db, now)
  {
    forall t: Table, i | 0 <= i < |Rows(db, t)|
      ensures Copyable(sch, t, Rows(db, t)[i]) || AmbiguousIn(Rows(db, t)[i])
    {
      RowComesBackIff(sch, t, Rows(db, t)[i]);
    }
    if AllCopyable(sch, db) { ExactIff(sch, db, now); }
  }

  ghost predicate RowExact(sch: Schema, db: Tables, now: string, t: Table, i: nat)
    requires i < |Rows(db, t)|
  {
    (if t == User then Touched(Copy(sch, t, Rows(db, t)[i]), now) else Copy(sch, t, Rows(db, t)[i])) == Rows(db, t)[i]
  }

  lemma ExactIff(sch: Schema, db: Tables, now: string)
    requires SchemaOk(sch) && Valid(sch, db) && AllCopyable(sch, db)
    ensures Final(Copies(sch, db), now) == db <==> Unambiguous(db) && UsersUntouched(db, now)
  {
    var end := Final(Copies(sch, db), now);
    forall t: Table, i | 0 <= i < |Rows(db, t)|
      ensures |Rows(end, t)| == |Rows(db, t)| && (Rows(end, t)[i] == Rows(db, t)[i] <==> RowExact(sch, db, now, t, i))
      ensures RowExact(sch, db, now, t, i) <==>
              !AmbiguousIn(Rows(db, t)[i])
              && (t == User && RefersOn(Rows(db, t)[i]) ==>
                    "updatedAt" in Rows(db, t)[i] && Rows(db, t)[i]["updatedAt"] == Date(now))
    {
      CopyTable(sch, db, t, i);
      CopyKeepsReferences(sch, t, Rows(db, t)[i]);
      FinalRow(Copies(sch, db), now, t, i);
      RestoredRowIff(sch, t, Rows(db, t)[i], now);
    }
    SameTables(end, db);
  }

  lemma SameTables(a: Tables, b: Tables)
    requires Complete(a) && Complete(b)
    ensures a == b <==> forall t: Table :: Rows(a, t) == Rows(b, t)
  {
    if forall t: Table :: Rows(a, t) == Rows(b, t) {
      forall t: Table ensures a[t] == b[t] { assert Rows(a, t) == Rows(b, t); }
      assert a.Keys == b.Keys;
    }
  }
}
