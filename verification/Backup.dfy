/**
 * Snapshot and restore of the whole database (src/backups/backup-snapshot.ts) with the foreign keys of
 * prisma/schema.prisma. A table is the sequence of its rows in the order findMany returns them.
 */
module Backup {
  import opened Options
  import opened BackupCells

  datatype Table =
    | User | StoredFile | ConsentRecord | PendingAction | Booking | Lead | Contract | Shift | DayOff
    | PayrollSettings | PayrollEntry | Transaction | AccountingPeriod | DailyReport | AuditEvent

  /** In the order of the restore. */
  const BACKUP_TABLES: seq<Table> := [
    User, StoredFile, ConsentRecord, PendingAction, Booking, Lead, Contract, Shift, DayOff,
    PayrollSettings, PayrollEntry, Transaction, AccountingPeriod, DailyReport, AuditEvent]

  function Pos(t: Table): (k: nat)
    ensures k < |BACKUP_TABLES| && BACKUP_TABLES[k] == t
  {
    match t
    case User => 0
    case StoredFile => 1
    case ConsentRecord => 2
    case PendingAction => 3
    case Booking => 4
    case Lead => 5
    case Contract => 6
    case Shift => 7
    case DayOff => 8
    case PayrollSettings => 9
    case PayrollEntry => 10
    case Transaction => 11
    case AccountingPeriod => 12
    case DailyReport => 13
    case AuditEvent => 14
  }

  type Column = string
  type Row = map<Column, Cell>
  type Tables = map<Table, seq<Row>>

  datatype ForeignKey = ForeignKey(table: Table, column: Column, target: Table)

  const FOREIGN_KEYS: seq<ForeignKey> := [
    ForeignKey(User, "createdById", User),
    ForeignKey(User, "teamLeadId", User),
    ForeignKey(User, "avatarFileId", StoredFile),
    ForeignKey(StoredFile, "uploadedById", User),
    ForeignKey(ConsentRecord, "userId", User),
    ForeignKey(PendingAction, "initiatorUserId", User),
    ForeignKey(PendingAction, "confirmedByUserId", User),
    ForeignKey(PendingAction, "rejectedByUserId", User),
    ForeignKey(Booking, "managerId", User),
    ForeignKey(Lead, "createdById", User),
    ForeignKey(Lead, "assignedManagerId", User),
    ForeignKey(Lead, "bookingId", Booking),
    ForeignKey(Contract, "bookingId", Booking),
    ForeignKey(Contract, "contractFileId", StoredFile),
    ForeignKey(Contract, "managerId", User),
    ForeignKey(Shift, "userId", User),
    ForeignKey(DayOff, "userId", User),
    ForeignKey(DayOff, "approvedById", User),
    ForeignKey(PayrollEntry, "userId", User),
    ForeignKey(Transaction, "attachmentFileId", StoredFile),
    ForeignKey(Transaction, "relatedContractId", Contract),
    ForeignKey(Transaction, "createdById", User),
    ForeignKey(DailyReport, "sourceShiftId", Shift),
    ForeignKey(AuditEvent, "actorUserId", User)]

  /** Written in the second pass. */
  const USER_DEFERRED_COLUMNS: set<Column> := {"createdById", "teamLeadId", "avatarFileId"}

  /** The order of the tables serves every key that is not deferred. */
  lemma OrderServesTheKeys()
    ensures forall i :: 0 <= i < |FOREIGN_KEYS| ==>
              || Pos(FOREIGN_KEYS[i].target) < Pos(FOREIGN_KEYS[i].table)
              || (FOREIGN_KEYS[i].table == User && FOREIGN_KEYS[i].column in USER_DEFERRED_COLUMNS)
  {
  }

  function PrimaryKey(t: Table): Column { if t == AccountingPeriod then "period" else "id" }

  function KeyOf(t: Table, r: Row): Cell { if PrimaryKey(t) in r then r[PrimaryKey(t)] else Null }

  function Rows(db: Tables, t: Table): seq<Row> { if t in db then db[t] else [] }

  // --- Referential integrity -----------------------------------------------------------------------

  predicate HasKey(rows: seq<Row>, t: Table, key: Cell) { exists i :: 0 <= i < |rows| && KeyOf(t, rows[i]) == key }

  predicate RefOk(db: Tables, r: Row, fk: ForeignKey) {
    fk.column in r && (r[fk.column].Null? || HasKey(Rows(db, fk.target), fk.target, r[fk.column]))
  }

  predicate RefsOk(db: Tables, t: Table, r: Row) {
    forall i :: 0 <= i < |FOREIGN_KEYS| && FOREIGN_KEYS[i].table == t ==> RefOk(db, r, FOREIGN_KEYS[i])
  }

  predicate DistinctKeys(t: Table, rows: seq<Row>) {
    forall i, j :: 0 <= i < j < |rows| ==> KeyOf(t, rows[i]) != KeyOf(t, rows[j])
  }

  /** What the database enforces at the end of every statement. */
  ghost predicate Intact(db: Tables) {
    && (forall t: Table {:trigger Rows(db, t)} :: DistinctKeys(t, Rows(db, t)))
    && (forall t: Table, i {:trigger Rows(db, t)[i]} :: 0 <= i < |Rows(db, t)| ==> RefsOk(db, t, Rows(db, t)[i]))
  }

  predicate Complete(db: Tables) { forall t: Table :: t in db }

  function WithRows(db: Tables, t: Table, rows: seq<Row>): Tables { db[t := rows] }

  predicate Insertable(db: Tables, t: Table, rows: seq<Row>) {
    && DistinctKeys(t, Rows(db, t) + rows)
    && forall i {:trigger rows[i]} :: 0 <= i < |rows| ==> RefsOk(WithRows(db, t, Rows(db, t) + rows), t, rows[i])
  }

  lemma MoreRowsKeepRefs(db: Tables, t: Table, rows: seq<Row>, u: Table, r: Row)
    requires RefsOk(db, u, r)
    ensures RefsOk(WithRows(db, t, Rows(db, t) + rows), u, r)
  {
    var more := WithRows(db, t, Rows(db, t) + rows);
    forall i | 0 <= i < |FOREIGN_KEYS| && FOREIGN_KEYS[i].table == u ensures RefOk(more, r, FOREIGN_KEYS[i]) {
      var fk := FOREIGN_KEYS[i];
      assert RefOk(db, r, fk);
      if !r[fk.column].Null? {
        var k :| 0 <= k < |Rows(db, fk.target)| && KeyOf(fk.target, Rows(db, fk.target)[k]) == r[fk.column];
        assert Rows(more, fk.target)[k] == Rows(db, fk.target)[k];
      }
    }
  }

  lemma InsertKeepsIntact(db: Tables, t: Table, rows: seq<Row>)
    requires Intact(db) && Insertable(db, t, rows)
    ensures Intact(WithRows(db, t, Rows(db, t) + rows))
  {
    var more := WithRows(db, t, Rows(db, t) + rows);
    forall u: Table ensures DistinctKeys(u, Rows(more, u)) { assert DistinctKeys(u, Rows(db, u)); }
    forall u: Table, i | 0 <= i < |Rows(more, u)| ensures RefsOk(more, u, Rows(more, u)[i]) {
      if u == t && i >= |Rows(db, t)| {
        assert Rows(more, u)[i] == rows[i - |Rows(db, t)|];
      } else {
        assert Rows(more, u)[i] == Rows(db, u)[i];
        MoreRowsKeepRefs(db, t, rows, u, Rows(db, u)[i]);
      }
    }
  }

  // --- First pass: all rows, user references left out -------------------------------------------------

  function Detached(r: Row): Row { map c | c in r :: if c in USER_DEFERRED_COLUMNS then Null else r[c] }

  function FirstPassRow(t: Table, r: Row): Row { if t == User then Detached(r) else r }

  function FirstPass(db: Tables, t: Table): seq<Row> {
    seq(|Rows(db, t)|, i requires 0 <= i < |Rows(db, t)| => FirstPassRow(t, Rows(db, t)[i]))
  }

  /** The tables when those before t are loaded and t itself up to row i. */
  function Partial(db: Tables, t: Table, i: nat): Tables
    requires i <= |FirstPass(db, t)|
  {
    map u: Table | true :: if Pos(u) < Pos(t) then FirstPass(db, u) else if u == t then FirstPass(db, t)[..i] else []
  }

  lemma FirstPassKey(db: Tables, t: Table, i: nat)
    requires i < |Rows(db, t)|
    ensures KeyOf(t, FirstPass(db, t)[i]) == KeyOf(t, Rows(db, t)[i])
  {
  }

  lemma FirstPassDistinct(db: Tables, t: Table)
    requires DistinctKeys(t, Rows(db, t))
    ensures DistinctKeys(t, FirstPass(db, t))
  {
    var rows := FirstPass(db, t);
    forall i, j | 0 <= i < j < |rows| ensures KeyOf(t, rows[i]) != KeyOf(t, rows[j]) {
      FirstPassKey(db, t, i);
      FirstPassKey(db, t, j);
    }
  }

  lemma HasFirstPassKey(db: Tables, t: Table, key: Cell)
    requires HasKey(Rows(db, t), t, key)
    ensures HasKey(FirstPass(db, t), t, key)
  {
    var k :| 0 <= k < |Rows(db, t)| && KeyOf(t, Rows(db, t)[k]) == key;
    FirstPassKey(db, t, k);
  }

  /** A row finds everything it refers to among the tables before its own. */
  lemma EarlierTablesSuffice(db: Tables, late: Tables, t: Table, i: nat)
    requires Intact(db) && i < |Rows(db, t)|
    requires forall u: Table :: Pos(u) < Pos(t) ==> Rows(late, u) == FirstPass(db, u)
    ensures RefsOk(late, t, FirstPass(db, t)[i])
  {
    var r := Rows(db, t)[i];
    OrderServesTheKeys();
    forall f | 0 <= f < |FOREIGN_KEYS| && FOREIGN_KEYS[f].table == t ensures RefOk(late, FirstPassRow(t, r),
      FOREIGN_KEYS[f]) {
      var fk := FOREIGN_KEYS[f];
      assert RefOk(db, r, fk);
      if !(t == User && fk.column in USER_DEFERRED_COLUMNS) {
        assert FirstPassRow(t, r)[fk.column] == r[fk.column];
        if !r[fk.column].Null? { HasFirstPassKey(db, fk.target, r[fk.column]); }
      }
    }
  }

  lemma PartialGrows(db: Tables, t: Table, i: nat, j: nat)
    requires i <= j <= |FirstPass(db, t)|
    ensures WithRows(Partial(db, t, i), t, FirstPass(db, t)[..j]) == Partial(db, t, j)
  {
    var a, b, rows := Partial(db, t, i), Partial(db, t, j), FirstPass(db, t)[..j];
    forall u: Table | u != t ensures a[u] == b[u] {}
    assert b[t] == rows;
    SameBut(a, b, t, rows);
  }

  lemma SameBut(a: Tables, b: Tables, t: Table, rows: seq<Row>)
    requires Complete(a) && Complete(b) && b[t] == rows && forall u: Table :: u != t ==> a[u] == b[u]
    ensures WithRows(a, t, rows) == b
  {
  }

  lemma PrefixDistinct(t: Table, rows: seq<Row>, j: nat)
    requires DistinctKeys(t, rows) && j <= |rows|
    ensures DistinctKeys(t, rows[..j])
  {
  }

  /** Adding the rows from i to j takes the tables from one partial state to the next. */
  lemma ChunkGrows(db: Tables, t: Table, i: nat, j: nat)
    requires i <= j <= |FirstPass(db, t)|
    ensures Rows(Partial(db, t, i), t) + FirstPass(db, t)[i..j] == FirstPass(db, t)[..j]
    ensures WithRows(Partial(db, t, i), t, Rows(Partial(db, t, i), t) + FirstPass(db, t)[i..j]) == Partial(db, t, j)
  {
    PartialGrows(db, t, i, j);
    var all := FirstPass(db, t);
    assert Rows(Partial(db, t, i), t) == all[..i];
    assert all[..i] + all[i..j] == all[..j];
  }

  lemma ChunkDistinct(db: Tables, t: Table, j: nat)
    requires Intact(db) && j <= |FirstPass(db, t)|
    ensures DistinctKeys(t, Rows(Partial(db, t, j), t))
  {
    assert DistinctKeys(t, Rows(db, t));
    FirstPassDistinct(db, t);
    PrefixDistinct(t, FirstPass(db, t), j);
    assert Rows(Partial(db, t, j), t) == FirstPass(db, t)[..j];
  }

  lemma FitsIf(db: Tables, t: Table, rows: seq<Row>, next: Tables)
    requires next == WithRows(db, t, Rows(db, t) + rows) && DistinctKeys(t, Rows(next, t))
    requires forall i {:trigger rows[i]} :: 0 <= i < |rows| ==> RefsOk(next, t, rows[i])
    ensures Insertable(db, t, rows)
  {
  }

  lemma ChunkFits(db: Tables, t: Table, i: nat, j: nat, chunk: seq<Row>)
    requires Intact(db) && i <= j <= |FirstPass(db, t)| && chunk == FirstPass(db, t)[i..j]
    ensures Insertable(Partial(db, t, i), t, chunk)
    ensures WithRows(Partial(db, t, i), t, Rows(Partial(db, t, i), t) + chunk) == Partial(db, t, j)
  {
    ChunkGrows(db, t, i, j);
    ChunkDistinct(db, t, j);
    EarlierRows(db, t, j);
    ChunkRefs(db, t, i, j, Partial(db, t, j));
    FitsIf(Partial(db, t, i), t, chunk, Partial(db, t, j));
  }

  lemma EarlierRows(db: Tables, t: Table, j: nat)
    requires j <= |FirstPass(db, t)|
    ensures forall u: Table :: Pos(u) < Pos(t) ==> Rows(Partial(db, t, j), u) == FirstPass(db, u)
  {
  }

  lemma ChunkRefs(db: Tables, t: Table, i: nat, j: nat, late: Tables)
    requires Intact(db) && i <= j <= |FirstPass(db, t)|
    requires forall u: Table :: Pos(u) < Pos(t) ==> Rows(late, u) == FirstPass(db, u)
    ensures forall x {:trigger FirstPass(db, t)[i..j][x]} ::
              0 <= x < j - i ==> RefsOk(late, t, FirstPass(db, t)[i..j][x])
  {
    var all := FirstPass(db, t);
    forall x | 0 <= x < j - i
      ensures RefsOk(late, t, all[i..j][x])
    {
      assert all[i..j][x] == all[i + x];
      EarlierTablesSuffice(db, late, t, i + x);
    }
  }

  lemma SamePosition(t: Table, u: Table)
    requires Pos(t) == Pos(u)
    ensures t == u
  {
    assert BACKUP_TABLES[Pos(t)] == t && BACKUP_TABLES[Pos(u)] == u;
  }

  lemma PosOfOrder(k: nat)
    requires k < |BACKUP_TABLES|
    ensures Pos(BACKUP_TABLES[k]) == k
  {
  }

  lemma NextTable(db: Tables, k: nat)
    requires k + 1 < |BACKUP_TABLES|
    ensures Partial(db, BACKUP_TABLES[k], |FirstPass(db, BACKUP_TABLES[k])|) == Partial(db, BACKUP_TABLES[k + 1], 0)
  {
    PosOfOrder(k);
    PosOfOrder(k + 1);
    NextPartial(db, BACKUP_TABLES[k], BACKUP_TABLES[k + 1]);
  }

  lemma NextPartial(db: Tables, t: Table, next: Table)
    requires Pos(next) == Pos(t) + 1
    ensures Partial(db, t, |FirstPass(db, t)|) == Partial(db, next, 0)
  {
    var a, b := Partial(db, t, |FirstPass(db, t)|), Partial(db, next, 0);
    forall u: Table ensures a[u] == b[u] { NextAt(db, t, next, u); }
    SameMap(a, b);
  }

  lemma NextAt(db: Tables, t: Table, next: Table, u: Table)
    requires Pos(next) == Pos(t) + 1
    ensures Partial(db, t, |FirstPass(db, t)|)[u] == Partial(db, next, 0)[u]
  {
    if Pos(u) == Pos(t) {
      SamePosition(u, t);
      assert FirstPass(db, t)[..|FirstPass(db, t)|] == FirstPass(db, t);
    }
  }

  lemma SameMap(a: Tables, b: Tables)
    requires Complete(a) && Complete(b) && forall t: Table :: a[t] == b[t]
    ensures a == b
  {
  }

  // --- Second pass: the references of users ----------------------------------------------------------------

  predicate RefersOn(r: Row) { exists c :: c in USER_DEFERRED_COLUMNS && c in r && !r[c].Null? }

  /** update where id: the named columns, and updatedAt, which the client sets itself. */
  function Touched(r: Row, now: string): Row { if RefersOn(r) then r["updatedAt" := Date(now)] else r }

  function TouchedUsers(db: Tables, now: string): seq<Row> {
    seq(|Rows(db, User)|, i requires 0 <= i < |Rows(db, User)| => Touched(Rows(db, User)[i], now))
  }

  /** The tables when the first n users are done. */
  function Attached(db: Tables, n: nat, now: string): Tables
    requires n <= |Rows(db, User)|
  {
    map t: Table | true :: if t == User then TouchedUsers(db, now)[..n] + FirstPass(db, User)[n..] else FirstPass(db, t)
  }

  /** The values the second pass writes. */
  function References(r: Row): Row { map c | c in r && c in USER_DEFERRED_COLUMNS && !r[c].Null? :: r[c] }

  function Updated(r: Row, data: Row, now: string): Row { r + data + map["updatedAt" := Date(now)] }

  lemma AttachOne(r: Row, now: string)
    requires "updatedAt" in r
    ensures RefersOn(r) ==> References(r) != map[] && Updated(Detached(r), References(r), now) == Touched(r, now)
    ensures !RefersOn(r) ==> References(r) == map[] && Detached(r) == Touched(r, now)
  {
    assert References(r) != map[] ==> RefersOn(r) by {
      if References(r) != map[] {
        var c :| c in References(r);
        assert c in USER_DEFERRED_COLUMNS && c in r && !r[c].Null?;
      }
    }
    if RefersOn(r) {
      var d :| d in USER_DEFERRED_COLUMNS && d in r && !r[d].Null?;
      assert d in References(r);
      var a, b := Updated(Detached(r), References(r), now), Touched(r, now);
      forall c ensures c in a <==> c in b {}
      forall c | c in a
        ensures a[c] == b[c]
      {
        if c in USER_DEFERRED_COLUMNS && c !in References(r) { assert r[c].Null?;
        }
      }
      assert a == b;
    } else {
      forall c | c in r ensures Detached(r)[c] == r[c] {}
      assert Detached(r) == r;
    }
  }

  lemma AttachedStarts(db: Tables, now: string)
    ensures Partial(db, AuditEvent, |FirstPass(db, AuditEvent)|) == Attached(db, 0, now)
  {
    var a, b := Partial(db, AuditEvent, |FirstPass(db, AuditEvent)|), Attached(db, 0, now);
    forall u: Table ensures a[u] == b[u] { StartsAt(db, now, u); }
    SameMap(a, b);
  }

  lemma StartsAt(db: Tables, now: string, u: Table)
    ensures Partial(db, AuditEvent, |FirstPass(db, AuditEvent)|)[u] == FirstPass(db, u) == Attached(db, 0, now)[u]
  {
    if Pos(u) == Pos(AuditEvent) {
      SamePosition(u, AuditEvent);
      assert FirstPass(db, u)[..|FirstPass(db, u)|] == FirstPass(db, u);
    }
    if u == User { assert TouchedUsers(db, now)[..0] + FirstPass(db, User)[0..] == FirstPass(db, User); }
  }

  lemma AttachedKey(db: Tables, n: nat, now: string, t: Table, i: nat)
    requires n <= |Rows(db, User)| && i < |Rows(db, t)|
    ensures |Rows(Attached(db, n, now), t)| == |Rows(db, t)|
    ensures KeyOf(t, Rows(Attached(db, n, now), t)[i]) == KeyOf(t, Rows(db, t)[i])
  {
    FirstPassKey(db, t, i);
  }

  lemma AttachedIntact(db: Tables, n: nat, now: string)
    requires Intact(db) && n <= |Rows(db, User)|
    ensures Intact(Attached(db, n, now))
  {
    var a := Attached(db, n, now);
    forall t: Table ensures DistinctKeys(t, Rows(a, t)) {
      assert DistinctKeys(t, Rows(db, t));
      assert |Rows(a, t)| == |Rows(db, t)|;
      forall i, j | 0 <= i < j < |Rows(a, t)| ensures KeyOf(t, Rows(a, t)[i]) != KeyOf(t, Rows(a, t)[j]) {
        AttachedKey(db, n, now, t, i);
        AttachedKey(db, n, now, t, j);
      }
    }
    forall t: Table, i | 0 <= i < |Rows(a, t)| ensures RefsOk(a, t, Rows(a, t)[i]) {
      assert RefsOk(db, t, Rows(db, t)[i]);
      AttachedRefs(db, n, now, t, i);
    }
  }

  lemma AttachedRefs(db: Tables, n: nat, now: string, t: Table, i: nat)
    requires n <= |Rows(db, User)| && i < |Rows(db, t)| && RefsOk(db, t, Rows(db, t)[i])
    ensures |Rows(Attached(db, n, now), t)| == |Rows(db, t)|
    ensures RefsOk(Attached(db, n, now), t, Rows(Attached(db, n, now), t)[i])
  {
    var a := Attached(db, n, now);
    AttachedKey(db, n, now, t, i);
    forall f | 0 <= f < |FOREIGN_KEYS| && FOREIGN_KEYS[f].table == t ensures RefOk(a, Rows(a, t)[i], FOREIGN_KEYS[f]) {
      assert RefOk(db, Rows(db, t)[i], FOREIGN_KEYS[f]);
      NoKeyOnUpdatedAt(f);
      AttachedCell(db, n, now, t, i, FOREIGN_KEYS[f].column);
      AttachedRef(db, n, now, Rows(db, t)[i], Rows(a, t)[i], FOREIGN_KEYS[f]);
    }
  }

  lemma AttachedRow(db: Tables, n: nat, now: string, t: Table, i: nat)
    requires n <= |Rows(db, User)| && i < |Rows(db, t)|
    ensures |Rows(Attached(db, n, now), t)| == |Rows(db, t)|
    ensures Rows(Attached(db, n, now), t)[i] ==
            if t != User then Rows(db, t)[i] else if i < n then Touched(Rows(db, t)[i], now)
              else Detached(Rows(db, t)[i])
  {
  }

  /** A reference is as it was or not there yet. */
  lemma AttachedCell(db: Tables, n: nat, now: string, t: Table, i: nat, c: Column)
    requires n <= |Rows(db, User)| && i < |Rows(db, t)| && c in Rows(db, t)[i] && c != "updatedAt"
    requires |Rows(Attached(db, n, now), t)| == |Rows(db, t)|
    ensures c in Rows(Attached(db, n, now), t)[i]
    ensures Rows(Attached(db, n, now), t)[i][c] == Rows(db, t)[i][c] || Rows(Attached(db, n, now), t)[i][c].Null?
  {
    AttachedRow(db, n, now, t, i);
    CellOfRow(Rows(db, t)[i], c, now);
  }

  lemma CellOfRow(r: Row, c: Column, now: string)
    requires c in r && c != "updatedAt"
    ensures c in Touched(r, now) && Touched(r, now)[c] == r[c]
    ensures c in Detached(r) && (Detached(r)[c] == r[c] || Detached(r)[c].Null?)
  {
  }

  lemma AttachedRef(db: Tables, n: nat, now: string, r: Row, s: Row, fk: ForeignKey)
    requires n <= |Rows(db, User)| && RefOk(db, r, fk)
    requires fk.column in s && (s[fk.column] == r[fk.column] || s[fk.column].Null?)
    ensures RefOk(Attached(db, n, now), s, fk)
  {
    if !s[fk.column].Null? {
      var k :| 0 <= k < |Rows(db, fk.target)| && KeyOf(fk.target, Rows(db, fk.target)[k]) == r[fk.column];
      AttachedKey(db, n, now, fk.target, k);
    }
  }

  lemma NoKeyOnUpdatedAt(f: nat)
    requires f < |FOREIGN_KEYS|
    ensures FOREIGN_KEYS[f].column != "updatedAt"
  {
    var c := FOREIGN_KEYS[f].column;
    assert c[|c| - 1] == 'd' && "updatedAt"[8] == 't';
  }
}
