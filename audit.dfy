/** The audit recorder of the back office (audito.py): two hooks on every
    flush of the database session. Before the flush each pending delete of
    an audited class leaves a snapshot of its columns; after the flush one
    entry is added per pending insert, per changed update and per saved
    delete snapshot. What the ORM reports about an object (its class, its
    identity, its column values, its attribute histories, whether it is
    modified) is given as plain data. */
module Audit {
  import opened Results
  import opened PyText

  /* ---------------- the audited classes ---------------- */

  /** The classes whose rows are audited (`WATCHED`). */
  const Watched: set<string> := {"Cliente", "Produto", "Categoria", "Fornecedor", "Pedido", "ItemPedido", "Arquivo"}

  /** The class of the audit entries themselves. */
  const AuditLogClass: string := "AuditLog"

  /* ---------------- values, columns, histories ---------------- */

  /** A value read from an object: `Dec` is a `Decimal` (it has `quantize`),
      `Float` the float it is turned into, `Object` a related object (it has
      a `__dict__`). Decimal and float values are both exact here. */
  datatype Value = Null | Int(i: int) | Text(s: string) | Flag(b: bool) | Dec(d: real) | Float(f: real) | Object(ref: int)

  /** Decimals are stored as floats; every other value as it is. */
  function Normalize(v: Value): Value
  {
    if v.Dec? then Float(v.d) else v
  }

  /** A mapped column of an object: its key and what reading it gave, `None`
      when reading it raised. */
  datatype Column = Column(key: string, read: Option<Value>)

  /** The pending history of one attribute: the values it lost and gained. */
  datatype Attr = Attr(key: string, deleted: seq<Value>, added: seq<Value>)

  /** What the ORM reports about one object in a flush. `identity` is the
      first component of its identity key, absent while it has none. */
  datatype Instance = Instance(cls: string, identity: Option<int>, columns: seq<Column>, attrs: seq<Attr>,
                               modified: bool)

  /** The request's user and address as the session info holds them. */
  datatype Info = Info(userId: Option<int>, ip: Option<string>)

  datatype Action = Insert | Update | Delete

  /** A `[before, after]` pair of the diff of an update. */
  datatype Change = Change(before: Value, after: Value)

  /** The `changes` of an entry: `{"after": snapshot}`, a diff, or
      `{"before": snapshot}`. */
  datatype Changes = After(after: map<string, Value>) | Fields(fields: map<string, Change>) | Before(before: map<string, Value>)

  /** One row of the audit log. */
  datatype Entry = Entry(action: Action, entity: string, entityPk: string, userId: Option<int>, ip: Option<string>,
                         changes: Changes)

  /** What the pre-flush hook saves for one deleted object. */
  datatype Pending = Pending(entity: string, pk: string, snapshot: map<string, Value>)

  /* ---------------- the entity key ---------------- */

  /** `str(state.identity[0])`, or `"?"` when there is no identity. */
  function PkText(identity: Option<int>): (s: string)
    ensures s == "?" <==> identity.None?
  {
    if identity.Some? then
      IntToStringShape(identity.value);
      IntToString(identity.value)
    else "?"
  }

  /** Distinct identities give distinct keys, and the key reads back as the
      identity. */
  lemma PkTextReadsBack(identity: Option<int>)
    requires identity.Some?
    ensures ParseInt(PkText(identity)) == identity
  {
    ParseIntRoundTrip(identity.value);
  }

  /* ---------------- _dump_columns ---------------- */

  /** The snapshot value of one column. */
  function Cell(c: Column): Value {
    if c.read.Some? then Normalize(c.read.value) else Null
  }

  /** The snapshot of an object's columns, one key per column, a later
      column of the same key overwriting an earlier one. */
  function Snapshot(cols: seq<Column>): map<string, Value> {
    if cols == [] then map[]
    else Snapshot(cols[..|cols| - 1])[cols[|cols| - 1].key := Cell(cols[|cols| - 1])]
  }

  /** Every column's key is in the snapshot. */
  lemma {:induction false} SnapshotHasColumns(cols: seq<Column>)
    ensures forall k :: 0 <= k < |cols| ==> cols[k].key in Snapshot(cols)
    decreases |cols|
  {
    if cols != [] {
      var init := cols[..|cols| - 1];
      SnapshotHasColumns(init);
      forall k | 0 <= k < |init|
        ensures cols[k].key in Snapshot(cols)
      {
        assert init[k] == cols[k];
      }
    }
  }

  /** The snapshot has no key that is not a column's key. */
  lemma {:induction false} SnapshotOnlyColumns(cols: seq<Column>, key: string)
    requires key in Snapshot(cols)
    ensures exists k :: 0 <= k < |cols| && cols[k].key == key
    decreases |cols|
  {
    var init, last := cols[..|cols| - 1], cols[|cols| - 1];
    if key == last.key {
      assert cols[|cols| - 1].key == key;
    } else {
      SnapshotOnlyColumns(init, key);
      var k :| 0 <= k < |init| && init[k].key == key;
      assert cols[k].key == key;
    }
  }

  /** Each key holds the value of the last column with that key, `Null` if
      reading it raised. */
  lemma {:induction false} SnapshotCell(cols: seq<Column>, k: int)
    requires 0 <= k < |cols|
    requires forall j :: k < j < |cols| ==> cols[j].key != cols[k].key
    ensures cols[k].key in Snapshot(cols) && Snapshot(cols)[cols[k].key] == Cell(cols[k])
    decreases |cols|
  {
    var init := cols[..|cols| - 1];
    if k < |init| {
      forall j | k < j < |init|
        ensures init[j].key != init[k].key
      {
        assert init[j] == cols[j];
      }
      SnapshotCell(init, k);
      assert init[k] == cols[k];
    }
  }

  /** `_dump_columns`: the loop over the mapper's columns. */
  method DumpColumns(cols: seq<Column>) returns (data: map<string, Value>)
    ensures data == Snapshot(cols)
  {
    data := map[];
    var i := 0;
    while i < |cols|
      invariant 0 <= i <= |cols|
      invariant data == Snapshot(cols[..i])
    {
      var val: Value := Null;
      if cols[i].read.Some? {
        val := cols[i].read.value;
      }
      if val.Dec? {
        val := Float(val.d);
      }
      assert cols[..i + 1][..i] == cols[..i];
      data := data[cols[i].key := val];
      i := i + 1;
    }
    assert cols[..i] == cols;
  }

  /* ---------------- _changes_dict ---------------- */

  /** `hist.has_changes()`: the attribute gained or lost a value. */
  predicate HasChanges(a: Attr) {
    |a.added| > 0 || |a.deleted| > 0
  }

  function BeforeValue(a: Attr): Value {
    if |a.deleted| > 0 then Normalize(a.deleted[0]) else Null
  }

  function AfterValue(a: Attr): Value {
    if |a.added| > 0 then Normalize(a.added[0]) else Null
  }

  /** An attribute goes into the diff when it has changes, a non-empty key
      and a new value that is not a related object. */
  predicate Reported(a: Attr) {
    HasChanges(a) && a.key != "" && !AfterValue(a).Object?
  }

  /** The diff of an update, a later attribute of the same key overwriting
      an earlier one. */
  function Diff(attrs: seq<Attr>): map<string, Change> {
    if attrs == [] then map[]
    else
      var d, a := Diff(attrs[..|attrs| - 1]), attrs[|attrs| - 1];
      if Reported(a) then d[a.key := Change(BeforeValue(a), AfterValue(a))] else d
  }

  /** Every reported attribute's key is in the diff. */
  lemma {:induction false} DiffHasReported(attrs: seq<Attr>)
    ensures forall k :: 0 <= k < |attrs| && Reported(attrs[k]) ==> attrs[k].key in Diff(attrs)
    decreases |attrs|
  {
    if attrs != [] {
      var init := attrs[..|attrs| - 1];
      DiffHasReported(init);
      forall k | 0 <= k < |init| && Reported(attrs[k])
        ensures attrs[k].key in Diff(attrs)
      {
        assert init[k] == attrs[k];
      }
    }
  }

  /** The diff has no key that is not a reported attribute's key. */
  lemma {:induction false} DiffOnlyReported(attrs: seq<Attr>, key: string)
    requires key in Diff(attrs)
    ensures exists k :: 0 <= k < |attrs| && Reported(attrs[k]) && attrs[k].key == key
    decreases |attrs|
  {
    var init, last := attrs[..|attrs| - 1], attrs[|attrs| - 1];
    if Reported(last) && key == last.key {
      assert attrs[|attrs| - 1] == last;
    } else {
      DiffOnlyReported(init, key);
      var k :| 0 <= k < |init| && Reported(init[k]) && init[k].key == key;
      assert attrs[k] == init[k];
    }
  }

  /** A reported attribute that no later reported attribute overwrites
      leaves its `[before, after]` pair in the diff. */
  lemma {:induction false} DiffChange(attrs: seq<Attr>, k: int)
    requires 0 <= k < |attrs| && Reported(attrs[k])
    requires forall j :: k < j < |attrs| && Reported(attrs[j]) ==> attrs[j].key != attrs[k].key
    ensures attrs[k].key in Diff(attrs)
    ensures Diff(attrs)[attrs[k].key] == Change(BeforeValue(attrs[k]), AfterValue(attrs[k]))
    decreases |attrs|
  {
    var init := attrs[..|attrs| - 1];
    if k < |init| {
      forall j | k < j < |init| && Reported(init[j])
        ensures init[j].key != init[k].key
      {
        assert init[j] == attrs[j];
      }
      assert init[k] == attrs[k];
      DiffChange(init, k);
    }
  }

  /** The diff is empty exactly when no attribute is reported, which is
      when an update is skipped. */
  lemma DiffEmpty(attrs: seq<Attr>)
    ensures Diff(attrs) == map[] <==> forall k :: 0 <= k < |attrs| ==> !Reported(attrs[k])
  {
    DiffHasReported(attrs);
    if Diff(attrs) != map[] {
      var key :| key in Diff(attrs);
      DiffOnlyReported(attrs, key);
    }
  }

  /** `_changes_dict`: the loop over the object's attributes. */
  method ChangesDict(attrs: seq<Attr>) returns (changes: map<string, Change>)
    ensures changes == Diff(attrs)
  {
    changes := map[];
    var i := 0;
    while i < |attrs|
      invariant 0 <= i <= |attrs|
      invariant changes == Diff(attrs[..i])
    {
      var a := attrs[i];
      assert attrs[..i + 1][..i] == attrs[..i];
      if |a.added| > 0 || |a.deleted| > 0 {
        var before := if |a.deleted| > 0 then a.deleted[0] else Null;
        var after := if |a.added| > 0 then a.added[0] else Null;
        if before.Dec? {
          before := Float(before.d);
        }
        if after.Dec? {
          after := Float(after.d);
        }
        if a.key != "" && !after.Object? {
          changes := changes[a.key := Change(before, after)];
        }
      }
      i := i + 1;
    }
    assert attrs[..i] == attrs;
  }

  /* ---------------- the entries of one flush ---------------- */

  predicate IsWatched(o: Instance) {
    o.cls in Watched
  }

  /** The objects of an audited class, in their order. */
  function WatchedOnly(objs: seq<Instance>): seq<Instance> {
    if objs == [] then []
    else if IsWatched(objs[|objs| - 1]) then WatchedOnly(objs[..|objs| - 1]) + [objs[|objs| - 1]]
    else WatchedOnly(objs[..|objs| - 1])
  }

  /** The filter keeps every object of an audited class as often as it
      occurs, and nothing else. */
  lemma {:induction false} WatchedOnlyExact(objs: seq<Instance>)
    ensures forall o :: multiset(WatchedOnly(objs))[o] == if IsWatched(o) then multiset(objs)[o] else 0
    decreases |objs|
  {
    if objs != [] {
      var init := objs[..|objs| - 1];
      WatchedOnlyExact(init);
      assert objs == init + [objs[|objs| - 1]];
    }
  }

  /** The INSERT entry of a new object: `{"after": snapshot}`. */
  function InsertEntry(info: Info, o: Instance): Entry {
    Entry(Insert, o.cls, PkText(o.identity), info.userId, info.ip, After(Snapshot(o.columns)))
  }

  /** The INSERT entries of a flush, one per new object of an audited class. */
  function InsertEntries(info: Info, objs: seq<Instance>): seq<Entry> {
    if objs == [] then []
    else if IsWatched(objs[|objs| - 1]) then InsertEntries(info, objs[..|objs| - 1]) + [InsertEntry(info, objs[|objs| - 1])]
    else InsertEntries(info, objs[..|objs| - 1])
  }

  /** Exactly one INSERT entry per new object of an audited class, in order,
      carrying the full snapshot of that object. */
  lemma {:induction false} InsertOnePerWatched(info: Info, objs: seq<Instance>)
    ensures |InsertEntries(info, objs)| == |WatchedOnly(objs)|
    ensures forall k :: 0 <= k < |WatchedOnly(objs)| ==>
      var o := WatchedOnly(objs)[k];
      InsertEntries(info, objs)[k] == Entry(Insert, o.cls, PkText(o.identity), info.userId, info.ip, After(Snapshot(o.columns)))
    decreases |objs|
  {
    if objs != [] {
      InsertOnePerWatched(info, objs[..|objs| - 1]);
    }
  }

  /** The UPDATE entry of a dirty object, if it gets one: an audited class,
      an identity, modified apart from its collections, and a non-empty
      diff. */
  function UpdateEntry(info: Info, o: Instance): Option<Entry> {
    if !IsWatched(o) || o.identity.None? || !o.modified then None
    else
      var changes := Diff(o.attrs);
      if changes == map[] then None
      else Some(Entry(Update, o.cls, PkText(o.identity), info.userId, info.ip, Fields(changes)))
  }

  /** A dirty object gets an UPDATE entry exactly when its class is audited,
      it has an identity, it is modified and at least one of its attributes
      is reported; the entry names the class and the identity's key, and
      carries the diff. */
  lemma UpdateWhen(info: Info, o: Instance)
    ensures UpdateEntry(info, o).Some? <==>
      IsWatched(o) && o.identity.Some? && o.modified && exists k :: 0 <= k < |o.attrs| && Reported(o.attrs[k])
    ensures UpdateEntry(info, o).Some? ==>
      UpdateEntry(info, o).value.changes == Fields(Diff(o.attrs)) && UpdateEntry(info, o).value.entityPk != "?"
    ensures UpdateEntry(info, o).Some? ==>
      UpdateEntry(info, o).value == Entry(Update, o.cls, PkText(o.identity), info.userId, info.ip, Fields(Diff(o.attrs)))
  {
    DiffEmpty(o.attrs);
  }

  /** The UPDATE entries of a flush, in the order of the dirty objects. */
  function UpdateEntries(info: Info, objs: seq<Instance>): seq<Entry> {
    if objs == [] then []
    else
      var e := UpdateEntry(info, objs[|objs| - 1]);
      UpdateEntries(info, objs[..|objs| - 1]) + if e.Some? then [e.value] else []
  }

  /** What the pre-flush hook saves for a deleted object. */
  function PendingOf(o: Instance): Pending {
    Pending(o.cls, PkText(o.identity), Snapshot(o.columns))
  }

  /** The snapshots saved before a flush, one per deleted object of an
      audited class. */
  function PendingDeletes(objs: seq<Instance>): seq<Pending> {
    if objs == [] then []
    else if IsWatched(objs[|objs| - 1]) then PendingDeletes(objs[..|objs| - 1]) + [PendingOf(objs[|objs| - 1])]
    else PendingDeletes(objs[..|objs| - 1])
  }

  /** One saved snapshot per deleted object of an audited class, in order. */
  lemma {:induction false} PendingOnePerWatched(objs: seq<Instance>)
    ensures |PendingDeletes(objs)| == |WatchedOnly(objs)|
    ensures forall k :: 0 <= k < |WatchedOnly(objs)| ==>
      var o := WatchedOnly(objs)[k];
      PendingDeletes(objs)[k] == Pending(o.cls, PkText(o.identity), Snapshot(o.columns))
    decreases |objs|
  {
    if objs != [] {
      PendingOnePerWatched(objs[..|objs| - 1]);
    }
  }

  /** The DELETE entry of a saved snapshot: `{"before": snapshot}`. */
  function DeleteEntry(info: Info, p: Pending): Entry {
    Entry(Delete, p.entity, p.pk, info.userId, info.ip, Before(p.snapshot))
  }

  /** The DELETE entries of a flush, one per saved snapshot and in its
      order, each with the saved entity and key and `{"before": snapshot}`. */
  function DeleteEntries(info: Info, pending: seq<Pending>): (r: seq<Entry>)
    ensures |r| == |pending|
    ensures forall k :: 0 <= k < |pending| ==>
      r[k] == Entry(Delete, pending[k].entity, pending[k].pk, info.userId, info.ip, Before(pending[k].snapshot))
  {
    if pending == [] then []
    else DeleteEntries(info, pending[..|pending| - 1]) + [DeleteEntry(info, pending[|pending| - 1])]
  }

  /** Everything one flush adds to the log: the INSERTs, then the UPDATEs,
      then the DELETEs. */
  function FlushEntries(info: Info, created: seq<Instance>, dirty: seq<Instance>, pending: seq<Pending>): seq<Entry> {
    InsertEntries(info, created) + UpdateEntries(info, dirty) + DeleteEntries(info, pending)
  }

  /** Where an action comes in a flush's entries. */
  function Rank(a: Action): int {
    match a
    case Insert => 0
    case Update => 1
    case Delete => 2
  }

  /** The entries of one flush carry the session's user and address, name
      an audited class when they come from a live object, and come INSERTs
      first, then UPDATEs, then DELETEs. */
  lemma FlushEntriesOrdered(info: Info, created: seq<Instance>, dirty: seq<Instance>, pending: seq<Pending>)
    ensures var r := FlushEntries(info, created, dirty, pending);
      && (forall k :: 0 <= k < |r| ==> r[k].userId == info.userId && r[k].ip == info.ip)
      && (forall k :: 0 <= k < |r| && r[k].action != Delete ==> r[k].entity in Watched)
      && (forall i, j :: 0 <= i < j < |r| ==> Rank(r[i].action) <= Rank(r[j].action))
  {
    InsertEntriesShape(info, created);
    UpdateEntriesShape(info, dirty);
    DeleteEntriesShape(info, pending);
  }

  lemma {:induction false} InsertEntriesShape(info: Info, objs: seq<Instance>)
    ensures forall e :: e in InsertEntries(info, objs) ==>
      e.action == Insert && e.entity in Watched && e.userId == info.userId && e.ip == info.ip
    decreases |objs|
  {
    if objs != [] {
      InsertEntriesShape(info, objs[..|objs| - 1]);
    }
  }

  lemma {:induction false} UpdateEntriesShape(info: Info, objs: seq<Instance>)
    ensures forall e :: e in UpdateEntries(info, objs) ==>
      e.action == Update && e.entity in Watched && e.userId == info.userId && e.ip == info.ip
    decreases |objs|
  {
    if objs != [] {
      UpdateEntriesShape(info, objs[..|objs| - 1]);
    }
  }

  lemma {:induction false} DeleteEntriesShape(info: Info, pending: seq<Pending>)
    ensures forall e :: e in DeleteEntries(info, pending) ==>
      e.action == Delete && e.userId == info.userId && e.ip == info.ip
    decreases |pending|
  {
    if pending != [] {
      DeleteEntriesShape(info, pending[..|pending| - 1]);
    }
  }

  /* ---------------- the entries as rows of the next flush ---------------- */

  /** An entry added to the session is a new `AuditLog` object in the next
      flush. Only its class matters to that flush, so the entry's own fields
      are not carried over. */
  function Row(e: Entry): Instance {
    Instance(AuditLogClass, None, [], [], false)
  }

  function Rows(entries: seq<Entry>): (r: seq<Instance>)
    ensures |r| == |entries|
    ensures forall k :: 0 <= k < |r| ==> r[k] == Row(entries[k])
  {
    if entries == [] then [] else Rows(entries[..|entries| - 1]) + [Row(entries[|entries| - 1])]
  }

  /** `AuditLog` is not audited, so the entries themselves, flushed as new
      rows, add no further entry. */
  lemma {:induction false} EntriesNotAudited(info: Info, entries: seq<Entry>)
    ensures FlushEntries(info, Rows(entries), [], []) == []
    decreases |entries|
  {
    if entries != [] {
      EntriesNotAudited(info, entries[..|entries| - 1]);
      assert AuditLogClass !in Watched;
      assert Rows(entries)[..|entries| - 1] == Rows(entries[..|entries| - 1]);
    }
  }

  /* ---------------- the session's hooks ---------------- */

  /** The parts of a database session the hooks use: its info, the list of
      saved delete snapshots the pre-flush hook keeps on it, and the audit
      entries added to it. */
  class Session {
    var info: Info
    var pendingDeletes: seq<Pending>
    var log: seq<Entry>

    /** A session before any flush: no snapshot saved, nothing added. */
    constructor(info: Info)
      ensures this.info == info && pendingDeletes == [] && log == []
    {
      this.info := info;
      pendingDeletes := [];
      log := [];
    }

    /** `before_flush`: the list is cleared, then each deleted object of an
        audited class has its class, key and snapshot appended. */
    method BeforeFlush(deleted: seq<Instance>)
      modifies this
      ensures pendingDeletes == PendingDeletes(deleted)
      ensures info == old(info) && log == old(log)
    {
      pendingDeletes := [];
      var i := 0;
      while i < |deleted|
        invariant 0 <= i <= |deleted|
        invariant pendingDeletes == PendingDeletes(deleted[..i])
        invariant info == old(info) && log == old(log)
      {
        var o := deleted[i];
        assert deleted[..i + 1][..i] == deleted[..i];
        if o.cls in Watched {
          var pk := if o.identity.Some? then IntToString(o.identity.value) else "?";
          var snapshot := DumpColumns(o.columns);
          pendingDeletes := pendingDeletes + [Pending(o.cls, pk, snapshot)];
        }
        i := i + 1;
      }
      assert deleted[..i] == deleted;
    }

    /** `after_flush`: an INSERT entry per new object, an UPDATE entry per
        changed dirty object, and a DELETE entry per saved snapshot, added
        to the session in that order; the user and address are read from
        the session info once. */
    method AfterFlush(created: seq<Instance>, dirty: seq<Instance>)
      modifies this
      ensures log == old(log) + FlushEntries(info, created, dirty, pendingDeletes)
      ensures info == old(info) && pendingDeletes == old(pendingDeletes)
    {
      var userId, ip := info.userId, info.ip;
      AddInserts(userId, ip, created);
      AddUpdates(userId, ip, dirty);
      AddDeletes(userId, ip);
    }

    /** The INSERT part of `after_flush`. */
    method AddInserts(userId: Option<int>, ip: Option<string>, created: seq<Instance>)
      requires userId == info.userId && ip == info.ip
      modifies this
      ensures log == old(log) + InsertEntries(info, created)
      ensures info == old(info) && pendingDeletes == old(pendingDeletes)
    {
      var i := 0;
      while i < |created|
        invariant 0 <= i <= |created|
        invariant log == old(log) + InsertEntries(info, created[..i])
        invariant info == old(info) && pendingDeletes == old(pendingDeletes)
      {
        var o := created[i];
        assert created[..i + 1][..i] == created[..i];
        if o.cls in Watched {
          var pk := if o.identity.Some? then IntToString(o.identity.value) else "?";
          var snapshot := DumpColumns(o.columns);
          log := log + [Entry(Insert, o.cls, pk, userId, ip, After(snapshot))];
        }
        i := i + 1;
      }
      assert created[..i] == created;
    }

    /** The UPDATE part of `after_flush`: objects without an identity or not
        modified are skipped, and so are those with an empty diff. */
    method AddUpdates(userId: Option<int>, ip: Option<string>, dirty: seq<Instance>)
      requires userId == info.userId && ip == info.ip
      modifies this
      ensures log == old(log) + UpdateEntries(info, dirty)
      ensures info == old(info) && pendingDeletes == old(pendingDeletes)
    {
      var i := 0;
      while i < |dirty|
        invariant 0 <= i <= |dirty|
        invariant log == old(log) + UpdateEntries(info, dirty[..i])
        invariant info == old(info) && pendingDeletes == old(pendingDeletes)
      {
        var o := dirty[i];
        assert dirty[..i + 1][..i] == dirty[..i];
        if o.cls in Watched && o.identity.Some? && o.modified {
          var pk := IntToString(o.identity.value);
          var changes := ChangesDict(o.attrs);
          if changes != map[] {
            log := log + [Entry(Update, o.cls, pk, userId, ip, Fields(changes))];
          }
        }
        i := i + 1;
      }
      assert dirty[..i] == dirty;
    }

    /** The DELETE part of `after_flush`, from the snapshots saved before
        the flush. */
    method AddDeletes(userId: Option<int>, ip: Option<string>)
      requires userId == info.userId && ip == info.ip
      modifies this
      ensures log == old(log) + DeleteEntries(info, pendingDeletes)
      ensures info == old(info) && pendingDeletes == old(pendingDeletes)
    {
      var i := 0;
      while i < |pendingDeletes|
        invariant 0 <= i <= |pendingDeletes|
        invariant log == old(log) + DeleteEntries(info, pendingDeletes[..i])
        invariant info == old(info) && pendingDeletes == old(pendingDeletes)
      {
        var p := pendingDeletes[i];
        assert pendingDeletes[..i + 1][..i] == pendingDeletes[..i];
        log := log + [Entry(Delete, p.entity, p.pk, userId, ip, Before(p.snapshot))];
        i := i + 1;
      }
      assert pendingDeletes[..i] == pendingDeletes;
    }

    /** One flush: the two hooks around it. */
    method Flush(created: seq<Instance>, dirty: seq<Instance>, deleted: seq<Instance>)
      modifies this
      ensures pendingDeletes == PendingDeletes(deleted)
      ensures log == old(log) + FlushEntries(info, created, dirty, PendingDeletes(deleted))
      ensures info == old(info)
    {
      BeforeFlush(deleted);
      AfterFlush(created, dirty);
    }

    /** A commit: the flush of the request's changes, then the flush of the
        entries it added, which finds only new `AuditLog` rows. The second
        flush adds nothing and clears the saved snapshots, so no delete is
        reported twice. */
    method Commit(created: seq<Instance>, dirty: seq<Instance>, deleted: seq<Instance>)
      modifies this
      ensures log == old(log) + FlushEntries(info, created, dirty, PendingDeletes(deleted))
      ensures pendingDeletes == [] && info == old(info)
    {
      var start := |log|;
      Flush(created, dirty, deleted);
      var added := log[start..];
      EntriesNotAudited(info, added);
      Flush(Rows(added), [], []);
    }
  }
}
