/**
  The objects the versioning works on: a Latest document as the session holds
  it (the key of its stored row, its pending assignments and the archival plan
  the update hook hands to the writer), and the registry holding the three
  tables.  Each method follows one function of the Latest model and is proved
  to perform the step the Transition module describes.
 */
module Attachment {
  import opened Wrappers
  import VersionToken
  import opened Document
  import opened Transition

  /** The attachment_document_history row the writer inserts (`new_history`). */
  datatype HistoryEntry = HistoryEntry(uuid: string, version: string, historiedAt: int)

  /** The Latest row with its predecessor columns pointing at the history entry. */
  function Relinked(row: Row, nh: HistoryEntry): Row {
    row[PrevUuid := Text(nh.uuid)][PrevVersion := Text(nh.version)]
  }

  /** What the tables let the writer insert: the snapshot's key columns name
      the history entry, and neither table has a row at that key yet. */
  ghost predicate WriterReady(docs: map<Key, Row>, hist: map<Key, int>, nd: Row, nh: HistoryEntry) {
    Uuid in nd && Version in nd && nd[Uuid] == Text(nh.uuid) && nd[Version] == Text(nh.version) &&
    (nh.uuid, nh.version) !in docs && (nh.uuid, nh.version) !in hist
  }

  /** The tables after the writer: the snapshot inserted as a document row,
      the history entry added, and the row at `key` relinked to it. */
  function Written(docs: map<Key, Row>, hist: map<Key, int>, key: Key, nd: Row, nh: HistoryEntry):
    (map<Key, Row>, map<Key, int>)
  {
    var h := (nh.uuid, nh.version);
    var docs1 := docs[h := nd];
    (if key in docs1 then docs1[key := Relinked(docs1[key], nh)] else docs1, hist[h := nh.historiedAt])
  }

  /** The state the update hook leaves when it decides to archive: the
      sequence has issued the new version, the pending assignments rewrite the
      row, and the plan holds the snapshot and the history entry of the old
      key. */
  ghost predicate Planned(d0: Db, key: Key, changes: map<Column, Value>, now: int,
                          d1: Db, changes1: map<Column, Value>, nd: Option<Row>, nh: Option<HistoryEntry>)
    requires key in d0.documents && Complete(d0.documents[key])
  {
    var code := SeqCode(key.0);
    var cur := Current(d0, key, changes);
    code in d0.sequences &&
    d1.documents == d0.documents && d1.histories == d0.histories &&
    d1.sequences == d0.sequences[code := d0.sequences[code] + 1] &&
    Current(d0, key, changes1) ==
      Rewritten(cur, VersionToken.Format(d0.sequences[code]), now, FileCleared(changes.Keys, cur)) &&
    nd.Some? && Snapshot(nd.value, d0.documents[key], cur, changes.Keys) &&
    nh == Some(HistoryEntry(key.0, key.1, now))
  }

  /** Writing the two predecessor columns keeps what the renewal describes. */
  lemma RelinkedRenewed(l: Row, cur: Row, modified: set<Column>, uuid: string, version: string, now: int, nh: HistoryEntry)
    requires Complete(cur) && Renewed(l, cur, modified, uuid, version, now)
    ensures Renewed(Relinked(l, nh), cur, modified, uuid, version, now)
  {
    var l1 := l[PrevUuid := Text(nh.uuid)];
    GetFileOtherColumn(l, PrevUuid, Text(nh.uuid), l1);
    GetFileOtherColumn(l1, PrevVersion, Text(nh.version), Relinked(l, nh));
  }

  /** The row the UPDATE writes after the hook planned an archive: the
      document's uuid and the version the sequence issued. */
  lemma PlannedRow(d0: Db, key: Key, changes: map<Column, Value>, now: int,
                   dp: Db, changes1: map<Column, Value>, nd: Option<Row>, nh: Option<HistoryEntry>)
    requires RowsValid(d0) && key in d0.documents && Complete(d0.documents[key]) && Protected(changes.Keys) == {}
    requires Planned(d0, key, changes, now, dp, changes1, nd, nh)
    ensures var row := Current(d0, key, changes1);
      var key1 := (key.0, VersionToken.Format(d0.sequences[SeqCode(key.0)]));
      row[Uuid] == Text(key1.0) && row[Version] == Text(key1.1) &&
      key1 !in d0.documents && key1 != key &&
      VersionToken.Number(key.1) < VersionToken.Number(key1.1) &&
      Renewed(row, Current(d0, key, changes), changes.Keys, key.0, key1.1, now)
  {
    var cur := Current(d0, key, changes);
    assert RowValid(d0, key);
    Unprotected(changes.Keys);
    assert cur[Uuid] == Text(key.0);
    var v := VersionToken.Format(d0.sequences[SeqCode(key.0)]);
    RewrittenRenewed(cur, changes.Keys, key.0, v, now);
    VersionToken.ParseFormat(d0.sequences[SeqCode(key.0)]);
    NextVersionIsFree(d0, key.0);
  }

  /** After the UPDATE has moved the Latest row to its new key, the writer
      may insert the snapshot and the history entry at the old key. */
  lemma PlannedReady(d0: Db, key: Key, changes: map<Column, Value>, now: int,
                     dp: Db, changes1: map<Column, Value>, nd: Option<Row>, nh: Option<HistoryEntry>,
                     d2: Db, key1: Key)
    requires StoreValid(d0) && InstanceValid(d0, key) && Complete(d0.documents[key])
    requires Planned(d0, key, changes, now, dp, changes1, nd, nh)
    requires d2.documents == (dp.documents - {key})[key1 := Current(dp, key, changes1)] && d2.histories == dp.histories
    requires key1 != key
    ensures nd.Some? && nh.Some? && WriterReady(d2.documents, d2.histories, nd.value, nh.value)
  {
    SnapshotIsStoredRow(d0, key, changes, nd.value);
    assert RowValid(d0, key);
  }

  /** The UPDATE and the writer together perform the archival transition the
      hook planned. */
  lemma PlannedArchived(d0: Db, key: Key, changes: map<Column, Value>, now: int,
                        dp: Db, changes1: map<Column, Value>, nd: Option<Row>, nh: Option<HistoryEntry>,
                        d2: Db, key1: Key, d3: Db)
    requires RowsValid(d0) && key in d0.documents && Complete(d0.documents[key]) && Protected(changes.Keys) == {}
    requires Planned(d0, key, changes, now, dp, changes1, nd, nh)
    requires var row := Current(dp, key, changes1);
      row[Uuid] == Text(key1.0) && row[Version] == Text(key1.1) &&
      d2.documents == (dp.documents - {key})[key1 := row] && d2.histories == dp.histories && d2.sequences == dp.sequences
    requires (d3.documents, d3.histories) == Written(d2.documents, d2.histories, key1, nd.value, nh.value)
    requires d3.sequences == d2.sequences
    ensures Archived(d0, key, changes, now, d3, key1)
  {
    PlannedRow(d0, key, changes, now, dp, changes1, nd, nh);
    ArchivedFromParts(d0, key, changes, now, d2, d3, key1, nd.value, nh.value, Current(d0, key, changes1));
  }

  /** The archival transition, from what the hook planned and what the UPDATE
      wrote. */
  lemma ArchivedFromParts(d0: Db, key: Key, changes: map<Column, Value>, now: int, d2: Db, d3: Db, key1: Key,
                          nd: Row, nh: HistoryEntry, row: Row)
    requires key in d0.documents && Complete(d0.documents[key])
    requires SeqCode(key.0) in d0.sequences && key1 == (key.0, VersionToken.Format(d0.sequences[SeqCode(key.0)]))
    requires key1 != key && key1 !in d0.documents
    requires d3.sequences == d0.sequences[SeqCode(key.0) := d0.sequences[SeqCode(key.0)] + 1]
    requires nh == HistoryEntry(key.0, key.1, now)
    requires d2.documents == (d0.documents - {key})[key1 := row] && d2.histories == d0.histories
    requires (d3.documents, d3.histories) == Written(d2.documents, d2.histories, key1, nd, nh)
    requires Snapshot(nd, d0.documents[key], Current(d0, key, changes), changes.Keys)
    requires Renewed(row, Current(d0, key, changes), changes.Keys, key.0, key1.1, now)
    ensures Archived(d0, key, changes, now, d3, key1)
  {
    RelinkedRenewed(row, Current(d0, key, changes), changes.Keys, key.0, key1.1, now, nh);
    WrittenDocuments(d0.documents, key, key1, row, nd, nh, d2.documents, d2.histories, d3.documents);
    ArchivedBy(d0, key, changes, now, d3, key1, nd, Relinked(row, nh));
  }

  /** The tables after the UPDATE and the writer: the snapshot at the old key
      and the relinked Latest row at the new one. */
  lemma WrittenDocuments(docs0: map<Key, Row>, key: Key, key1: Key, row: Row, nd: Row, nh: HistoryEntry,
                         docs2: map<Key, Row>, hist2: map<Key, int>, docs3: map<Key, Row>)
    requires key in docs0 && key1 != key && (nh.uuid, nh.version) == key
    requires docs2 == (docs0 - {key})[key1 := row]
    requires docs3 == Written(docs2, hist2, key1, nd, nh).0
    ensures docs3 == docs0[key := nd][key1 := Relinked(row, nh)]
  {
  }

  /** The tables an archival transition leaves, written out. */
  lemma ArchivedBy(d0: Db, key: Key, changes: map<Column, Value>, now: int, d1: Db, key1: Key, h: Row, l: Row)
    requires key in d0.documents && Complete(d0.documents[key])
    requires SeqCode(key.0) in d0.sequences && key1 == (key.0, VersionToken.Format(d0.sequences[SeqCode(key.0)]))
    requires key1 != key && key1 !in d0.documents
    requires d1.sequences == d0.sequences[SeqCode(key.0) := d0.sequences[SeqCode(key.0)] + 1]
    requires d1.histories == d0.histories[key := now]
    requires d1.documents == d0.documents[key := h][key1 := l]
    requires Snapshot(h, d0.documents[key], Current(d0, key, changes), changes.Keys)
    requires Renewed(l, Current(d0, key, changes), changes.Keys, key.0, key1.1, now)
    requires l[PrevUuid] == Text(key.0) && l[PrevVersion] == Text(key.1)
    ensures Archived(d0, key, changes, now, d1, key1)
  {
  }

  /** With no archive planned, the UPDATE alone absorbs the pending values at
      the same key. */
  lemma AbsorbedCommit(d0: Db, key: Key, changes: map<Column, Value>, d1: Db, key1: Key)
    requires key in d0.documents && RowValid(d0, key) && Protected(changes.Keys) == {}
    requires var row := Current(d0, key, changes);
      row[Uuid] == Text(key1.0) && row[Version] == Text(key1.1) &&
      d1.documents == (d0.documents - {key})[key1 := row] && d1.histories == d0.histories && d1.sequences == d0.sequences
    ensures Absorbed(d0, key, changes, d1, key1)
  {
    Unprotected(changes.Keys);
    assert key1 == key;
    assert (d0.documents - {key})[key := Current(d0, key, changes)] == d0.documents[key := Current(d0, key, changes)];
  }

  /** `new_document` as the update hook builds it: every column's value on
      the instance, the stored value of each modified column, and type
      'history'. */
  function NewDocument(cur: Row, stored: Row, modified: set<Column>): Row
    requires Complete(cur) && modified <= stored.Keys
  {
    var newVals := map x | x in Columns :: cur[x];
    var vals := map x | x in modified :: stored[x];
    (newVals + vals)[Type := Text("history")]
  }

  /** That row is the history snapshot. */
  lemma NewDocumentSnapshot(cur: Row, stored: Row, modified: set<Column>)
    requires Complete(cur) && modified <= stored.Keys
    ensures Snapshot(NewDocument(cur, stored, modified), stored, cur, modified)
  {
    AllColumns();
    assert (map x | x in Columns :: cur[x]) == cur;
  }

  /** The pending assignments after the update hook's rewrite: version,
      created_at and both predecessor columns, `type` when it was not
      'latest', and the file bundle when it is cleared. */
  function Assigned(changes: map<Column, Value>, version: string, now: int, retype: bool, cleared: bool): map<Column, Value> {
    var c := changes[Version := Text(version)][CreatedAt := Stamp(now)][PrevUuid := Null][PrevVersion := Null];
    var c1 := if retype then c[Type := Text("latest")] else c;
    if cleared then c1 + NullFile else c1
  }

  /** Overlaid on the stored row, those assignments give the rewritten row. */
  lemma AssignedRewritten(stored: Row, changes: map<Column, Value>, version: string, now: int, retype: bool, cleared: bool)
    requires Complete(stored)
    requires retype <==> (stored + changes)[Type] != Text("latest")
    requires cleared == FileCleared(changes.Keys, stored + changes)
    ensures stored + Assigned(changes, version, now, retype, cleared) ==
      Rewritten(stored + changes, version, now, FileCleared(changes.Keys, stored + changes))
  {
    var cur := stored + changes;
    var c := changes[Version := Text(version)][CreatedAt := Stamp(now)][PrevUuid := Null][PrevVersion := Null];
    var l := cur[Version := Text(version)][CreatedAt := Stamp(now)][PrevUuid := Null][PrevVersion := Null];
    assert stored + c == l;
    if !retype {
      assert l[Type := Text("latest")] == l;
    }
    var c1 := if retype then c[Type := Text("latest")] else c;
    if cleared {
      OverlayTwice(stored, c1, NullFile);
    }
  }

  /** What the update hook computed is the plan `Planned` describes. */
  lemma PlannedBy(d0: Db, key: Key, changes: map<Column, Value>, now: int, d1: Db, version: string,
                  retype: bool, cleared: bool, changes1: map<Column, Value>, nd: Option<Row>, nh: Option<HistoryEntry>,
                  cur: Row)
    requires key in d0.documents && Complete(d0.documents[key]) && cur == Current(d0, key, changes)
    requires SeqCode(key.0) in d0.sequences && version == VersionToken.Format(d0.sequences[SeqCode(key.0)])
    requires d1.documents == d0.documents && d1.histories == d0.histories
    requires d1.sequences == d0.sequences[SeqCode(key.0) := d0.sequences[SeqCode(key.0)] + 1]
    requires retype <==> cur[Type] != Text("latest")
    requires cleared == (File !in changes.Keys || cur[File] == Null)
    requires changes1 == Assigned(changes, version, now, retype, cleared)
    requires nd == Some(NewDocument(cur, d0.documents[key], changes.Keys))
    requires nh == Some(HistoryEntry(key.0, key.1, now))
    ensures Planned(d0, key, changes, now, d1, changes1, nd, nh)
  {
    NewDocumentSnapshot(cur, d0.documents[key], changes.Keys);
    CurrentAssigned(d0, key, changes, version, now, retype, cleared, changes1);
  }

  /** The instance after the hook's assignments reads as the rewritten row. */
  lemma CurrentAssigned(d0: Db, key: Key, changes: map<Column, Value>, version: string, now: int,
                        retype: bool, cleared: bool, changes1: map<Column, Value>)
    requires key in d0.documents && Complete(d0.documents[key])
    requires retype <==> Current(d0, key, changes)[Type] != Text("latest")
    requires cleared == FileCleared(changes.Keys, Current(d0, key, changes))
    requires changes1 == Assigned(changes, version, now, retype, cleared)
    ensures Current(d0, key, changes1) ==
      Rewritten(Current(d0, key, changes), version, now, FileCleared(changes.Keys, Current(d0, key, changes)))
  {
    AssignedRewritten(d0.documents[key], changes, version, now, retype, cleared);
  }

  /** With no protected field assigned, the row keeps its uuid and version. */
  lemma UnplannedRow(d0: Db, key: Key, changes: map<Column, Value>)
    requires key in d0.documents && RowValid(d0, key) && Protected(changes.Keys) == {}
    ensures Current(d0, key, changes)[Uuid] == Text(key.0) && Current(d0, key, changes)[Version] == Text(key.1)
  {
    Unprotected(changes.Keys);
  }

  /** The hook, the UPDATE and the writer together perform the flush step:
      an update in place when the stored row has no file, the archival
      transition otherwise, and either way the store stays valid. */
  lemma FlushCommitted(d0: Db, key: Key, changes: map<Column, Value>, now: int,
                       dp: Db, changes1: map<Column, Value>, nd: Option<Row>, nh: Option<HistoryEntry>,
                       d2: Db, key1: Key, d3: Db)
    requires StoreValid(d0) && InstanceValid(d0, key) && Complete(d0.documents[key])
    requires changes != map[] && Protected(changes.Keys) == {}
    requires d0.documents[key][File] == Null ==> dp == d0 && changes1 == changes && nd == None && nh == None
    requires d0.documents[key][File] != Null ==> Planned(d0, key, changes, now, dp, changes1, nd, nh)
    requires key in dp.documents
    requires var row := Current(dp, key, changes1);
      row[Uuid] == Text(key1.0) && row[Version] == Text(key1.1) &&
      d2.documents == (dp.documents - {key})[key1 := row] && d2.histories == dp.histories && d2.sequences == dp.sequences
    requires nd.Some? && nh.Some? ==>
      (d3.documents, d3.histories) == Written(d2.documents, d2.histories, key1, nd.value, nh.value) &&
      d3.sequences == d2.sequences
    requires !(nd.Some? && nh.Some?) ==> d3 == d2
    ensures FlushStep(d0, key, changes, now, Pass, d3, key1)
    ensures StoreValid(d3) && InstanceValid(d3, key1)
  {
    if d0.documents[key][File] == Null {
      assert RowValid(d0, key);
      AbsorbedCommit(d0, key, changes, d3, key1);
      AbsorbedValid(d0, key, changes, d3, key1);
    } else {
      PlannedArchived(d0, key, changes, now, dp, changes1, nd, nh, d2, key1, d3);
      ArchivedValid(d0, key, changes, now, d3, key1);
    }
  }

  /** Each of `fields` set to None, as assigning them one after another does. */
  function NullFields(fields: seq<Column>): map<Column, Value> {
    if fields == [] then map[] else NullFields(fields[..|fields| - 1])[fields[|fields| - 1] := Null]
  }

  /** Setting the fields `get_file_fields` lists sets the whole file bundle. */
  lemma NullFieldsFile()
    ensures NullFields(FileFields) == NullFile
  {
    var m0: map<Column, Value> := map[];
    assert [File][..0] == [];
    assert NullFields([File]) == m0[File := Null];
    var m1 := m0[File := Null];
    var m2 := m1[FileAddedAt := Null];
    var m3 := m2[ContentType := Null];
    var m4 := m3[Filename := Null];
    var m5 := m4[Hash := Null];
    var m6 := m5[FileSize := Null];
    assert FileFields[..2][..1] == [File];
    assert NullFields(FileFields[..2]) == m2;
    assert FileFields[..3][..2] == FileFields[..2];
    assert NullFields(FileFields[..3]) == m3;
    assert FileFields[..4][..3] == FileFields[..3];
    assert NullFields(FileFields[..4]) == m4;
    assert FileFields[..5][..4] == FileFields[..4];
    assert NullFields(FileFields[..5]) == m5;
    assert FileFields[..5] == FileFields[..|FileFields| - 1];
    assert NullFields(FileFields) == m6;
    assert m6 == NullFile;
  }

  /** A second update of the same key overrides the first. */
  lemma UpdatedTwice(m: map<string, nat>, k: string, a: nat, b: nat)
    ensures m[k := a][k := b] == m[k := b]
  {
  }

  /** Registering the sequence at 1, drawing its first number and writing the
      new row at that version is the insertion, and it keeps the store valid. */
  lemma InsertCommitted(d0: Db, uuid: string, now: int, kwargs: map<Column, Value>, dm: Db, version: string, d1: Db)
    requires StoreValid(d0) && SeqCode(uuid) !in d0.sequences && kwargs.Keys <= InsertColumns
    requires dm.documents == d0.documents && dm.histories == d0.histories && dm.sequences == d0.sequences[SeqCode(uuid) := 1]
    requires version == VersionToken.Format(dm.sequences[SeqCode(uuid)])
    requires d1.documents == dm.documents[(uuid, version) := NewRow(uuid, version, now, kwargs)]
    requires d1.histories == dm.histories
    requires d1.sequences == dm.sequences[SeqCode(uuid) := dm.sequences[SeqCode(uuid)] + 1]
    ensures Inserted(d0, uuid, now, kwargs, d1, (uuid, version))
    ensures StoreValid(d1) && InstanceValid(d1, (uuid, version))
    ensures Chain(d1.documents, (uuid, version)) == []
  {
    UpdatedTwice(d0.sequences, SeqCode(uuid), 1, 2);
    InsertedBy(d0, uuid, now, kwargs, d1.sequences, version);
    assert d1 == Db(d0.documents[(uuid, version) := NewRow(uuid, version, now, kwargs)], d0.histories, d1.sequences);
    InsertedValid(d0, uuid, now, kwargs, d1, (uuid, version));
  }

  /** A Latest document in the session. */
  class Latest {
    /** The (uuid, version) of its stored row. */
    var key: Key
    /** Assignments not yet flushed; their columns are the modified fields. */
    var changes: map<Column, Value>
    /** The archival plan: `new_document` and `new_history`. */
    var newDocument: Option<Row>
    var newHistory: Option<HistoryEntry>

    constructor (key: Key)
      ensures this.key == key && changes == map[] && newDocument == None && newHistory == None
    {
      this.key := key;
      changes := map[];
      newDocument := None;
      newHistory := None;
    }

    /** `setattr(self, c, v)`: the value is pending until the next flush. */
    method Set(c: Column, v: Value)
      modifies this`changes
      ensures changes == old(changes)[c := v]
    {
      changes := changes[c := v];
    }

    /** Every field `get_file_fields` names set to None, one after another. */
    method ClearFileFields()
      modifies this`changes
      ensures changes == old(changes) + NullFile
    {
      for i := 0 to |FileFields|
        invariant changes == old(changes) + NullFields(FileFields[..i])
      {
        assert FileFields[..i + 1][..i] == FileFields[..i];
        OverlayAssign(old(changes), NullFields(FileFields[..i]), FileFields[i], Null);
        Set(FileFields[i], Null);
      }
      assert FileFields[..|FileFields|] == FileFields;
      NullFieldsFile();
    }
  }

  /** The session's view of the database: the attachment_document,
      attachment_document_history and System.Sequence tables, and the
      operations on Latest documents. */
  class Registry {
    var db: Db

    ghost predicate Valid()
      reads this
    {
      StoreValid(db)
    }

    /** An empty database. */
    constructor ()
      ensures Valid() && db == Db(map[], map[], map[])
    {
      db := Db(map[], map[], map[]);
    }

    /** `nextval` of the sequence `code`: the token of its current number; the
        number advances. */
    method NextVal(code: string) returns (v: string)
      requires code in db.sequences
      modifies this
      ensures v == VersionToken.Format(old(db.sequences[code]))
      ensures db.documents == old(db.documents) && db.histories == old(db.histories)
      ensures db.sequences == old(db.sequences)[code := old(db.sequences[code]) + 1]
    {
      v := VersionToken.Format(db.sequences[code]);
      db := db.(sequences := db.sequences[code := db.sequences[code] + 1]);
    }

    /** `before_update_orm_event` on an instance with pending assignments:
        the guard refuses an update that assigns a protected field; a stored
        row without a file needs no archive; otherwise the document's sequence
        issues the new version, the instance is rewritten as the new Latest
        row and the snapshot and history entry are planned for the writer. */
    method BeforeUpdate(inst: Latest, now: int) returns (r: Outcome<Error>)
      requires inst.key in db.documents && Complete(db.documents[inst.key]) && SeqCode(inst.key.0) in db.sequences
      requires inst.newDocument == None && inst.newHistory == None
      modifies this, inst`changes, inst`newDocument, inst`newHistory
      ensures Protected(old(inst.changes).Keys) != {} ==>
        r == Fail(ProtectedField(Protected(old(inst.changes).Keys))) && db == old(db) &&
        inst.changes == old(inst.changes) && inst.newDocument == None && inst.newHistory == None
      ensures Protected(old(inst.changes).Keys) == {} && old(db).documents[inst.key][File] == Null ==>
        r == Pass && db == old(db) &&
        inst.changes == old(inst.changes) && inst.newDocument == None && inst.newHistory == None
      ensures Protected(old(inst.changes).Keys) == {} && old(db).documents[inst.key][File] != Null ==>
        r == Pass && Planned(old(db), inst.key, old(inst.changes), now, db, inst.changes, inst.newDocument, inst.newHistory)
    {
      var modified := inst.changes.Keys;
      var inter := Protected(modified);
      if inter != {} {
        return Fail(ProtectedField(inter));
      }
      var key := inst.key;
      var stored := db.documents[key];
      if stored[File] == Null {
        return Pass;
      }
      var pending := inst.changes;
      var cur := stored + pending;
      var code := SeqCode(key.0);
      var newVersion := NextVal(code);
      var changes := pending[Version := Text(newVersion)][CreatedAt := Stamp(now)];
      changes := changes[PrevUuid := Null][PrevVersion := Null];
      // none of these assignments touches `type` or `file`, which read as in `cur`
      var retype := cur[Type] != Text("latest");
      if retype {
        changes := changes[Type := Text("latest")];
      }
      inst.changes := changes;
      var cleared := File !in modified || cur[File] == Null;
      if cleared {
        inst.ClearFileFields();
      }
      var nd := NewDocument(cur, stored, modified);
      var nh := HistoryEntry(key.0, key.1, now);
      inst.newDocument := Some(nd);
      inst.newHistory := Some(nh);
      PlannedBy(old(db), inst.key, old(inst.changes), now, db, newVersion, retype, cleared,
                inst.changes, inst.newDocument, inst.newHistory, cur);
      r := Pass;
    }

    /** The unit of work's UPDATE of the instance's row: every pending value
        is written, the row takes the key its uuid and version columns now
        hold (the Latest table's foreign key cascades), and nothing is left
        pending. */
    method OrmUpdate(inst: Latest)
      requires inst.key in db.documents
      requires var row := Current(db, inst.key, inst.changes);
        Uuid in row && Version in row && row[Uuid].Text? && row[Version].Text?
      modifies this, inst`key, inst`changes
      ensures var row := Current(old(db), old(inst.key), old(inst.changes));
        row[Uuid] == Text(inst.key.0) && row[Version] == Text(inst.key.1) &&
        db.documents == (old(db.documents) - {old(inst.key)})[inst.key := row] &&
        db.histories == old(db.histories) && db.sequences == old(db.sequences)
      ensures inst.changes == map[]
    {
      var row := db.documents[inst.key] + inst.changes;
      var newKey := (row[Uuid].s, row[Version].s);
      db := db.(documents := (db.documents - {inst.key})[newKey := row]);
      inst.key := newKey;
      inst.changes := map[];
    }

    /** `after_update_orm_event`: when both parts of the plan are set, the
        snapshot and the history entry are inserted, the Latest row is
        relinked to the history entry, and the plan is dropped; otherwise
        nothing happens. */
    method AfterUpdate(inst: Latest)
      requires inst.newDocument.Some? && inst.newHistory.Some? ==>
        WriterReady(db.documents, db.histories, inst.newDocument.value, inst.newHistory.value)
      modifies this, inst`newDocument, inst`newHistory
      ensures old(inst.newDocument).Some? && old(inst.newHistory).Some? ==>
        (db.documents, db.histories) ==
          Written(old(db.documents), old(db.histories), inst.key, old(inst.newDocument).value, old(inst.newHistory).value) &&
        db.sequences == old(db.sequences) && inst.newDocument == None && inst.newHistory == None
      ensures !(old(inst.newDocument).Some? && old(inst.newHistory).Some?) ==>
        db == old(db) && inst.newDocument == old(inst.newDocument) && inst.newHistory == old(inst.newHistory)
    {
      if inst.newHistory.Some? && inst.newDocument.Some? {
        var nd := inst.newDocument.value;
        var nh := inst.newHistory.value;
        var h := (nh.uuid, nh.version);
        var documents := db.documents[h := nd];
        var histories := db.histories[h := nh.historiedAt];
        if inst.key in documents {
          documents := documents[inst.key := Relinked(documents[inst.key], nh)];
        }
        db := db.(documents := documents, histories := histories);
        inst.newHistory := None;
        inst.newDocument := None;
      }
    }

    /** One flush of the session for this instance: nothing when nothing is
        pending; otherwise the update hook, then (unless it refused) the
        unit of work's UPDATE and the writer. */
    method Flush(inst: Latest, now: int) returns (r: Outcome<Error>)
      requires Valid() && InstanceValid(db, inst.key) && inst.newDocument == None && inst.newHistory == None
      modifies this, inst
      ensures FlushStep(old(db), old(inst.key), old(inst.changes), now, r, db, inst.key)
      ensures Valid() && InstanceValid(db, inst.key) && inst.newDocument == None && inst.newHistory == None
      ensures inst.changes == if r == Pass then map[] else old(inst.changes)
    {
      if inst.changes == map[] {
        return Pass;
      }
      assert RowValid(db, inst.key);
      r := BeforeUpdate(inst, now);
      if r.Fail? {
        return;
      }
      ghost var dp := db;
      ghost var changes1 := inst.changes;
      ghost var nd := inst.newDocument;
      ghost var nh := inst.newHistory;
      ghost var archive := old(db).documents[inst.key][File] != Null;
      if archive {
        PlannedRow(old(db), inst.key, old(inst.changes), now, dp, changes1, nd, nh);
      } else {
        UnplannedRow(old(db), inst.key, old(inst.changes));
      }
      OrmUpdate(inst);
      ghost var d2 := db;
      if archive {
        PlannedReady(old(db), old(inst.key), old(inst.changes), now, dp, changes1, nd, nh, d2, inst.key);
      }
      AfterUpdate(inst);
      FlushCommitted(old(db), old(inst.key), old(inst.changes), now, dp, changes1, nd, nh, d2, inst.key, db);
    }

    /** `historize_a_copy`: refused with NoFile when the instance has no
        file; otherwise a first flush sends what is pending, `type` is set to
        'history' and a second flush runs the hook on that assignment.  With
        nothing pending, the second flush archives the stored row, and the
        Latest row moves to a higher version with its file cleared. */
    method HistorizeACopy(inst: Latest, now: int) returns (r: Outcome<Error>, ghost first: Outcome<Error>, ghost mid: Db, ghost midKey: Key)
      requires Valid() && InstanceValid(db, inst.key) && inst.newDocument == None && inst.newHistory == None
      modifies this, inst
      ensures Valid() && InstanceValid(db, inst.key) && inst.newDocument == None && inst.newHistory == None
      ensures Falsy(Current(old(db), old(inst.key), old(inst.changes))[File]) ==>
        r == Fail(NoFile) && db == old(db) && inst.key == old(inst.key) && inst.changes == old(inst.changes)
      ensures !Falsy(Current(old(db), old(inst.key), old(inst.changes))[File]) ==>
        StoreValid(mid) && InstanceValid(mid, midKey) &&
        FlushStep(old(db), old(inst.key), old(inst.changes), now, first, mid, midKey) &&
        (first != Pass ==> r == first && db == mid && inst.key == midKey) &&
        (first == Pass ==> FlushStep(mid, midKey, map[Type := Text("history")], now, r, db, inst.key))
      ensures r == Pass ==> inst.changes == map[]
      ensures r.Fail? ==> inst.changes == old(inst.changes)
      ensures old(inst.changes) == map[] && !Falsy(old(db).documents[old(inst.key)][File]) ==>
        old(inst.key) in db.documents && inst.key in db.documents && Complete(db.documents[inst.key]) &&
        r == Pass && VersionToken.Number(old(inst.key).1) < VersionToken.Number(inst.key.1) &&
        db.documents[inst.key][Type] == Text("latest") && GetFile(db.documents[inst.key]) == NullFile &&
        db.documents[old(inst.key)] == old(db).documents[old(inst.key)][Type := Text("history")] &&
        Chain(db.documents, inst.key) == [old(inst.key)] + Chain(old(db).documents, old(inst.key))
    {
      first, mid, midKey := Pass, db, inst.key;
      if Falsy((db.documents[inst.key] + inst.changes)[File]) {
        return Fail(NoFile), first, mid, midKey;
      }
      r := Flush(inst, now);
      first, mid, midKey := r, db, inst.key;
      if r.Fail? {
        return;
      }
      r := Retire(inst, now);
      if old(inst.changes) == map[] {
        HistorizeOutcome(mid, midKey, now, r, db, inst.key);
      }
    }

    /** The second half of `historize_a_copy`: the saved instance is retyped
        "history" and flushed again. */
    method Retire(inst: Latest, now: int) returns (r: Outcome<Error>)
      requires Valid() && InstanceValid(db, inst.key) && inst.newDocument == None && inst.newHistory == None
      requires inst.changes == map[]
      modifies this, inst
      ensures Valid() && InstanceValid(db, inst.key) && inst.newDocument == None && inst.newHistory == None
      ensures FlushStep(old(db), old(inst.key), map[Type := Text("history")], now, r, db, inst.key)
      ensures r == Pass && inst.changes == map[]
    {
      inst.Set(Type, Text("history"));
      assert inst.changes == map[Type := Text("history")];
      r := Flush(inst, now);
    }

    /** `add_new_version`: refused with NoFile when the instance has no file;
        otherwise every file field is set to None and the flush archives the
        stored row with its file, leaving a Latest row without one. */
    method AddNewVersion(inst: Latest, now: int) returns (r: Outcome<Error>)
      requires Valid() && InstanceValid(db, inst.key) && inst.newDocument == None && inst.newHistory == None
      modifies this, inst
      ensures Valid() && InstanceValid(db, inst.key) && inst.newDocument == None && inst.newHistory == None
      ensures Falsy(Current(old(db), old(inst.key), old(inst.changes))[File]) ==>
        r == Fail(NoFile) && db == old(db) && inst.key == old(inst.key) && inst.changes == old(inst.changes)
      ensures !Falsy(Current(old(db), old(inst.key), old(inst.changes))[File]) ==>
        FlushStep(old(db), old(inst.key), old(inst.changes) + NullFile, now, r, db, inst.key) &&
        inst.changes == if r == Pass then map[] else old(inst.changes) + NullFile
      ensures !Falsy(Current(old(db), old(inst.key), old(inst.changes))[File]) &&
              Protected(old(inst.changes).Keys) == {} && old(db).documents[old(inst.key)][File] != Null ==>
        old(inst.key) in db.documents && inst.key in db.documents && Complete(db.documents[inst.key]) &&
        r == Pass && VersionToken.Number(old(inst.key).1) < VersionToken.Number(inst.key.1) &&
        GetFile(db.documents[inst.key]) == NullFile &&
        db.documents[old(inst.key)] == old(db).documents[old(inst.key)][Type := Text("history")] &&
        Chain(db.documents, inst.key) == [old(inst.key)] + Chain(old(db).documents, old(inst.key))
    {
      if Falsy((db.documents[inst.key] + inst.changes)[File]) {
        return Fail(NoFile);
      }
      inst.ClearFileFields();
      r := Flush(inst, now);
      if Protected(old(inst.changes).Keys) == {} && old(db).documents[old(inst.key)][File] != Null {
        AddNewVersionOutcome(old(db), old(inst.key), old(inst.changes), now, r, db, inst.key);
      }
    }

    /** `get_previous_versions` of the row at `k`: follow `previous_version`
        while it names a row, collecting each predecessor, nearest first. */
    method PreviousVersions(k: Key) returns (res: seq<Key>)
      requires LinksValid(db) && HistoriesTagged(db) && k in db.documents
      ensures res == Chain(db.documents, k)
    {
      res := [];
      var current := k;
      var previous := PreviousVersion(db.documents, current);
      while previous.Some?
        invariant current in db.documents
        invariant previous == PreviousVersion(db.documents, current)
        invariant res + Chain(db.documents, current) == Chain(db.documents, k)
        decreases VersionToken.Number(current.1)
      {
        ChainStep(db, current);
        var p := previous.value;
        assert res + Chain(db.documents, current) == (res + [p]) + Chain(db.documents, p);
        current := p;
        res := res + [current];
        previous := PreviousVersion(db.documents, current);
      }
      ChainStep(db, current);
    }

    /** `Latest.insert` (and `Document.insert`, which delegates to it) with
        the fresh uuid `uuid`: a new sequence for the document, whose first
        number gives the first version, and the new row. */
    method Insert(uuid: string, now: int, kwargs: map<Column, Value>) returns (inst: Latest)
      requires Valid() && SeqCode(uuid) !in db.sequences && kwargs.Keys <= InsertColumns
      modifies this
      ensures Inserted(old(db), uuid, now, kwargs, db, inst.key)
      ensures fresh(inst) && Valid() && inst.changes == map[] && InstanceValid(db, inst.key) && inst.newDocument == None && inst.newHistory == None
      ensures Chain(db.documents, inst.key) == []
    {
      var code := SeqCode(uuid);
      db := Db(db.documents, db.histories, db.sequences[code := 1]);
      ghost var dm := db;
      var version := NextVal(code);
      db := Db(db.documents[(uuid, version) := NewRow(uuid, version, now, kwargs)], db.histories, db.sequences);
      inst := new Latest((uuid, version));
      InsertCommitted(old(db), uuid, now, kwargs, dm, version, db);
    }
  }
}
