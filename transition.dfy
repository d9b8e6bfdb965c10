/**
  What one save of a Latest document does to the store, stated as relations
  between the store before and after: creation, an update absorbed in place,
  an archival transition, and the whole flush of one instance.  The methods
  of the Attachment module are proved to perform these steps; the lemmas
  here say what the steps guarantee.
 */
module Transition {
  import opened Wrappers
  import VersionToken
  import opened Document

  /** The exceptions the versioning raises. */
  datatype Error =
    | ProtectedField(fields: set<Column>)  // ProtectedFieldException, naming the fields
    | NoFile                               // NoFileException

  /** `getattr` on an instance: its pending assignment if any, else the stored value. */
  function Current(d: Db, key: Key, changes: map<Column, Value>): Row
    requires key in d.documents
  {
    d.documents[key] + changes
  }

  /** The column values a new Latest row takes when the caller does not give them. */
  function Default(column: Column, now: int): Value {
    if column == CreatedAt then Stamp(now)
    else if column == Data then Json(map[])
    else Null
  }

  /** Columns a caller may pass to `insert` here (see README, "Left out"). */
  const InsertColumns: set<Column> :=
    {Uuid, Version, CreatedAt, Data, FileAddedAt, Filename, ContentType, FileSize, File, Hash}

  /** The row `Latest.insert` creates: the caller's values over the defaults,
      with the fresh uuid, the first version and the Latest type. */
  ghost predicate NewLatest(row: Row, uuid: string, version: string, now: int, kwargs: map<Column, Value>) {
    Complete(row) &&
    row[Uuid] == Text(uuid) && row[Version] == Text(version) && row[Type] == Text("latest") &&
    forall c :: c !in {Uuid, Version, Type} ==>
      row[c] == if c in kwargs then kwargs[c] else Default(c, now)
  }

  /** The row `insert` writes: the caller's values over the defaults, with
      the uuid, the version and the Latest type. */
  function NewRow(uuid: string, version: string, now: int, kwargs: map<Column, Value>): Row {
    map c | c in Columns ::
      if c == Uuid then Text(uuid)
      else if c == Version then Text(version)
      else if c == Type then Text("latest")
      else if c in kwargs then kwargs[c]
      else Default(c, now)
  }

  lemma NewRowLatest(uuid: string, version: string, now: int, kwargs: map<Column, Value>)
    ensures NewLatest(NewRow(uuid, version, now, kwargs), uuid, version, now, kwargs)
  {
    AllColumns();
  }

  /** `Latest.insert` with the fresh uuid `uuid`: the document's sequence,
      started at 1, has issued one number, whose token is the version. */
  ghost predicate Inserted(d0: Db, uuid: string, now: int, kwargs: map<Column, Value>, d1: Db, key1: Key) {
    var code := SeqCode(uuid);
    d1.sequences == d0.sequences[code := 2] &&
    key1 == (uuid, VersionToken.Format(d1.sequences[code] - 1)) &&
    d1.histories == d0.histories &&
    key1 in d1.documents && d1.documents == d0.documents[key1 := d1.documents[key1]] &&
    NewLatest(d1.documents[key1], uuid, key1.1, now, kwargs)
  }

  /** An update that needs no archive: the pending values are written over the
      stored row, at the same key. */
  ghost predicate Absorbed(d0: Db, key: Key, changes: map<Column, Value>, d1: Db, key1: Key)
    requires key in d0.documents
  {
    key1 == key && d1 == d0.(documents := d0.documents[key := Current(d0, key, changes)])
  }

  /** The file bundle is cleared on archival unless the update sets a file. */
  predicate FileCleared(modified: set<Column>, cur: Row)
    requires File in cur
  {
    File !in modified || cur[File] == Null
  }

  /** The history snapshot: the stored value of each modified column, the
      instance's value of every other column, and type 'history'. */
  ghost predicate Snapshot(h: Row, persisted: Row, cur: Row, modified: set<Column>)
    requires modified <= persisted.Keys
  {
    h == (cur + map c | c in modified :: persisted[c])[Type := Text("history")]
  }

  /** The rewritten Latest row, leaving aside its predecessor columns: new
      version, fresh created_at, type 'latest', the caller's data, and the file
      bundle either cleared or as the caller set it. */
  ghost predicate Renewed(l: Row, cur: Row, modified: set<Column>, uuid: string, version: string, now: int)
    requires Complete(cur)
  {
    Complete(l) &&
    l[Uuid] == Text(uuid) && l[Version] == Text(version) &&
    l[CreatedAt] == Stamp(now) && l[Type] == Text("latest") &&
    l[Data] == cur[Data] &&
    GetFile(l) == if FileCleared(modified, cur) then NullFile else GetFile(cur)
  }

  /** The Latest row as the update hook rewrites it, column by column: new
      version, fresh created_at, predecessor reset, type 'latest', and every
      file field None when `cleared`. */
  function Rewritten(cur: Row, version: string, now: int, cleared: bool): Row {
    var l := cur[Version := Text(version)][CreatedAt := Stamp(now)][PrevUuid := Null][PrevVersion := Null][Type := Text("latest")];
    if cleared then l + NullFile else l
  }

  /** The rewritten row is the renewed Latest row the transition describes,
      with both predecessor columns None. */
  lemma RewrittenRenewed(cur: Row, modified: set<Column>, uuid: string, version: string, now: int)
    requires Complete(cur) && cur[Uuid] == Text(uuid)
    ensures var l := Rewritten(cur, version, now, FileCleared(modified, cur));
      Renewed(l, cur, modified, uuid, version, now) && l[PrevUuid] == Null && l[PrevVersion] == Null
  {
    var cleared := FileCleared(modified, cur);
    RewrittenFile(cur, version, now, cleared);
    RewrittenColumns(cur, version, now, cleared);
  }

  /** The columns outside the file bundle that the rewrite sets or keeps. */
  lemma RewrittenColumns(cur: Row, version: string, now: int, cleared: bool)
    requires Uuid in cur && Data in cur
    ensures var l := Rewritten(cur, version, now, cleared);
      l[Uuid] == cur[Uuid] && l[Version] == Text(version) && l[CreatedAt] == Stamp(now) &&
      l[Type] == Text("latest") && l[Data] == cur[Data] && l[PrevUuid] == Null && l[PrevVersion] == Null
  {
  }

  /** The rewritten row has every column, and its file bundle is all None when
      cleared and the caller's otherwise. */
  lemma RewrittenFile(cur: Row, version: string, now: int, cleared: bool)
    requires Complete(cur)
    ensures Complete(Rewritten(cur, version, now, cleared))
    ensures GetFile(Rewritten(cur, version, now, cleared)) == if cleared then NullFile else GetFile(cur)
  {
    var l := Rewritten(cur, version, now, cleared);
    if cleared {
      GetFileNulled(cur[Version := Text(version)][CreatedAt := Stamp(now)][PrevUuid := Null][PrevVersion := Null][Type := Text("latest")]);
    } else {
      GetFileSame(cur, l);
    }
  }

  /** An archival transition of the row at `key`: the document's sequence
      issues the new version, the old key now holds the snapshot and a history
      entry, and the Latest row moves to the new key with its predecessor
      link pointing at the old key. */
  ghost predicate Archived(d0: Db, key: Key, changes: map<Column, Value>, now: int, d1: Db, key1: Key)
    requires key in d0.documents && Complete(d0.documents[key])
  {
    var code := SeqCode(key.0);
    var cur := Current(d0, key, changes);
    code in d0.sequences &&
    key1 == (key.0, VersionToken.Format(d0.sequences[code])) &&
    d1.sequences == d0.sequences[code := d0.sequences[code] + 1] &&
    d1.histories == d0.histories[key := now] &&
    d1.documents.Keys == d0.documents.Keys + {key1} &&
    (forall k :: k in d0.documents && k != key ==> d1.documents[k] == d0.documents[k]) &&
    Snapshot(d1.documents[key], d0.documents[key], cur, changes.Keys) &&
    Renewed(d1.documents[key1], cur, changes.Keys, key.0, key1.1, now) &&
    d1.documents[key1][PrevUuid] == Text(key.0) &&
    d1.documents[key1][PrevVersion] == Text(key.1)
  }

  /** One flush of a Latest instance with pending assignments `changes`:
      nothing when nothing is pending, a refusal when a protected field is
      assigned, an update in place when the stored row has no file, and an
      archival transition otherwise. */
  ghost predicate FlushStep(d0: Db, key: Key, changes: map<Column, Value>, now: int,
                            r: Outcome<Error>, d1: Db, key1: Key)
    requires key in d0.documents && Complete(d0.documents[key])
  {
    if changes == map[] then
      r == Pass && d1 == d0 && key1 == key
    else if Protected(changes.Keys) != {} then
      r == Fail(ProtectedField(Protected(changes.Keys))) && d1 == d0 && key1 == key
    else
      r == Pass &&
      if d0.documents[key][File] == Null then Absorbed(d0, key, changes, d1, key1)
      else Archived(d0, key, changes, now, d1, key1)
  }

  /** The row `insert` creates is valid once its sequence has issued the first number. */
  lemma NewLatestValid(d: Db, key: Key, now: int, kwargs: map<Column, Value>)
    requires kwargs.Keys <= InsertColumns
    requires VersionToken.Parse(key.1) == Some(1)
    requires key in d.documents && NewLatest(d.documents[key], key.0, key.1, now, kwargs)
    requires SeqCode(key.0) in d.sequences && d.sequences[SeqCode(key.0)] == 2
    ensures RowValid(d, key) && LinkValid(d, key)
    ensures LinkOf(d.documents[key]) == None
  {
    var row := d.documents[key];
    assert PrevUuid !in kwargs && PrevVersion !in kwargs;
    assert row[PrevUuid] == Null && row[PrevVersion] == Null;
  }

  /** Inserting a document keeps every sequence and history entry, and every
      other row. */
  lemma InsertedShape(d0: Db, uuid: string, now: int, kwargs: map<Column, Value>, d1: Db, key1: Key)
    requires SeqCode(uuid) !in d0.sequences
    requires Inserted(d0, uuid, now, kwargs, d1, key1)
    ensures Grown(d0, d1)
    ensures forall k :: k in d1.documents && k !in {key1} ==> k in d0.documents && d1.documents[k] == d0.documents[k]
  {
  }

  /** Inserting a document leaves every history entry on a history row. */
  lemma InsertedHistoriesValid(d0: Db, uuid: string, now: int, kwargs: map<Column, Value>, d1: Db, key1: Key)
    requires HistoriesTagged(d0) && key1 !in d0.documents
    requires Inserted(d0, uuid, now, kwargs, d1, key1)
    ensures HistoriesTagged(d1)
  {
  }

  /** Registering the document's sequence, drawing its first number and
      writing the new row at that version is the insertion. */
  lemma InsertedBy(d0: Db, uuid: string, now: int, kwargs: map<Column, Value>, seqs: map<string, nat>, version: string)
    requires RowsValid(d0) && SeqCode(uuid) !in d0.sequences
    requires seqs == d0.sequences[SeqCode(uuid) := 2] && version == VersionToken.Format(seqs[SeqCode(uuid)] - 1)
    ensures Inserted(d0, uuid, now, kwargs,
                     Db(d0.documents[(uuid, version) := NewRow(uuid, version, now, kwargs)], d0.histories, seqs),
                     (uuid, version))
  {
    NoRowWithoutSequence(d0, uuid, version);
    NewRowLatest(uuid, version, now, kwargs);
  }

  /** The first version of every document is "V-000001". */
  lemma InsertedFirstVersion(d0: Db, uuid: string, now: int, kwargs: map<Column, Value>, d1: Db, key1: Key)
    requires Inserted(d0, uuid, now, kwargs, d1, key1)
    ensures key1 == (uuid, VersionToken.Format(1)) && key1.1 == "V-000001"
  {
    VersionToken.FirstVersion();
  }

  /** A new document is a valid Latest row at the first version with no
      predecessor, and leaves every other row alone. */
  lemma InsertedValid(d0: Db, uuid: string, now: int, kwargs: map<Column, Value>, d1: Db, key1: Key)
    requires StoreValid(d0) && SeqCode(uuid) !in d0.sequences && kwargs.Keys <= InsertColumns
    requires Inserted(d0, uuid, now, kwargs, d1, key1)
    ensures key1 !in d0.documents
    ensures StoreValid(d1) && InstanceValid(d1, key1)
    ensures Chain(d1.documents, key1) == []
  {
    NoRowWithoutSequence(d0, uuid, key1.1);
    InsertedNewRowValid(d0, uuid, now, kwargs, d1, key1);
    InsertedRowsValid(d0, uuid, now, kwargs, d1, key1);
    InsertedLinksValid(d0, uuid, now, kwargs, d1, key1);
    InsertedHistoriesValid(d0, uuid, now, kwargs, d1, key1);
  }

  /** The new row is valid and has no predecessor. */
  lemma InsertedNewRowValid(d0: Db, uuid: string, now: int, kwargs: map<Column, Value>, d1: Db, key1: Key)
    requires kwargs.Keys <= InsertColumns
    requires Inserted(d0, uuid, now, kwargs, d1, key1)
    ensures key1 in d1.documents && RowValid(d1, key1) && LinkValid(d1, key1)
    ensures LinkOf(d1.documents[key1]) == None
  {
    VersionToken.ParseFormat(d1.sequences[SeqCode(uuid)] - 1);
    NewLatestValid(d1, key1, now, kwargs);
  }

  /** Inserting a document keeps every row valid. */
  lemma InsertedRowsValid(d0: Db, uuid: string, now: int, kwargs: map<Column, Value>, d1: Db, key1: Key)
    requires RowsValid(d0) && SeqCode(uuid) !in d0.sequences && kwargs.Keys <= InsertColumns
    requires Inserted(d0, uuid, now, kwargs, d1, key1)
    ensures RowsValid(d1)
  {
    InsertedShape(d0, uuid, now, kwargs, d1, key1);
    UntouchedRowsValid(d0, d1, {key1});
    InsertedNewRowValid(d0, uuid, now, kwargs, d1, key1);
    RowsValidFrom(d1, key1, key1);
  }

  /** Inserting a document keeps every link valid. */
  lemma InsertedLinksValid(d0: Db, uuid: string, now: int, kwargs: map<Column, Value>, d1: Db, key1: Key)
    requires LinksValid(d0) && SeqCode(uuid) !in d0.sequences && kwargs.Keys <= InsertColumns
    requires Inserted(d0, uuid, now, kwargs, d1, key1)
    ensures LinksValid(d1)
  {
    InsertedShape(d0, uuid, now, kwargs, d1, key1);
    UntouchedLinksValid(d0, d1, {key1});
    InsertedNewRowValid(d0, uuid, now, kwargs, d1, key1);
    LinksValidFrom(d1, key1, key1);
  }

  /** Whatever the update assigned, the snapshot is the stored row before the
      update, retagged 'history'. */
  lemma SnapshotIsStoredRow(d0: Db, key: Key, changes: map<Column, Value>, h: Row)
    requires key in d0.documents && Complete(d0.documents[key])
    requires Snapshot(h, d0.documents[key], Current(d0, key, changes), changes.Keys)
    ensures h == d0.documents[key][Type := Text("history")]
  {
    var p := d0.documents[key];
    assert h.Keys == p[Type := Text("history")].Keys;
    forall c | c in h.Keys ensures h[c] == p[Type := Text("history")][c] {
      if c != Type && c !in changes.Keys {
        assert Current(d0, key, changes)[c] == p[c];
      }
    }
  }

  /** The version an archival transition issues is new and higher than the old one. */
  lemma ArchivedFresh(d0: Db, key: Key, changes: map<Column, Value>, now: int, d1: Db, key1: Key)
    requires RowsValid(d0) && key in d0.documents && Complete(d0.documents[key])
    requires Archived(d0, key, changes, now, d1, key1)
    ensures key1 !in d0.documents && key1 != key
    ensures VersionToken.Number(key.1) < VersionToken.Number(key1.1)
  {
    assert RowValid(d0, key);
    VersionToken.ParseFormat(d0.sequences[SeqCode(key.0)]);
    NextVersionIsFree(d0, key.0);
  }

  /** The rewritten Latest row is valid: its link names the new history entry. */
  lemma ArchivedLatestValid(d0: Db, key: Key, changes: map<Column, Value>, now: int, d1: Db, key1: Key)
    requires key in d0.documents && Complete(d0.documents[key])
    requires Archived(d0, key, changes, now, d1, key1)
    requires VersionToken.Number(key.1) < VersionToken.Number(key1.1)
    ensures key1 in d1.documents && RowValid(d1, key1) && LinkValid(d1, key1)
  {
    VersionToken.ParseFormat(d0.sequences[SeqCode(key.0)]);
    assert LinkValid(d1, key1);
  }

  /** The snapshot row is valid: it keeps the stored row's key columns, link
      and file. */
  lemma ArchivedSnapshotValid(d0: Db, key: Key, changes: map<Column, Value>, now: int, d1: Db, key1: Key)
    requires key in d0.documents && RowValid(d0, key)
    requires Archived(d0, key, changes, now, d1, key1)
    ensures d1.documents[key] == d0.documents[key][Type := Text("history")]
    ensures RowValid(d1, key)
    ensures LinkOf(d1.documents[key]) == LinkOf(d0.documents[key])
    ensures GetFile(d1.documents[key]) == GetFile(d0.documents[key])
  {
    SnapshotIsStoredRow(d0, key, changes, d1.documents[key]);
    RetaggedRow(d0.documents[key], Text("history"), d1.documents[key]);
    ArchivedShape(d0, key, changes, now, d1, key1);
    RowValidRetagged(d0, d1, key, Text("history"));
  }

  /** The snapshot row keeps a valid link. */
  lemma ArchivedSnapshotLinkValid(d0: Db, key: Key, changes: map<Column, Value>, now: int, d1: Db, key1: Key)
    requires key in d0.documents && Complete(d0.documents[key]) && LinkValid(d0, key)
    requires Archived(d0, key, changes, now, d1, key1)
    ensures LinkValid(d1, key)
  {
    SnapshotIsStoredRow(d0, key, changes, d1.documents[key]);
    LinkValidRetagged(d0, d1, key, Text("history"));
  }

  /** An archival transition keeps every sequence and history entry, and
      every row but the two it writes. */
  lemma ArchivedShape(d0: Db, key: Key, changes: map<Column, Value>, now: int, d1: Db, key1: Key)
    requires key in d0.documents && Complete(d0.documents[key])
    requires Archived(d0, key, changes, now, d1, key1)
    ensures Grown(d0, d1)
    ensures forall k :: k in d1.documents && k !in {key, key1} ==> k in d0.documents && d1.documents[k] == d0.documents[k]
  {
  }

  /** Every row of the store after an archival transition is valid. */
  lemma ArchivedRowsValid(d0: Db, key: Key, changes: map<Column, Value>, now: int, d1: Db, key1: Key)
    requires RowsValid(d0) && key in d0.documents && Complete(d0.documents[key])
    requires Archived(d0, key, changes, now, d1, key1)
    ensures key1 !in d0.documents && key1 != key
    ensures VersionToken.Number(key.1) < VersionToken.Number(key1.1)
    ensures RowsValid(d1)
  {
    ArchivedFresh(d0, key, changes, now, d1, key1);
    ArchivedLatestValid(d0, key, changes, now, d1, key1);
    assert RowValid(d0, key);
    ArchivedSnapshotValid(d0, key, changes, now, d1, key1);
    ArchivedShape(d0, key, changes, now, d1, key1);
    UntouchedRowsValid(d0, d1, {key, key1});
    RowsValidFrom(d1, key, key1);
  }

  /** Every link of the store after an archival transition is valid. */
  lemma ArchivedLinksValid(d0: Db, key: Key, changes: map<Column, Value>, now: int, d1: Db, key1: Key)
    requires LinksValid(d0) && key in d0.documents && Complete(d0.documents[key])
    requires Archived(d0, key, changes, now, d1, key1)
    requires key1 != key && VersionToken.Number(key.1) < VersionToken.Number(key1.1)
    ensures LinksValid(d1)
  {
    ArchivedLatestValid(d0, key, changes, now, d1, key1);
    assert LinkValid(d0, key);
    ArchivedSnapshotLinkValid(d0, key, changes, now, d1, key1);
    ArchivedShape(d0, key, changes, now, d1, key1);
    UntouchedLinksValid(d0, d1, {key, key1});
    LinksValidFrom(d1, key, key1);
  }

  /** An archival transition alters no history row and tags the new one. */
  lemma ArchivedKeepsHistory(d0: Db, key: Key, changes: map<Column, Value>, now: int, d1: Db, key1: Key)
    requires HistoriesTagged(d0) && key in d0.documents && Complete(d0.documents[key]) && key !in d0.histories
    requires Archived(d0, key, changes, now, d1, key1)
    requires key1 !in d0.documents
    ensures forall h :: h in d0.histories ==> h in d0.documents && h in d1.histories && h in d1.documents && d1.documents[h] == d0.documents[h]
    ensures HistoriesTagged(d1)
  {
    forall h | h in d0.histories ensures h in d0.documents && h in d1.histories && h in d1.documents && d1.documents[h] == d0.documents[h] {
      assert h != key;
    }
  }

  /** An archival transition keeps the store valid, issues a version that is
      new and higher than the old one, and leaves a live Latest instance. */
  lemma ArchivedValid(d0: Db, key: Key, changes: map<Column, Value>, now: int, d1: Db, key1: Key)
    requires StoreValid(d0) && InstanceValid(d0, key)
    requires Archived(d0, key, changes, now, d1, key1)
    ensures key1 !in d0.documents && key1 != key
    ensures VersionToken.Number(key.1) < VersionToken.Number(key1.1)
    ensures StoreValid(d1) && InstanceValid(d1, key1)
  {
    ArchivedRowsValid(d0, key, changes, now, d1, key1);
    ArchivedLinksValid(d0, key, changes, now, d1, key1);
    ArchivedKeepsHistory(d0, key, changes, now, d1, key1);
  }

  /** After an archival transition the predecessor chain of the Latest row is
      the old key followed by the chain the row had before. */
  lemma ArchivedChain(d0: Db, key: Key, changes: map<Column, Value>, now: int, d1: Db, key1: Key)
    requires StoreValid(d0) && InstanceValid(d0, key)
    requires Archived(d0, key, changes, now, d1, key1)
    ensures key1 in d1.documents
    ensures Chain(d1.documents, key1) == [key] + Chain(d0.documents, key)
  {
    ArchivedFresh(d0, key, changes, now, d1, key1);
    ArchivedSnapshotChain(d0, key, changes, now, d1, key1);
    ChainCons(d1.documents, key1, key);
  }

  /** The snapshot row keeps the chain the stored row had. */
  lemma ArchivedSnapshotChain(d0: Db, key: Key, changes: map<Column, Value>, now: int, d1: Db, key1: Key)
    requires StoreValid(d0) && InstanceValid(d0, key)
    requires Archived(d0, key, changes, now, d1, key1)
    ensures key in d1.documents && Chain(d1.documents, key) == Chain(d0.documents, key)
  {
    ArchivedFresh(d0, key, changes, now, d1, key1);
    assert RowValid(d0, key);
    ArchivedSnapshotValid(d0, key, changes, now, d1, key1);
    ArchivedKeepsHistory(d0, key, changes, now, d1, key1);
    ChainFrame(d0, d1.documents, key);
  }

  /** What an archival transition leaves, as `previous_versions` and
      `get_file` see it: a higher version whose chain starts at the old key,
      the stored row kept as history with its file, and on the Latest row
      every file field None when the update set no file, the caller's file
      otherwise. */
  lemma ArchivedOutcome(d0: Db, key: Key, changes: map<Column, Value>, now: int, d1: Db, key1: Key)
    requires StoreValid(d0) && InstanceValid(d0, key)
    requires Archived(d0, key, changes, now, d1, key1)
    ensures key in d1.documents && key1 in d1.documents && Complete(d1.documents[key1])
    ensures VersionToken.Number(key.1) < VersionToken.Number(key1.1)
    ensures d1.documents[key] == d0.documents[key][Type := Text("history")]
    ensures GetFile(d1.documents[key]) == GetFile(d0.documents[key])
    ensures GetFile(d1.documents[key1]) ==
      if FileCleared(changes.Keys, Current(d0, key, changes)) then NullFile
      else GetFile(Current(d0, key, changes))
    ensures Chain(d1.documents, key1) == [key] + Chain(d0.documents, key)
  {
    ArchivedFresh(d0, key, changes, now, d1, key1);
    assert RowValid(d0, key);
    ArchivedSnapshotValid(d0, key, changes, now, d1, key1);
    ArchivedChain(d0, key, changes, now, d1, key1);
  }

  /** The row an update absorbs keeps its key columns and its link. */
  lemma AbsorbedRowValid(d0: Db, key: Key, changes: map<Column, Value>, d1: Db, key1: Key)
    requires key in d0.documents && RowValid(d0, key) && Protected(changes.Keys) == {}
    requires Absorbed(d0, key, changes, d1, key1)
    ensures RowValid(d1, key)
    ensures LinkOf(d1.documents[key]) == LinkOf(d0.documents[key])
  {
    Unprotected(changes.Keys);
  }

  /** The row an update absorbs keeps a valid link. */
  lemma AbsorbedLinkValid(d0: Db, key: Key, changes: map<Column, Value>, d1: Db, key1: Key)
    requires key in d0.documents && LinkValid(d0, key) && Protected(changes.Keys) == {}
    requires Absorbed(d0, key, changes, d1, key1)
    ensures LinkValid(d1, key)
  {
    Unprotected(changes.Keys);
  }

  /** An update absorbed in place keeps every sequence and history entry, and
      every row but its own. */
  lemma AbsorbedShape(d0: Db, key: Key, changes: map<Column, Value>, d1: Db, key1: Key)
    requires key in d0.documents
    requires Absorbed(d0, key, changes, d1, key1)
    ensures Grown(d0, d1)
    ensures forall k :: k in d1.documents && k !in {key} ==> k in d0.documents && d1.documents[k] == d0.documents[k]
  {
  }

  /** An update absorbed in place alters no history row. */
  lemma AbsorbedKeepsHistory(d0: Db, key: Key, changes: map<Column, Value>, d1: Db, key1: Key)
    requires HistoriesTagged(d0) && key in d0.documents && key !in d0.histories
    requires Absorbed(d0, key, changes, d1, key1)
    ensures forall h :: h in d0.histories ==> h in d0.documents && h in d1.histories && h in d1.documents && d1.documents[h] == d0.documents[h]
    ensures HistoriesTagged(d1)
  {
  }

  /** An update absorbed in place keeps the store valid, the version and the
      predecessor chain. */
  lemma AbsorbedValid(d0: Db, key: Key, changes: map<Column, Value>, d1: Db, key1: Key)
    requires StoreValid(d0) && InstanceValid(d0, key) && Protected(changes.Keys) == {}
    requires Absorbed(d0, key, changes, d1, key1)
    ensures StoreValid(d1) && InstanceValid(d1, key1)
    ensures Chain(d1.documents, key1) == Chain(d0.documents, key)
  {
    AbsorbedRowsValid(d0, key, changes, d1, key1);
    AbsorbedLinksValid(d0, key, changes, d1, key1);
    AbsorbedKeepsHistory(d0, key, changes, d1, key1);
    AbsorbedLink(d0, key, changes, d1, key1);
    ChainFrame(d0, d1.documents, key);
  }

  /** An update absorbed in place keeps the row's predecessor link. */
  lemma AbsorbedLink(d0: Db, key: Key, changes: map<Column, Value>, d1: Db, key1: Key)
    requires key in d0.documents && Protected(changes.Keys) == {}
    requires Absorbed(d0, key, changes, d1, key1)
    ensures key in d1.documents && LinkOf(d1.documents[key]) == LinkOf(d0.documents[key])
  {
    Unprotected(changes.Keys);
  }

  /** An update absorbed in place keeps every row valid. */
  lemma AbsorbedRowsValid(d0: Db, key: Key, changes: map<Column, Value>, d1: Db, key1: Key)
    requires RowsValid(d0) && key in d0.documents && Protected(changes.Keys) == {}
    requires Absorbed(d0, key, changes, d1, key1)
    ensures RowsValid(d1)
  {
    assert RowValid(d0, key);
    AbsorbedRowValid(d0, key, changes, d1, key1);
    AbsorbedShape(d0, key, changes, d1, key1);
    UntouchedRowsValid(d0, d1, {key});
    RowsValidFrom(d1, key, key);
  }

  /** An update absorbed in place keeps every link valid. */
  lemma AbsorbedLinksValid(d0: Db, key: Key, changes: map<Column, Value>, d1: Db, key1: Key)
    requires LinksValid(d0) && key in d0.documents && Protected(changes.Keys) == {}
    requires Absorbed(d0, key, changes, d1, key1)
    ensures LinksValid(d1)
  {
    assert LinkValid(d0, key);
    AbsorbedLinkValid(d0, key, changes, d1, key1);
    AbsorbedShape(d0, key, changes, d1, key1);
    UntouchedLinksValid(d0, d1, {key});
    LinksValidFrom(d1, key, key);
  }

  /** What any flush keeps: a valid store with a live instance, no row
      removed, no history row altered, and history grown by one entry, the old
      key, exactly when the instance moved to a new, higher version. */
  ghost predicate Preserved(d0: Db, key: Key, d1: Db, key1: Key)
    requires key in d0.documents
  {
    StoreValid(d1) && InstanceValid(d1, key1) &&
    d0.documents.Keys <= d1.documents.Keys &&
    (forall h :: h in d0.histories ==> h in d0.documents && h in d1.histories && h in d1.documents && d1.documents[h] == d0.documents[h]) &&
    (key1 == key ==> d1.histories == d0.histories) &&
    (key1 != key ==>
      d1.histories.Keys == d0.histories.Keys + {key} && key !in d0.histories &&
      VersionToken.Number(key.1) < VersionToken.Number(key1.1))
  }

  lemma AbsorbedPreserved(d0: Db, key: Key, changes: map<Column, Value>, d1: Db, key1: Key)
    requires StoreValid(d0) && InstanceValid(d0, key) && Protected(changes.Keys) == {}
    requires Absorbed(d0, key, changes, d1, key1)
    ensures Preserved(d0, key, d1, key1)
  {
    AbsorbedValid(d0, key, changes, d1, key1);
    AbsorbedKeepsHistory(d0, key, changes, d1, key1);
  }

  lemma ArchivedPreserved(d0: Db, key: Key, changes: map<Column, Value>, now: int, d1: Db, key1: Key)
    requires StoreValid(d0) && InstanceValid(d0, key)
    requires Archived(d0, key, changes, now, d1, key1)
    ensures Preserved(d0, key, d1, key1)
  {
    ArchivedValid(d0, key, changes, now, d1, key1);
    ArchivedKeepsHistory(d0, key, changes, now, d1, key1);
  }

  /** A flush keeps the store valid and history append-only, whatever its outcome. */
  lemma FlushValid(d0: Db, key: Key, changes: map<Column, Value>, now: int,
                   r: Outcome<Error>, d1: Db, key1: Key)
    requires StoreValid(d0) && InstanceValid(d0, key)
    requires FlushStep(d0, key, changes, now, r, d1, key1)
    ensures Preserved(d0, key, d1, key1)
  {
    if changes == map[] || Protected(changes.Keys) != {} {
    } else if d0.documents[key][File] == Null {
      AbsorbedPreserved(d0, key, changes, d1, key1);
    } else {
      ArchivedPreserved(d0, key, changes, now, d1, key1);
    }
  }

  /** History rows are read-only: a flush alters no history row and no
      historied_at, and the only entry it adds is the old key, when it moves
      the instance, stamped with the time of the flush. */
  lemma HistoryReadOnly(d0: Db, key: Key, changes: map<Column, Value>, now: int,
                        r: Outcome<Error>, d1: Db, key1: Key)
    requires StoreValid(d0) && InstanceValid(d0, key)
    requires FlushStep(d0, key, changes, now, r, d1, key1)
    ensures forall h :: h in d0.histories ==>
      h in d1.histories && d1.histories[h] == d0.histories[h] && h in d1.documents && d1.documents[h] == d0.documents[h]
    ensures key1 == key ==> d1.histories == d0.histories
    ensures key1 != key ==> d1.histories == d0.histories[key := now] && d1.documents[key][Type] == Text("history")
  {
    if changes == map[] || Protected(changes.Keys) != {} {
    } else if d0.documents[key][File] == Null {
      AbsorbedKeepsHistory(d0, key, changes, d1, key1);
    } else {
      ArchivedHistoryReadOnly(d0, key, changes, now, d1, key1);
    }
  }

  /** An archival transition adds the old key to history, stamped `now`,
      and alters no earlier entry. */
  lemma ArchivedHistoryReadOnly(d0: Db, key: Key, changes: map<Column, Value>, now: int, d1: Db, key1: Key)
    requires StoreValid(d0) && InstanceValid(d0, key)
    requires Archived(d0, key, changes, now, d1, key1)
    ensures forall h :: h in d0.histories ==>
      h in d1.histories && d1.histories[h] == d0.histories[h] && h in d1.documents && d1.documents[h] == d0.documents[h]
    ensures key1 != key && d1.histories == d0.histories[key := now] && d1.documents[key][Type] == Text("history")
  {
    ArchivedFresh(d0, key, changes, now, d1, key1);
    assert RowValid(d0, key);
    ArchivedSnapshotValid(d0, key, changes, now, d1, key1);
    ArchivedKeepsHistory(d0, key, changes, now, d1, key1);
  }

  /** No file, no archive: when the stored row has no file, a flush keeps the
      version, issues no version and adds no row. */
  lemma NoFileNoArchive(d0: Db, key: Key, changes: map<Column, Value>, now: int,
                        r: Outcome<Error>, d1: Db, key1: Key)
    requires StoreValid(d0) && InstanceValid(d0, key)
    requires d0.documents[key][File] == Null
    requires FlushStep(d0, key, changes, now, r, d1, key1)
    ensures key1 == key && d1.documents.Keys == d0.documents.Keys
    ensures d1.histories == d0.histories && d1.sequences == d0.sequences
  {
    assert RowValid(d0, key);
  }

  /** A flush with something pending, no protected field and a stored file
      is an archival transition. */
  lemma FlushArchives(d0: Db, key: Key, changes: map<Column, Value>, now: int,
                      r: Outcome<Error>, d1: Db, key1: Key)
    requires StoreValid(d0) && InstanceValid(d0, key)
    requires changes != map[] && Protected(changes.Keys) == {} && d0.documents[key][File] != Null
    requires FlushStep(d0, key, changes, now, r, d1, key1)
    ensures r == Pass && Archived(d0, key, changes, now, d1, key1)
  {
  }

  /** `add_new_version` on a stored file: the flush of the pending assignments
      plus every file field set to None archives the stored row with its file
      and leaves the Latest row at a higher version with no file. */
  lemma AddNewVersionOutcome(d0: Db, key: Key, changes: map<Column, Value>, now: int,
                             r: Outcome<Error>, d1: Db, key1: Key)
    requires StoreValid(d0) && InstanceValid(d0, key) && Protected(changes.Keys) == {}
    requires d0.documents[key][File] != Null
    requires FlushStep(d0, key, changes + NullFile, now, r, d1, key1)
    ensures key in d1.documents && key1 in d1.documents && Complete(d1.documents[key1])
    ensures r == Pass && VersionToken.Number(key.1) < VersionToken.Number(key1.1)
    ensures GetFile(d1.documents[key1]) == NullFile
    ensures d1.documents[key] == d0.documents[key][Type := Text("history")]
    ensures Chain(d1.documents, key1) == [key] + Chain(d0.documents, key)
  {
    var all := changes + NullFile;
    WithNullFile(changes);
    ProtectedWithFile(changes.Keys);
    FlushArchives(d0, key, all, now, r, d1, key1);
    ArchivedOutcome(d0, key, all, now, d1, key1);
  }

  /** `historize_a_copy` with nothing else pending: the second flush, which
      assigns only `type`, archives the stored row; since the file is not among
      the modified fields the Latest row's file bundle is cleared. */
  lemma HistorizeOutcome(d0: Db, key: Key, now: int, r: Outcome<Error>, d1: Db, key1: Key)
    requires StoreValid(d0) && InstanceValid(d0, key)
    requires !Falsy(d0.documents[key][File])
    requires FlushStep(d0, key, map[Type := Text("history")], now, r, d1, key1)
    ensures key in d1.documents && key1 in d1.documents && Complete(d1.documents[key1])
    ensures r == Pass && VersionToken.Number(key.1) < VersionToken.Number(key1.1)
    ensures d1.documents[key1][Type] == Text("latest")
    ensures GetFile(d1.documents[key1]) == NullFile
    ensures d1.documents[key] == d0.documents[key][Type := Text("history")]
    ensures Chain(d1.documents, key1) == [key] + Chain(d0.documents, key)
  {
    var changes := map[Type := Text("history")];
    assert changes.Keys == {Type};
    ProtectedType();
    FlushArchives(d0, key, changes, now, r, d1, key1);
    ArchivedOutcome(d0, key, changes, now, d1, key1);
  }
}
