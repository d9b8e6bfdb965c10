/**
  The Attachment.Document model: its columns, the file bundle, the guard on
  protected columns, the store of document rows and the predecessor chain
  that `previous_versions` walks.
 */
module Document {
  import opened Wrappers
  import VersionToken

  /** The columns of Model.Attachment.Document.  PrevUuid and PrevVersion are
      the two columns of the `previous_version` link. */
  datatype Column =
    | Uuid | Version | CreatedAt | Data
    | FileAddedAt | Filename | ContentType | FileSize | File | Hash
    | Type | PrevUuid | PrevVersion

  /** The name of a column, as the field lists of the source spell it. */
  function Name(c: Column): string {
    match c
    case Uuid => "uuid"
    case Version => "version"
    case CreatedAt => "created_at"
    case Data => "data"
    case FileAddedAt => "file_added_at"
    case Filename => "filename"
    case ContentType => "contenttype"
    case FileSize => "filesize"
    case File => "file"
    case Hash => "hash"
    case Type => "type"
    case PrevUuid => "attachment_document_uuid"
    case PrevVersion => "attachment_document_version"
  }

  /** Every column of the Document model, as the System.Column query lists them. */
  const Columns: set<Column> :=
    {Uuid, Version, CreatedAt, Data, FileAddedAt, Filename, ContentType, FileSize, File, Hash,
     Type, PrevUuid, PrevVersion}

  lemma AllColumns()
    ensures forall c: Column :: c in Columns
  {
    forall c: Column ensures c in Columns {
      match c
      case Uuid => case Version => case CreatedAt => case Data =>
      case FileAddedAt => case Filename => case ContentType => case FileSize =>
      case File => case Hash => case Type => case PrevUuid => case PrevVersion =>
    }
  }

  /** A column value as the database holds it. */
  datatype Value =
    | Null
    | Text(s: string)
    | Number(i: int)
    | Blob(bytes: seq<bv8>)
    | Stamp(t: int)
    | Json(entries: map<string, string>)

  /** Python truthiness of a column value, as `if not self.file` reads it. */
  predicate Falsy(v: Value) {
    v == Null || v == Text("") || v == Number(0) || v == Blob([]) || v == Json(map[])
  }

  /** A row of the attachment_document table, by column. */
  type Row = map<Column, Value>

  /** A row that has a value (possibly Null) for every column. */
  predicate Complete(row: Row) {
    forall c: Column :: c in row
  }

  /** The primary key of a document row: (uuid, version). */
  type Key = (string, string)

  /** `Document.get_file_fields`, in the order the source lists them. */
  const FileFields: seq<Column> := [File, FileAddedAt, ContentType, Filename, Hash, FileSize]

  /** The same fields as a set (`FileFieldSetIs` ties it to the list). */
  const FileFieldSet: set<Column> := {File, FileAddedAt, ContentType, Filename, Hash, FileSize}

  /** The set holds exactly the listed fields, and the six are distinct. */
  lemma FileFieldSetIs()
    ensures FileFieldSet == set i | 0 <= i < |FileFields| :: FileFields[i]
    ensures |FileFieldSet| == |FileFields| == 6
  {
    assert File == FileFields[0] && FileAddedAt == FileFields[1] && ContentType == FileFields[2];
    assert Filename == FileFields[3] && Hash == FileFields[4] && FileSize == FileFields[5];
  }

  /** Every file field set to None. */
  const NullFile: map<Column, Value> := map f | f in FileFieldSet :: Null

  /** `get_file`: the file bundle of a document, and nothing else. */
  function GetFile(row: Row): (r: map<Column, Value>)
    requires FileFieldSet <= row.Keys
    ensures r.Keys == FileFieldSet
    ensures forall f :: f in r ==> r[f] == row[f]
  {
    map f | f in FileFieldSet :: row[f]
  }

  /** `get_file` returns one entry for each field `get_file_fields` lists, six
      in all, holding the row's value of that field, and nothing else. */
  lemma GetFileFields(row: Row)
    requires FileFieldSet <= row.Keys
    ensures GetFile(row).Keys == (set i | 0 <= i < |FileFields| :: FileFields[i])
    ensures |GetFile(row)| == 6
    ensures forall i :: 0 <= i < |FileFields| ==> GetFile(row)[FileFields[i]] == row[FileFields[i]]
  {
    FileFieldSetIs();
  }

  /** Assigning a column outside the file bundle does not change `get_file`. */
  lemma GetFileOtherColumn(row: Row, c: Column, v: Value, updated: Row)
    requires FileFieldSet <= row.Keys && c !in FileFieldSet && updated == row[c := v]
    ensures GetFile(updated) == GetFile(row)
  {
    assert forall f :: f in FileFieldSet ==> GetFile(updated)[f] == GetFile(row)[f];
  }

  /** Setting every file field to None assigns exactly the file bundle on top
      of what was already assigned. */
  lemma WithNullFile(changes: map<Column, Value>)
    ensures (changes + NullFile).Keys == changes.Keys + FileFieldSet
    ensures File in changes + NullFile && (changes + NullFile)[File] == Null
  {
  }

  /** Two rows with the same file fields have the same `get_file`. */
  lemma GetFileSame(row: Row, other: Row)
    requires FileFieldSet <= row.Keys && FileFieldSet <= other.Keys
    requires forall f :: f in FileFieldSet ==> other[f] == row[f]
    ensures GetFile(other) == GetFile(row)
  {
  }

  /** Once every file field is None, `get_file` is all None. */
  lemma GetFileNulled(row: Row)
    ensures GetFile(row + NullFile) == NullFile
  {
  }

  /** A pending assignment overlays the stored row like an assignment to the
      overlaid row. */
  lemma OverlayAssign(row: Row, changes: map<Column, Value>, c: Column, v: Value)
    ensures row + changes[c := v] == (row + changes)[c := v]
  {
  }

  /** Pending assignments made in two rounds overlay the stored row in turn. */
  lemma OverlayTwice(row: Row, changes: map<Column, Value>, more: map<Column, Value>)
    ensures row + (changes + more) == (row + changes) + more
  {
  }

  /** `Latest.get_forbidden_modify_fields`, as written: it says "creates_at",
      which names no column. */
  const ForbiddenNames: set<string> :=
    {"uuid", "version", "creates_at", "attachment_document_uuid", "attachment_document_version"}

  /** The protected fields among the modified ones: the intersection the guard
      computes.  The update is refused exactly when it is not empty.  The guard
      protects the identity and the predecessor link and nothing else; in
      particular `created_at`, spelled `creates_at` in the list, is not
      protected. */
  function Protected(modified: set<Column>): (inter: set<Column>)
    ensures inter == modified * {Uuid, Version, PrevUuid, PrevVersion}
    ensures CreatedAt !in inter
  {
    assert Name(CreatedAt) !in ForbiddenNames;
    set c | c in modified && Name(c) in ForbiddenNames
  }

  /** An update the guard lets through assigns neither identity column nor
      either predecessor column. */
  lemma Unprotected(modified: set<Column>)
    requires Protected(modified) == {}
    ensures Uuid !in modified && Version !in modified && PrevUuid !in modified && PrevVersion !in modified
  {
    assert Uuid in modified ==> Uuid in Protected(modified);
    assert Version in modified ==> Version in Protected(modified);
    assert PrevUuid in modified ==> PrevUuid in Protected(modified);
    assert PrevVersion in modified ==> PrevVersion in Protected(modified);
  }

  /** Assigning the file bundle as well never makes an update touch a
      protected column. */
  lemma ProtectedWithFile(modified: set<Column>)
    requires Protected(modified) == {}
    ensures Protected(modified + FileFieldSet) == {}
  {
  }

  /** Assigning only `type` touches no protected column. */
  lemma ProtectedType()
    ensures Protected({Type}) == {}
  {
  }

  /** The three tables the versioning writes: attachment_document (rows by key),
      attachment_document_history (historied_at by key) and the per-document
      System.Sequence counters (the number the next `nextval` issues, by code). */
  datatype Db = Db(documents: map<Key, Row>, histories: map<Key, int>, sequences: map<string, nat>)

  /** The code of a document's version sequence. */
  function SeqCode(uuid: string): (code: string)
    ensures |code| >= 20 && code[20..] == uuid
  {
    "Attachment.Document#" + uuid
  }

  /** The key the `previous_version` columns of a row hold, if both are set. */
  function LinkOf(row: Row): (link: Option<Key>)
    ensures link.Some? <==>
      PrevUuid in row && row[PrevUuid].Text? && PrevVersion in row && row[PrevVersion].Text?
    ensures link.Some? ==>
      row[PrevUuid] == Text(link.value.0) && row[PrevVersion] == Text(link.value.1)
  {
    if PrevUuid in row && row[PrevUuid].Text? && PrevVersion in row && row[PrevVersion].Text?
    then Some((row[PrevUuid].s, row[PrevVersion].s))
    else None
  }

  /** Assigning a column other than the two predecessor columns keeps the link. */
  lemma LinkOfOtherColumn(row: Row, c: Column, v: Value, updated: Row)
    requires c != PrevUuid && c != PrevVersion && updated == row[c := v]
    ensures LinkOf(updated) == LinkOf(row)
  {
  }

  /** Row k has every column, its identity columns agree with its key, and its
      version was issued by the document's sequence. */
  ghost predicate RowValid(d: Db, k: Key)
    requires k in d.documents
  {
    var row := d.documents[k];
    Complete(row) &&
    row[Uuid] == Text(k.0) && row[Version] == Text(k.1) &&
    SeqCode(k.0) in d.sequences &&
    VersionToken.Parse(k.1).Some? &&
    VersionToken.Number(k.1) < d.sequences[SeqCode(k.0)]
  }

  /** The predecessor link of row k: unset, or pointing at a history row of
      the same document with an older version. */
  ghost predicate LinkValid(d: Db, k: Key)
    requires k in d.documents
  {
    var row := d.documents[k];
    PrevUuid in row && PrevVersion in row &&
    ((row[PrevUuid] == Null && row[PrevVersion] == Null) ||
     (row[PrevUuid] == Text(k.0) && row[PrevVersion].Text? &&
      (k.0, row[PrevVersion].s) in d.histories &&
      VersionToken.Number(row[PrevVersion].s) < VersionToken.Number(k.1)))
  }

  /** The store invariant: valid rows, valid links, and every history entry is
      a document row of type 'history' (the History table's foreign key). */
  ghost predicate StoreValid(d: Db) {
    RowsValid(d) && LinksValid(d) && HistoriesTagged(d)
  }

  ghost predicate RowsValid(d: Db) {
    forall k :: k in d.documents ==> RowValid(d, k)
  }

  ghost predicate LinksValid(d: Db) {
    forall k :: k in d.documents ==> LinkValid(d, k)
  }

  ghost predicate HistoriesTagged(d: Db) {
    forall k :: k in d.histories ==>
      k in d.documents && Type in d.documents[k] && d.documents[k][Type] == Text("history")
  }

  /** Between two stores, no sequence disappears or goes back, and no history
      entry disappears. */
  ghost predicate Grown(d0: Db, d1: Db) {
    (forall c :: c in d0.sequences ==> c in d1.sequences && d0.sequences[c] <= d1.sequences[c]) &&
    d0.histories.Keys <= d1.histories.Keys
  }

  /** A row nobody touched stays valid while sequences only advance and
      history only grows. */
  lemma RowValidFrame(d0: Db, d1: Db, k: Key)
    requires RowsValid(d0) && k in d0.documents && Grown(d0, d1)
    requires k in d1.documents && d1.documents[k] == d0.documents[k]
    ensures RowValid(d1, k)
  {
    assert RowValid(d0, k);
  }

  /** Rows outside `touched` that the second store keeps as they were stay valid. */
  lemma UntouchedRowsValid(d0: Db, d1: Db, touched: set<Key>)
    requires RowsValid(d0) && Grown(d0, d1)
    requires forall k :: k in d1.documents && k !in touched ==>
      k in d0.documents && d1.documents[k] == d0.documents[k]
    ensures forall k :: k in d1.documents && k !in touched ==> RowValid(d1, k)
  {
    forall k | k in d1.documents && k !in touched ensures RowValid(d1, k) {
      RowValidFrame(d0, d1, k);
    }
  }

  /** Every row is valid once rows a and b are and every other row is. */
  lemma RowsValidFrom(d: Db, a: Key, b: Key)
    requires a in d.documents && RowValid(d, a) && b in d.documents && RowValid(d, b)
    requires forall k :: k in d.documents && k !in {a, b} ==> RowValid(d, k)
    ensures RowsValid(d)
  {
  }

  /** An untouched link stays valid while history only grows. */
  lemma LinkValidFrame(d0: Db, d1: Db, k: Key)
    requires LinksValid(d0) && k in d0.documents && d0.histories.Keys <= d1.histories.Keys
    requires k in d1.documents && d1.documents[k] == d0.documents[k]
    ensures LinkValid(d1, k)
  {
    assert LinkValid(d0, k);
  }

  /** Links of rows outside `touched` that the second store keeps stay valid. */
  lemma UntouchedLinksValid(d0: Db, d1: Db, touched: set<Key>)
    requires LinksValid(d0) && d0.histories.Keys <= d1.histories.Keys
    requires forall k :: k in d1.documents && k !in touched ==>
      k in d0.documents && d1.documents[k] == d0.documents[k]
    ensures forall k :: k in d1.documents && k !in touched ==> LinkValid(d1, k)
  {
    forall k | k in d1.documents && k !in touched ensures LinkValid(d1, k) {
      LinkValidFrame(d0, d1, k);
    }
  }

  /** Every link is valid once those of rows a and b are and every other one is. */
  lemma LinksValidFrom(d: Db, a: Key, b: Key)
    requires a in d.documents && LinkValid(d, a) && b in d.documents && LinkValid(d, b)
    requires forall k :: k in d.documents && k !in {a, b} ==> LinkValid(d, k)
    ensures LinksValid(d)
  {
  }

  /** Retagging a valid row (its `type` column) keeps it valid under the same
      conditions. */
  lemma RowValidRetagged(d0: Db, d1: Db, k: Key, t: Value)
    requires k in d0.documents && RowValid(d0, k) && Grown(d0, d1)
    requires k in d1.documents && d1.documents[k] == d0.documents[k][Type := t]
    ensures RowValid(d1, k)
  {
  }

  /** Retagging a row keeps its link valid while history only grows. */
  lemma LinkValidRetagged(d0: Db, d1: Db, k: Key, t: Value)
    requires k in d0.documents && LinkValid(d0, k) && d0.histories.Keys <= d1.histories.Keys
    requires k in d1.documents && d1.documents[k] == d0.documents[k][Type := t]
    ensures LinkValid(d1, k)
  {
  }

  /** Retagging a row keeps its link and its file bundle. */
  lemma RetaggedRow(row: Row, t: Value, updated: Row)
    requires Complete(row) && updated == row[Type := t]
    ensures LinkOf(updated) == LinkOf(row)
    ensures GetFile(updated) == GetFile(row)
  {
    LinkOfOtherColumn(row, Type, t, updated);
    GetFileOtherColumn(row, Type, t, updated);
  }

  /** A link to an older row adds that row at the head of the chain. */
  lemma ChainCons(docs: map<Key, Row>, k: Key, p: Key)
    requires k in docs && p in docs && LinkOf(docs[k]) == Some(p)
    requires VersionToken.Number(p.1) < VersionToken.Number(k.1)
    ensures Chain(docs, k) == [p] + Chain(docs, p)
  {
  }

  /** A document whose sequence does not exist has no row yet. */
  lemma NoRowWithoutSequence(d: Db, uuid: string, version: string)
    requires RowsValid(d) && SeqCode(uuid) !in d.sequences
    ensures (uuid, version) !in d.documents
  {
  }

  /** The version the sequence of a document issues next is held by no row. */
  lemma NextVersionIsFree(d: Db, uuid: string)
    requires RowsValid(d) && SeqCode(uuid) in d.sequences
    ensures (uuid, VersionToken.Format(d.sequences[SeqCode(uuid)])) !in d.documents
  {
    var n := d.sequences[SeqCode(uuid)];
    VersionToken.ParseFormat(n);
  }

  /** A live Latest instance: its row exists and is not a history row. */
  ghost predicate InstanceValid(d: Db, key: Key) {
    key in d.documents && key !in d.histories
  }

  /** The `previous_version` relationship of row k: the row its link names,
      None when the link is unset or names no row. */
  function PreviousVersion(docs: map<Key, Row>, k: Key): (p: Option<Key>)
    requires k in docs
    ensures p.Some? ==> p.value in docs && LinkOf(docs[k]) == p
    ensures p.None? ==> LinkOf(docs[k]).None? || LinkOf(docs[k]).value !in docs
  {
    match LinkOf(docs[k])
    case Some(link) => if link in docs then Some(link) else None
    case None => None
  }

  /** `previous_versions` of row k: its predecessors, nearest first, up to the
      first row with none.  The chain is cut where a link would not go to an
      older version, which in a valid store never happens (`ChainStep`). */
  function Chain(docs: map<Key, Row>, k: Key): seq<Key>
    requires k in docs
    decreases VersionToken.Number(k.1)
  {
    match PreviousVersion(docs, k)
    case Some(p) =>
      if VersionToken.Number(p.1) < VersionToken.Number(k.1) then [p] + Chain(docs, p) else []
    case None => []
  }

  /** In a valid store every link is followed: the chain of k is its
      predecessor, then the chain of that predecessor. */
  lemma ChainStep(d: Db, k: Key)
    requires LinksValid(d) && HistoriesTagged(d) && k in d.documents
    ensures PreviousVersion(d.documents, k) == LinkOf(d.documents[k])
    ensures LinkOf(d.documents[k]).Some? ==>
      var p := LinkOf(d.documents[k]).value;
      p in d.histories && p.0 == k.0 && VersionToken.Number(p.1) < VersionToken.Number(k.1) &&
      Chain(d.documents, k) == [p] + Chain(d.documents, p)
    ensures LinkOf(d.documents[k]).None? ==> Chain(d.documents, k) == []
  {
    assert LinkValid(d, k);
  }

  /** Every row on c is a history row of k's document, older than k. */
  ghost predicate OlderHistory(d: Db, k: Key, c: seq<Key>) {
    forall i :: 0 <= i < |c| ==>
      c[i] in d.histories && c[i].0 == k.0 && VersionToken.Number(c[i].1) < VersionToken.Number(k.1)
  }

  /** Versions strictly decrease along c: nearest first. */
  ghost predicate NearestFirst(c: seq<Key>) {
    forall i, j :: 0 <= i < j < |c| ==> VersionToken.Number(c[j].1) < VersionToken.Number(c[i].1)
  }

  /** The chain of k holds history rows of k's document, each older than k
      and than every row before it: nearest first, never k itself. */
  lemma {:induction false} ChainShape(d: Db, k: Key)
    requires LinksValid(d) && HistoriesTagged(d) && k in d.documents
    ensures OlderHistory(d, k, Chain(d.documents, k))
    ensures NearestFirst(Chain(d.documents, k))
    ensures k !in Chain(d.documents, k)
    decreases VersionToken.Number(k.1)
  {
    ChainStep(d, k);
    if LinkOf(d.documents[k]).Some? {
      var p := LinkOf(d.documents[k]).value;
      ChainShape(d, p);
      ConsOlderHistory(d, k, p, Chain(d.documents, p));
      ConsNearestFirst(p, Chain(d.documents, p));
    }
  }

  lemma ConsOlderHistory(d: Db, k: Key, p: Key, rest: seq<Key>)
    requires p in d.histories && p.0 == k.0 && VersionToken.Number(p.1) < VersionToken.Number(k.1)
    requires OlderHistory(d, p, rest)
    ensures OlderHistory(d, k, [p] + rest)
    ensures k !in [p] + rest
  {
    var c := [p] + rest;
    forall i | 0 <= i < |c|
      ensures c[i] in d.histories && c[i].0 == k.0 && VersionToken.Number(c[i].1) < VersionToken.Number(k.1)
    {
      if i > 0 { assert c[i] == rest[i - 1]; }
    }
  }

  lemma ConsNearestFirst(p: Key, rest: seq<Key>)
    requires forall i :: 0 <= i < |rest| ==> VersionToken.Number(rest[i].1) < VersionToken.Number(p.1)
    requires NearestFirst(rest)
    ensures NearestFirst([p] + rest)
  {
    var c := [p] + rest;
    forall i, j | 0 <= i < j < |c|
      ensures VersionToken.Number(c[j].1) < VersionToken.Number(c[i].1)
    {
      assert c[j] == rest[j - 1];
      if i > 0 { assert c[i] == rest[i - 1]; }
    }
  }

  /** The chain stops at the first row without a predecessor. */
  lemma {:induction false} ChainEnd(d: Db, k: Key)
    requires LinksValid(d) && HistoriesTagged(d) && k in d.documents
    ensures var c := Chain(d.documents, k);
      var last := if c == [] then k else c[|c| - 1];
      last in d.documents && LinkOf(d.documents[last]) == None
    decreases VersionToken.Number(k.1)
  {
    ChainStep(d, k);
    if LinkOf(d.documents[k]).Some? {
      var p := LinkOf(d.documents[k]).value;
      ChainEnd(d, p);
      var rest := Chain(d.documents, p);
      if rest != [] {
        assert Chain(d.documents, k)[|Chain(d.documents, k)| - 1] == rest[|rest| - 1];
      }
    }
  }

  /** A chain reads only history rows: a store that keeps the history rows and
      the link of k gives k the same chain. */
  lemma {:induction false} ChainFrame(d: Db, docs: map<Key, Row>, k: Key)
    requires LinksValid(d) && HistoriesTagged(d) && k in d.documents && k in docs
    requires LinkOf(docs[k]) == LinkOf(d.documents[k])
    requires forall h :: h in d.histories ==> h in docs && docs[h] == d.documents[h]
    ensures Chain(docs, k) == Chain(d.documents, k)
    decreases VersionToken.Number(k.1)
  {
    ChainStep(d, k);
    if LinkOf(d.documents[k]).Some? {
      var p := LinkOf(d.documents[k]).value;
      ChainFrame(d, docs, p);
    }
  }
}
