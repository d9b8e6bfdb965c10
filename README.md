# Versioned attachment documents

This project models the versioning state machine of the AnyBlok attachment
blok. It covers `Model.Attachment.Document` and its two polymorphic
variants, `Latest` and `History`, and proves properties of that model.

A logical document is identified by a uuid, and each stored row by
`(uuid, version)`. The document's own `System.Sequence`, with code
`"Attachment.Document#" + uuid`, issues the version tokens, formatted
`"V-{seq:06d}"`. These are the operations:

- Saving a `Latest` row whose stored copy has a file archives that copy.
- Before the update, the hook takes the next version and rewrites the
  instance as the new Latest row:
  - a fresh `created_at`;
  - no predecessor;
  - type `latest`;
  - the file bundle cleared unless the update sets a file.
- The hook also plans a snapshot of the old row, typed `history`, together
  with an `attachment_document_history` entry.
- After the UPDATE, the writer inserts both and relinks the Latest row to
  the snapshot.
- An update that assigns a protected column is refused. So is an explicit
  archive of a document without a file.

The modules:

- `VersionToken` (version.dfy) holds the token format. `Parse` is its
  inverse, which shows that tokens are unique.
- `Document` (document.dfy) holds:
  - the columns, the file bundle and `get_file`;
  - the protected-field guard;
  - the store (`Db`: document rows, history entries, sequence counters) and
    its invariant `StoreValid`;
  - the walk `previous_versions` performs (`Chain`).
- `Transition` (transition.dfy) states what one save does, as relations
  between the store before and after:
  - `Inserted`;
  - `Absorbed` (an update kept in place);
  - `Archived`;
  - `FlushStep` (one flush of one instance).

  It also proves what these steps guarantee.
- `Attachment` (attachment.dfy) holds two classes:
  - `Latest` (the session's instance). Its pending assignments `changes` are
    the modified fields, and it carries the archival plan `newDocument` /
    `newHistory`.
  - `Registry` (the tables). Its methods follow the source's hooks and
    operations, and each is proved to perform the matching `Transition` step.

A flush of an instance is modelled as the update hook, then the unit of
work's UPDATE of the row (`OrmUpdate`), then the writer.

## Model

| member | source | states |
|---|---|---|
| VersionToken.Format | anyblok_attachment/bloks/attachment/document.py:111 | a token is "V-" followed by at least six decimal digits |
| VersionToken.ParseFormat | anyblok_attachment/bloks/attachment/document.py:111 | reading back the token of n gives n, so `Number` orders versions by their sequence number |
| VersionToken.FormatInjective | anyblok_attachment/bloks/attachment/document.py:111 | two sequence numbers give the same token only if they are equal |
| VersionToken.FirstVersion | anyblok_attachment/bloks/attachment/document.py:111-114 | the first number a sequence issues gives "V-000001" |
| Document.GetFileFields | anyblok_attachment/bloks/attachment/document.py:56-61 | `get_file` returns one entry per field `get_file_fields` lists (six distinct ones, `file` to `filesize`), each with the row's value, and no other column |
| Document.GetFileNulled | anyblok_attachment/bloks/attachment/document.py:56-58 | once every file field is None, `get_file` is all None |
| Document.Protected | anyblok_attachment/bloks/attachment/document.py:137-146 | the intersection the guard computes is the modified columns among uuid, version and the two predecessor columns, and nothing else; `created_at` is never in it, because the list spells it "creates_at" |
| Document.Unprotected | anyblok_attachment/bloks/attachment/document.py:143-150 | an update the guard lets through assigns neither uuid, version nor either predecessor column |
| Document.ProtectedWithFile | anyblok_attachment/bloks/attachment/document.py:136-146 | when an update touches no protected column, also setting every file field still touches none |
| Document.ProtectedType | anyblok_attachment/bloks/attachment/document.py:136-146 | assigning only `type` touches no protected column |
| Document.ChainStep | anyblok_attachment/bloks/attachment/document.py:63-70 | in a valid store the walk follows every link: the chain is the predecessor, an older history row of the same document, followed by that row's chain; it is empty when there is no link |
| Document.ChainShape | anyblok_attachment/bloks/attachment/document.py:63-70 | the chain holds only older history rows of the same document, with versions strictly decreasing (nearest first), and never the row itself |
| Document.ChainEnd | anyblok_attachment/bloks/attachment/document.py:66 | the walk stops at the first row without a predecessor |
| Document.ChainFrame | anyblok_attachment/bloks/attachment/document.py:63-70 | a store that keeps every history row and the row's link gives the row the same chain |
| Transition.NewRowLatest | anyblok_attachment/bloks/attachment/document.py:113-115 | the inserted row has every column: the uuid, the version, type 'latest', and for each other column the caller's value or the column default (`created_at` now, `data` an empty dict, lines 36 and 39) |
| Transition.InsertedFirstVersion | anyblok_attachment/bloks/attachment/document.py:108-115 | a new document's version is "V-000001" |
| Transition.InsertedValid | anyblok_attachment/bloks/attachment/document.py:108-115 | insertion keeps the store valid; the new key was free, is a live Latest row, and has no predecessors |
| Transition.RewrittenRenewed | anyblok_attachment/bloks/attachment/document.py:171-180 | the rewritten row has the new version, `created_at` = now, type 'latest', the caller's data, both predecessor columns None, and its file either cleared or as the caller set it |
| Transition.RewrittenFile | anyblok_attachment/bloks/attachment/document.py:178-180 | after the rewrite, `get_file` is all None when cleared and the caller's bundle otherwise |
| Transition.SnapshotIsStoredRow | anyblok_attachment/bloks/attachment/document.py:165-169 | the snapshot (the instance's values, with the stored value of each modified column) equals the stored row retagged 'history' |
| Transition.ArchivedFresh | anyblok_attachment/bloks/attachment/document.py:159-163 | the version an archive issues names no existing row and has a higher number than the old one |
| Transition.ArchivedValid | anyblok_attachment/bloks/attachment/document.py:159-233 | an archival transition keeps the store valid and leaves a live Latest row at the new key |
| Transition.ArchivedKeepsHistory | anyblok_attachment/bloks/attachment/document.py:209-218 | an archive alters no history row and leaves every history entry on a row typed 'history' |
| Transition.ArchivedChain | anyblok_attachment/bloks/attachment/document.py:219-226 | after an archive, the Latest row's chain is the old key followed by the old chain |
| Transition.ArchivedOutcome | anyblok_attachment/bloks/attachment/document.py:159-233 | after an archive: the version is higher, the old key holds the stored row as history with its file, the Latest file is cleared exactly when `FileCleared` holds, and the chain grows by the old key |
| Transition.AbsorbedValid | anyblok_attachment/bloks/attachment/document.py:152-157 | an update kept in place keeps the store valid, the key and the chain |
| Transition.FlushValid | anyblok_attachment/bloks/attachment/document.py:142-233 | any flush keeps the store valid and the instance live; it removes no row and alters no history row; history grows by the old key exactly when the version moves, to a higher number |
| Transition.HistoryReadOnly | anyblok_attachment/bloks/attachment/document.py:256-263 | history rows and their `historied_at` never change; a flush that moves the version adds exactly the old key, stamped with the flush time and typed 'history' |
| Transition.NoFileNoArchive | anyblok_attachment/bloks/attachment/document.py:152-157 | when the stored row has no file, a flush keeps the key, adds no row, no history entry and no sequence number |
| Transition.FlushArchives | anyblok_attachment/bloks/attachment/document.py:152-197 | a flush of pending, unprotected assignments on a stored file is an archival transition |
| Transition.AddNewVersionOutcome | anyblok_attachment/bloks/attachment/document.py:245-253 | `add_new_version` on a stored file: the version is higher, the Latest row has no file, the old key keeps the stored row with its file as history, and the chain grows by the old key |
| Transition.HistorizeOutcome | anyblok_attachment/bloks/attachment/document.py:241-243 | the second flush of `historize_a_copy` archives the row: the version is higher, the type is 'latest', the file is cleared, the stored row is kept as history, and the chain grows by the old key |
| Attachment.NewDocumentSnapshot | anyblok_attachment/bloks/attachment/document.py:165-169 | the dict `new_vals` the hook builds is the history snapshot |
| Attachment.AssignedRewritten | anyblok_attachment/bloks/attachment/document.py:171-180 | the hook's assignments, overlaid on the stored row, give the rewritten Latest row |
| Attachment.PlannedRow | anyblok_attachment/bloks/attachment/document.py:159-176 | after the hook, the instance's uuid and version name a new key with a higher number, and the row is renewed |
| Attachment.PlannedReady | anyblok_attachment/bloks/attachment/document.py:202-205 | after the UPDATE, both plan parts are set and the tables have room for them |
| Attachment.FlushCommitted | anyblok_attachment/bloks/attachment/document.py:142-233 | the hook, the UPDATE and the writer together perform `FlushStep` and keep the store valid |
| Attachment.NullFieldsFile | anyblok_attachment/bloks/attachment/document.py:250-251 | setting the listed fields to None one after another sets exactly the file bundle |
| Attachment.Latest.Set | anyblok_attachment/bloks/attachment/document.py:242 | an attribute assignment is pending until the next flush |
| Attachment.Latest.ClearFileFields | anyblok_attachment/bloks/attachment/document.py:179-180 | the loop over `get_file_fields` adds None for every file field to the pending assignments |
| Attachment.Registry.NextVal | anyblok_attachment/bloks/attachment/document.py:161-163 | `nextval` returns the token of the sequence's current number and advances it by one, changing nothing else |
| Attachment.Registry.BeforeUpdate | anyblok_attachment/bloks/attachment/document.py:142-197 | the guard refuses naming the protected fields and changes nothing; with no stored file, nothing happens; otherwise the sequence issues the version, the instance reads as the rewritten row, and the plan holds the snapshot and `(uuid, old_version, now)` |
| Attachment.Registry.OrmUpdate | anyblok_attachment/bloks/attachment/document.py:99-105 | the UPDATE writes the pending values and the row moves to the key its columns now hold |
| Attachment.Registry.AfterUpdate | anyblok_attachment/bloks/attachment/document.py:200-233 | with both plan parts set, the writer inserts the snapshot and the history entry, relinks the Latest row and drops the plan; otherwise nothing changes |
| Attachment.Registry.Flush | anyblok_attachment/bloks/attachment/document.py:142-233 | one flush performs `FlushStep`, keeps the store valid, and leaves no plan and nothing pending when it passes |
| Attachment.Registry.HistorizeACopy | anyblok_attachment/bloks/attachment/document.py:235-243 | NoFile with no change when the instance has no file; otherwise two flushes, the second assigning only `type`; with nothing else pending, the row is archived as the `HistorizeOutcome` row states; nothing is left pending when it passes, and a refusal leaves the caller's assignments pending as they were |
| Attachment.Registry.Retire | anyblok_attachment/bloks/attachment/document.py:242-243 | `type` is set to 'history' and the instance is flushed again; that flush always passes and leaves nothing pending |
| Attachment.Registry.AddNewVersion | anyblok_attachment/bloks/attachment/document.py:245-253 | NoFile with no change when the instance has no file; otherwise one flush of the pending assignments plus every file field None; with a stored file and no protected field pending, the row is archived as the `AddNewVersionOutcome` row states; nothing is left pending when it passes, and a refusal leaves the caller's assignments plus the six None file fields pending |
| Attachment.Registry.PreviousVersions | anyblok_attachment/bloks/attachment/document.py:63-70 | the loop returns the chain of the row: nearest first, excluding the row, stopping at the first row with no predecessor |
| Attachment.Registry.Insert | anyblok_attachment/bloks/attachment/document.py:108-115 | a new sequence for the fresh uuid issues the first version; the new row is a valid Latest row at that key with no predecessors, and nothing else changes |

## Left out

- Mapper and table configuration (`define_mapper_args`, `define_table_args`) is not modelled. The foreign keys appear only as store invariants: `LinksValid`, `HistoriesTagged`, and the key move in `OrmUpdate`.
- `get_modified_fields` is not modelled. The modified fields are the columns with a pending assignment. Assigning a column its current value therefore counts as modifying it.
- The `System.Column` query is replaced by the fixed column list `Columns`.
- `uuid1()`, `datetime.now()` and the sequence service are replaced:
  - The fresh uuid is a parameter of `Insert`, with the requirement that it has no sequence yet.
  - The time is a parameter `now`, and one value serves a whole operation. The source calls `now()` separately for `created_at` and `historied_at`.
  - A sequence is a counter that starts at 1.
- Attachment.Registry.BeforeUpdate: the `.one()` lookup of the sequence is not modelled as an error path. The model requires the sequence to exist, which the store invariant guarantees.
- Attachment.Registry.Insert: it requires that the caller passes no `type` and no predecessor columns. The source would pass such values through to the insert.
- Attachment.Registry.AfterUpdate: it requires that the new history key is free in both tables (`WriterReady`). The database's primary keys enforce this, and `Flush` proves it holds.
- Attachment.Registry.OrmUpdate: it requires the row's uuid and version to be text, as the NOT NULL primary key columns are.
- Sessions, `registry.flush()` across several instances, and the `print` calls in the writer are not modelled. A flush is one instance's update transition.
- Reading a stale instance is not modelled. After the writer's raw UPDATE, the source's in-memory copy of the predecessor columns is stale; the model reads the stored row. Line 169 copies every column from the in-memory instance. An instance not refreshed since its last archive still holds None in both predecessor columns, so its next snapshot would cut the chain. `Transition.SnapshotIsStoredRow` and `Transition.ArchivedChain` therefore hold only for a refreshed instance.
- The `ForbidDelete` and `ReadOnly` mixins are not modelled. Nothing in the model deletes a row, and `Transition.HistoryReadOnly` proves that history rows never change.
- Concurrency and transaction rollback are not modelled.
- `historize_a_copy` is modelled as the code behaves. The second flush (lines 241-243) has only `type` modified, so line 178 clears the six file fields of the renewed Latest row, while the history copy keeps the file. When other assignments are pending, the first flush may already archive the row and clear its file. The second flush then finds no stored file and absorbs `type = 'history'` in place, leaving the Latest row typed 'history'. `Attachment.Registry.HistorizeACopy` states the general case as two `FlushStep`s, and the archive in full only when nothing else is pending.
