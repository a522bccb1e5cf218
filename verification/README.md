# A model of the block-blob store

This project models the storage, listing, range, signing and block-list code of a
self-hosted blob server and proves properties of the model. `dafny verify
dfyconfig.toml` checks all of it.

## How it is built

**World and steps (`World.dfy`, `Plans.dfy`).** A world is the metadata tables plus a
disk. The disk has a name table, all files ever created (a file that lost its name can
still be open in a reader) and, for every name, the older meanings that a crash may
bring back as long as the directory was not synced. A step is one file-system call or
one database transaction. For every operation `PlanOf` gives the exact list of steps it
takes from a given world, and its reply. A crash (`Recovers`) may strike between any two
steps: every name then has any one of its possible meanings, and a file that was not
synced holds anything.

**The program (`FileSystem.dfy`, `MetadataDb.dfy`, `FsBackend.dfy`).** Classes with the
fields the program updates in place. The file routines, the table methods and the backend
methods loop and branch as the program does. A ghost journal, written to only by the
primitive calls, shows that each backend method takes exactly the steps of its plan, in
order, so what is proved about every prefix of a plan holds at every moment of the method.

**Main results.**

- *Crash safety* (`Integrity.dfy`, `SafePlans.dfy`, `Moments.dfy`, `Lost.dfy`,
  `CrashSafety.dfy`, `WholeBodies.dfy`): one invariant that every step of every operation keeps and every
  crash survives; over all runs with any number of crashes no row ever names a partial
  file, and only a blob that a refused overwrite lost has a row without a file;
  overwriting is old-or-new; what was answered is durable.
- *Refinement* (`Refinement.dfy`, `BlobRead.dfy`): every serial run, refused overwrites
  included, is a run of a simple store of names with bytes, with the same replies; GETs
  deliver what that store holds.
- *Cut-off operations* (`Recovery.dfy`, `CutOff.dfy`, `Applied.dfy`, `TornRun.dfy`): the
  exact conditions under which a crash leaves a row and a file of different versions, or
  rows of a blob that is gone. There are three: an overwrite between renaming and
  transaction, a deletion between its statements, and a refused body that comes back.
- *Runs with any crashes* (`Hiding.dfy`, `CrashRuns.dfy`): but for the blobs that crashes
  tore, every run is a run of the simple store in which a cut-off operation is carried out
  or not; a torn blob is sound again once it is deleted, or written again while its staged
  rows are true.
- *Retry* (`Retry.dfy`): a Put Block List cut off by a crash can be sent again.
- *Readers* (`Readers.dfy`): a GET interleaved with a serial run of writes, refused ones
  included, is never torn.
- *Isolation* (`Frames.dfy`, `Isolation.dfy`): other blobs and containers notice nothing;
  re-created containers start clean.
- *Listing* (`Listing.dfy`, `Folding.dfy`, `Like.dfy`): complete and duplicate-free
  pages, also while the table changes; hierarchical listing over all pages.
- *Ranges* (`Ranges.dfy`): exactly which headers are ranges and how each is answered;
  *digests* (`Digests.dfy`); *signing* (`SharedKey.dfy`, `SignedText.dfy`, `Query.dfy`,
  `Sas.dfy`): the signed text line by line, and what it depends on; the *block list
  document* (`BlockListXml.dfy`, `BlockListRefusals.dfy`): what comes through and what is
  refused.
- *The order of syncs* (`SyncOrder.dfy`): what a crash could do if one of them were left out.

## Where a stronger claim is false

These are the places where the code falls short of what one would expect or of what its
documentation says. The model follows the code, and a lemma states the exact condition.

- A Put Blob whose MD5 header does not match, over a blob that exists, removes the file
  that the blob's row still names (`fs_backend.rs:252-258`); `SafePlans.Clobbers` decides
  it before the call. `Lost.MissingAfter` and `Md5Mismatch.LostExactly` show that exactly
  such blobs are without their file until they are written again or deleted;
  `Md5Mismatch.LossHappens` is a concrete run. The refused body can be read meanwhile
  (`Readers.RefusedBodyCanBeRead`) and can come back after a crash, because the removal is
  not synced (`Md5Mismatch.RefusedBodyCanReturn`).
- The documentation says that a crash after the renaming leaves the new state durable
  (`docs/design.md:29`). Between the renaming and the transaction of an overwrite it does
  not: the row is the old one and the file the new one (`fs_backend.rs:248-272`,
  `480-503`). `TornRun.TornHappens` is a run after which a GET announces one byte and
  delivers none; `CutOff.FaithfulExactly` is the exact condition, refused bodies that come
  back included; `Ranges.HonestExactly` says when answers are honest.
- A Delete Blob cut off between its statements (`metadata_db.rs:506-533`) leaves block rows
  without a blob. `TornRun.TornDeletionHappens` is such a run, and
  `Applied.NoWriteCutOffExactly` the exact condition.
- A `Committed` reference takes its size from the earlier commit and its bytes from the
  staged file (`fs_backend.rs:441-455`): `BlobRead.LayoutTrueExactly`,
  `BlobRead.StaleCommittedSize`.
- Prefix listing uses LIKE: `%`, `_` and the case of ASCII letters
  (`metadata_db.rs:549`). `Like.PrefixIsLiteralExactly`.
- `max_results` of zero, and for containers also 2^32 - 1, give an empty last page
  (`metadata_db.rs:322`, `563-568`): `Listing.ContainerLimitsThatWork`,
  `Listing.BlobLimitsThatWork`.
- Headers with equal names are order-sensitive: `SharedKey.HeaderOrderIrrelevantExactly`.
- Query names and values are percent-decoded before they are signed, so different queries
  can have one text: a line feed in a value can stand for a further parameter
  (`SharedKey.LineFeedCollides`), a comma for a further value of the same parameter
  (`SharedKey.CommaCollides`), and a colon in a name for the end of the name
  (`SharedKey.ColonCollides`). Without these the text determines the parameters
  (`SharedKey.ResourceTextDecodes`).
- Block ids that are blank or have white space at their ends do not come through the
  document: `BlockListXml.RoundTripExactly`.
- A range whose numbers exceed 64 bits is ignored and the whole blob returned:
  `Ranges.OverflowingTileIsWholeBlob`.

## Model

| member | source | states |
|---|---|---|
| `CrashSafety.NoRowEverNamesAPartialFile` | docs/design.md:29 | After any run with any crashes, and a crash at any step of one more operation, every blob row and staged row names a file that is there and holds exactly one complete body meant for that name, but for blobs that a refused overwrite lost, whose rows may name none; rows lie in existing containers |
| `WholeBodies.EveryRowHoldsAWholeBody` | docs/design.md:29 | After any run with any crashes every blob has the whole bytes of one request for it, unless an overwrite of it was refused, when it may have no file; every staged block has the whole bytes of one request |
| `WholeBodies.WrittenExactly` | crates/blobstore-storage/src/fs_backend.rs:234-513 | What counts as written in a run is exactly what its requests ask for: the body of a complete Put Blob or Put Block, the joined blocks of a usable list |
| `CrashSafety.NothingLost` | crates/blobstore-storage/src/fs_backend.rs:252-258 | A run without refused overwrites loses no blob |
| `CrashSafety.RunIsIntact` | crates/blobstore-storage/src/fs_io.rs:60-78 | The invariant over all runs with crashes, that no file a row names can turn back into an older one, and that only lost blobs are without a file |
| `CrashSafety.EventKeepsInvariant` | crates/blobstore-storage/src/fs_backend.rs:234-274 | Every whole or cut-off operation keeps the invariant and loses no file but that of a refused overwrite |
| `CrashSafety.ClobberExactly` | crates/blobstore-storage/src/fs_backend.rs:252-258 | An operation loses no further file of a row if and only if it is not a Put Blob with a mismatching MD5 over a blob that still has its file |
| `Lost.MissingAfter` | crates/blobstore-storage/src/fs_backend.rs:252-272 | The blobs without a file after an operation are exactly those before it, plus one refused overwrite, minus what was written or deleted |
| `Moments.MidwayBacked` | crates/blobstore-storage/src/fs_backend.rs:244-273 | At every moment of an operation every row has its file, now and after a crash, but for lost blobs and the one a refused overwrite loses |
| `Moments.CommittedMeans` | crates/blobstore-storage/src/fs_backend.rs:260-272 | A write is committed if and only if its database transaction is among the steps taken |
| `CrashSafety.AnsweredMeansDurable` | crates/blobstore-storage/src/fs_io.rs:71-78 | Between operations a crash changes the bytes of no staged block and of no blob that has its file |
| `CrashSafety.OldOrNew` | crates/blobstore-storage/src/fs_backend.rs:244-273 | An overwrite cut off at any step: with the transaction taken row and file are the new ones; otherwise the row is the old one and the file the old or the new one as a whole, or gone after a refusal |
| `SyncOrder.FileSyncIsNeeded` | crates/blobstore-storage/src/fs_io.rs:71-78 | If the file were not synced before the renaming, a crash after the whole write could leave any bytes under the final name |
| `SyncOrder.DirSyncIsNeeded` | crates/blobstore-storage/src/fs_io.rs:71-78 | If the directory were not synced after the renaming, a crash after the whole write could bring back what the name meant before |
| `Md5Mismatch.EarlierVersionIsLost` | crates/blobstore-storage/src/fs_backend.rs:252-258 | The refused overwrite leaves the row without its file; a GET then fails inside the server |
| `Md5Mismatch.NewNameIsUntouched` | crates/blobstore-storage/src/fs_backend.rs:252-258 | Over a new name the refused request changes nothing a client can see |
| `Md5Mismatch.LossHappens` | crates/blobstore-storage/src/fs_backend.rs:252-258 | A concrete run in which an acknowledged blob becomes unreadable |
| `Md5Mismatch.LostExactly` | crates/blobstore-storage/src/fs_backend.rs:252-272 | In every serial run exactly the blobs are without a file whose overwriting was refused and that were neither written nor deleted since |
| `Md5Mismatch.RefusedBodyCanReturn` | crates/blobstore-storage/src/fs_io.rs:130-136 | The unsynced removal may be undone by a crash: the refused body is then found under the old row |
| `Integrity.SafeStep` | crates/blobstore-storage/src/fs_io.rs:44-49 | Each atomic step taken under its condition keeps the invariant |
| `Integrity.CrashKeepsIntact` | docs/design.md:29 | The invariant survives a crash, whatever unsynced names and bytes are lost |
| `SafePlans.PlanIsSafe` | crates/blobstore-storage/src/fs_backend.rs:234-513 | Every operation takes each of its steps only when its condition holds |
| `SafePlans.RunWrite` | crates/blobstore-storage/src/fs_io.rs:60-81 | Writing a file changes exactly one final name, for good, to a synced file with the concatenated chunks; older files and other names stay |
| `SafePlans.RunBrokenWrite` | crates/blobstore-storage/src/fs_io.rs:65-70 | A body that breaks off leaves only a temporary file |
| `Effects.PutBlobEffect` | crates/blobstore-storage/src/fs_backend.rs:244-273 | A Put Blob changes one row and publishes one file; committed and staged blocks stay |
| `Effects.PutBlobMismatchEffect` | crates/blobstore-storage/src/fs_backend.rs:252-258 | A mismatching MD5 leaves the tables and takes away the file of the final name |
| `Effects.PutBlockEffect` | crates/blobstore-storage/src/fs_backend.rs:383-410 | A Put Block stages one row and publishes one block file |
| `Effects.PutBlockListEffect` | crates/blobstore-storage/src/fs_backend.rs:469-513 | A committed block list publishes the in-order concatenation, replaces the committed list, clears the blob's staged rows, and removes only part files |
| `Effects.DeleteBlobEffect` | crates/blobstore-storage/src/metadata_db.rs:506-533 | Deleting a blob removes its row, its committed list, all its staged rows and its file |
| `Effects.FailureEffect` | crates/blobstore-storage/src/fs_backend.rs:421-482 | A refused or broken-off operation changes no row and no final name |
| `Effects.AssemblyCompletes` | crates/blobstore-storage/src/fs_io.rs:102-115 | In an intact world assembling a resolved block list opens every part and yields their concatenation |
| `Effects.SettledAfter` | crates/blobstore-storage/src/fs_io.rs:75-78 | After every operation each row's file name is durable |
| `Refinement.RunRefines` | crates/blobstore-storage/src/backend.rs:11-14 | Every serial run of the server, refused overwrites included, is a run of the simple store, with the same replies |
| `Refinement.RunIsReferential` | crates/blobstore-storage/migrations/0001_init.sql:23-66 | In every serial run rows lie in existing containers, only existing blobs have committed lists, and every staged row's file is there with its recorded size and digest |
| `Refinement.OperationRefines` | crates/blobstore-storage/src/fs_backend.rs:234-513 | One operation is one step of the simple store, and recorded sizes and digests stay those of the files |
| `Refinement.EmptyIsSound` | crates/blobstore-storage/src/fs_backend.rs:29-34 | A new server is a sound start for such runs |
| `Refinement.BlockListValidation` | crates/blobstore-storage/src/fs_backend.rs:423-478 | A block list resolves if and only if every id is staged and every committed reference is also in the committed list |
| `Refinement.PutBlockListAllOrNothing` | crates/blobstore-storage/src/fs_backend.rs:421-478 | With the container present it succeeds if and only if the references are usable, and otherwise takes no step at all |
| `Refinement.SizeTableIsLast` | crates/blobstore-storage/src/fs_backend.rs:424-427 | The table of committed sizes knows exactly the committed ids, with the size of the last entry |
| `BlobRead.GetRefines` | crates/blobstore-storage/src/fs_backend.rs:283-320 | A GET of a blob whose row is true of its file, whatever other blobs are like, delivers the slice the simple store holds and announces exactly as many bytes; a lost blob is an internal error |
| `BlobRead.RangeRefusedExactly` | crates/blobstore-storage/src/fs_backend.rs:287-296 | InvalidRange if and only if the range starts behind the end or ends before its start; otherwise cut at the end |
| `BlobRead.BlockLayout` | crates/blobstore-storage/src/metadata_db.rs:716-730 | If the staged rows of this blob record the sizes of their files, then after a commit without stale references the sizes sum up to the length and a range GET of block i's place returns the bytes staged under its id |
| `BlobRead.LayoutTrueExactly` | crates/blobstore-storage/src/fs_backend.rs:441-455 | The committed sizes are the block sizes if and only if no committed reference is stale |
| `BlobRead.StaleCommittedSize` | crates/blobstore-storage/src/fs_backend.rs:441-455 | A run of the server whose committed list says one byte for a blob of two |
| `Retry.RetryAfterCrash` | crates/blobstore-storage/src/fs_backend.rs:429-510 | A crash anywhere before the commit leaves staged rows, staged files and the committed list; sending the request again has the reply and outcome of a run without crash |
| `Retry.CrashAfterCommit` | crates/blobstore-storage/src/fs_backend.rs:505-510 | A crash after the commit, during the cleanup, leaves the outcome of the finished operation |
| `CutOff.FaithfulExactly` | crates/blobstore-storage/src/fs_backend.rs:248-272 | After a crash anywhere in a Put Blob, Put Block or Put Block List rows and files agree if and only if (the transaction was taken, the name had no row, the new file is not found, or the old row has its length and digest) and every refused body that comes back under a lost blob's row has the length and digest of that row |
| `TornRun.TornHappens` | docs/design.md:29 | A run with a crash between renaming and transaction after which a GET announces one byte and delivers none |
| `TornRun.TornDeletionHappens` | crates/blobstore-storage/src/metadata_db.rs:506-533 | A run from the empty server with a deletion cut off after its first statement: the blob is gone, its committed list and a staged block are left, which neither the state before nor that after the deletion has |
| `Applied.CutOffRefines` | crates/blobstore-storage/src/fs_backend.rs:234-513 | A cut-off operation that tears nothing and under which no refused body comes back is applied as a whole or not at all |
| `Applied.TearsShow` | docs/design.md:29 | No blob counts as torn by a crash unless its content or its staged blocks differ from those before the operation |
| `Applied.NoWriteCutOffExactly` | crates/blobstore-storage/src/metadata_db.rs:506-533 | A deletion or container request cut off anywhere leaves a sound server in the state before or after it if and only if it is not a Delete Blob between its statements with block rows left, and no refused body comes back under a lost blob's row |
| `CrashRuns.CrashRunRefines` | docs/design.md:29 | From a server that is sound but for some hidden blobs, through any operations and any crashes that tear hidden blobs only, the other blobs are those of a run of the simple store in which answered requests are carried out and cut-off ones are carried out or not |
| `CrashRuns.EveryRunRefines` | docs/design.md:29 | The same of every run of a new server with any crashes, hiding just the blobs that crashes tore; if there are none, of all blobs |
| `CrashRuns.EveryRunMends` | crates/blobstore-storage/src/fs_backend.rs:234-513 | After every run with any crashes all blobs are sound but those that a crash tore and nothing mended since |
| `CrashRuns.StillTornMeans` | crates/blobstore-storage/src/fs_backend.rs:234-513 | A blob counts as still torn only if a crash left it otherwise than it was before the operation, and no operation mended it since |
| `CrashRuns.WrittenAgain` | crates/blobstore-storage/src/fs_backend.rs:371-381 | Deleting a torn blob or its container, committing a block list for it, or putting it while its staged rows are true makes it sound again |
| `CrashRuns.UntornReads` | crates/blobstore-storage/src/fs_backend.rs:276-321 | After every run with any crashes a GET of a blob that is not still torn delivers what the simple store holds of it |
| `Hiding.HideEvent` | crates/blobstore-storage/src/metadata_db.rs:392-778 | An operation, whole or cut off, does the same to its blob whether the rows of other blobs are there or not |
| `Recovery.CrashAtRest` | crates/blobstore-storage/src/fs_io.rs:71-78 | A crash of a server at rest keeps the tables and all bytes, but for names whose removal was not synced |
| `Readers.NoTornRead` | docs/design.md:29 | However a GET's steps fall between those of a serial run of writes, refused ones included, it delivers a contiguous slice of one complete version, the one its name meant when the file was opened |
| `Readers.GetAsOfOpening` | crates/blobstore-storage/src/fs_backend.rs:276-321 | A GET that finds row and file at one moment delivers what a GET carried out at once then delivers, errors included, whatever writers do while it reads |
| `Readers.RefusedBodyCanBeRead` | crates/blobstore-storage/src/fs_backend.rs:248-258 | A GET between the renaming and the removal of a refused body delivers that body, cut to the earlier length |
| `Readers.FileIsFrozen` | crates/blobstore-storage/src/fs_io.rs:71-75 | A file that was synced reads the same at every later moment of the run |
| `Readers.CollectsSlice` | crates/blobstore-storage/src/fs_backend.rs:302-313 | However short the reads are, an open file yields a contiguous slice, and all of what was asked for if the reader goes on |
| `Frames.OperationFrame` | crates/blobstore-storage/src/fs_backend.rs:40-64 | An operation cut off after any number of steps changes no row, block list or name outside its blob or container and writes to no finished file |
| `Isolation.OthersNoticeNothing` | crates/blobstore-storage/src/fs_backend.rs:40-64 | At every moment reads, block lists, staged blocks and listing entries of all others are the same, lost blobs included |
| `Isolation.OthersNoticeNoCrash` | docs/design.md:29 | A crash in the middle of an operation changes nothing for the others either, but that the name of a lost blob whose removal was not synced may mean a file again |
| `Isolation.DeleteContainerExactly` | crates/blobstore-storage/src/fs_backend.rs:127-136 | Deleting a container takes away exactly the names of its own files |
| `Isolation.CreatedContainerIsClean` | crates/blobstore-storage/src/metadata_db.rs:133-172 | A container created where none is has no blobs, blocks or reachable old bytes |
| `Isolation.RecreationAfterCrashIsClean` | crates/blobstore-storage/src/metadata_db.rs:204-251 | Also when a crash cut off the deletion of an earlier container of that name |
| `PathLayout.PathsAreSeparate` | crates/blobstore-storage/src/path_layout.rs:38-57 | Two files share a path if and only if they are the same, for ordinary names and a hash that does not collide on them |
| `PathLayout.RootHoldsExactlyTheContainer` | crates/blobstore-storage/src/path_layout.rs:23-28 | Below a container's directory lies exactly what belongs to the container |
| `PathLayout.StoredPathIsPath` | crates/blobstore-storage/src/fs_backend.rs:40-48 | The stored path text is the path written to, for ordinary names |
| `PathLayout.PathParts` | crates/blobstore-storage/src/path_layout.rs:18-57 | A path consists of the documented parts: account, container, and the hash of blob and block in their directories |
| `PathLayout.SlashedExactly` | crates/blobstore-storage/src/fs_backend.rs:47 | The stored text has a slash for every backslash and is otherwise the same |
| `FileSystem.WriteStreamAtomic` | crates/blobstore-storage/src/fs_io.rs:50-82 | The loop takes exactly the planned steps; count and digest are those of the concatenated chunks, however the body is split |
| `FileSystem.ConcatenateFilesAtomic` | crates/blobstore-storage/src/fs_io.rs:87-127 | The nested loops take exactly the planned steps for every pattern of short reads; count and digest are those of the whole |
| `FileSystem.CopyPart` | crates/blobstore-storage/src/fs_io.rs:103-114 | Copying one part appends all its bytes in the pieces the reads return |
| `FileSystem.PublishFile` | crates/blobstore-storage/src/fs_io.rs:71-78 | Sync, rename and directory sync, in this order |
| `FileSystem.Files.RemoveFileIfExists` | crates/blobstore-storage/src/fs_io.rs:130-136 | Removes one name, and a missing one is no error; without a directory sync the old meaning may come back |
| `Plans.AssemblyIsConcatenation` | crates/blobstore-storage/src/fs_io.rs:102-115 | For every list of parts and every pattern of reads the pieces add up to the parts in order |
| `Types.Md5.AbsorbConcat` | crates/blobstore-storage/src/fs_io.rs:62-68 | Hashing two pieces one after the other is hashing their concatenation |
| `Types.Md5.DigestIsFold` | crates/blobstore-storage/src/fs_io.rs:62-68 | The digest is the final one of any function that starts in the initial state and takes one step for every byte, in order |
| `Types.Md5.FoldExists` | crates/blobstore-storage/src/fs_io.rs:62-68 | There is such a function for every hasher |
| `Digests.PutBlobRefusedExactly` | crates/blobstore-storage/src/fs_backend.rs:251-258 | A complete Put Blob into an existing container is refused with Md5Mismatch if and only if its header differs from the hash of its bytes, taken byte by byte, and otherwise succeeds |
| `Digests.RepliesTellDigests` | crates/blobstore-storage/src/fs_backend.rs:260-272 | The replies of Put Blob, Put Block and Put Block List tell length, headers and byte-by-byte digest of exactly the bytes that are stored |
| `Digests.GetTellsDigest` | crates/blobstore-storage/src/fs_backend.rs:276-321 | A GET tells length, digest and headers of the bytes the simple store holds |
| `MetadataDb.Tables.CommitBlockList` | crates/blobstore-storage/src/metadata_db.rs:688-778 | One transaction replaces the committed list in order, upserts the row and clears the blob's staged rows |
| `MetadataDb.Tables.DeleteContainer` | crates/blobstore-storage/src/metadata_db.rs:204-251 | One transaction drops the container with all rows of all tables and returns its blobs' paths |
| `Plans.BlobPathsAreRows` | crates/blobstore-storage/src/metadata_db.rs:204-251 | The paths returned by deleting a container are those of exactly its blob rows, one for each |
| `MetadataDb.Tables.DeleteBlob` | crates/blobstore-storage/src/metadata_db.rs:506-533 | Three statements in order, each its own transaction |
| `MetadataDb.Tables.UpsertBlobSingleShot` | crates/blobstore-storage/src/metadata_db.rs:392-437 | Replaces one blob row if the container exists, and nothing else |
| `MetadataDb.Tables.StageBlockRow` | crates/blobstore-storage/src/metadata_db.rs:575-604 | Replaces one staged row |
| `MetadataDb.Tables.CreateContainer` | crates/blobstore-storage/src/metadata_db.rs:133-172 | Refuses an existing container first, then a missing account |
| `MetadataDb.Tables.ListContainers` | crates/blobstore-storage/src/metadata_db.rs:303-346 | One page of the account's own containers behind the marker, with the limit computed in 32 bits |
| `Plans.ContainerNamesAreKeys` | crates/blobstore-storage/src/metadata_db.rs:317 | Exactly the account's own containers are candidates for its listing |
| `MetadataDb.ContainerPagesAreComplete` | crates/blobstore-storage/src/metadata_db.rs:303-346 | For limits from 1 to below 2^32 - 1 all pages together are the account's containers that the prefix selects, each once and in order |
| `MetadataDb.Tables.ListBlobs` | crates/blobstore-storage/src/metadata_db.rs:535-570 | One page of names of the container's blobs behind the marker, and its marker |
| `FsBackend.Backend.CreateContainer` | crates/blobstore-storage/src/fs_backend.rs:109-125 | Takes exactly the steps of its plan and gives its reply |
| `FsBackend.Backend.DeleteContainer` | crates/blobstore-storage/src/fs_backend.rs:127-136 | Tables first, then the blobs' files, then the directory, as planned |
| `FsBackend.Backend.PutBlob` | crates/blobstore-storage/src/fs_backend.rs:234-274 | Takes exactly the steps of its plan, on each of its exits |
| `FsBackend.Backend.PutBlock` | crates/blobstore-storage/src/fs_backend.rs:383-410 | Takes exactly the steps of its plan, on each of its exits |
| `FsBackend.Backend.ResolveBlocks` | crates/blobstore-storage/src/fs_backend.rs:423-467 | The lookup loop finds what the tables say about every reference, or gives up |
| `FsBackend.Backend.PutBlockList` | crates/blobstore-storage/src/fs_backend.rs:412-513 | Takes exactly the steps of its plan, on each of its exits |
| `FsBackend.Backend.DeleteBlob` | crates/blobstore-storage/src/fs_backend.rs:371-381 | Tables first, then the file, as planned |
| `FsBackend.Backend.GetBlob` | crates/blobstore-storage/src/fs_backend.rs:276-321 | Row, range, open, seek and take, with the errors in this order |
| `FsBackend.Backend.FoldRows` | crates/blobstore-storage/src/fs_backend.rs:204-225 | The loop folds a page into blobs and groups |
| `FsBackend.Backend.ListBlobs` | crates/blobstore-storage/src/fs_backend.rs:190-232 | One folded page and its marker, or ContainerNotFound |
| `FsBackend.Backend.FollowedIsStoreStep` | docs/design.md:29 | A method that follows its plan is a step of the simple store, and the world is intact at every moment of its journal |
| `Listing.ScanUnderChange` | crates/blobstore-storage/src/metadata_db.rs:546-569 | With arbitrary changes between requests names ascend strictly over all pages, and a finished scan returns every matching name that was there throughout |
| `Listing.PagesAreComplete` | crates/blobstore-storage/src/metadata_db.rs:535-570 | Over an unchanged table the pages end and together are the sorted matching names |
| `Listing.FewerCandidates` | crates/blobstore-storage/src/metadata_db.rs:563-568 | Behind every marker handed out fewer names are left |
| `Listing.ContainerLimitsThatWork` | crates/blobstore-storage/src/metadata_db.rs:322-343 | Container pages show something if and only if the limit is from 1 to below 2^32 - 1, or nothing matches |
| `Listing.BlobLimitsThatWork` | crates/blobstore-storage/src/metadata_db.rs:557-568 | Blob pages show something if and only if the limit is at least one, or nothing matches |
| `Like.PrefixIsLiteralExactly` | crates/blobstore-storage/src/metadata_db.rs:549 | The selection is by literal prefix if and only if the prefix has no percent sign, underscore or ASCII letter |
| `Like.LiteralPrefixIsSelected` | crates/blobstore-storage/src/metadata_db.rs:549 | The selection never misses a name that begins with the prefix |
| `Like.SelectsExactly` | crates/blobstore-storage/src/metadata_db.rs:549 | A prefix without percent sign selects exactly the names that begin like it, ASCII letters in either case and an underscore for any character |
| `Like.PercentExactly` | crates/blobstore-storage/src/metadata_db.rs:549 | A percent sign stands for any text: what follows it matches behind any part of the name |
| `Names.LessExactly` | crates/blobstore-storage/src/metadata_db.rs:550 | The order of names: a proper beginning comes first, otherwise the smaller character where they first differ decides |
| `Folding.HierarchicalListing` | crates/blobstore-storage/src/fs_backend.rs:204-225 | All pages of a scan together list exactly the names in which the delimiter does not follow the prefix, once and in order, and as groups exactly the other names cut behind it; groups of a page ascend strictly, and a group listed on two pages fills every page between |
| `Folding.GroupOfExactly` | crates/blobstore-storage/src/fs_backend.rs:211-221 | A name has a group if and only if the delimiter occurs behind the prefix, and the group is the prefix and what follows it up to the end of the first delimiter |
| `Folding.CutIsBeginning` | crates/blobstore-storage/src/fs_backend.rs:211-221 | For a name that begins with the prefix the group is the name up to the end of the first delimiter behind the prefix |
| `Folding.FoldExactly` | crates/blobstore-storage/src/fs_backend.rs:204-225 | On a page a name is listed as a blob if and only if the delimiter does not occur behind the prefix, and a text as a group if and only if it is a name of the page cut behind the first delimiter |
| `Folding.FoldWithoutDelimiter` | crates/blobstore-storage/src/fs_backend.rs:209-224 | Without a delimiter all names of the page are listed as blobs, in order |
| `Folding.GroupRepeatsOnlyOnNeighbours` | crates/blobstore-storage/src/fs_backend.rs:211-221 | In a complete scan a page between two pages that list the same group lists nothing but that group |
| `Folding.GroupsAreContiguous` | crates/blobstore-storage/src/fs_backend.rs:213-215 | Names of one group are neighbours in the order of names |
| `Folding.FoldKeepsAll` | crates/blobstore-storage/src/fs_backend.rs:211-225 | A page keeps every unfolded name in order and lists exactly the groups of its folded names |
| `Ranges.ParsePrintedRange` | crates/blobstore-api/src/helpers.rs:95-114 | A printed range is read back if and only if its numbers fit 64 bits |
| `Ranges.ParseNumeral` | crates/blobstore-api/src/helpers.rs:107-112 | A printed number is read back if and only if it fits 64 bits |
| `Ranges.ParseU64Exactly` | crates/blobstore-api/src/helpers.rs:107-112 | A text is read as a number if and only if it is an optional plus sign, zeros and the decimal numeral, and the number fits 64 bits |
| `Ranges.NumeralIsDecimal` | crates/blobstore-api/src/handlers/blobs.rs:221-237 | Printed numbers are decimal |
| `Ranges.ParseRangeExactly` | crates/blobstore-api/src/helpers.rs:95-114 | A header is a range if and only if it spells one or two 64-bit numbers behind the unit, with a dash behind the first |
| `Ranges.NotRanges` | crates/blobstore-api/src/helpers.rs:96-106 | Suffix ranges, several ranges and other units are no range |
| `Ranges.VendorRangeIsAnswered` | crates/blobstore-api/src/handlers/blobs.rs:207-241 | A range in x-ms-range is answered, whatever Range says, with status 206, the bytes it names and their headers, or with InvalidRange |
| `Ranges.StandardRangeIsAnswered` | crates/blobstore-api/src/handlers/blobs.rs:207-241 | Without x-ms-range a range in Range is answered alike |
| `Ranges.OtherwiseWholeBlob` | crates/blobstore-api/src/handlers/blobs.rs:207-241 | An unreadable x-ms-range, even beside a readable Range, an unreadable Range and no range header are answered with 200 and the whole blob |
| `Ranges.BlobGet` | crates/blobstore-api/src/handlers/blobs.rs:207-241 | Status and length headers are those that belong to the delivered payload; the vendor's range header takes precedence |
| `Ranges.AnswersAreHonest` | crates/blobstore-api/src/handlers/blobs.rs:221-237 | For a blob whose row records its file's length, Content-Length is the number of bytes delivered, and a partial answer delivers the bytes its Content-Range names |
| `Ranges.HonestExactly` | crates/blobstore-api/src/handlers/blobs.rs:221-237 | Every answer about a blob is honest if and only if the row records the length of the file |
| `Ranges.RangesTile` | crates/blobstore-storage/src/fs_backend.rs:287-313 | For a blob whose row records its file's length successive requests for n bytes each add up to the whole blob |
| `Ranges.OverflowingTileIsWholeBlob` | crates/blobstore-api/src/helpers.rs:107-112 | For such a blob a range whose end exceeds 64 bits is answered with the whole blob |
| `SharedKey.QueryOrderIrrelevant` | crates/blobstore-auth/src/shared_key.rs:56-77 | Rearranged query pairs have the same canonical resource, repeated names and mixed case included |
| `SharedKey.HeaderOrderIrrelevantExactly` | crates/blobstore-auth/src/shared_key.rs:40-54 | Every rearrangement of the headers has the same canonical text if and only if equal names have equal values |
| `SharedKey.HeaderTextDecodes` | crates/blobstore-auth/src/shared_key.rs:40-54 | The canonical header text determines the sorted headers |
| `SharedKey.ResourceTextDecodes` | crates/blobstore-auth/src/shared_key.rs:56-77 | For names without colon and line feed and values without comma and line feed the canonical resource is the same if and only if every name has the same values |
| `SharedKey.LineFeedCollides` | crates/blobstore-auth/src/shared_key.rs:56-77 | With a line feed in a value two different queries have the same canonical resource |
| `SharedKey.CommaCollides` | crates/blobstore-auth/src/shared_key.rs:56-77 | One value with a comma and two values have the same canonical resource |
| `SharedKey.ColonCollides` | crates/blobstore-auth/src/shared_key.rs:56-77 | A name with a colon and a value that begins with the rest of that name have the same canonical resource |
| `SharedKey.SignedTextIgnoresOrder` | crates/blobstore-auth/src/shared_key.rs:80-111 | The string to sign depends neither on the order of query pairs nor on that of unambiguous headers |
| `SharedKey.CanonicalizedHeaders` | crates/blobstore-auth/src/shared_key.rs:40-54 | The loop writes the sorted lines |
| `SharedKey.GroupParameters` | crates/blobstore-auth/src/shared_key.rs:65-68 | The table has every lower-cased name with its values in order |
| `SharedKey.CanonicalizedResource` | crates/blobstore-auth/src/shared_key.rs:56-77 | The loops write path and parameter lines by name with sorted values |
| `SharedKey.StringToSign` | crates/blobstore-auth/src/shared_key.rs:80-111 | The fixed parts, a zero length left empty, then headers and resource |
| `SignedText.SignedLines` | crates/blobstore-auth/src/shared_key.rs:80-111 | The first twelve lines of the signed text are the twelve fields in the order of the scheme, a zero length left empty; the rest is header text and resource text |
| `SignedText.TwoHeaders` | crates/blobstore-auth/src/shared_key.rs:40-54 | Two headers given out of order are written in order, names lower-cased and values trimmed |
| `SignedText.TwoParameters` | crates/blobstore-auth/src/shared_key.rs:56-77 | Two parameters given out of order are written behind the path in order, names lower-cased |
| `SignedText.ExampleText` | crates/blobstore-auth/src/shared_key.rs:80-111 | The whole signed text of one request |
| `SharedKey.ConstantTimeEq` | crates/blobstore-auth/src/shared_key.rs:149-160 | The comparison loop is true if and only if the byte strings are equal |
| `SharedKey.Verify` | crates/blobstore-auth/src/shared_key.rs:126-147 | Accepts if and only if the signature is the MAC of the string to sign under one of the keys |
| `StableSort.StableSortUnique` | crates/blobstore-auth/src/shared_key.rs:45 | There is only one sorted and stable arrangement, so any stable sort gives it |
| `StableSort.SortIsStable` | crates/blobstore-auth/src/shared_key.rs:45 | Elements with equal keys keep their order |
| `Query.RawQueryOrderIrrelevant` | crates/blobstore-api/src/query.rs:5-25 | Rearranging the parts of the raw query leaves the string to sign as it is |
| `Query.CutPrinted` | crates/blobstore-api/src/query.rs:12-14 | A part written as name and value is cut at its first equals sign |
| `Query.ParsePrintedQuery` | crates/blobstore-api/src/query.rs:5-25 | The pairs of an encoded query come back with their names and values, in order |
| `Query.OddParts` | crates/blobstore-api/src/query.rs:9-22 | Empty parts are skipped, a part without equals sign has an empty value, and what cannot be decoded is taken as it stands |
| `Sas.TextToSignInjective` | crates/blobstore-auth/src/sas.rs:74-94 | Two signed texts are equal if and only if all that was signed is equal, if the fields of one side have no line breaks, for slash-free accounts and containers |
| `Sas.ResourceInjective` | crates/blobstore-auth/src/sas.rs:67-72 | The resource tells account, container and blob apart, and a container from a blob |
| `Sas.SignedLines` | crates/blobstore-auth/src/sas.rs:74-94 | The sixteen lines of the signed text are the fields of the token in the order of the scheme, the resource as the fourth |
| `Sas.SlashIsAmbiguous` | crates/blobstore-auth/src/sas.rs:67-72 | With a slash in the container name it does not |
| `BlockListXml.RoundTripExactly` | crates/blobstore-xml/src/block_list.rs:20-72 | A printed list is read back if and only if it is not empty and no id is blank or has white space at its ends |
| `BlockListXml.ReadPrinted` | crates/blobstore-xml/src/block_list.rs:8-19 | Reading a printed list gives kinds and trimmed ids in document order, without blank ids |
| `BlockListXml.UnescapeEscape` | crates/blobstore-xml/src/lib.rs:22-36 | Unescaping undoes escaping on every text |
| `BlockListXml.XmlEscape` | crates/blobstore-xml/src/lib.rs:23-36 | The loop escapes character by character |
| `BlockListRefusals.EscapedSpecials` | crates/blobstore-xml/src/lib.rs:23-36 | The five characters that are escaped, and how; all others stay |
| `BlockListRefusals.TrimExactly` | crates/blobstore-xml/src/block_list.rs:22 | Trimming takes away spaces, tabs, carriage returns and line feeds at the ends, all of them and nothing else |
| `BlockListRefusals.KindOfExactly` | crates/blobstore-xml/src/block_list.rs:31-36 | The kinds go by the element's local name |
| `BlockListRefusals.WrongClosingTag` | crates/blobstore-xml/src/block_list.rs:57-62 | A document whose list is closed by another name is refused as a document |
| `BlockListRefusals.WrongElementEnd` | crates/blobstore-xml/src/block_list.rs:57-62 | So is one in which a reference is closed by another name |
| `BlockListRefusals.UnfinishedTag` | crates/blobstore-xml/src/block_list.rs:57-62 | So is one that ends within a tag |
| `BlockListRefusals.BadTextIsRefused` | crates/blobstore-xml/src/block_list.rs:38-48 | So is one with an id that cannot be unescaped |
| `BlockListRefusals.UnknownEntity` | crates/blobstore-xml/src/block_list.rs:39-48 | An entity other than the five and the character references cannot be unescaped |
| `BlockListRefusals.UnfinishedEntity` | crates/blobstore-xml/src/block_list.rs:39-48 | Nor can an ampersand that no semicolon follows |
| `BlockListRefusals.BlankListIsRefused` | crates/blobstore-xml/src/block_list.rs:67-69 | A document without an id is refused as a list |
| `BlockListRefusals.OtherElementIsSkipped` | crates/blobstore-xml/src/block_list.rs:30-37 | An element with another name is passed over with its text |
| `BlockListRefusals.EmptyElementIsSkipped` | crates/blobstore-xml/src/block_list.rs:63 | An empty element is passed over |
| `BlockListXml.ParseBlockListRequest` | crates/blobstore-xml/src/block_list.rs:20-72 | The event loop makes of a document what its events say, with its errors |

## Left out

- Two writers on one blob at the same time: the code takes no lock; writers are serial here and readers and page scans interleave.
- Failures of single file-system calls other than a part that cannot be opened and a body that breaks off; a best-effort removal that fails is not modelled.
- FsBackend.Backend.CreateContainer: creating the container's directory is no step and its failure is not modelled; the file system has no directories of its own.
- BlockListXml.ParseBlockListRequest: the reader below it is a simplified one, see the line on the document reader.
- Temporary names are unique and new parent directories are durable; a directory sync is counted on only for the file it was made for.
- The name of a temporary file that was just created survives a crash; a crash that loses it would only lose a file that nothing names.
- Etags, dates, metadata as JSON, Set Blob Properties and Set Metadata; Get Block List, which returns the two tables, the uncommitted one ordered by date.
- SQLite itself: transactions are atomic and durable, and texts are ordered by code points, which is the order of their UTF-8 bytes.
- SHA-256, MD5, HMAC, base64, percent-decoding, Unicode lower-casing and trimming are functions of which nothing is known but that MD5 works byte by byte.
- A file is shorter than 2^64 bytes where a result compares a recorded length with the bytes; the counters themselves wrap.
- `rest` in folding is cut by characters; cutting in the middle of a multi-byte character, possible after a LIKE match by underscore, is not modelled.
- The document reader covers documents without comments, CDATA sections and document types, and without `>` inside attribute values or processing instructions; the XML library is not part of this model.
- The other response headers, HEAD, multi-range and suffix ranges beyond their being ignored.
- Routing, account resolution, bearer tokens, anonymous access, SAS expiry and permission checks, response rendering, configuration.
