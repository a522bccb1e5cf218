/** What each write operation of the storage backend does, as the ordered list of
    atomic steps it takes from a given world, and the reply it gives. */
module Plans {
  import opened Types
  import opened World
  import Names

  /** A request body as it arrives: its chunks, and whether the stream ended
      normally rather than with an error. */
  datatype Body = Body(chunks: seq<Bytes>, complete: bool) {
    function Data(): Bytes { Concat(chunks) }
  }

  datatype BlockKind = Committed | Uncommitted | Latest

  datatype BlockRef = BlockRef(id: string, kind: BlockKind)

  /** `schedule` says how many bytes the operating system hands over on each read
      of each part while a block list is being assembled. */
  datatype Op =
    | CreateContainer(account: string, container: string)
    | DeleteContainer(account: string, container: string)
    | PutBlob(key: Key, body: Body, md5Header: Option<string>, headers: Headers)
    | PutBlock(block: BlockKey, body: Body)
    | PutBlockList(key: Key, refs: seq<BlockRef>, headers: Headers, schedule: seq<seq<nat>>)
    | DeleteBlob(key: Key)

  datatype Reply = Done | BlobReply(row: BlobRow) | BlockReply(md5: string)

  datatype Plan = Plan(steps: seq<Step>, reply: Result<Reply>)

  // ------------------------------------------------------- writing a file

  function Appends(ino: nat, chunks: seq<Bytes>): seq<Step> {
    seq(|chunks|, i requires 0 <= i < |chunks| => Append(ino, chunks[i]))
  }

  function Publish(account: string, ino: nat, dest: FileName): seq<Step> {
    [SyncFile(ino), Rename(TempFile(account, ino), dest), SyncDir(dest)]
  }

  /** Write to a temporary file, sync it, rename it onto its final name and sync
      the directory. A body that breaks off leaves the temporary file behind. */
  function WriteSteps(account: string, ino: nat, dest: FileName, body: Body): seq<Step> {
    [CreateTemp(account)] + Appends(ino, body.chunks)
    + if body.complete then Publish(account, ino, dest) else []
  }

  const READ_BUFFER: nat := 262144

  function ReadSize(available: nat, want: nat): (n: nat)
    requires available > 0
    ensures 1 <= n <= available && n <= READ_BUFFER
  {
    var n := Min(Min(want, available), READ_BUFFER);
    if n == 0 then 1 else n
  }

  /** The pieces in which a file's bytes arrive under a schedule of reads; a
      schedule that runs out stands for reads that fill the buffer. */
  function Pieces(data: Bytes, schedule: seq<nat>): seq<Bytes>
    decreases |data|
  {
    if data == [] then []
    else
      var n := ReadSize(|data|, if schedule == [] then READ_BUFFER else schedule[0]);
      [data[..n]] + Pieces(data[n..], if schedule == [] then [] else schedule[1..])
  }

  function Schedule(schedule: seq<seq<nat>>, i: nat): seq<nat> {
    if i < |schedule| then schedule[i] else []
  }

  function PartPieces(d: Disk, parts: seq<FileName>, schedule: seq<seq<nat>>): seq<Bytes>
    requires forall p | p in parts :: d.Holds(p)
  {
    if parts == [] then []
    else
      var n := |parts| - 1;
      PartPieces(d, parts[..n], schedule) + Pieces(d.Data(parts[n]), Schedule(schedule, n))
  }

  /** How many of the leading parts can be opened. */
  function Openable(d: Disk, parts: seq<FileName>): (n: nat)
    ensures n <= |parts|
    ensures forall p | p in parts[..n] :: d.Holds(p)
    ensures n < |parts| ==> !d.Holds(parts[n])
  {
    if parts == [] || !d.Holds(parts[0]) then 0
    else
      var n := Openable(d, parts[1..]);
      assert parts[..n + 1] == [parts[0]] + parts[1..][..n];
      n + 1
  }

  /** The stream of pieces that assembling the given parts produces; it breaks
      off at the first part that cannot be opened. */
  function AssemblyBody(d: Disk, parts: seq<FileName>, schedule: seq<seq<nat>>): Body {
    var n := Openable(d, parts);
    Body(PartPieces(d, parts[..n], schedule), n == |parts|)
  }

  // ---------------------------------------------------- resolving a block list

  /** `path` is absent for a block that is committed but no longer staged. */
  datatype Resolved = Resolved(id: string, size: nat, path: Option<FileName>)

  /** The committed sizes by id; of several entries with one id the last counts. */
  function SizeTable(blocks: seq<Block>): map<string, nat> {
    if blocks == [] then map[]
    else
      var n := |blocks| - 1;
      SizeTable(blocks[..n])[blocks[n].id := blocks[n].size]
  }

  function ResolveRef(db: Db, k: Key, sizes: map<string, nat>, ref: BlockRef): Option<Resolved> {
    var b := BlockKey(k, ref.id);
    match ref.kind
    case Uncommitted =>
      if b in db.staged then Some(Resolved(ref.id, db.staged[b].size, Some(db.staged[b].path)))
      else None
    case Committed =>
      if ref.id in sizes && b in db.staged then
        Some(Resolved(ref.id, sizes[ref.id], Some(db.staged[b].path)))
      else None
    case Latest =>
      if b in db.staged then Some(Resolved(ref.id, db.staged[b].size, Some(db.staged[b].path)))
      else if ref.id in sizes then Some(Resolved(ref.id, sizes[ref.id], None))
      else None
  }

  function ResolveAll(db: Db, k: Key, refs: seq<BlockRef>): Option<seq<Resolved>> {
    var sizes := SizeTable(db.CommittedBlocks(k));
    if forall i | 0 <= i < |refs| :: ResolveRef(db, k, sizes, refs[i]).Some? then
      Some(seq(|refs|, i requires 0 <= i < |refs| => ResolveRef(db, k, sizes, refs[i]).value))
    else None
  }

  predicate AllStaged(rs: seq<Resolved>) {
    forall i | 0 <= i < |rs| :: rs[i].path.Some?
  }

  function PathsOf(rs: seq<Resolved>): seq<FileName>
    requires AllStaged(rs)
  {
    seq(|rs|, i requires 0 <= i < |rs| => rs[i].path.value)
  }

  function BlocksOf(rs: seq<Resolved>): seq<Block> {
    seq(|rs|, i requires 0 <= i < |rs| => Block(rs[i].id, rs[i].size))
  }

  function Removes(files: seq<FileName>): seq<Step> {
    seq(|files|, i requires 0 <= i < |files| => Remove(files[i]))
  }

  // ------------------------------------------------------------- the plans

  function NewRow(h: Md5, k: Key, data: Bytes, headers: Headers): BlobRow {
    BlobRow(U64(|data|), h.Digest(data), headers, BlobFile(k))
  }

  function PutBlobPlan(h: Md5, w: World, k: Key, body: Body, md5Header: Option<string>,
                       headers: Headers): Plan {
    if (k.account, k.container) !in w.db.containers then Plan([], Err(ContainerNotFound))
    else
      var write := WriteSteps(k.account, |w.disk.inodes|, BlobFile(k), body);
      if !body.complete then Plan(write, Err(InternalError))
      else if md5Header.Some? && md5Header.value != h.Digest(body.Data()) then
        Plan(write + [Remove(BlobFile(k))], Err(Md5Mismatch))
      else
        var row := NewRow(h, k, body.Data(), headers);
        Plan(write + [UpsertBlob(k, row)], Ok(BlobReply(row)))
  }

  function PutBlockPlan(h: Md5, w: World, b: BlockKey, body: Body): Plan {
    if (b.blob.account, b.blob.container) !in w.db.containers then Plan([], Err(ContainerNotFound))
    else
      var write := WriteSteps(b.blob.account, |w.disk.inodes|, BlockFile(b), body);
      if !body.complete then Plan(write, Err(InternalError))
      else
        var md5 := h.Digest(body.Data());
        Plan(write + [StageBlock(b, StagedRow(U64(|body.Data()|), md5, BlockFile(b)))],
             Ok(BlockReply(md5)))
  }

  function AssemblePlan(h: Md5, w: World, k: Key, rs: seq<Resolved>, headers: Headers,
                        schedule: seq<seq<nat>>): Plan
    requires AllStaged(rs)
  {
    var body := AssemblyBody(w.disk, PathsOf(rs), schedule);
    var write := WriteSteps(k.account, |w.disk.inodes|, BlobFile(k), body);
    if !body.complete then Plan(write, Err(InternalError))
    else
      var row := NewRow(h, k, body.Data(), headers);
      Plan(write + [CommitBlocks(k, BlocksOf(rs), row)] + Removes(PathsOf(rs)), Ok(BlobReply(row)))
  }

  function PutBlockListPlan(h: Md5, w: World, k: Key, refs: seq<BlockRef>, headers: Headers,
                            schedule: seq<seq<nat>>): Plan {
    if (k.account, k.container) !in w.db.containers then Plan([], Err(ContainerNotFound))
    else
      var rs := ResolveAll(w.db, k, refs);
      if rs.None? || !AllStaged(rs.value) then Plan([], Err(InvalidBlockList))
      else AssemblePlan(h, w, k, rs.value, headers, schedule)
  }

  function DeleteBlobPlan(w: World, k: Key): Plan {
    if k !in w.db.blobs then Plan([], Err(BlobNotFound))
    else
      Plan([DeleteBlobRow(k), DeleteCommitted(k), DeleteStaged(k), Remove(w.db.blobs[k].path)],
           Ok(Done))
  }

  function BlobNames(db: Db, a: string, c: string): set<string> {
    set k | k in db.blobs && k.In(a, c) :: k.blob
  }

  lemma BlobNamesAreKeys(db: Db, a: string, c: string)
    ensures forall n :: n in BlobNames(db, a, c) <==> Key(a, c, n) in db.blobs
  {
    forall n | Key(a, c, n) in db.blobs ensures n in BlobNames(db, a, c) {
      assert Key(a, c, n).In(a, c);
    }
  }

  function ContainerNames(db: Db, a: string): set<string> {
    set c | c in db.containers && c.0 == a :: c.1
  }

  /** An account's containers are listed, and nobody else's. */
  lemma ContainerNamesAreKeys(db: Db, a: string)
    ensures forall n :: n in ContainerNames(db, a) <==> (a, n) in db.containers
  {
    forall n | (a, n) in db.containers ensures n in ContainerNames(db, a) {
      assert (a, n).0 == a;
    }
  }

  /** The paths of a container's blob rows, in the order of the primary key. */
  function BlobPaths(db: Db, a: string, c: string): seq<FileName> {
    var names := Names.Sorted(BlobNames(db, a, c));
    BlobNamesAreKeys(db, a, c);
    Names.SortedIsSorted(BlobNames(db, a, c));
    seq(|names|, i requires 0 <= i < |names| => assert names[i] in names; db.blobs[Key(a, c, names[i])].path)
  }

  /** They are the paths of exactly the container's own rows, one for each. */
  lemma BlobPathsAreRows(db: Db, a: string, c: string)
    ensures forall f :: f in BlobPaths(db, a, c) <==>
              exists n :: Key(a, c, n) in db.blobs && db.blobs[Key(a, c, n)].path == f
    ensures |BlobPaths(db, a, c)| == |BlobNames(db, a, c)|
  {
    var names := Names.Sorted(BlobNames(db, a, c));
    BlobNamesAreKeys(db, a, c);
    Names.SortedIsSorted(BlobNames(db, a, c));
    forall f | f in BlobPaths(db, a, c)
      ensures exists n :: Key(a, c, n) in db.blobs && db.blobs[Key(a, c, n)].path == f
    {
      var i :| 0 <= i < |names| && BlobPaths(db, a, c)[i] == f;
      assert names[i] in names;
    }
    forall n | Key(a, c, n) in db.blobs ensures db.blobs[Key(a, c, n)].path in BlobPaths(db, a, c) {
      var i :| 0 <= i < |names| && names[i] == n;
      assert BlobPaths(db, a, c)[i] == db.blobs[Key(a, c, n)].path;
    }
  }

  function DeleteContainerPlan(w: World, a: string, c: string): Plan {
    if (a, c) !in w.db.containers then Plan([], Err(ContainerNotFound))
    else
      Plan([DropContainer(a, c)] + Removes(BlobPaths(w.db, a, c)) + [RemoveTree(a, c)], Ok(Done))
  }

  function CreateContainerPlan(w: World, a: string, c: string): Plan {
    if (a, c) in w.db.containers then Plan([], Err(ContainerAlreadyExists))
    else if a !in w.db.accounts then Plan([], Err(InternalError))
    else Plan([InsertContainer(a, c)], Ok(Done))
  }

  function PlanOf(h: Md5, w: World, op: Op): Plan {
    match op
    case CreateContainer(a, c) => CreateContainerPlan(w, a, c)
    case DeleteContainer(a, c) => DeleteContainerPlan(w, a, c)
    case PutBlob(k, body, md5Header, headers) => PutBlobPlan(h, w, k, body, md5Header, headers)
    case PutBlock(b, body) => PutBlockPlan(h, w, b, body)
    case PutBlockList(k, refs, headers, schedule) => PutBlockListPlan(h, w, k, refs, headers, schedule)
    case DeleteBlob(k) => DeleteBlobPlan(w, k)
  }

  /** The world after the whole operation. */
  function Finish(h: Md5, w: World, op: Op): World {
    Run(w, PlanOf(h, w, op).steps)
  }

  // ---------------------------------------------- streaming is chunk-independent

  lemma {:induction false} PiecesConcat(data: Bytes, schedule: seq<nat>)
    ensures Concat(Pieces(data, schedule)) == data
    decreases |data|
  {
    if data == [] {
    } else {
      var n := ReadSize(|data|, if schedule == [] then READ_BUFFER else schedule[0]);
      PiecesConcat(data[n..], if schedule == [] then [] else schedule[1..]);
      assert data == data[..n] + data[n..];
    }
  }

  function PartsData(d: Disk, parts: seq<FileName>): Bytes
    requires forall p | p in parts :: d.Holds(p)
  {
    if parts == [] then [] else d.Data(parts[0]) + PartsData(d, parts[1..])
  }

  lemma {:induction false} PartsDataSnoc(d: Disk, parts: seq<FileName>, p: FileName)
    requires forall q | q in parts + [p] :: d.Holds(q)
    ensures forall q | q in parts :: d.Holds(q)
    ensures d.Holds(p)
    ensures PartsData(d, parts + [p]) == PartsData(d, parts) + d.Data(p)
  {
    assert forall q | q in parts :: q in parts + [p];
    assert p in parts + [p];
    if parts == [] {
      assert parts + [p] == [p];
      assert PartsData(d, [p]) == d.Data(p) + PartsData(d, []);
    } else {
      assert (parts + [p])[1..] == parts[1..] + [p];
      PartsDataSnoc(d, parts[1..], p);
    }
  }

  /** However the operating system splits its reads, assembling parts yields the
      in-order concatenation of the parts' bytes. */
  lemma {:induction false} AssemblyIsConcatenation(d: Disk, parts: seq<FileName>, schedule: seq<seq<nat>>)
    requires forall p | p in parts :: d.Holds(p)
    ensures AssemblyBody(d, parts, schedule).complete
    ensures AssemblyBody(d, parts, schedule).Data() == PartsData(d, parts)
  {
    var n := Openable(d, parts);
    assert forall i | 0 <= i < |parts| :: parts[i] in parts;
    assert parts[..n] == parts;
    PartPiecesConcat(d, parts, schedule);
  }

  lemma {:induction false} PartPiecesConcat(d: Disk, parts: seq<FileName>, schedule: seq<seq<nat>>)
    requires forall p | p in parts :: d.Holds(p)
    ensures Concat(PartPieces(d, parts, schedule)) == PartsData(d, parts)
    decreases |parts|
  {
    if parts == [] {
    } else {
      var n := |parts| - 1;
      assert parts == parts[..n] + [parts[n]];
      PartPiecesConcat(d, parts[..n], schedule);
      PiecesConcat(d.Data(parts[n]), Schedule(schedule, n));
      ConcatAppend(PartPieces(d, parts[..n], schedule), Pieces(d.Data(parts[n]), Schedule(schedule, n)));
      PartsDataSnoc(d, parts[..n], parts[n]);
    }
  }
}
