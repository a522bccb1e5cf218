/** What a client may think the store is: names with bytes. Every serial run of the
    server is a run of this simple store. */
module Refinement {
  import opened Types
  import opened World
  import opened Plans
  import opened Integrity
  import opened SafePlans
  import opened Frames
  import opened Effects

  /** A blob that was lost is still listed, with its length. */
  datatype Content = Content(data: Bytes, headers: Headers) | Gone(length: nat, headers: Headers)

  datatype Store = Store(accounts: set<string>,
                         containers: set<(string, string)>,
                         blobs: map<Key, Content>,
                         staged: map<BlockKey, Bytes>,
                         layout: map<Key, seq<Block>>)
  {
    predicate Has(k: Key) {
      (k.account, k.container) in containers
    }

    /** A refused overwrite takes the earlier version away. */
    function Lose(k: Key): Store
      requires k in blobs
    {
      match blobs[k]
      case Content(data, headers) => this.(blobs := blobs[k := Gone(U64(|data|), headers)])
      case Gone(_, _) => this
    }

    function Layout(k: Key): seq<Block> {
      if k in layout then layout[k] else []
    }

    /** A reference counts if the block is staged and, when it is asked for as a
        committed block, is also in the blob's committed list. */
    predicate Usable(k: Key, ref: BlockRef) {
      && BlockKey(k, ref.id) in staged
      && (ref.kind == Committed ==> exists i :: 0 <= i < |Layout(k)| && Layout(k)[i].id == ref.id)
    }

    predicate AllUsable(k: Key, refs: seq<BlockRef>) {
      forall i | 0 <= i < |refs| :: Usable(k, refs[i])
    }

    /** The size recorded for a reference: the last committed one of that id for a
        committed reference, otherwise the number of staged bytes. */
    function SizeOf(k: Key, ref: BlockRef): nat
      requires Usable(k, ref)
    {
      if ref.kind == Committed then
        var last := LastIndex(Layout(k), ref.id);
        Layout(k)[last].size
      else U64(|staged[BlockKey(k, ref.id)]|)
    }

    function Joined(k: Key, refs: seq<BlockRef>): Bytes
      requires AllUsable(k, refs)
    {
      if refs == [] then [] else staged[BlockKey(k, refs[0].id)] + Joined(k, refs[1..])
    }

    function NewLayout(k: Key, refs: seq<BlockRef>): seq<Block>
      requires AllUsable(k, refs)
    {
      seq(|refs|, i requires 0 <= i < |refs| => Block(refs[i].id, SizeOf(k, refs[i])))
    }
  }

  function LastIndex(blocks: seq<Block>, id: string): (i: nat)
    requires exists j :: 0 <= j < |blocks| && blocks[j].id == id
    ensures i < |blocks| && blocks[i].id == id
    ensures forall j | i < j < |blocks| :: blocks[j].id != id
  {
    var n := |blocks| - 1;
    if blocks[n].id == id then n else LastIndex(blocks[..n], id)
  }

  /** One request, on the simple store. */
  function StoreStep(m: Md5, s: Store, op: Op): (Store, Result<Reply>) {
    match op
    case CreateContainer(a, c) =>
      if (a, c) in s.containers then (s, Err(ContainerAlreadyExists))
      else if a !in s.accounts then (s, Err(InternalError))
      else (s.(containers := s.containers + {(a, c)}), Ok(Done))
    case DeleteContainer(a, c) =>
      if (a, c) !in s.containers then (s, Err(ContainerNotFound))
      else
        (Store(s.accounts, s.containers - {(a, c)},
               map k | k in s.blobs && !k.In(a, c) :: s.blobs[k],
               map b | b in s.staged && !b.blob.In(a, c) :: s.staged[b],
               map k | k in s.layout && !k.In(a, c) :: s.layout[k]), Ok(Done))
    case PutBlob(k, body, md5Header, headers) =>
      if !s.Has(k) then (s, Err(ContainerNotFound))
      else if !body.complete then (s, Err(InternalError))
      else if md5Header.Some? && md5Header.value != m.Digest(body.Data()) then
        (if k in s.blobs then s.Lose(k) else s, Err(Md5Mismatch))
      else
        (s.(blobs := s.blobs[k := Content(body.Data(), headers)]),
         Ok(BlobReply(NewRow(m, k, body.Data(), headers))))
    case PutBlock(b, body) =>
      if !s.Has(b.blob) then (s, Err(ContainerNotFound))
      else if !body.complete then (s, Err(InternalError))
      else (s.(staged := s.staged[b := body.Data()]), Ok(BlockReply(m.Digest(body.Data()))))
    case PutBlockList(k, refs, headers, _) =>
      if !s.Has(k) then (s, Err(ContainerNotFound))
      else if !s.AllUsable(k, refs) then (s, Err(InvalidBlockList))
      else
        (s.(blobs := s.blobs[k := Content(s.Joined(k, refs), headers)],
            layout := s.layout[k := s.NewLayout(k, refs)],
            staged := map b | b in s.staged && b.blob != k :: s.staged[b]),
         Ok(BlobReply(NewRow(m, k, s.Joined(k, refs), headers))))
    case DeleteBlob(k) =>
      if k !in s.blobs then (s, Err(BlobNotFound))
      else
        (s.(blobs := s.blobs - {k}, layout := s.layout - {k},
            staged := map b | b in s.staged && b.blob != k :: s.staged[b]), Ok(Done))
  }

  // ----------------------------------------------------- the abstraction

  function DataOf(d: Disk, f: FileName): Bytes {
    if d.Holds(f) then d.Data(f) else []
  }

  function ContentOf(d: Disk, k: Key, row: BlobRow): Content {
    if d.Holds(BlobFile(k)) then Content(d.Data(BlobFile(k)), row.headers) else Gone(row.length, row.headers)
  }

  /** What a client sees of the blobs, and of the staged blocks. */
  function BlobView(w: World): map<Key, Content> {
    map k | k in w.db.blobs :: ContentOf(w.disk, k, w.db.blobs[k])
  }

  function StagedView(w: World): map<BlockKey, Bytes> {
    map b | b in w.db.staged :: DataOf(w.disk, BlockFile(b))
  }

  function Abstract(w: World): Store {
    Store(w.db.accounts, w.db.containers, BlobView(w), StagedView(w), w.db.committed)
  }

  predicate TrueRow(m: Md5, d: Disk, k: Key, row: BlobRow) {
    d.Holds(BlobFile(k)) ==> row == NewRow(m, k, d.Data(BlobFile(k)), row.headers)
  }

  function StagedRowFor(m: Md5, b: BlockKey, data: Bytes): StagedRow {
    StagedRow(U64(|data|), m.Digest(data), BlockFile(b))
  }

  predicate TrueStagedRow(m: Md5, d: Disk, b: BlockKey, row: StagedRow) {
    row == StagedRowFor(m, b, DataOf(d, BlockFile(b)))
  }

  /** The recorded sizes and digests are those of the files, if the file is there, and
      only existing blobs have a committed list. Holds between operations of a
      crash-free run. */
  ghost predicate Faithful(m: Md5, w: World) {
    && (forall k | k in w.db.blobs :: TrueRow(m, w.disk, k, w.db.blobs[k]))
    && (forall b | b in w.db.staged :: TrueStagedRow(m, w.disk, b, w.db.staged[b]))
    && w.db.committed.Keys <= w.db.blobs.Keys
  }

  // -------------------------------------------------- validating block lists

  lemma {:induction false} SizeTableIsLast(blocks: seq<Block>, id: string)
    ensures id in SizeTable(blocks) <==> exists j :: 0 <= j < |blocks| && blocks[j].id == id
    ensures id in SizeTable(blocks) ==> SizeTable(blocks)[id] == blocks[LastIndex(blocks, id)].size
    decreases |blocks|
  {
    if blocks == [] {
    } else {
      var n := |blocks| - 1;
      SizeTableIsLast(blocks[..n], id);
      assert blocks == blocks[..n] + [blocks[n]];
      if blocks[n].id != id && id in SizeTable(blocks[..n]) {
        var j :| 0 <= j < n && blocks[..n][j].id == id;
        assert blocks[j].id == id;
      }
    }
  }

  lemma ResolveRefMeans(w: World, k: Key, ref: BlockRef)
    ensures var r := ResolveRef(w.db, k, SizeTable(w.db.CommittedBlocks(k)), ref);
            Abstract(w).Usable(k, ref) <==> r.Some? && r.value.path.Some?
  {
    SizeTableIsLast(w.db.CommittedBlocks(k), ref.id);
    assert Abstract(w).Layout(k) == w.db.CommittedBlocks(k);
  }

  /** Validation: a block list is accepted exactly when every reference is staged
      and every committed reference is also in the committed list. */
  lemma BlockListValidation(w: World, k: Key, refs: seq<BlockRef>)
    ensures Abstract(w).AllUsable(k, refs)
       <==> ResolveAll(w.db, k, refs).Some? && AllStaged(ResolveAll(w.db, k, refs).value)
  {
    var sizes := SizeTable(w.db.CommittedBlocks(k));
    forall i | 0 <= i < |refs| {
      ResolveRefMeans(w, k, refs[i]);
    }
    if Abstract(w).AllUsable(k, refs) {
      assert forall i | 0 <= i < |refs| :: Abstract(w).Usable(k, refs[i]);
    } else if ResolveAll(w.db, k, refs).Some? && AllStaged(ResolveAll(w.db, k, refs).value) {
      var rs := ResolveAll(w.db, k, refs).value;
      forall i | 0 <= i < |refs| ensures Abstract(w).Usable(k, refs[i]) {
        assert rs[i] == ResolveRef(w.db, k, sizes, refs[i]).value;
      }
    }
  }

  /** All or nothing: with the container present, Put Block List succeeds exactly
      when its references are usable; otherwise it takes no step at all. */
  lemma PutBlockListAllOrNothing(m: Md5, w: World, op: Op, h: History)
    requires op.PutBlockList? && Intact(w, h) && (op.key.account, op.key.container) in w.db.containers
    ensures PlanOf(m, w, op).reply.Ok? <==> Abstract(w).AllUsable(op.key, op.refs)
    ensures !Abstract(w).AllUsable(op.key, op.refs) ==> PlanOf(m, w, op) == Plan([], Err(InvalidBlockList))
  {
    BlockListValidation(w, op.key, op.refs);
    if Abstract(w).AllUsable(op.key, op.refs) {
      AssemblyCompletes(w, h, op.key, op.refs, op.schedule);
    }
  }

  lemma {:induction false} JoinedIsParts(w: World, k: Key, refs: seq<BlockRef>, files: seq<FileName>)
    requires Abstract(w).AllUsable(k, refs) && |files| == |refs|
    requires forall i | 0 <= i < |refs| :: files[i] == BlockFile(BlockKey(k, refs[i].id))
    requires forall f | f in files :: w.disk.Holds(f)
    ensures Abstract(w).Joined(k, refs) == PartsData(w.disk, files)
    decreases |refs|
  {
    if refs == [] {
    } else {
      assert files[0] in files;
      assert forall f | f in files[1..] :: f in files;
      assert forall i | 0 <= i < |refs[1..]| :: Abstract(w).Usable(k, refs[1..][i]);
      JoinedIsParts(w, k, refs[1..], files[1..]);
    }
  }

  /** The blob's staged rows record the sizes of their files. */
  ghost predicate StagedSizes(w: World, k: Key) {
    forall b | b in w.db.staged && b.blob == k :: w.db.staged[b].size == U64(|DataOf(w.disk, BlockFile(b))|)
  }

  lemma FaithfulSizes(m: Md5, w: World, k: Key)
    requires Faithful(m, w)
    ensures StagedSizes(w, k)
  {
    forall b | b in w.db.staged && b.blob == k
      ensures w.db.staged[b].size == U64(|DataOf(w.disk, BlockFile(b))|)
    {
      assert TrueStagedRow(m, w.disk, b, w.db.staged[b]);
    }
  }

  lemma LayoutIsBlocks(w: World, k: Key, refs: seq<BlockRef>)
    requires StagedSizes(w, k) && Abstract(w).AllUsable(k, refs)
    ensures ResolveAll(w.db, k, refs).Some?
    ensures Abstract(w).NewLayout(k, refs) == BlocksOf(ResolveAll(w.db, k, refs).value)
  {
    BlockListValidation(w, k, refs);
    var rs := ResolveAll(w.db, k, refs).value;
    forall i | 0 <= i < |refs| ensures Abstract(w).NewLayout(k, refs)[i] == BlocksOf(rs)[i] {
      assert Abstract(w).Usable(k, refs[i]);
      assert Abstract(w).Layout(k) == w.db.CommittedBlocks(k);
      SizeTableIsLast(w.db.CommittedBlocks(k), refs[i].id);
      assert rs[i] == ResolveRef(w.db, k, SizeTable(w.db.CommittedBlocks(k)), refs[i]).value;
    }
  }

  // --------------------------------------------------------- simulation

  lemma DataKept(d: Disk, d': Disk, h: History, f: FileName)
    requires FilesComplete(d, h) && SyncedKept(d, d') && !f.TempFile? && d'.Entry(f) == d.Entry(f)
    ensures SameFile(d, d', f)
  {
    assert Good(d, h, f, d.Entry(f));
  }

  ghost predicate Simulates(m: Md5, w: World, op: Op, w': World, reply: Result<Reply>) {
    (Abstract(w'), reply) == StoreStep(m, Abstract(w), op) && Faithful(m, w')
  }

  /** The name leads to the same bytes in both, or to none in either. */
  predicate SameFile(d: Disk, d': Disk, f: FileName) {
    d'.Holds(f) == d.Holds(f) && DataOf(d', f) == DataOf(d, f)
  }

  /** The files of the given blobs and blocks hold the same bytes in both worlds. */
  ghost predicate SameData(d: Disk, d': Disk, ks: set<Key>, bs: set<BlockKey>) {
    && (forall k | k in ks :: SameFile(d, d', BlobFile(k)))
    && (forall b | b in bs :: SameFile(d, d', BlockFile(b)))
  }

  lemma KeepData(d: Disk, d': Disk, h: History, ks: set<Key>, bs: set<BlockKey>)
    requires FilesComplete(d, h) && SyncedKept(d, d')
    requires forall k | k in ks :: d'.Entry(BlobFile(k)) == d.Entry(BlobFile(k))
    requires forall b | b in bs :: d'.Entry(BlockFile(b)) == d.Entry(BlockFile(b))
    ensures SameData(d, d', ks, bs)
  {
    forall k | k in ks ensures SameFile(d, d', BlobFile(k)) {
      DataKept(d, d', h, BlobFile(k));
    }
    forall b | b in bs ensures SameFile(d, d', BlockFile(b)) {
      DataKept(d, d', h, BlockFile(b));
    }
  }

  function OtherBlocks(bs: set<BlockKey>, k: Key): set<BlockKey> {
    set b | b in bs && b.blob != k
  }

  lemma TrueRowsKept(m: Md5, d: Disk, d': Disk, k: Key, row: BlobRow)
    requires TrueRow(m, d, k, row) && SameFile(d, d', BlobFile(k))
    ensures TrueRow(m, d', k, row)
  {
  }

  /** Rows that stayed, over files that stayed, stay true; so only the new rows are
      to be checked. */
  lemma FaithfulKept(m: Md5, w: World, w': World, ks: set<Key>, bs: set<BlockKey>)
    requires Faithful(m, w) && SameData(w.disk, w'.disk, ks, bs)
    requires forall k | k in w'.db.blobs ::
               (k in ks && k in w.db.blobs && w'.db.blobs[k] == w.db.blobs[k])
               || TrueRow(m, w'.disk, k, w'.db.blobs[k])
    requires forall b | b in w'.db.staged ::
               (b in bs && b in w.db.staged && w'.db.staged[b] == w.db.staged[b])
               || TrueStagedRow(m, w'.disk, b, w'.db.staged[b])
    requires w'.db.committed.Keys <= w'.db.blobs.Keys
    ensures Faithful(m, w')
  {
    forall k | k in w'.db.blobs ensures TrueRow(m, w'.disk, k, w'.db.blobs[k]) {
      if k in ks && k in w.db.blobs && w'.db.blobs[k] == w.db.blobs[k] {
        TrueRowsKept(m, w.disk, w'.disk, k, w.db.blobs[k]);
      }
    }
    forall b | b in w'.db.staged ensures TrueStagedRow(m, w'.disk, b, w'.db.staged[b]) {
      if b in bs && b in w.db.staged && w'.db.staged[b] == w.db.staged[b] {
        assert TrueStagedRow(m, w.disk, b, w.db.staged[b]);
      }
    }
  }

  lemma BlobViewUpdate(w: World, w': World, k: Key, row: BlobRow)
    requires w'.db.blobs == w.db.blobs[k := row]
    requires SameData(w.disk, w'.disk, w.db.blobs.Keys - {k}, {})
    ensures BlobView(w') == BlobView(w)[k := ContentOf(w'.disk, k, row)]
  {
  }

  lemma BlobViewRestrict(w: World, w': World)
    requires w'.db.blobs.Keys <= w.db.blobs.Keys
    requires forall k | k in w'.db.blobs :: w'.db.blobs[k] == w.db.blobs[k]
    requires SameData(w.disk, w'.disk, w'.db.blobs.Keys, {})
    ensures BlobView(w') == map k | k in BlobView(w) && k in w'.db.blobs :: BlobView(w)[k]
  {
  }

  lemma StagedViewUpdate(w: World, w': World, b: BlockKey, row: StagedRow)
    requires w'.db.staged == w.db.staged[b := row]
    requires SameData(w.disk, w'.disk, {}, w.db.staged.Keys - {b})
    ensures StagedView(w') == StagedView(w)[b := DataOf(w'.disk, BlockFile(b))]
  {
  }

  lemma StagedViewRestrict(w: World, w': World)
    requires w'.db.staged.Keys <= w.db.staged.Keys
    requires SameData(w.disk, w'.disk, {}, w'.db.staged.Keys)
    ensures StagedView(w') == map b | b in StagedView(w) && b in w'.db.staged :: StagedView(w)[b]
  {
  }

  lemma SimulateSame(m: Md5, w: World, w': World)
    requires Faithful(m, w) && w'.db == w.db
    requires SameData(w.disk, w'.disk, w.db.blobs.Keys, w.db.staged.Keys)
    ensures Abstract(w') == Abstract(w) && Faithful(m, w')
  {
    FaithfulKept(m, w, w', w.db.blobs.Keys, w.db.staged.Keys);
    BlobViewRestrict(w, w');
    StagedViewRestrict(w, w');
  }

  lemma SimulatePutBlob(m: Md5, w: World, k: Key, row: BlobRow, w': World)
    requires Faithful(m, w) && w'.db == ApplyDb(w.db, UpsertBlob(k, row))
    requires SameData(w.disk, w'.disk, w.db.blobs.Keys - {k}, w.db.staged.Keys)
    requires TrueRow(m, w'.disk, k, row)
    ensures Abstract(w') == Abstract(w).(blobs := Abstract(w).blobs[k := ContentOf(w'.disk, k, row)])
    ensures Faithful(m, w')
  {
    FaithfulKept(m, w, w', w.db.blobs.Keys - {k}, w.db.staged.Keys);
    BlobViewUpdate(w, w', k, row);
    StagedViewRestrict(w, w');
  }

  lemma SimulatePutBlock(m: Md5, w: World, b: BlockKey, row: StagedRow, w': World)
    requires Faithful(m, w) && w'.db == ApplyDb(w.db, StageBlock(b, row))
    requires SameData(w.disk, w'.disk, w.db.blobs.Keys, w.db.staged.Keys - {b})
    requires TrueStagedRow(m, w'.disk, b, row)
    ensures Abstract(w') == Abstract(w).(staged := Abstract(w).staged[b := DataOf(w'.disk, BlockFile(b))])
    ensures Faithful(m, w')
  {
    FaithfulKept(m, w, w', w.db.blobs.Keys, w.db.staged.Keys - {b});
    BlobViewRestrict(w, w');
    StagedViewUpdate(w, w', b, row);
  }

  lemma FewerStaged(w: World, w': World, k: Key)
    requires w'.db.staged == w.db.WithoutStaged(k)
    requires SameData(w.disk, w'.disk, {}, OtherBlocks(w.db.staged.Keys, k))
    ensures StagedView(w') == map b | b in StagedView(w) && b.blob != k :: StagedView(w)[b]
  {
    assert w'.db.staged.Keys == OtherBlocks(w.db.staged.Keys, k);
    StagedViewRestrict(w, w');
  }

  lemma FewerBlobs(w: World, w': World, k: Key)
    requires w'.db.blobs == w.db.blobs - {k}
    requires SameData(w.disk, w'.disk, w.db.blobs.Keys - {k}, {})
    ensures BlobView(w') == BlobView(w) - {k}
  {
    BlobViewRestrict(w, w');
  }

  lemma SimulateCommit(m: Md5, w: World, k: Key, blocks: seq<Block>, row: BlobRow, w': World)
    requires Faithful(m, w) && w'.db == ApplyDb(w.db, CommitBlocks(k, blocks, row))
    requires SameData(w.disk, w'.disk, w.db.blobs.Keys - {k}, OtherBlocks(w.db.staged.Keys, k))
    requires TrueRow(m, w'.disk, k, row)
    ensures Abstract(w') == Abstract(w).(
              blobs := Abstract(w).blobs[k := ContentOf(w'.disk, k, row)],
              layout := Abstract(w).layout[k := blocks],
              staged := map b | b in Abstract(w).staged && b.blob != k :: Abstract(w).staged[b])
  {
    BlobViewUpdate(w, w', k, row);
    FewerStaged(w, w', k);
  }

  lemma FaithfulCommit(m: Md5, w: World, k: Key, blocks: seq<Block>, row: BlobRow, w': World)
    requires Faithful(m, w) && w'.db == ApplyDb(w.db, CommitBlocks(k, blocks, row))
    requires SameData(w.disk, w'.disk, w.db.blobs.Keys - {k}, OtherBlocks(w.db.staged.Keys, k))
    requires TrueRow(m, w'.disk, k, row)
    ensures Faithful(m, w')
  {
    FaithfulKept(m, w, w', w.db.blobs.Keys - {k}, OtherBlocks(w.db.staged.Keys, k));
  }

  lemma SimulateDeleteBlob(m: Md5, w: World, k: Key, w': World)
    requires k in w.db.blobs
    requires w'.db == w.db.(blobs := w.db.blobs - {k}, committed := w.db.committed - {k},
                            staged := w.db.WithoutStaged(k))
    requires SameData(w.disk, w'.disk, w.db.blobs.Keys - {k}, w.db.staged.Keys)
    ensures Abstract(w') == StoreStep(m, Abstract(w), DeleteBlob(k)).0
  {
    FewerBlobs(w, w', k);
    FewerStaged(w, w', k);
  }

  lemma FaithfulDelete(m: Md5, w: World, k: Key, w': World)
    requires Faithful(m, w)
    requires w'.db == w.db.(blobs := w.db.blobs - {k}, committed := w.db.committed - {k},
                            staged := w.db.WithoutStaged(k))
    requires SameData(w.disk, w'.disk, w.db.blobs.Keys - {k}, w.db.staged.Keys)
    ensures Faithful(m, w')
  {
    FaithfulKept(m, w, w', w.db.blobs.Keys - {k}, w.db.staged.Keys);
  }

  lemma UnlinkKeepsOthers(d: Disk, k: Key, ks: set<Key>, bs: set<BlockKey>)
    requires k !in ks
    ensures SameData(d, d.Unlink({BlobFile(k)}), ks, bs)
  {
  }

  lemma ContainerViews(w: World, a: string, c: string, w': World)
    requires w'.db == w.db.WithoutContainer(a, c)
    requires SameData(w.disk, w'.disk, w'.db.blobs.Keys, w'.db.staged.Keys)
    ensures BlobView(w') == map k | k in BlobView(w) && !k.In(a, c) :: BlobView(w)[k]
    ensures StagedView(w') == map b | b in StagedView(w) && !b.blob.In(a, c) :: StagedView(w)[b]
  {
    BlobViewRestrict(w, w');
    StagedViewRestrict(w, w');
  }

  lemma SimulateDeleteContainer(m: Md5, w: World, a: string, c: string, w': World)
    requires (a, c) in w.db.containers
    requires w'.db == w.db.WithoutContainer(a, c)
    requires SameData(w.disk, w'.disk, w'.db.blobs.Keys, w'.db.staged.Keys)
    ensures Abstract(w') == StoreStep(m, Abstract(w), DeleteContainer(a, c)).0
  {
    ContainerViews(w, a, c, w');
  }

  lemma KeepAcrossCommit(m: Md5, w: World, op: Op, h: History)
    requires op.PutBlockList? && Intact(w, h) && PlanOf(m, w, op).reply.Ok?
    ensures SameData(w.disk, Finish(m, w, op).disk, w.db.blobs.Keys - {op.key},
                     OtherBlocks(w.db.staged.Keys, op.key))
  {
    PutBlockListEffect(m, w, op, h);
    KeepData(w.disk, Finish(m, w, op).disk, h, w.db.blobs.Keys - {op.key},
             OtherBlocks(w.db.staged.Keys, op.key));
  }

  lemma CommitReplies(m: Md5, w: World, op: Op, h: History)
    requires op.PutBlockList? && Intact(w, h) && StagedSizes(w, op.key)
    requires (op.key.account, op.key.container) in w.db.containers
    requires Abstract(w).AllUsable(op.key, op.refs)
    ensures ResolveAll(w.db, op.key, op.refs).Some? && AllStaged(ResolveAll(w.db, op.key, op.refs).value)
    ensures var s := Abstract(w);
            var rs := ResolveAll(w.db, op.key, op.refs).value;
            && (forall f | f in PathsOf(rs) :: w.disk.Holds(f))
            && PartsData(w.disk, PathsOf(rs)) == s.Joined(op.key, op.refs)
            && BlocksOf(rs) == s.NewLayout(op.key, op.refs)
            && PlanOf(m, w, op).reply
               == Ok(BlobReply(NewRow(m, op.key, s.Joined(op.key, op.refs), op.headers)))
  {
    BlockListValidation(w, op.key, op.refs);
    var rs := ResolveAll(w.db, op.key, op.refs).value;
    AssemblyCompletes(w, h, op.key, op.refs, op.schedule);
    ResolvedPaths(w, h, op.key, op.refs);
    JoinedIsParts(w, op.key, op.refs, PathsOf(rs));
    LayoutIsBlocks(w, op.key, op.refs);
  }

  lemma CommitIsStoreStep(m: Md5, w: World, op: Op, data: Bytes, blocks: seq<Block>, row: BlobRow, w': World)
    requires op.PutBlockList? && Faithful(m, w) && Abstract(w).Has(op.key)
    requires Abstract(w).AllUsable(op.key, op.refs)
    requires data == Abstract(w).Joined(op.key, op.refs) && blocks == Abstract(w).NewLayout(op.key, op.refs)
    requires row == NewRow(m, op.key, data, op.headers)
    requires ContentOf(w'.disk, op.key, row) == Content(data, op.headers)
    requires w'.db == ApplyDb(w.db, CommitBlocks(op.key, blocks, row))
    requires SameData(w.disk, w'.disk, w.db.blobs.Keys - {op.key}, OtherBlocks(w.db.staged.Keys, op.key))
    ensures Simulates(m, w, op, w', Ok(BlobReply(row)))
  {
    SimulateCommit(m, w, op.key, blocks, row, w');
    FaithfulCommit(m, w, op.key, blocks, row, w');
  }

  lemma SimulateCommitting(m: Md5, w: World, op: Op, h: History)
    requires op.PutBlockList? && Intact(w, h) && Faithful(m, w)
    requires (op.key.account, op.key.container) in w.db.containers
    requires Abstract(w).AllUsable(op.key, op.refs)
    ensures Simulates(m, w, op, Finish(m, w, op), PlanOf(m, w, op).reply)
  {
    var data := Abstract(w).Joined(op.key, op.refs);
    FaithfulSizes(m, w, op.key);
    CommitReplies(m, w, op, h);
    PutBlockListEffect(m, w, op, h);
    KeepAcrossCommit(m, w, op, h);
    CommitIsStoreStep(m, w, op, data, Abstract(w).NewLayout(op.key, op.refs), NewRow(m, op.key, data, op.headers),
                      Finish(m, w, op));
  }

  lemma SimulatePutBlockList(m: Md5, w: World, op: Op, h: History)
    requires op.PutBlockList? && Intact(w, h) && Faithful(m, w)
    ensures Simulates(m, w, op, Finish(m, w, op), PlanOf(m, w, op).reply)
  {
    if (op.key.account, op.key.container) in w.db.containers {
      PutBlockListAllOrNothing(m, w, op, h);
      if Abstract(w).AllUsable(op.key, op.refs) {
        SimulateCommitting(m, w, op, h);
      }
    }
  }

  lemma PublishKeepsRest(w: World, a: string, dest: FileName, data: Bytes, w': World, ks: set<Key>, bs: set<BlockKey>,
                         h: History)
    requires Intact(w, h) && Published(w, a, dest, data, World(w.db, w'.disk))
    requires (forall k | k in ks :: BlobFile(k) != dest) && (forall b | b in bs :: BlockFile(b) != dest)
    ensures SameData(w.disk, w'.disk, ks, bs)
  {
    KeepData(w.disk, w'.disk, h, ks, bs);
  }

  lemma BlobIsPut(m: Md5, w: World, op: Op, row: BlobRow, w': World)
    requires op.PutBlob? && Faithful(m, w) && PlanOf(m, w, op).reply == Ok(BlobReply(row))
    requires row == NewRow(m, op.key, op.body.Data(), op.headers)
    requires w'.db == ApplyDb(w.db, UpsertBlob(op.key, row))
    requires SameData(w.disk, w'.disk, w.db.blobs.Keys - {op.key}, w.db.staged.Keys)
    requires ContentOf(w'.disk, op.key, row) == Content(op.body.Data(), op.headers)
    ensures Simulates(m, w, op, w', Ok(BlobReply(row)))
  {
    SimulatePutBlob(m, w, op.key, row, w');
  }

  lemma BlockIsPut(m: Md5, w: World, op: Op, row: StagedRow, w': World)
    requires op.PutBlock? && Faithful(m, w) && PlanOf(m, w, op).reply == Ok(BlockReply(row.md5))
    requires row == StagedRowFor(m, op.block, op.body.Data())
    requires w'.db == ApplyDb(w.db, StageBlock(op.block, row))
    requires SameData(w.disk, w'.disk, w.db.blobs.Keys, w.db.staged.Keys - {op.block})
    requires DataOf(w'.disk, BlockFile(op.block)) == op.body.Data()
    ensures Simulates(m, w, op, w', Ok(BlockReply(row.md5)))
  {
    SimulatePutBlock(m, w, op.block, row, w');
  }

  lemma SimulateWrite(m: Md5, w: World, op: Op, h: History)
    requires (op.PutBlob? || op.PutBlock?) && Intact(w, h) && Faithful(m, w)
    requires PlanOf(m, w, op).reply.Ok?
    ensures Simulates(m, w, op, Finish(m, w, op), PlanOf(m, w, op).reply)
  {
    var w' := Finish(m, w, op);
    if op.PutBlob? {
      PutBlobEffect(m, w, op);
      PublishKeepsRest(w, op.key.account, BlobFile(op.key), op.body.Data(), w',
                       w.db.blobs.Keys - {op.key}, w.db.staged.Keys, h);
      BlobIsPut(m, w, op, NewRow(m, op.key, op.body.Data(), op.headers), w');
    } else {
      PutBlockEffect(m, w, op);
      PublishKeepsRest(w, op.block.blob.account, BlockFile(op.block), op.body.Data(), w',
                       w.db.blobs.Keys, w.db.staged.Keys - {op.block}, h);
      BlockIsPut(m, w, op, StagedRowFor(m, op.block, op.body.Data()), w');
    }
  }

  lemma SimulateLosing(m: Md5, w: World, k: Key, w': World)
    requires Faithful(m, w) && k in w.db.blobs && w'.db == w.db && !w'.disk.Holds(BlobFile(k))
    requires SameData(w.disk, w'.disk, w.db.blobs.Keys - {k}, w.db.staged.Keys)
    ensures Abstract(w') == Abstract(w).Lose(k) && Faithful(m, w')
  {
    assert w.db.blobs == w.db.blobs[k := w.db.blobs[k]];
    FaithfulKept(m, w, w', w.db.blobs.Keys - {k}, w.db.staged.Keys);
    BlobViewUpdate(w, w', k, w.db.blobs[k]);
    StagedViewRestrict(w, w');
    assert TrueRow(m, w.disk, k, w.db.blobs[k]);
    assert BlobView(w) == BlobView(w)[k := BlobView(w)[k]];
  }

  lemma SimulateMismatch(m: Md5, w: World, op: Op, h: History)
    requires Intact(w, h) && Faithful(m, w) && PlanOf(m, w, op).reply == Err(Md5Mismatch)
    ensures Simulates(m, w, op, Finish(m, w, op), PlanOf(m, w, op).reply)
  {
    var w' := Finish(m, w, op);
    PutBlobMismatchEffect(m, w, op);
    KeepData(w.disk, w'.disk, h, w.db.blobs.Keys - {op.key}, w.db.staged.Keys);
    if op.key in w.db.blobs {
      SimulateLosing(m, w, op.key, w');
    } else {
      assert w.db.blobs.Keys - {op.key} == w.db.blobs.Keys;
      SimulateSame(m, w, w');
    }
  }

  lemma SimulateRefusal(m: Md5, w: World, op: Op, h: History)
    requires !op.PutBlockList? && Intact(w, h) && Faithful(m, w)
    requires PlanOf(m, w, op).reply.Err?
    ensures Simulates(m, w, op, Finish(m, w, op), PlanOf(m, w, op).reply)
  {
    if PlanOf(m, w, op).reply == Err(Md5Mismatch) {
      SimulateMismatch(m, w, op, h);
    } else {
      FailureEffect(m, w, op, h);
      KeepData(w.disk, Finish(m, w, op).disk, h, w.db.blobs.Keys, w.db.staged.Keys);
      SimulateSame(m, w, Finish(m, w, op));
    }
  }

  lemma SimulateDeletingBlob(m: Md5, w: World, op: Op, h: History)
    requires op.DeleteBlob? && op.key in w.db.blobs && Intact(w, h) && Faithful(m, w)
    ensures Simulates(m, w, op, Finish(m, w, op), PlanOf(m, w, op).reply)
  {
    var w' := Finish(m, w, op);
    DeleteBlobEffect(m, w, op);
    UnlinkKeepsOthers(w.disk, op.key, w.db.blobs.Keys - {op.key}, w.db.staged.Keys);
    SimulateDeleteBlob(m, w, op.key, w');
    FaithfulDelete(m, w, op.key, w');
  }

  lemma DeletionKeepsRest(w: World, a: string, c: string, w': World, h: History)
    requires Intact(w, h) && w'.db == w.db.WithoutContainer(a, c)
    requires SameFiles(w.disk, w'.disk, WholeContainer(a, c))
    ensures SameData(w.disk, w'.disk, w'.db.blobs.Keys, w'.db.staged.Keys)
  {
    KeepData(w.disk, w'.disk, h, w'.db.blobs.Keys, w'.db.staged.Keys);
  }

  lemma DeletionIsStoreStep(m: Md5, w: World, a: string, c: string, w': World)
    requires Faithful(m, w) && (a, c) in w.db.containers
    requires w'.db == w.db.WithoutContainer(a, c)
    requires SameData(w.disk, w'.disk, w'.db.blobs.Keys, w'.db.staged.Keys)
    ensures Simulates(m, w, DeleteContainer(a, c), w', Ok(Done))
  {
    SimulateDeleteContainer(m, w, a, c, w');
    FaithfulKept(m, w, w', w'.db.blobs.Keys, w'.db.staged.Keys);
  }

  lemma SimulateDeletingContainer(m: Md5, w: World, op: Op, h: History)
    requires op.DeleteContainer? && (op.account, op.container) in w.db.containers
    requires Intact(w, h) && Faithful(m, w)
    ensures Simulates(m, w, op, Finish(m, w, op), PlanOf(m, w, op).reply)
  {
    var w' := Finish(m, w, op);
    DeleteContainerEffect(m, w, op);
    WholeFrame(m, w, op, h);
    DeletionKeepsRest(w, op.account, op.container, w', h);
    DeletionIsStoreStep(m, w, op.account, op.container, w');
  }

  /** One operation of the server is one step of the simple store, with the same
      reply. */
  lemma OperationRefines(m: Md5, w: World, op: Op, h: History)
    requires Intact(w, h) && Faithful(m, w)
    ensures (Abstract(Finish(m, w, op)), PlanOf(m, w, op).reply) == StoreStep(m, Abstract(w), op)
    ensures Faithful(m, Finish(m, w, op))
  {
    if op.PutBlockList? {
      SimulatePutBlockList(m, w, op, h);
    } else if PlanOf(m, w, op).reply.Err? {
      SimulateRefusal(m, w, op, h);
    } else {
      match op
      case CreateContainer(a, c) => RunOne(w, InsertContainer(a, c));
      case DeleteBlob(_) => SimulateDeletingBlob(m, w, op, h);
      case DeleteContainer(_, _) => SimulateDeletingContainer(m, w, op, h);
      case _ => SimulateWrite(m, w, op, h);
    }
  }

  // ------------------------------------------------------------ whole runs

  function RunOps(m: Md5, w: World, ops: seq<Op>): (World, seq<Result<Reply>>)
    decreases |ops|
  {
    if ops == [] then (w, [])
    else
      var (w', replies) := RunOps(m, Finish(m, w, ops[0]), ops[1..]);
      (w', [PlanOf(m, w, ops[0]).reply] + replies)
  }

  function StoreRun(m: Md5, s: Store, ops: seq<Op>): (Store, seq<Result<Reply>>)
    decreases |ops|
  {
    if ops == [] then (s, [])
    else
      var (s1, reply) := StoreStep(m, s, ops[0]);
      var (s', replies) := StoreRun(m, s1, ops[1..]);
      (s', [reply] + replies)
  }

  /** The invariant of a server between operations, with some history. */
  ghost predicate Sound(m: Md5, w: World) {
    Settled(w) && Faithful(m, w) && exists h :: Intact(w, h)
  }

  lemma SoundAfter(m: Md5, w: World, op: Op)
    requires Sound(m, w)
    ensures Sound(m, Finish(m, w, op))
    ensures (Abstract(Finish(m, w, op)), PlanOf(m, w, op).reply) == StoreStep(m, Abstract(w), op)
  {
    var h :| Intact(w, h);
    OperationRefines(m, w, op, h);
    SettledAfter(m, w, op, h);
    var h' := h + Intended(w, op);
    MoreHistory(w, h, h');
    PlanIsSafe(m, w, op, h');
    var steps := PlanOf(m, w, op).steps;
    SafeRun(w, steps, |steps|, h');
    assert steps[..|steps|] == steps;
  }

  /** Every row lies in an existing container, only existing blobs have a committed
      list, and every staged row's file is there with the recorded size and digest. */
  ghost predicate Referential(m: Md5, w: World) {
    && RowsInContainers(w.db)
    && w.db.committed.Keys <= w.db.blobs.Keys
    && forall b | b in w.db.staged ::
         && w.disk.Holds(w.db.staged[b].path)
         && w.db.staged[b] == StagedRowFor(m, b, w.disk.Data(w.db.staged[b].path))
  }

  lemma SoundIsReferential(m: Md5, w: World)
    requires Sound(m, w)
    ensures Referential(m, w)
  {
    var h :| Intact(w, h);
    forall b | b in w.db.staged
      ensures w.disk.Holds(w.db.staged[b].path)
      ensures w.db.staged[b] == StagedRowFor(m, b, w.disk.Data(w.db.staged[b].path))
    {
      StagedFileHolds(w, h, b);
      assert TrueStagedRow(m, w.disk, b, w.db.staged[b]);
    }
  }

  lemma EmptyIsSound(m: Md5, accounts: set<string>)
    ensures Sound(m, Empty(accounts))
  {
    assert Intact(Empty(accounts), {});
  }

  /** Refinement: a whole serial run of the server, from any sound world, is a run
      of the simple store with the same replies. */
  lemma {:induction false} RunRefines(m: Md5, w: World, ops: seq<Op>)
    requires Sound(m, w)
    ensures Sound(m, RunOps(m, w, ops).0)
    ensures Abstract(RunOps(m, w, ops).0) == StoreRun(m, Abstract(w), ops).0
    ensures RunOps(m, w, ops).1 == StoreRun(m, Abstract(w), ops).1
    decreases |ops|
  {
    if ops == [] {
    } else {
      SoundAfter(m, w, ops[0]);
      RunRefines(m, Finish(m, w, ops[0]), ops[1..]);
    }
  }

  /** Referential integrity in every serial run of a new server. */
  lemma RunIsReferential(m: Md5, accounts: set<string>, ops: seq<Op>)
    ensures Referential(m, RunOps(m, Empty(accounts), ops).0)
  {
    EmptyIsSound(m, accounts);
    RunRefines(m, Empty(accounts), ops);
    SoundIsReferential(m, RunOps(m, Empty(accounts), ops).0);
  }
}
