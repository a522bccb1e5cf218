/** Reading a blob: range resolution and the bytes that are delivered, in step with
    the simple store; and where each block of a committed list lies in its blob. */
module BlobRead {
  import opened Types
  import opened World
  import opened Plans
  import opened Integrity
  import opened SafePlans
  import opened Effects
  import opened Refinement

  datatype ByteRange = ByteRange(start: nat, end: nat)

  datatype Payload = Payload(row: BlobRow, totalLen: nat, range: Option<ByteRange>, body: Bytes)

  /** A requested range, inclusive at both ends, against a row's length. */
  function ResolveRange(total: nat, range: Option<(nat, nat)>): (r: Result<Option<ByteRange>>)
    ensures r.Ok? && r.value.Some? ==> r.value.value.start <= r.value.value.end < total
  {
    match range
    case None => Ok(None)
    case Some((start, requested)) =>
      var end := Min(requested, if total == 0 then 0 else total - 1);
      if start > end || start >= total then Err(InvalidRange)
      else Ok(Some(ByteRange(start, end)))
  }

  /** Seek to `start` and read at most `len` bytes. */
  function ReadAt(data: Bytes, start: nat, len: nat): (got: Bytes)
    ensures |got| <= len
  {
    data[Min(start, |data|)..Min(start + len, |data|)]
  }

  function StartOf(range: Option<ByteRange>): nat {
    if range.Some? then range.value.start else 0
  }

  function TakeLen(total: nat, range: Option<ByteRange>): nat
    requires range.Some? ==> range.value.start <= range.value.end
  {
    if range.Some? then range.value.end - range.value.start + 1 else total
  }

  function GetBlob(w: World, k: Key, range: Option<(nat, nat)>): Result<Payload> {
    if k !in w.db.blobs then Err(BlobNotFound)
    else
      var row := w.db.blobs[k];
      var resolved := ResolveRange(row.length, range);
      if resolved.Err? then Err(resolved.error)
      else if !w.disk.Holds(row.path) then Err(InternalError)
      else
        var r := resolved.value;
        Ok(Payload(row, row.length, r,
                   ReadAt(w.disk.Data(row.path), StartOf(r), TakeLen(row.length, r))))
  }

  /** A range is refused exactly when it starts behind the end of the blob or ends
      before it starts; otherwise it is cut at the end of the blob. */
  lemma RangeRefusedExactly(total: nat, start: nat, end: nat)
    ensures ResolveRange(total, Some((start, end))) == Err(InvalidRange) <==> start >= total || start > end
    ensures start < total && start <= end ==>
              ResolveRange(total, Some((start, end))) == Ok(Some(ByteRange(start, Min(end, total - 1))))
  {
  }

  /** What a GET means to a client of the simple store. */
  function StoreGet(s: Store, k: Key, range: Option<(nat, nat)>): Result<Bytes> {
    if k !in s.blobs then Err(BlobNotFound)
    else
      match s.blobs[k]
      case Gone(length, _) => Err(if BadRange(length, range) then InvalidRange else InternalError)
      case Content(data, _) =>
        if BadRange(|data|, range) then Err(InvalidRange)
        else if range.None? then Ok(data)
        else Ok(data[range.value.0..Min(range.value.1 + 1, |data|)])
  }

  predicate BadRange(total: nat, range: Option<(nat, nat)>) {
    range.Some? && (range.value.0 >= total || range.value.0 > range.value.1)
  }

  lemma RangeReadsSlice(data: Bytes, range: Option<(nat, nat)>)
    ensures match ResolveRange(|data|, range)
            case Err(e) => e == InvalidRange && range.Some?
                           && (range.value.0 >= |data| || range.value.0 > range.value.1)
            case Ok(r) =>
              var body := ReadAt(data, StartOf(r), TakeLen(|data|, r));
              && |body| == TakeLen(|data|, r)
              && (range.None? ==> body == data)
              && (range.Some? ==>
                    && range.value.0 < |data| && range.value.0 <= range.value.1
                    && body == data[range.value.0..Min(range.value.1 + 1, |data|)])
  {
  }

  lemma SoundRow(m: Md5, w: World, k: Key)
    requires Sound(m, w) && k in w.db.blobs && k !in Missing(w)
    requires |DataOf(w.disk, BlobFile(k))| <= U64_MAX
    ensures w.db.blobs[k].path == BlobFile(k) && w.disk.Holds(BlobFile(k))
    ensures w.db.blobs[k].length == |DataOf(w.disk, BlobFile(k))|
    ensures w.db.blobs[k] == NewRow(m, k, DataOf(w.disk, BlobFile(k)), w.db.blobs[k].headers)
  {
    var h :| Intact(w, h);
    BlobFileHolds(w, h, k);
    assert TrueRow(m, w.disk, k, w.db.blobs[k]);
    U64Small(|DataOf(w.disk, BlobFile(k))|);
  }

  /** The blob's row names its file and records the file's length. */
  predicate RecordsFile(w: World, k: Key) {
    && k in w.db.blobs && w.db.blobs[k].path == BlobFile(k) && w.disk.Holds(BlobFile(k))
    && w.db.blobs[k].length == |w.disk.Data(BlobFile(k))|
  }

  ghost predicate Delivers(m: Md5, w: World, k: Key, p: Payload, bytes: Bytes)
    requires k in w.db.blobs && Abstract(w).blobs[k].Content?
  {
    var content := Abstract(w).blobs[k];
    && p.body == bytes
    && p.row == NewRow(m, k, content.data, content.headers)
    && p.totalLen == |content.data|
    && (p.range.Some? ==> p.range.value.start <= p.range.value.end)
    && |p.body| == TakeLen(p.totalLen, p.range)
  }

  lemma GetFromTrueRow(w: World, k: Key, range: Option<(nat, nat)>)
    requires k in w.db.blobs && w.db.blobs[k].path == BlobFile(k) && w.disk.Holds(BlobFile(k))
    requires w.db.blobs[k].length == |DataOf(w.disk, BlobFile(k))|
    ensures var data := DataOf(w.disk, BlobFile(k));
            match ResolveRange(|data|, range)
            case Err(e) => GetBlob(w, k, range) == Err(e)
            case Ok(r) =>
              GetBlob(w, k, range)
              == Ok(Payload(w.db.blobs[k], |data|, r, ReadAt(data, StartOf(r), TakeLen(|data|, r))))
  {
  }

  lemma GetFromData(w: World, k: Key, range: Option<(nat, nat)>, data: Bytes)
    requires k in w.db.blobs && w.db.blobs[k].path == BlobFile(k) && w.disk.Holds(BlobFile(k))
    requires DataOf(w.disk, BlobFile(k)) == data && w.db.blobs[k].length == |data|
    ensures match range
            case None => GetBlob(w, k, range) == Ok(Payload(w.db.blobs[k], |data|, None, data))
            case Some((start, end)) =>
              if start >= |data| || start > end then GetBlob(w, k, range) == Err(InvalidRange)
              else GetBlob(w, k, range)
                   == Ok(Payload(w.db.blobs[k], |data|, Some(ByteRange(start, Min(end, |data| - 1))),
                                 data[start..Min(end + 1, |data|)]))
  {
    GetFromTrueRow(w, k, range);
    RangeReadsSlice(data, range);
  }

  lemma GetMatches(m: Md5, w: World, k: Key, range: Option<(nat, nat)>, data: Bytes)
    requires k in w.db.blobs && w.db.blobs[k].path == BlobFile(k) && w.disk.Holds(BlobFile(k))
    requires DataOf(w.disk, BlobFile(k)) == data && w.db.blobs[k].length == |data|
    requires w.db.blobs[k] == NewRow(m, k, data, w.db.blobs[k].headers)
    ensures ReadsAsStored(m, w, k, range)
  {
    GetFromData(w, k, range, data);
    assert Abstract(w).blobs[k] == Content(data, w.db.blobs[k].headers);
  }

  lemma GetOfMissing(w: World, k: Key, range: Option<(nat, nat)>)
    requires k in w.db.blobs && w.db.blobs[k].path == BlobFile(k) && !w.disk.Holds(BlobFile(k))
    ensures GetBlob(w, k, range) == Err(if BadRange(w.db.blobs[k].length, range) then InvalidRange else InternalError)
  {
  }

  /** The GET fails as the simple store does, or delivers what that holds. */
  ghost predicate ReadsAsStored(m: Md5, w: World, k: Key, range: Option<(nat, nat)>) {
    match StoreGet(Abstract(w), k, range)
    case Err(e) => GetBlob(w, k, range) == Err(e)
    case Ok(bytes) => GetBlob(w, k, range).Ok? && Delivers(m, w, k, GetBlob(w, k, range).value, bytes)
  }

  /** A GET of a blob whose row tells the truth about its file delivers what the simple
      store holds, and announces exactly as many bytes as it delivers; a lost blob
      cannot be read. Nothing is asked of other blobs. */
  lemma GetRefines(m: Md5, w: World, k: Key, range: Option<(nat, nat)>)
    requires k in w.db.blobs ==>
               && w.db.blobs[k].path == BlobFile(k) && TrueRow(m, w.disk, k, w.db.blobs[k])
               && |DataOf(w.disk, BlobFile(k))| <= U64_MAX
    ensures ReadsAsStored(m, w, k, range)
  {
    if k in w.db.blobs {
      if w.disk.Holds(BlobFile(k)) {
        U64Small(|DataOf(w.disk, BlobFile(k))|);
        GetMatches(m, w, k, range, DataOf(w.disk, BlobFile(k)));
      } else {
        GetOfMissing(w, k, range);
      }
    }
  }

  // ------------------------------------------------------------ block layout

  function SizeSum(blocks: seq<Block>): nat {
    if blocks == [] then 0 else SizeSum(blocks[..|blocks| - 1]) + blocks[|blocks| - 1].size
  }

  lemma {:induction false} JoinedAt(s: Store, k: Key, refs: seq<BlockRef>, n: nat)
    requires s.AllUsable(k, refs) && n <= |refs|
    ensures s.AllUsable(k, refs[..n]) && s.AllUsable(k, refs[n..])
    ensures s.Joined(k, refs) == s.Joined(k, refs[..n]) + s.Joined(k, refs[n..])
    decreases n
  {
    assert forall i | 0 <= i < |refs| :: s.Usable(k, refs[i]);
    if n == 0 {
      assert refs[0..] == refs;
    } else {
      assert s.AllUsable(k, refs[1..]);
      JoinedAt(s, k, refs[1..], n - 1);
      assert refs[..n][1..] == refs[1..][..n - 1];
      assert refs[1..][n - 1..] == refs[n..];
    }
  }

  /** Where a block is asked for as a committed one, its committed size is still
      the size of the bytes that are staged under its id now. */
  predicate SizesMatch(s: Store, k: Key, refs: seq<BlockRef>)
    requires s.AllUsable(k, refs)
  {
    forall i | 0 <= i < |refs| && refs[i].kind == Committed ::
      s.Usable(k, refs[i]) &&
      s.Layout(k)[LastIndex(s.Layout(k), refs[i].id)].size == |s.staged[BlockKey(k, refs[i].id)]|
  }

  /** Each recorded size is the block's, and the block lies at the end of the bytes
      joined before it. */
  lemma BlockAt(s: Store, k: Key, refs: seq<BlockRef>, n: nat)
    requires s.AllUsable(k, refs) && SizesMatch(s, k, refs) && n < |refs|
    requires |s.Joined(k, refs)| <= U64_MAX
    ensures s.AllUsable(k, refs[..n])
    ensures var head, block := s.Joined(k, refs[..n]), s.staged[BlockKey(k, refs[n].id)];
            && s.NewLayout(k, refs)[n].size == |block|
            && |head| + |block| <= |s.Joined(k, refs)|
            && s.Joined(k, refs)[|head|..|head| + |block|] == block
  {
    JoinedAt(s, k, refs, n);
    assert s.Usable(k, refs[n]);
    var head, block := s.Joined(k, refs[..n]), s.staged[BlockKey(k, refs[n].id)];
    var rest := s.Joined(k, refs[n..][1..]);
    assert s.Joined(k, refs[n..]) == block + rest;
    assert s.Joined(k, refs) == head + block + rest;
    U64Small(|block|);
  }

  lemma {:induction false} SizesSumUp(s: Store, k: Key, refs: seq<BlockRef>, n: nat)
    requires s.AllUsable(k, refs) && SizesMatch(s, k, refs) && n <= |refs|
    requires |s.Joined(k, refs)| <= U64_MAX
    ensures s.AllUsable(k, refs[..n])
    ensures SizeSum(s.NewLayout(k, refs)[..n]) == |s.Joined(k, refs[..n])|
    decreases n
  {
    if n == 0 {
    } else {
      SizesSumUp(s, k, refs, n - 1);
      BlockAt(s, k, refs, n - 1);
      SizeSumSnoc(s.NewLayout(k, refs), n - 1);
      JoinedSnoc(s, k, refs, n - 1);
    }
  }

  lemma SizeSumSnoc(blocks: seq<Block>, n: nat)
    requires n < |blocks|
    ensures SizeSum(blocks[..n + 1]) == SizeSum(blocks[..n]) + blocks[n].size
  {
    assert blocks[..n + 1][..n] == blocks[..n];
  }

  lemma JoinedSnoc(s: Store, k: Key, refs: seq<BlockRef>, n: nat)
    requires s.AllUsable(k, refs) && n < |refs|
    ensures s.AllUsable(k, refs[..n]) && s.AllUsable(k, refs[..n + 1])
    ensures s.Joined(k, refs[..n + 1]) == s.Joined(k, refs[..n]) + s.staged[BlockKey(k, refs[n].id)]
  {
    assert forall i | 0 <= i < |refs| :: s.Usable(k, refs[i]);
    JoinedAt(s, k, refs[..n + 1], n);
    assert refs[..n + 1][..n] == refs[..n] && refs[..n + 1][n..] == [refs[n]];
    assert s.Joined(k, [refs[n]]) == s.staged[BlockKey(k, refs[n].id)] + s.Joined(k, [refs[n]][1..]);
  }

  lemma CommitInPlace(m: Md5, w: World, op: Op, h: History)
    requires op.PutBlockList? && Intact(w, h) && StagedSizes(w, op.key)
    requires Abstract(w).Has(op.key) && Abstract(w).AllUsable(op.key, op.refs)
    ensures var (w', data) := (Finish(m, w, op), Abstract(w).Joined(op.key, op.refs));
            && op.key in w'.db.blobs && w'.db.blobs[op.key] == NewRow(m, op.key, data, op.headers)
            && w'.disk.Holds(BlobFile(op.key)) && w'.disk.Data(BlobFile(op.key)) == data
            && w'.db.CommittedBlocks(op.key) == Abstract(w).NewLayout(op.key, op.refs)
  {
    CommitReplies(m, w, op, h);
    PutBlockListEffect(m, w, op, h);
  }

  lemma GetPlace(w: World, k: Key, start: nat, len: nat)
    requires k in w.db.blobs && w.db.blobs[k].path == BlobFile(k) && w.disk.Holds(BlobFile(k))
    requires w.db.blobs[k].length == |DataOf(w.disk, BlobFile(k))|
    requires 0 < len && start + len <= |DataOf(w.disk, BlobFile(k))|
    ensures GetBlob(w, k, Some((start, start + len - 1))).Ok?
    ensures GetBlob(w, k, Some((start, start + len - 1))).value.body
         == DataOf(w.disk, BlobFile(k))[start..start + len]
  {
    GetFromTrueRow(w, k, Some((start, start + len - 1)));
  }

  /** The recorded sizes sum up to the content length, and a range GET over the
      i-th block's place returns the bytes staged under its id. */
  ghost predicate LaidOut(w: World, k: Key, i: nat, block: Bytes) {
    var blocks := w.db.CommittedBlocks(k);
    && k in w.db.blobs
    && SizeSum(blocks) == w.db.blobs[k].length
    && i < |blocks| && blocks[i].size == |block|
    && (|block| > 0 ==>
          var start := SizeSum(blocks[..i]);
          var got := GetBlob(w, k, Some((start, start + |block| - 1)));
          got.Ok? && got.value.body == block)
  }

  lemma WholeLayout(s: Store, k: Key, refs: seq<BlockRef>)
    requires s.AllUsable(k, refs) && SizesMatch(s, k, refs) && |s.Joined(k, refs)| <= U64_MAX
    ensures SizeSum(s.NewLayout(k, refs)) == |s.Joined(k, refs)|
  {
    SizesSumUp(s, k, refs, |refs|);
    assert refs[..|refs|] == refs;
    assert s.NewLayout(k, refs)[..|refs|] == s.NewLayout(k, refs);
  }

  lemma PlaceOfBlock(s: Store, k: Key, refs: seq<BlockRef>, i: nat)
    requires s.AllUsable(k, refs) && SizesMatch(s, k, refs) && |s.Joined(k, refs)| <= U64_MAX && i < |refs|
    ensures s.Usable(k, refs[i])
    ensures var start, block := SizeSum(s.NewLayout(k, refs)[..i]), s.staged[BlockKey(k, refs[i].id)];
            && s.NewLayout(k, refs)[i].size == |block|
            && start + |block| <= |s.Joined(k, refs)|
            && s.Joined(k, refs)[start..start + |block|] == block
  {
    SizesSumUp(s, k, refs, i);
    BlockAt(s, k, refs, i);
  }

  lemma JoinedIsLaidOut(w: World, k: Key, s: Store, refs: seq<BlockRef>, i: nat)
    requires k in w.db.blobs && w.db.blobs[k].path == BlobFile(k) && w.disk.Holds(BlobFile(k))
    requires w.db.blobs[k].length == |DataOf(w.disk, BlobFile(k))| <= U64_MAX
    requires s.AllUsable(k, refs) && SizesMatch(s, k, refs) && i < |refs|
    requires w.db.CommittedBlocks(k) == s.NewLayout(k, refs)
    requires DataOf(w.disk, BlobFile(k)) == s.Joined(k, refs)
    ensures s.Usable(k, refs[i])
    ensures LaidOut(w, k, i, s.staged[BlockKey(k, refs[i].id)])
  {
    WholeLayout(s, k, refs);
    PlaceOfBlock(s, k, refs, i);
    var blocks := s.NewLayout(k, refs);
    LaidOutAt(w, k, i, s.staged[BlockKey(k, refs[i].id)], blocks, SizeSum(blocks[..i]), s.Joined(k, refs));
  }

  lemma LaidOutAt(w: World, k: Key, i: nat, block: Bytes, blocks: seq<Block>, start: nat, data: Bytes)
    requires k in w.db.blobs && w.db.blobs[k].path == BlobFile(k) && w.disk.Holds(BlobFile(k))
    requires DataOf(w.disk, BlobFile(k)) == data && w.db.blobs[k].length == |data|
    requires w.db.CommittedBlocks(k) == blocks && SizeSum(blocks) == |data|
    requires i < |blocks| && blocks[i].size == |block| && start == SizeSum(blocks[..i])
    requires start + |block| <= |data| && data[start..start + |block|] == block
    ensures LaidOut(w, k, i, block)
  {
    if |block| > 0 {
      GetPlace(w, k, start, |block|);
    }
  }

  /** Block layout: from a state where each staged row of the blob records its file's
      size, after committing a list whose committed references are not stale (in
      particular one without any) the recorded sizes sum up to the content length,
      and a range GET over block i's place returns the bytes staged under its id,
      however often an id is listed. */
  lemma BlockLayout(m: Md5, w: World, op: Op, i: nat, h: History)
    requires op.PutBlockList? && Intact(w, h) && StagedSizes(w, op.key) && i < |op.refs|
    requires Abstract(w).Has(op.key) && Abstract(w).AllUsable(op.key, op.refs)
    requires SizesMatch(Abstract(w), op.key, op.refs)
    requires |Abstract(w).Joined(op.key, op.refs)| <= U64_MAX
    ensures BlockKey(op.key, op.refs[i].id) in w.db.staged
    ensures |Finish(m, w, op).db.CommittedBlocks(op.key)| == |op.refs|
    ensures LaidOut(Finish(m, w, op), op.key, i,
                    DataOf(w.disk, BlockFile(BlockKey(op.key, op.refs[i].id))))
  {
    CommitInPlace(m, w, op, h);
    assert Abstract(w).Usable(op.key, op.refs[i]);
    U64Small(|Abstract(w).Joined(op.key, op.refs)|);
    JoinedIsLaidOut(Finish(m, w, op), op.key, Abstract(w), op.refs, i);
  }

  /** The committed list tells the truth about every block exactly when no
      committed reference is stale. */
  lemma LayoutTrueExactly(s: Store, k: Key, refs: seq<BlockRef>)
    requires s.AllUsable(k, refs) && |s.Joined(k, refs)| <= U64_MAX
    ensures (forall i | 0 <= i < |refs| ::
               s.NewLayout(k, refs)[i].size == |s.staged[BlockKey(k, refs[i].id)]|)
       <==> SizesMatch(s, k, refs)
  {
    forall i | 0 <= i < |refs|
      ensures s.Usable(k, refs[i]) && |s.staged[BlockKey(k, refs[i].id)]| <= U64_MAX
      ensures U64(|s.staged[BlockKey(k, refs[i].id)]|) == |s.staged[BlockKey(k, refs[i].id)]|
    {
      JoinedAt(s, k, refs, i);
      var rest := s.Joined(k, refs[i..][1..]);
      assert s.Joined(k, refs[i..]) == s.staged[BlockKey(k, refs[i].id)] + rest;
      U64Small(|s.staged[BlockKey(k, refs[i].id)]|);
    }
    forall i | 0 <= i < |refs|
      ensures s.NewLayout(k, refs)[i].size == |s.staged[BlockKey(k, refs[i].id)]|
         <==> (refs[i].kind == Committed ==>
                 s.Layout(k)[LastIndex(s.Layout(k), refs[i].id)].size == |s.staged[BlockKey(k, refs[i].id)]|)
    {
    }
  }

  lemma CommitOne(m: Md5, s: Store, k: Key, kind: BlockKind, data: Bytes, headers: Headers)
    requires s.Has(k) && BlockKey(k, "a") in s.staged && s.staged[BlockKey(k, "a")] == data
    requires kind == Committed ==> s.Layout(k) != [] && s.Layout(k)[0].id == "a"
    ensures var ref := BlockRef("a", kind);
            && s.Usable(k, ref)
            && StoreStep(m, s, PutBlockList(k, [ref], headers, [])).0
               == s.(blobs := s.blobs[k := Content(data, headers)],
                     layout := s.layout[k := [Block("a", s.SizeOf(k, ref))]],
                     staged := map b | b in s.staged && b.blob != k :: s.staged[b])
  {
    var ref := BlockRef("a", kind);
    assert kind == Committed ==> exists i :: 0 <= i < |s.Layout(k)| && s.Layout(k)[i].id == ref.id;
    assert s.AllUsable(k, [ref]);
    assert [ref][1..] == [];
    assert s.Joined(k, [ref]) == data + s.Joined(k, []);
    assert data + [] == data;
    assert s.NewLayout(k, [ref]) == [Block("a", s.SizeOf(k, ref))];
  }

  lemma StageOne(m: Md5, s: Store, b: BlockKey, data: Bytes)
    requires s.Has(b.blob)
    ensures StoreStep(m, s, PutBlock(b, Body([data], true))).0 == s.(staged := s.staged[b := data])
  {
    ConcatOne(data);
  }

  lemma ConcatOne(data: Bytes)
    ensures Concat([data]) == data
  {
    assert [data][1..] == [];
    assert data + [] == data;
  }

  lemma StaleOnStore(m: Md5, s: Store, k: Key, one: bv8, two: bv8, headers: Headers)
    requires s.Has(k)
    ensures var b := BlockKey(k, "a");
            var s1 := StoreStep(m, s, PutBlock(b, Body([[one]], true))).0;
            var s2 := StoreStep(m, s1, PutBlockList(k, [BlockRef("a", Latest)], headers, [])).0;
            var s3 := StoreStep(m, s2, PutBlock(b, Body([[one, two]], true))).0;
            var s4 := StoreStep(m, s3, PutBlockList(k, [BlockRef("a", Committed)], headers, [])).0;
            k in s4.blobs && s4.blobs[k] == Content([one, two], headers) && s4.Layout(k) == [Block("a", 1)]
  {
    var b := BlockKey(k, "a");
    StageOne(m, s, b, [one]);
    var s1 := StoreStep(m, s, PutBlock(b, Body([[one]], true))).0;
    CommitOne(m, s1, k, Latest, [one], headers);
    var s2 := StoreStep(m, s1, PutBlockList(k, [BlockRef("a", Latest)], headers, [])).0;
    StageOne(m, s2, b, [one, two]);
    var s3 := StoreStep(m, s2, PutBlock(b, Body([[one, two]], true))).0;
    assert s3.Layout(k) == [Block("a", 1)];
    CommitOne(m, s3, k, Committed, [one, two], headers);
  }

  /** Create a container, stage a block of one byte and commit it, stage it anew with two
      bytes and commit it by a committed reference. */
  function StaleRun(k: Key, one: bv8, two: bv8, headers: Headers): seq<Op> {
    var b := BlockKey(k, "a");
    [CreateContainer(k.account, k.container)]
    + ([PutBlock(b, Body([[one]], true))]
       + ([PutBlockList(k, [BlockRef("a", Latest)], headers, [])]
          + ([PutBlock(b, Body([[one, two]], true))]
             + ([PutBlockList(k, [BlockRef("a", Committed)], headers, [])] + []))))
  }

  lemma StoreRunCons(m: Md5, s: Store, op: Op, ops: seq<Op>)
    ensures StoreRun(m, s, [op] + ops).0 == StoreRun(m, StoreStep(m, s, op).0, ops).0
  {
    assert ([op] + ops)[1..] == ops;
  }

  lemma StoreRunOfFive(m: Md5, s: Store, a: Op, b: Op, c: Op, d: Op, e: Op)
    ensures StoreRun(m, s, [a] + ([b] + ([c] + ([d] + ([e] + []))))).0
         == StoreStep(m, StoreStep(m, StoreStep(m, StoreStep(m, StoreStep(m, s, a).0, b).0, c).0, d).0, e).0
  {
    var s1 := StoreStep(m, s, a).0;
    var s2 := StoreStep(m, s1, b).0;
    var s3 := StoreStep(m, s2, c).0;
    var s4 := StoreStep(m, s3, d).0;
    StoreRunCons(m, s, a, [b] + ([c] + ([d] + ([e] + []))));
    StoreRunCons(m, s1, b, [c] + ([d] + ([e] + [])));
    StoreRunCons(m, s2, c, [d] + ([e] + []));
    StoreRunCons(m, s3, d, [e] + []);
    StoreRunCons(m, s4, e, []);
  }

  /** A stale size: this run of the server ends with a blob of two bytes whose committed
      list says one. */
  lemma StaleCommittedSize(m: Md5, k: Key, one: bv8, two: bv8, headers: Headers) returns (w: World)
    ensures w == RunOps(m, Empty({k.account}), StaleRun(k, one, two, headers)).0
    ensures k in w.db.blobs && DataOf(w.disk, BlobFile(k)) == [one, two]
    ensures w.db.CommittedBlocks(k) == [Block("a", 1)]
  {
    var b := BlockKey(k, "a");
    var s0 := Abstract(Empty({k.account}));
    var create := CreateContainer(k.account, k.container);
    w := RunOps(m, Empty({k.account}), StaleRun(k, one, two, headers)).0;
    EmptyIsSound(m, {k.account});
    RunRefines(m, Empty({k.account}), StaleRun(k, one, two, headers));
    StoreRunOfFive(m, s0, create, PutBlock(b, Body([[one]], true)),
                   PutBlockList(k, [BlockRef("a", Latest)], headers, []), PutBlock(b, Body([[one, two]], true)),
                   PutBlockList(k, [BlockRef("a", Committed)], headers, []));
    StaleOnStore(m, StoreStep(m, s0, create).0, k, one, two, headers);
    StaleSeen(w, k, [one, two], headers, [Block("a", 1)]);
  }

  lemma StaleSeen(w: World, k: Key, data: Bytes, headers: Headers, blocks: seq<Block>)
    requires k in Abstract(w).blobs && Abstract(w).blobs[k] == Content(data, headers)
    requires Abstract(w).Layout(k) == blocks
    ensures k in w.db.blobs && DataOf(w.disk, BlobFile(k)) == data && w.db.CommittedBlocks(k) == blocks
  {
  }
}
