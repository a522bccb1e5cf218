/** Every step every operation takes is safe at the moment it is taken. */
module SafePlans {
  import opened Types
  import opened World
  import opened Plans
  import opened Integrity

  // --------------------------------------------------- writing one file

  function WithInode(w: World, i: nat, n: Inode): World
    requires i < |w.disk.inodes|
  {
    w.(disk := w.disk.(inodes := w.disk.inodes[i := n]))
  }

  /** Appending chunk after chunk leaves the concatenation, however it was split. */
  lemma {:induction false} RunAppends(w: World, i: nat, chunks: seq<Bytes>)
    requires i < |w.disk.inodes| && !w.disk.inodes[i].synced
    ensures Run(w, Appends(i, chunks))
         == WithInode(w, i, Inode(w.disk.inodes[i].data + Concat(chunks), false))
    decreases |chunks|
  {
    var steps := Appends(i, chunks);
    if chunks == [] {
      assert w.disk.inodes[i].data + [] == w.disk.inodes[i].data;
      assert w.disk.inodes[i := w.disk.inodes[i]] == w.disk.inodes;
    } else {
      var w1 := Apply(w, steps[0]);
      assert steps[1..] == Appends(i, chunks[1..]);
      RunAppends(w1, i, chunks[1..]);
      var data := w.disk.inodes[i].data;
      assert (data + chunks[0]) + Concat(chunks[1..]) == data + Concat(chunks);
      assert WithInode(w1, i, Inode(data + Concat(chunks), false))
          == WithInode(w, i, Inode(data + Concat(chunks), false));
    }
  }

  lemma {:induction false} AppendsSafe(w: World, i: nat, chunks: seq<Bytes>, h: History)
    requires i < |w.disk.inodes| && !w.disk.inodes[i].synced
    ensures AllSafe(w, Appends(i, chunks), h)
    decreases |chunks|
  {
    if chunks == [] {
    } else {
      var steps := Appends(i, chunks);
      assert steps[1..] == Appends(i, chunks[1..]);
      AppendsSafe(Apply(w, steps[0]), i, chunks[1..], h);
    }
  }

  /** The world once a temporary file holds the given bytes, not yet synced. */
  function WithTemp(w: World, a: string, data: Bytes): World {
    var n := |w.disk.inodes|;
    w.(disk := w.disk.(entries := w.disk.entries[TempFile(a, n) := n],
                       inodes := w.disk.inodes + [Inode(data, false)]))
  }

  /** The world once a file was published: `dest` names a new synced file with
      the given bytes for good, every other final name and every older file is as
      it was. */
  ghost predicate Published(w: World, a: string, dest: FileName, data: Bytes, w': World) {
    var n := |w.disk.inodes|;
    && w'.db == w.db
    && w'.disk.inodes == w.disk.inodes + [Inode(data, true)]
    && w'.disk.Entry(dest) == Some(n)
    && w'.disk.Residue(dest) == {}
    && (forall f | f != dest && f != TempFile(a, n) ::
          w'.disk.Possible(f) == w.disk.Possible(f) && w'.disk.Entry(f) == w.disk.Entry(f)
          && w'.disk.Residue(f) == w.disk.Residue(f))
  }

  lemma RunStart(w: World, a: string, chunks: seq<Bytes>)
    ensures Run(w, [CreateTemp(a)] + Appends(|w.disk.inodes|, chunks)) == WithTemp(w, a, Concat(chunks))
  {
    var n := |w.disk.inodes|;
    var w1 := Apply(w, CreateTemp(a));
    RunAppend(w, [CreateTemp(a)], Appends(n, chunks));
    RunOne(w, CreateTemp(a));
    RunAppends(w1, n, chunks);
    assert [] + Concat(chunks) == Concat(chunks);
    assert (w.disk.inodes + [Inode([], false)])[n := Inode(Concat(chunks), false)]
        == w.disk.inodes + [Inode(Concat(chunks), false)];
  }

  lemma RunPublish(w: World, a: string, dest: FileName, data: Bytes)
    requires !dest.TempFile?
    ensures Published(w, a, dest, data, Run(WithTemp(w, a, data), Publish(a, |w.disk.inodes|, dest)))
  {
    var n := |w.disk.inodes|;
    var w1 := WithTemp(w, a, data);
    var s := Publish(a, n, dest);
    var w2 := Apply(w1, s[0]);
    assert s == [s[0]] + [s[1]] + [s[2]];
    RunOne(w1, s[0]);
    RunSnoc(w1, [s[0]], s[1]);
    RunSnoc(w1, [s[0]] + [s[1]], s[2]);
    assert w2.disk.inodes == w.disk.inodes + [Inode(data, true)];
    assert TempFile(a, n) in w2.disk.entries;
  }

  /** Writing a file, complete body: the file is published. */
  lemma RunWrite(w: World, a: string, dest: FileName, body: Body)
    requires !dest.TempFile? && body.complete
    ensures Published(w, a, dest, body.Data(), Run(w, WriteSteps(a, |w.disk.inodes|, dest, body)))
  {
    var n := |w.disk.inodes|;
    RunStart(w, a, body.chunks);
    RunAppend(w, [CreateTemp(a)] + Appends(n, body.chunks), Publish(a, n, dest));
    RunPublish(w, a, dest, body.Data());
  }

  /** Writing a file, broken-off body: only an unsynced temporary file appears. */
  lemma RunBrokenWrite(w: World, a: string, dest: FileName, body: Body)
    requires !body.complete
    ensures Run(w, WriteSteps(a, |w.disk.inodes|, dest, body)) == WithTemp(w, a, body.Data())
  {
    RunStart(w, a, body.chunks);
    assert WriteSteps(a, |w.disk.inodes|, dest, body)
        == [CreateTemp(a)] + Appends(|w.disk.inodes|, body.chunks);
  }

  lemma WriteSafe(w: World, a: string, dest: FileName, body: Body, h: History)
    requires !dest.TempFile? && (body.complete ==> (dest, body.Data()) in h)
    ensures AllSafe(w, WriteSteps(a, |w.disk.inodes|, dest, body), h)
  {
    var n := |w.disk.inodes|;
    var start := [CreateTemp(a)] + Appends(n, body.chunks);
    var w1 := Apply(w, CreateTemp(a));
    AppendsSafe(w1, n, body.chunks, h);
    assert start[0] == CreateTemp(a) && start[1..] == Appends(n, body.chunks);
    assert AllSafe(w, start, h);
    if body.complete {
      RunStart(w, a, body.chunks);
      PublishSafe(w, a, dest, body.Data(), h);
      AllSafeAppend(w, start, Publish(a, n, dest), h);
    } else {
      assert WriteSteps(a, n, dest, body) == start;
    }
  }

  lemma PublishSafe(w: World, a: string, dest: FileName, data: Bytes, h: History)
    requires !dest.TempFile? && (dest, data) in h
    ensures AllSafe(WithTemp(w, a, data), Publish(a, |w.disk.inodes|, dest), h)
  {
    var s := Publish(a, |w.disk.inodes|, dest);
    var w1 := WithTemp(w, a, data);
    var w2 := Apply(w1, s[0]);
    var w3 := Apply(w2, s[1]);
    assert s[1..] == [s[1], s[2]] && s[1..][1..] == [s[2]] && [s[2]][1..] == [];
    assert AllSafe(w3, [s[2]], h);
    assert Safe(w2, s[1], h);
  }

  lemma AllSafeOne(w: World, s: Step, h: History)
    requires Safe(w, s, h)
    ensures AllSafe(w, [s], h)
  {
    assert AllSafe(Apply(w, s), [s][1..], h);
  }

  // -------------------------------------------------------- cleaning up

  lemma RunDeletion(w: World, k: Key, path: FileName)
    ensures Run(w, [DeleteBlobRow(k), DeleteCommitted(k), DeleteStaged(k), Remove(path)])
         == Apply(Apply(Apply(Apply(w, DeleteBlobRow(k)), DeleteCommitted(k)), DeleteStaged(k)), Remove(path))
  {
    var one := [DeleteBlobRow(k)];
    var two := one + [DeleteCommitted(k)];
    var three := two + [DeleteStaged(k)];
    assert three + [Remove(path)] == [DeleteBlobRow(k), DeleteCommitted(k), DeleteStaged(k), Remove(path)];
    RunOne(w, DeleteBlobRow(k));
    RunSnoc(w, one, DeleteCommitted(k));
    RunSnoc(w, two, DeleteStaged(k));
    RunSnoc(w, three, Remove(path));
  }

  lemma {:induction false} RemovesKeepDb(w: World, files: seq<FileName>)
    ensures Run(w, Removes(files)).db == w.db
    ensures Run(w, Removes(files)).disk.inodes == w.disk.inodes
    ensures forall f | f !in files ::
              && Run(w, Removes(files)).disk.Entry(f) == w.disk.Entry(f)
              && Run(w, Removes(files)).disk.Residue(f) == w.disk.Residue(f)
    decreases |files|
  {
    if files == [] {
    } else {
      assert Removes(files)[1..] == Removes(files[1..]);
      RemovesKeepDb(Apply(w, Remove(files[0])), files[1..]);
    }
  }

  lemma {:induction false} RemovesSafe(w: World, files: seq<FileName>, h: History)
    requires forall f | f in files :: Safe(w, Remove(f), h)
    ensures AllSafe(w, Removes(files), h)
    decreases |files|
  {
    if files == [] {
    } else {
      assert Removes(files)[1..] == Removes(files[1..]);
      assert files[0] in files;
      forall f | f in files[1..] ensures Safe(Apply(w, Remove(files[0])), Remove(f), h) {
        assert f in files;
      }
      RemovesSafe(Apply(w, Remove(files[0])), files[1..], h);
    }
  }

  // ---------------------------------------------------------- operations

  /** The complete body an operation sets out to write, and where. */
  function Intended(w: World, op: Op): History {
    match op
    case PutBlob(k, body, _, _) => if body.complete then {(BlobFile(k), body.Data())} else {}
    case PutBlock(b, body) => if body.complete then {(BlockFile(b), body.Data())} else {}
    case PutBlockList(k, refs, _, schedule) =>
      var rs := ResolveAll(w.db, k, refs);
      if rs.Some? && AllStaged(rs.value) then
        var body := AssemblyBody(w.disk, PathsOf(rs.value), schedule);
        if body.complete then {(BlobFile(k), body.Data())} else {}
      else {}
    case _ => {}
  }

  /** A Put Blob whose MD5 does not match, over a blob that exists: the one
      operation that destroys a file some row still names. */
  predicate Clobbers(h: Md5, db: Db, op: Op) {
    && op.PutBlob? && op.body.complete && op.key in db.blobs
    && op.md5Header.Some? && op.md5Header.value != h.Digest(op.body.Data())
  }

  lemma PutBlobSafe(m: Md5, w: World, op: Op, h: History)
    requires op.PutBlob? && Intact(w, h) && Intended(w, op) <= h
    ensures AllSafe(w, PlanOf(m, w, op).steps, h)
  {
    var (k, body) := (op.key, op.body);
    if (k.account, k.container) in w.db.containers {
      var write := WriteSteps(k.account, |w.disk.inodes|, BlobFile(k), body);
      WriteSafe(w, k.account, BlobFile(k), body, h);
      if body.complete {
        RunWrite(w, k.account, BlobFile(k), body);
        var plan := PlanOf(m, w, op).steps;
        var last := plan[|plan| - 1];
        assert plan == write + [last];
        AllSafeOne(Run(w, write), last, h);
        AllSafeAppend(w, write, [last], h);
      }
    }
  }

  lemma PutBlockSafe(m: Md5, w: World, op: Op, h: History)
    requires op.PutBlock? && Intact(w, h) && Intended(w, op) <= h
    ensures AllSafe(w, PlanOf(m, w, op).steps, h)
  {
    var (b, body) := (op.block, op.body);
    if (b.blob.account, b.blob.container) in w.db.containers {
      var write := WriteSteps(b.blob.account, |w.disk.inodes|, BlockFile(b), body);
      WriteSafe(w, b.blob.account, BlockFile(b), body, h);
      if body.complete {
        RunWrite(w, b.blob.account, BlockFile(b), body);
        var last := StageBlock(b, StagedRow(U64(|body.Data()|), m.Digest(body.Data()), BlockFile(b)));
        AllSafeOne(Run(w, write), last, h);
        AllSafeAppend(w, write, [last], h);
      }
    }
  }

  /** A resolved block's path is the block file of one of the blob's staged rows. */
  lemma ResolvedPaths(w: World, h: History, k: Key, refs: seq<BlockRef>)
    requires Intact(w, h)
    requires ResolveAll(w.db, k, refs).Some? && AllStaged(ResolveAll(w.db, k, refs).value)
    ensures var rs := ResolveAll(w.db, k, refs).value;
            && |rs| == |refs|
            && forall i | 0 <= i < |refs| ::
                 && rs[i].id == refs[i].id
                 && BlockKey(k, refs[i].id) in w.db.staged
                 && rs[i].path.value == BlockFile(BlockKey(k, refs[i].id))
                 && w.disk.Holds(rs[i].path.value)
  {
    var rs := ResolveAll(w.db, k, refs).value;
    forall i | 0 <= i < |refs|
      ensures rs[i].id == refs[i].id && BlockKey(k, refs[i].id) in w.db.staged
      ensures rs[i].path.value == BlockFile(BlockKey(k, refs[i].id))
      ensures w.disk.Holds(rs[i].path.value)
    {
      assert rs[i] == ResolveRef(w.db, k, SizeTable(w.db.CommittedBlocks(k)), refs[i]).value;
      StagedFileHolds(w, h, BlockKey(k, refs[i].id));
    }
  }

  lemma StagedFileHolds(w: World, h: History, b: BlockKey)
    requires Intact(w, h) && b in w.db.staged
    ensures w.disk.Holds(BlockFile(b))
  {
    assert Good(w.disk, h, BlockFile(b), w.disk.Entry(BlockFile(b)));
  }

  lemma BlobFileHolds(w: World, h: History, k: Key)
    requires Intact(w, h) && w.disk.Entry(BlobFile(k)) != None
    ensures w.disk.Holds(BlobFile(k))
  {
    assert Good(w.disk, h, BlobFile(k), w.disk.Entry(BlobFile(k)));
  }

  lemma CommitSafe(w: World, k: Key, body: Body, blocks: seq<Block>, row: BlobRow,
                   files: seq<FileName>, h: History)
    requires body.complete && (BlobFile(k), body.Data()) in h
    requires (k.account, k.container) in w.db.containers && row.path == BlobFile(k)
    requires forall f | f in files :: f.BlockFile? && f.block.blob == k
    ensures AllSafe(w, WriteSteps(k.account, |w.disk.inodes|, BlobFile(k), body)
                       + [CommitBlocks(k, blocks, row)] + Removes(files), h)
  {
    var write := WriteSteps(k.account, |w.disk.inodes|, BlobFile(k), body);
    var commit := CommitBlocks(k, blocks, row);
    WriteSafe(w, k.account, BlobFile(k), body, h);
    RunWrite(w, k.account, BlobFile(k), body);
    AllSafeOne(Run(w, write), commit, h);
    AllSafeAppend(w, write, [commit], h);
    RunSnoc(w, write, commit);
    RemovesSafe(Apply(Run(w, write), commit), files, h);
    AllSafeAppend(w, write + [commit], Removes(files), h);
  }

  lemma PutBlockListSafe(m: Md5, w: World, op: Op, h: History)
    requires op.PutBlockList? && Intact(w, h) && Intended(w, op) <= h
    ensures AllSafe(w, PlanOf(m, w, op).steps, h)
  {
    var k := op.key;
    var resolved := ResolveAll(w.db, k, op.refs);
    if (k.account, k.container) in w.db.containers && resolved.Some? && AllStaged(resolved.value) {
      var rs := resolved.value;
      var body := AssemblyBody(w.disk, PathsOf(rs), op.schedule);
      if body.complete {
        ResolvedPaths(w, h, k, op.refs);
        assert forall i | 0 <= i < |rs| :: PathsOf(rs)[i] == BlockFile(BlockKey(k, op.refs[i].id));
        CommitSafe(w, k, body, BlocksOf(rs), NewRow(m, k, body.Data(), op.headers), PathsOf(rs), h);
      } else {
        WriteSafe(w, k.account, BlobFile(k), body, h);
      }
    }
  }

  lemma DeleteBlobSafe(m: Md5, w: World, op: Op, h: History)
    requires op.DeleteBlob? && Intact(w, h)
    ensures AllSafe(w, PlanOf(m, w, op).steps, h)
  {
    if op.key in w.db.blobs {
      DeletionSafe(w, op.key, h);
    }
  }

  lemma AllSafeCons(w: World, s: Step, rest: seq<Step>, h: History)
    requires Safe(w, s, h) && AllSafe(Apply(w, s), rest, h)
    ensures AllSafe(w, [s] + rest, h)
  {
    assert ([s] + rest)[1..] == rest;
  }

  lemma DeletionSafe(w: World, k: Key, h: History)
    ensures AllSafe(w, [DeleteBlobRow(k), DeleteCommitted(k), DeleteStaged(k), Remove(BlobFile(k))], h)
  {
    var w1 := Apply(w, DeleteBlobRow(k));
    var w2 := Apply(w1, DeleteCommitted(k));
    AllSafeOne(Apply(w2, DeleteStaged(k)), Remove(BlobFile(k)), h);
    AllSafeCons(w2, DeleteStaged(k), [Remove(BlobFile(k))], h);
    AllSafeCons(w1, DeleteCommitted(k), [DeleteStaged(k)] + [Remove(BlobFile(k))], h);
    AllSafeCons(w, DeleteBlobRow(k), [DeleteCommitted(k)] + ([DeleteStaged(k)] + [Remove(BlobFile(k))]), h);
    assert [DeleteBlobRow(k)] + ([DeleteCommitted(k)] + ([DeleteStaged(k)] + [Remove(BlobFile(k))]))
        == [DeleteBlobRow(k), DeleteCommitted(k), DeleteStaged(k), Remove(BlobFile(k))];
  }

  lemma BlobPathsInContainer(w: World, h: History, a: string, c: string)
    requires Intact(w, h)
    ensures forall f | f in BlobPaths(w.db, a, c) :: f.BlobFile? && f.key.In(a, c)
  {
    BlobNamesAreKeys(w.db, a, c);
    Names.SortedIsSorted(BlobNames(w.db, a, c));
    forall f | f in BlobPaths(w.db, a, c) ensures f.BlobFile? && f.key.In(a, c) {
      var i :| 0 <= i < |BlobPaths(w.db, a, c)| && f == BlobPaths(w.db, a, c)[i];
      assert Names.Sorted(BlobNames(w.db, a, c))[i] in Names.Sorted(BlobNames(w.db, a, c));
    }
  }

  lemma DeleteContainerSafe(m: Md5, w: World, op: Op, h: History)
    requires op.DeleteContainer? && Intact(w, h)
    ensures AllSafe(w, PlanOf(m, w, op).steps, h)
  {
    var (a, c) := (op.account, op.container);
    if (a, c) in w.db.containers {
      var drop := DropContainer(a, c);
      var files := BlobPaths(w.db, a, c);
      var w1 := Apply(w, drop);
      AllSafeOne(w, drop, h);
      RunOne(w, drop);
      BlobPathsInContainer(w, h, a, c);
      RemovesSafe(w1, files, h);
      AllSafeAppend(w, [drop], Removes(files), h);
      RunAppend(w, [drop], Removes(files));
      RemovesKeepDb(w1, files);
      AllSafeOne(Run(w1, Removes(files)), RemoveTree(a, c), h);
      AllSafeAppend(w, [drop] + Removes(files), [RemoveTree(a, c)], h);
    }
  }

  /** Every operation takes only safe steps. */
  lemma PlanIsSafe(m: Md5, w: World, op: Op, h: History)
    requires Intact(w, h) && Intended(w, op) <= h
    ensures AllSafe(w, PlanOf(m, w, op).steps, h)
  {
    match op
    case CreateContainer(a, c) =>
      if PlanOf(m, w, op).steps != [] { AllSafeOne(w, InsertContainer(a, c), h); }
    case DeleteContainer(_, _) => DeleteContainerSafe(m, w, op, h);
    case PutBlob(_, _, _, _) => PutBlobSafe(m, w, op, h);
    case PutBlock(_, _) => PutBlockSafe(m, w, op, h);
    case PutBlockList(_, _, _, _) => PutBlockListSafe(m, w, op, h);
    case DeleteBlob(_) => DeleteBlobSafe(m, w, op, h);
  }
}
