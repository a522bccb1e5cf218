/** The world after each whole operation, and what operations at rest keep on top
    of the step invariant. */
module Effects {
  import opened Types
  import opened World
  import opened Plans
  import opened Integrity
  import opened SafePlans
  import opened Frames

  lemma PutBlobEffect(m: Md5, w: World, op: Op)
    requires op.PutBlob? && (op.key.account, op.key.container) in w.db.containers
    requires op.body.complete && PlanOf(m, w, op).reply.Ok?
    ensures var w' := Finish(m, w, op);
            && w'.db == ApplyDb(w.db, UpsertBlob(op.key, NewRow(m, op.key, op.body.Data(), op.headers)))
            && Published(w, op.key.account, BlobFile(op.key), op.body.Data(), World(w.db, w'.disk))
  {
    var k := op.key;
    var write := WriteSteps(k.account, |w.disk.inodes|, BlobFile(k), op.body);
    RunWrite(w, k.account, BlobFile(k), op.body);
    RunSnoc(w, write, UpsertBlob(k, NewRow(m, k, op.body.Data(), op.headers)));
  }

  /** A mismatching MD5 leaves the tables alone and the final name without a file. */
  lemma PutBlobMismatchEffect(m: Md5, w: World, op: Op)
    requires op.PutBlob? && PlanOf(m, w, op).reply == Err(Md5Mismatch)
    ensures var w' := Finish(m, w, op);
            && w'.db == w.db && w'.disk.Entry(BlobFile(op.key)) == None
            && w'.disk.Residue(BlobFile(op.key)) == {Some(|w.disk.inodes|)}
            && (forall f: FileName | !f.TempFile? && f != BlobFile(op.key) ::
                  w'.disk.Entry(f) == w.disk.Entry(f) && w'.disk.Residue(f) == w.disk.Residue(f))
            && w'.disk.inodes == w.disk.inodes + [Inode(op.body.Data(), true)]
  {
    var k := op.key;
    var write := WriteSteps(k.account, |w.disk.inodes|, BlobFile(k), op.body);
    RunWrite(w, k.account, BlobFile(k), op.body);
    RunSnoc(w, write, Remove(BlobFile(k)));
  }

  lemma PutBlockEffect(m: Md5, w: World, op: Op)
    requires op.PutBlock? && PlanOf(m, w, op).reply.Ok?
    ensures var w' := Finish(m, w, op);
            var data := op.body.Data();
            && w'.db == ApplyDb(w.db, StageBlock(op.block,
                          StagedRow(U64(|data|), m.Digest(data), BlockFile(op.block))))
            && Published(w, op.block.blob.account, BlockFile(op.block), data, World(w.db, w'.disk))
  {
    var b := op.block;
    var write := WriteSteps(b.blob.account, |w.disk.inodes|, BlockFile(b), op.body);
    RunWrite(w, b.blob.account, BlockFile(b), op.body);
    RunSnoc(w, write, StageBlock(b, StagedRow(U64(|op.body.Data()|), m.Digest(op.body.Data()), BlockFile(b))));
  }

  /** In an intact world every part of a resolved block list can be opened. */
  lemma AssemblyCompletes(w: World, h: History, k: Key, refs: seq<BlockRef>, schedule: seq<seq<nat>>)
    requires Intact(w, h)
    requires ResolveAll(w.db, k, refs).Some? && AllStaged(ResolveAll(w.db, k, refs).value)
    ensures var files := PathsOf(ResolveAll(w.db, k, refs).value);
            && (forall f | f in files :: w.disk.Holds(f))
            && AssemblyBody(w.disk, files, schedule).complete
            && AssemblyBody(w.disk, files, schedule).Data() == PartsData(w.disk, files)
  {
    PathsOfOneBlob(w, h, k, refs);
    AssemblyIsConcatenation(w.disk, PathsOf(ResolveAll(w.db, k, refs).value), schedule);
  }

  /** A block list was committed: the blob's name means a new file, the given block
      files may be gone, every other final name is as it was. */
  ghost predicate Assembled(w: World, k: Key, files: seq<FileName>, blocks: seq<Block>,
                            row: BlobRow, data: Bytes, w': World) {
    && w'.db == ApplyDb(w.db, CommitBlocks(k, blocks, row))
    && w'.disk.inodes == w.disk.inodes + [Inode(data, true)]
    && w'.disk.Entry(BlobFile(k)) == Some(|w.disk.inodes|)
    && w'.disk.Residue(BlobFile(k)) == {}
    && (forall f: FileName | !f.TempFile? && f != BlobFile(k) && f !in files ::
          w'.disk.Entry(f) == w.disk.Entry(f) && w'.disk.Residue(f) == w.disk.Residue(f))
  }

  lemma PutBlockListEffect(m: Md5, w: World, op: Op, h: History)
    requires op.PutBlockList? && Intact(w, h) && PlanOf(m, w, op).reply.Ok?
    ensures ResolveAll(w.db, op.key, op.refs).Some? && AllStaged(ResolveAll(w.db, op.key, op.refs).value)
    ensures var rs := ResolveAll(w.db, op.key, op.refs).value;
            var files := PathsOf(rs);
            && (forall f | f in files :: w.disk.Holds(f))
            && (forall f | f in files :: f.BlockFile? && f.block.blob == op.key)
            && var data := PartsData(w.disk, files);
               Assembled(w, op.key, files, BlocksOf(rs), NewRow(m, op.key, data, op.headers), data,
                         Finish(m, w, op))
  {
    var k := op.key;
    var rs := ResolveAll(w.db, k, op.refs).value;
    var files := PathsOf(rs);
    AssemblyCompletes(w, h, k, op.refs, op.schedule);
    PathsOfOneBlob(w, h, k, op.refs);
    AssembleEffect(m, w, k, rs, op.headers, op.schedule);
  }

  lemma AssembleEffect(m: Md5, w: World, k: Key, rs: seq<Resolved>, headers: Headers,
                       schedule: seq<seq<nat>>)
    requires AllStaged(rs) && AssemblyBody(w.disk, PathsOf(rs), schedule).complete
    requires BlobFile(k) !in PathsOf(rs)
    ensures var data := AssemblyBody(w.disk, PathsOf(rs), schedule).Data();
            Assembled(w, k, PathsOf(rs), BlocksOf(rs), NewRow(m, k, data, headers), data,
                      Run(w, AssemblePlan(m, w, k, rs, headers, schedule).steps))
  {
    var files := PathsOf(rs);
    var data := AssemblyBody(w.disk, files, schedule).Data();
    RunCommit(w, k, AssemblyBody(w.disk, files, schedule), files, BlocksOf(rs), NewRow(m, k, data, headers), |files|);
    assert files[..|files|] == files;
  }

  /** Already when `removed` of the part files have been cleaned up, the new blob is
      in place. */
  lemma AssembleEffectUpTo(m: Md5, w: World, k: Key, rs: seq<Resolved>, headers: Headers,
                           schedule: seq<seq<nat>>, removed: nat, steps: seq<Step>, write: seq<Step>)
    requires AllStaged(rs) && AssemblyBody(w.disk, PathsOf(rs), schedule).complete
    requires BlobFile(k) !in PathsOf(rs) && removed <= |rs|
    requires steps == AssemblePlan(m, w, k, rs, headers, schedule).steps
    requires write == WriteSteps(k.account, |w.disk.inodes|, BlobFile(k), AssemblyBody(w.disk, PathsOf(rs), schedule))
    ensures |steps| == |write| + 1 + |rs|
    ensures var data := AssemblyBody(w.disk, PathsOf(rs), schedule).Data();
            Assembled(w, k, PathsOf(rs), BlocksOf(rs), NewRow(m, k, data, headers), data,
                      Run(w, steps[..|write| + 1 + removed]))
  {
    var body := AssemblyBody(w.disk, PathsOf(rs), schedule);
    var row := NewRow(m, k, body.Data(), headers);
    AssembleSteps(m, w, k, rs, headers, schedule);
    CutSteps(steps, write, CommitBlocks(k, BlocksOf(rs), row), PathsOf(rs), removed);
    RunCommit(w, k, body, PathsOf(rs), BlocksOf(rs), row, removed);
  }

  lemma CutRemoves(head: seq<Step>, files: seq<FileName>, removed: nat)
    requires removed <= |files|
    ensures |head + Removes(files)| == |head| + |files|
    ensures (head + Removes(files))[..|head| + removed] == head + Removes(files[..removed])
  {
  }

  lemma AssembleSteps(m: Md5, w: World, k: Key, rs: seq<Resolved>, headers: Headers, schedule: seq<seq<nat>>)
    requires AllStaged(rs) && AssemblyBody(w.disk, PathsOf(rs), schedule).complete
    ensures var body := AssemblyBody(w.disk, PathsOf(rs), schedule);
            AssemblePlan(m, w, k, rs, headers, schedule).steps
            == WriteSteps(k.account, |w.disk.inodes|, BlobFile(k), body)
               + [CommitBlocks(k, BlocksOf(rs), NewRow(m, k, body.Data(), headers))] + Removes(PathsOf(rs))
  {
  }

  lemma CutSteps(steps: seq<Step>, write: seq<Step>, commit: Step, files: seq<FileName>, removed: nat)
    requires steps == write + [commit] + Removes(files) && removed <= |files|
    ensures |steps| == |write| + 1 + |files|
    ensures steps[..|write| + 1 + removed] == write + [commit] + Removes(files[..removed])
  {
    var head := write + [commit];
    CutRemoves(head, files, removed);
    assert |head| == |write| + 1;
  }

  lemma RunCommit(w: World, k: Key, body: Body, files: seq<FileName>, blocks: seq<Block>, row: BlobRow, removed: nat)
    requires body.complete && BlobFile(k) !in files && removed <= |files|
    ensures var write := WriteSteps(k.account, |w.disk.inodes|, BlobFile(k), body);
            Assembled(w, k, files, blocks, row, body.Data(),
                      Run(w, write + [CommitBlocks(k, blocks, row)] + Removes(files[..removed])))
  {
    var write := WriteSteps(k.account, |w.disk.inodes|, BlobFile(k), body);
    var commit := CommitBlocks(k, blocks, row);
    assert forall f | f in files[..removed] :: f in files;
    RunWrite(w, k.account, BlobFile(k), body);
    RunSnoc(w, write, commit);
    RunAppend(w, write + [commit], Removes(files[..removed]));
    RemovesKeepDb(Run(w, write + [commit]), files[..removed]);
  }

  lemma DeleteBlobEffect(m: Md5, w: World, op: Op)
    requires op.DeleteBlob? && op.key in w.db.blobs
    ensures Finish(m, w, op).db
         == w.db.(blobs := w.db.blobs - {op.key}, committed := w.db.committed - {op.key},
                  staged := w.db.WithoutStaged(op.key))
    ensures Finish(m, w, op).disk == w.disk.Unlink({w.db.blobs[op.key].path})
  {
    RunDeletion(w, op.key, w.db.blobs[op.key].path);
  }

  lemma DeleteContainerEffect(m: Md5, w: World, op: Op)
    requires op.DeleteContainer? && (op.account, op.container) in w.db.containers
    ensures Finish(m, w, op).db == w.db.WithoutContainer(op.account, op.container)
    ensures forall f: FileName | f.In(op.account, op.container) :: Finish(m, w, op).disk.Entry(f) == None
  {
    var drop := DropContainer(op.account, op.container);
    var files := BlobPaths(w.db, op.account, op.container);
    RunOne(w, drop);
    RunAppend(w, [drop], Removes(files));
    RemovesKeepDb(Apply(w, drop), files);
    RunSnoc(w, [drop] + Removes(files), RemoveTree(op.account, op.container));
  }

  /** A refused or broken-off operation changes no row and no final name. */
  lemma FailureEffect(m: Md5, w: World, op: Op, h: History)
    requires Intact(w, h) && PlanOf(m, w, op).reply.Err? && PlanOf(m, w, op).reply != Err(Md5Mismatch)
    ensures var w' := Finish(m, w, op);
            && w'.db == w.db
            && (forall f: FileName | !f.TempFile? ::
                  w'.disk.Entry(f) == w.disk.Entry(f) && w'.disk.Residue(f) == w.disk.Residue(f))
            && SyncedKept(w.disk, w'.disk)
  {
    match op
    case PutBlob(k, body, _, _) =>
      if !body.complete { RunBrokenWrite(w, k.account, BlobFile(k), body); }
    case PutBlock(b, body) =>
      if !body.complete { RunBrokenWrite(w, b.blob.account, BlockFile(b), body); }
    case PutBlockList(k, refs, _, schedule) =>
      if ResolveAll(w.db, k, refs).Some? && AllStaged(ResolveAll(w.db, k, refs).value) {
        AssemblyCompletes(w, h, k, refs, schedule);
      }
    case _ =>
  }

  // ------------------------------------------------------- settled at rest

  /** A file that a row names and that is there cannot turn back into an older one:
      what was acknowledged survives a crash. */
  ghost predicate Settled(w: World) {
    && (forall k | k in w.db.blobs && w.disk.Entry(BlobFile(k)) != None :: w.disk.Residue(BlobFile(k)) == {})
    && (forall b | b in w.db.staged :: w.disk.Residue(BlockFile(b)) == {})
  }

  lemma SettledKept(w: World, w': World)
    requires Settled(w) && w'.db == w.db
    requires forall f: FileName | !f.TempFile? ::
               || (f.BlobFile? && w'.disk.Entry(f) == None)
               || (w'.disk.Entry(f) == w.disk.Entry(f) && w'.disk.Residue(f) == w.disk.Residue(f))
    ensures Settled(w')
  {
  }

  lemma SettledByCommit(w: World, k: Key, files: seq<FileName>, blocks: seq<Block>, row: BlobRow,
                        data: Bytes, w': World)
    requires Settled(w) && Assembled(w, k, files, blocks, row, data, w')
    requires forall f | f in files :: f.BlockFile? && f.block.blob == k
    ensures Settled(w')
  {
    forall b | b in w'.db.staged ensures w'.disk.Residue(BlockFile(b)) == {} {
      assert b.blob != k && BlockFile(b) !in files;
    }
  }

  lemma SettledByFrame(w: World, a: string, c: string, w': World)
    requires Settled(w) && SameRows(w.db, w'.db, WholeContainer(a, c))
    requires SameFiles(w.disk, w'.disk, WholeContainer(a, c))
    requires w'.db == w.db.WithoutContainer(a, c)
    ensures Settled(w')
  {
  }

  lemma SettledByPublish(w: World, a: string, dest: FileName, data: Bytes, w': World)
    requires Settled(w) && Published(w, a, dest, data, World(w.db, w'.disk))
    requires forall k | k in w'.db.blobs :: k in w.db.blobs || dest == BlobFile(k)
    requires forall b | b in w'.db.staged :: b in w.db.staged || dest == BlockFile(b)
    ensures Settled(w')
  {
  }

  lemma SettledByUnlink(w: World, k: Key, w': World)
    requires Settled(w) && w'.disk == w.disk.Unlink({BlobFile(k)})
    requires forall k' | k' in w'.db.blobs :: k' in w.db.blobs && k' != k
    requires forall b | b in w'.db.staged :: b in w.db.staged
    ensures Settled(w')
  {
  }

  lemma SettledAfterWrite(m: Md5, w: World, op: Op)
    requires (op.PutBlob? || op.PutBlock?) && Settled(w) && PlanOf(m, w, op).reply.Ok?
    ensures Settled(Finish(m, w, op))
  {
    if op.PutBlob? {
      PutBlobEffect(m, w, op);
      SettledByPublish(w, op.key.account, BlobFile(op.key), op.body.Data(), Finish(m, w, op));
    } else {
      PutBlockEffect(m, w, op);
      SettledByPublish(w, op.block.blob.account, BlockFile(op.block), op.body.Data(), Finish(m, w, op));
    }
  }

  lemma SettledAfterOk(m: Md5, w: World, op: Op, h: History)
    requires Intact(w, h) && Settled(w) && PlanOf(m, w, op).reply.Ok?
    ensures Settled(Finish(m, w, op))
  {
    match op
    case CreateContainer(a, c) => RunOne(w, InsertContainer(a, c));
    case PutBlob(_, _, _, _) => SettledAfterWrite(m, w, op);
    case PutBlock(_, _) => SettledAfterWrite(m, w, op);
    case PutBlockList(k, refs, headers, _) =>
      PutBlockListEffect(m, w, op, h);
      var rs := ResolveAll(w.db, k, refs).value;
      var data := PartsData(w.disk, PathsOf(rs));
      SettledByCommit(w, k, PathsOf(rs), BlocksOf(rs), NewRow(m, k, data, headers), data, Finish(m, w, op));
    case DeleteBlob(k) =>
      DeleteBlobEffect(m, w, op);
      SettledByUnlink(w, k, Finish(m, w, op));
    case DeleteContainer(a, c) =>
      DeleteContainerEffect(m, w, op);
      WholeFrame(m, w, op, h);
      SettledByFrame(w, a, c, Finish(m, w, op));
  }

  lemma SettledAfter(m: Md5, w: World, op: Op, h: History)
    requires Intact(w, h) && Settled(w)
    ensures Settled(Finish(m, w, op))
  {
    var reply := PlanOf(m, w, op).reply;
    if reply == Err(Md5Mismatch) {
      PutBlobMismatchEffect(m, w, op);
      SettledKept(w, Finish(m, w, op));
    } else if reply.Err? {
      FailureEffect(m, w, op, h);
      SettledKept(w, Finish(m, w, op));
    } else {
      SettledAfterOk(m, w, op, h);
    }
  }

  lemma WholeFrame(m: Md5, w: World, op: Op, h: History)
    requires Intact(w, h)
    ensures SameRows(w.db, Finish(m, w, op).db, ScopeOf(op))
    ensures SameFiles(w.disk, Finish(m, w, op).disk, ScopeOf(op))
  {
    var steps := PlanOf(m, w, op).steps;
    assert steps[..|steps|] == steps;
    OperationFrame(m, w, op, |steps|, h);
  }
}
