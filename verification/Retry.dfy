/** A Put Block List that a crash cut off can simply be sent again. */
module Retry {
  import opened Types
  import opened World
  import opened Plans
  import opened Integrity
  import opened SafePlans
  import opened Frames
  import opened Effects
  import opened Moments
  import opened Refinement
  import opened CrashSafety
  import opened Recovery

  /** The bytes of every file but the blob's own are the same after the crash. */
  lemma OthersSurvive(m: Md5, w: World, op: Op, n: nat, w': World, f: FileName, h: History)
    requires Intact(w, h) && Accepted(m, w, op) && n <= |FileSteps(w, op)|
    requires Happens(m, w, Crash(op, n, w'.disk), w')
    requires !f.TempFile? && f != BlobFile(op.key) && w.disk.Residue(f) == {}
    ensures w'.db == w.db && SameFile(w.disk, w'.disk, f)
  {
    BeforeTheCommit(m, w, op, n, h);
    CrashKeepsFile(w.disk, Midway(m, w, op, n).disk, w'.disk, h, f);
  }

  lemma AllSurvive(m: Md5, w: World, op: Op, n: nat, w': World, h: History)
    requires Intact(w, h) && Settled(w) && Accepted(m, w, op) && n <= |FileSteps(w, op)|
    requires Happens(m, w, Crash(op, n, w'.disk), w')
    ensures w'.db == w.db
    ensures SameData(w.disk, w'.disk, w.db.blobs.Keys - {op.key} - Wavering(w), w.db.staged.Keys)
  {
    BeforeTheCommit(m, w, op, n, h);
    forall k | k in w.db.blobs.Keys - {op.key} - Wavering(w) ensures SameFile(w.disk, w'.disk, BlobFile(k)) {
      OthersSurvive(m, w, op, n, w', BlobFile(k), h);
    }
    forall b | b in w.db.staged.Keys ensures SameFile(w.disk, w'.disk, BlockFile(b)) {
      OthersSurvive(m, w, op, n, w', BlockFile(b), h);
    }
  }

  lemma CrashedIsIntact(m: Md5, w: World, op: Op, n: nat, w': World, h: History) returns (h': History)
    requires Intact(w, h) && Settled(w)
    requires Happens(m, w, Crash(op, n, w'.disk), w')
    ensures Intact(w', h') && Settled(w')
  {
    h' := h + Intended(w, op);
    MoreHistory(w, h, h');
    EventKeepsInvariant(m, w, Crash(op, n, w'.disk), w', h');
  }

  lemma {:induction false} SamePartsData(d: Disk, d': Disk, files: seq<FileName>)
    requires forall f | f in files :: d.Holds(f) && d'.Holds(f) && d'.Data(f) == d.Data(f)
    ensures PartsData(d', files) == PartsData(d, files)
  {
    if files == [] {
    } else {
      assert files[0] in files;
      assert forall f | f in files[1..] :: f in files;
      SamePartsData(d, d', files[1..]);
    }
  }

  lemma SamePlanAgain(m: Md5, w: World, w': World, op: Op, again: Op, h: History, h': History)
    requires Accepted(m, w, op) && Intact(w, h) && Intact(w', h') && w'.db == w.db
    requires again.PutBlockList? && again.key == op.key && again.refs == op.refs && again.headers == op.headers
    requires SameData(w.disk, w'.disk, {}, w.db.staged.Keys)
    ensures Accepted(m, w', again)
    ensures var files := PathsOf(ResolveAll(w.db, op.key, op.refs).value);
            && (forall f | f in files :: w.disk.Holds(f) && w'.disk.Holds(f))
            && PartsData(w'.disk, files) == PartsData(w.disk, files)
            && PlanOf(m, w', again).reply == PlanOf(m, w, op).reply
  {
    var files := PathsOf(ResolveAll(w.db, op.key, op.refs).value);
    AssemblyCompletes(w, h, op.key, op.refs, op.schedule);
    AssemblyCompletes(w', h', op.key, op.refs, again.schedule);
    PathsOfOneBlob(w, h, op.key, op.refs);
    forall f | f in files ensures w'.disk.Data(f) == w.disk.Data(f) {
      assert f == BlockFile(f.block);
    }
    SamePartsData(w.disk, w'.disk, files);
  }

  lemma OutcomeByCommit(w: World, w': World, k: Key, w1: World, w2: World, unsure: set<Key>)
    requires SameData(w.disk, w'.disk, w.db.blobs.Keys - {k} - unsure, OtherBlocks(w.db.staged.Keys, k))
    requires SameData(w.disk, w1.disk, w.db.blobs.Keys - {k}, OtherBlocks(w.db.staged.Keys, k))
    requires SameData(w'.disk, w2.disk, w.db.blobs.Keys - {k}, OtherBlocks(w.db.staged.Keys, k))
    requires w2.db == w1.db && w1.db.blobs.Keys == w.db.blobs.Keys + {k}
    requires w1.db.staged.Keys == OtherBlocks(w.db.staged.Keys, k)
    requires SameFile(w1.disk, w2.disk, BlobFile(k))
    ensures SameOutcome(w1, w2, unsure - {k})
  {
  }

  lemma SameCommit(w: World, w': World, k: Key, blocks: seq<Block>, row: BlobRow, w1: World, w2: World,
                   unsure: set<Key>)
    requires SameData(w.disk, w'.disk, w.db.blobs.Keys - {k} - unsure, OtherBlocks(w.db.staged.Keys, k))
    requires SameData(w.disk, w1.disk, w.db.blobs.Keys - {k}, OtherBlocks(w.db.staged.Keys, k))
    requires SameData(w'.disk, w2.disk, w.db.blobs.Keys - {k}, OtherBlocks(w.db.staged.Keys, k))
    requires w1.db == ApplyDb(w.db, CommitBlocks(k, blocks, row)) && w2.db == w1.db
    requires SameFile(w1.disk, w2.disk, BlobFile(k))
    ensures SameOutcome(w1, w2, unsure - {k})
  {
    assert w1.db.staged.Keys == OtherBlocks(w.db.staged.Keys, k);
    OutcomeByCommit(w, w', k, w1, w2, unsure);
  }

  lemma RetryOutcome(m: Md5, w: World, w': World, op: Op, again: Op, h: History, h': History)
    requires Accepted(m, w, op) && Accepted(m, w', again) && Intact(w, h) && Intact(w', h') && w'.db == w.db
    requires again.key == op.key && again.refs == op.refs && again.headers == op.headers
    requires SameData(w.disk, w'.disk, w.db.blobs.Keys - {op.key} - Wavering(w), w.db.staged.Keys)
    requires var files := PathsOf(ResolveAll(w.db, op.key, op.refs).value);
             && (forall f | f in files :: w.disk.Holds(f) && w'.disk.Holds(f))
             && PartsData(w'.disk, files) == PartsData(w.disk, files)
    ensures SameOutcome(Finish(m, w, op), Finish(m, w', again), Wavering(w) - {op.key})
  {
    var rs := ResolveAll(w.db, op.key, op.refs).value;
    var data := PartsData(w.disk, PathsOf(rs));
    PutBlockListEffect(m, w, op, h);
    PutBlockListEffect(m, w', again, h');
    KeepAcrossCommit(m, w, op, h);
    KeepAcrossCommit(m, w', again, h');
    SameCommit(w, w', op.key, BlocksOf(rs), NewRow(m, op.key, data, op.headers),
               Finish(m, w, op), Finish(m, w', again), Wavering(w));
  }

  /** Crash and retry: a crash anywhere before the commit leaves all staged rows and
      files and the old committed list as they were, and sending the request
      again, however the parts are then read, has the same reply and the same
      outcome as if there had been no crash. (A name of another, lost blob may lead to
      a file again after the crash, see Recovery.) */
  lemma RetryAfterCrash(m: Md5, w: World, op: Op, n: nat, w': World, again: Op, h: History)
    requires Intact(w, h) && Settled(w) && Accepted(m, w, op) && n <= |FileSteps(w, op)|
    requires Happens(m, w, Crash(op, n, w'.disk), w')
    requires again.PutBlockList? && again.key == op.key && again.refs == op.refs && again.headers == op.headers
    ensures w'.db == w.db
    ensures forall b | b in w.db.staged ::
              w'.disk.Holds(BlockFile(b)) && DataOf(w'.disk, BlockFile(b)) == DataOf(w.disk, BlockFile(b))
    ensures PlanOf(m, w', again).reply == PlanOf(m, w, op).reply
    ensures SameOutcome(Finish(m, w, op), Finish(m, w', again), Wavering(w) - {op.key})
  {
    AllSurvive(m, w, op, n, w', h);
    var h' := CrashedIsIntact(m, w, op, n, w', h);
    forall b | b in w.db.staged ensures w'.disk.Holds(BlockFile(b)) {
      StagedFileHolds(w', h', b);
    }
    SamePlanAgain(m, w, w', op, again, h, h');
    RetryOutcome(m, w, w', op, again, h, h');
  }

  // ------------------------------------------------- after the commit

  lemma AssemblyKeeps(w: World, k: Key, files: seq<FileName>, blocks: seq<Block>, row: BlobRow, data: Bytes,
                      w1: World, h: History)
    requires Intact(w, h) && Assembled(w, k, files, blocks, row, data, w1)
    requires forall f | f in files :: f.BlockFile? && f.block.blob == k
    ensures SameData(w.disk, w1.disk, w.db.blobs.Keys - {k}, OtherBlocks(w.db.staged.Keys, k))
    ensures w1.db == ApplyDb(w.db, CommitBlocks(k, blocks, row))
    ensures w1.disk.Holds(BlobFile(k)) && w1.disk.Data(BlobFile(k)) == data
  {
    KeepData(w.disk, w1.disk, h, w.db.blobs.Keys - {k}, OtherBlocks(w.db.staged.Keys, k));
  }

  /** Two worlds that both hold the new blob look the same. */
  lemma SameAssembly(w: World, k: Key, files: seq<FileName>, blocks: seq<Block>, row: BlobRow, data: Bytes,
                     w1: World, w2: World, h: History)
    requires Intact(w, h)
    requires Assembled(w, k, files, blocks, row, data, w1) && Assembled(w, k, files, blocks, row, data, w2)
    requires forall f | f in files :: f.BlockFile? && f.block.blob == k
    ensures SameOutcome(w1, w2, {})
  {
    AssemblyKeeps(w, k, files, blocks, row, data, w1, h);
    AssemblyKeeps(w, k, files, blocks, row, data, w2, h);
    SameCommit(w, w, k, blocks, row, w1, w2, {});
    assert {} - {k} == {};
  }

  lemma CommittedOutcome(m: Md5, w: World, op: Op, n: nat, h: History)
    requires Intact(w, h) && Settled(w) && Accepted(m, w, op) && n <= |PlanOf(m, w, op).steps|
    requires |FileSteps(w, op)| < n
    ensures SameOutcome(Finish(m, w, op), Midway(m, w, op, n), {})
    ensures Settled(Midway(m, w, op, n)) && Wavering(Midway(m, w, op, n)) == Wavering(w) - {op.key}
  {
    var rs := ResolveAll(w.db, op.key, op.refs).value;
    CommittedPrefix(m, w, op, n, h);
    PutBlockListEffect(m, w, op, h);
    var data := PartsData(w.disk, PathsOf(rs));
    var row := NewRow(m, op.key, data, op.headers);
    SameAssembly(w, op.key, PathsOf(rs), BlocksOf(rs), row, data, Finish(m, w, op), Midway(m, w, op, n), h);
    SettledByCommit(w, op.key, PathsOf(rs), BlocksOf(rs), row, data, Midway(m, w, op, n));
    WaveringByCommit(w, op.key, PathsOf(rs), BlocksOf(rs), row, data, Midway(m, w, op, n));
  }

  lemma WaveringByCommit(w: World, k: Key, files: seq<FileName>, blocks: seq<Block>, row: BlobRow, data: Bytes,
                         w1: World)
    requires Assembled(w, k, files, blocks, row, data, w1)
    requires forall f | f in files :: f.BlockFile?
    ensures Wavering(w1) == Wavering(w) - {k}
  {
  }

  /** A crash after the commit, during the cleanup, loses nothing: the tables and all
      bytes are those of the finished operation. */
  lemma CrashAfterCommit(m: Md5, w: World, op: Op, n: nat, w': World, h: History)
    requires Intact(w, h) && Settled(w) && Accepted(m, w, op) && |FileSteps(w, op)| < n
    requires Happens(m, w, Crash(op, n, w'.disk), w')
    ensures SameOutcome(Finish(m, w, op), w', Wavering(w) - {op.key})
  {
    var w1 := Midway(m, w, op, n);
    CommittedOutcome(m, w, op, n, h);
    var h' := h + Intended(w, op);
    MoreHistory(w, h, h');
    MidwayIntact(m, w, op, n, h');
    CrashAtRest(w1, w'.disk, h');
    OutcomeTransitive(Finish(m, w, op), w1, w', Wavering(w1));
  }
}
