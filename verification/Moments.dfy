/** Operations that are under way: what holds after some of the steps of a plan. */
module Moments {
  import opened Types
  import opened World
  import opened Plans
  import opened Integrity
  import opened SafePlans
  import opened Frames
  import opened Effects

  function Midway(m: Md5, w: World, op: Op, taken: nat): World
    requires taken <= |PlanOf(m, w, op).steps|
  {
    Run(w, PlanOf(m, w, op).steps[..taken])
  }

  lemma MidwayAtEnd(m: Md5, w: World, op: Op)
    ensures Midway(m, w, op, |PlanOf(m, w, op).steps|) == Finish(m, w, op)
  {
    var steps := PlanOf(m, w, op).steps;
    assert steps[..|steps|] == steps;
  }

  /** Every moment of every operation is intact. */
  lemma MidwayIntact(m: Md5, w: World, op: Op, taken: nat, h: History)
    requires Intact(w, h) && Intended(w, op) <= h
    requires taken <= |PlanOf(m, w, op).steps|
    ensures Intact(Midway(m, w, op, taken), h)
  {
    PlanIsSafe(m, w, op, h);
    SafeRun(w, PlanOf(m, w, op).steps, taken, h);
  }

  // ------------------------------------------------------ the shape of a write

  predicate IsWrite(op: Op) {
    op.PutBlob? || op.PutBlock? || op.PutBlockList?
  }

  function Dest(op: Op): FileName
    requires IsWrite(op)
  {
    match op
    case PutBlob(k, _, _, _) => BlobFile(k)
    case PutBlock(b, _) => BlockFile(b)
    case PutBlockList(k, _, _, _) => BlobFile(k)
  }

  function AccountOf(op: Op): string
    requires IsWrite(op)
  {
    if op.PutBlock? then op.block.blob.account else op.key.account
  }

  /** The bytes a write sets out to write. */
  function BodyOf(w: World, op: Op): Body
    requires IsWrite(op)
  {
    match op
    case PutBlob(_, body, _, _) => body
    case PutBlock(_, body) => body
    case PutBlockList(k, refs, _, schedule) =>
      var rs := ResolveAll(w.db, k, refs);
      if rs.Some? && AllStaged(rs.value) then AssemblyBody(w.disk, PathsOf(rs.value), schedule) else Body([], false)
  }

  /** The steps that write and publish the file. */
  function FileSteps(w: World, op: Op): seq<Step>
    requires IsWrite(op)
  {
    WriteSteps(AccountOf(op), |w.disk.inodes|, Dest(op), BodyOf(w, op))
  }

  predicate IsTransaction(s: Step) {
    !IsDiskStep(s)
  }

  /** The database transaction of the operation is among the steps taken. */
  predicate CommitTaken(m: Md5, w: World, op: Op, taken: nat)
    requires IsWrite(op)
  {
    PlanOf(m, w, op).reply.Ok? && |FileSteps(w, op)| < taken
  }

  /** A write that gets as far as its file begins with the file's steps; then comes
      the transaction, or nothing, or the removal of a refused file. */
  lemma PlanShape(m: Md5, w: World, op: Op)
    requires IsWrite(op) && PlanOf(m, w, op).steps != []
    ensures var (steps, write) := (PlanOf(m, w, op).steps, FileSteps(w, op));
            && |write| <= |steps| && steps[..|write|] == write
            && (PlanOf(m, w, op).reply.Ok? ==> |write| < |steps| && BodyOf(w, op).complete)
            && (PlanOf(m, w, op).reply.Err? ==> steps == write || steps == write + [Remove(Dest(op))])
  {
  }

  /** The transaction really is where CommitTaken looks for it. */
  lemma CommittedMeans(m: Md5, w: World, op: Op, taken: nat)
    requires IsWrite(op) && taken <= |PlanOf(m, w, op).steps|
    ensures CommitTaken(m, w, op, taken) <==> exists i :: 0 <= i < taken && IsTransaction(PlanOf(m, w, op).steps[i])
  {
    var (steps, write) := (PlanOf(m, w, op).steps, FileSteps(w, op));
    if steps != [] {
      PlanShape(m, w, op);
      WriteStepsAreDiskSteps(AccountOf(op), |w.disk.inodes|, Dest(op), BodyOf(w, op));
      forall i | 0 <= i < |write| ensures !IsTransaction(steps[i]) {
        assert steps[i] == write[i] && write[i] in write;
      }
      if PlanOf(m, w, op).reply.Ok? {
        TransactionStep(m, w, op);
      }
    }
  }

  lemma TransactionStep(m: Md5, w: World, op: Op)
    requires IsWrite(op) && PlanOf(m, w, op).reply.Ok?
    ensures |FileSteps(w, op)| < |PlanOf(m, w, op).steps|
    ensures IsTransaction(PlanOf(m, w, op).steps[|FileSteps(w, op)|])
  {
  }

  lemma UncommittedStep(m: Md5, w: World, op: Op, taken: nat, s: Step)
    requires IsWrite(op) && taken <= |PlanOf(m, w, op).steps| && !CommitTaken(m, w, op, taken)
    requires s in PlanOf(m, w, op).steps[..taken]
    ensures s in FileSteps(w, op) || (s == Remove(Dest(op)) && PlanOf(m, w, op).reply == Err(Md5Mismatch))
  {
    PlanShape(m, w, op);
    var (steps, write) := (PlanOf(m, w, op).steps, FileSteps(w, op));
    var i :| 0 <= i < taken && steps[i] == s;
    if i < |write| {
      assert steps[..|write|][i] == s;
    }
  }

  /** Until the transaction the tables stand still, and no final name but that of the
      file being written changes its meaning. */
  lemma BeforeTheCommit(m: Md5, w: World, op: Op, taken: nat, h: History)
    requires IsWrite(op) && Intact(w, h) && taken <= |PlanOf(m, w, op).steps| && !CommitTaken(m, w, op, taken)
    ensures var w1 := Midway(m, w, op, taken);
            && w1.db == w.db && SyncedKept(w.disk, w1.disk)
            && forall f: FileName | !f.TempFile? && f != Dest(op) ::
                 w1.disk.Entry(f) == w.disk.Entry(f) && w1.disk.Residue(f) == w.disk.Residue(f)
  {
    var some := PlanOf(m, w, op).steps[..taken];
    UncommittedAreDiskSteps(m, w, op, taken);
    DiskStepsKeepDb(w, some);
    PlanIsGentle(m, w, op, h);
    GentlePrefix(w, PlanOf(m, w, op).steps, taken);
    GentleKeepsSynced(w, some);
    forall f: FileName | !f.TempFile? && f != Dest(op)
      ensures Run(w, some).disk.Entry(f) == w.disk.Entry(f) && Run(w, some).disk.Residue(f) == w.disk.Residue(f)
    {
      UncommittedAvoid(m, w, op, taken, f);
      RunAvoids(w, some, f);
    }
  }

  lemma UncommittedAreDiskSteps(m: Md5, w: World, op: Op, taken: nat)
    requires IsWrite(op) && taken <= |PlanOf(m, w, op).steps| && !CommitTaken(m, w, op, taken)
    ensures forall s | s in PlanOf(m, w, op).steps[..taken] :: IsDiskStep(s)
  {
    WriteStepsAreDiskSteps(AccountOf(op), |w.disk.inodes|, Dest(op), BodyOf(w, op));
    forall s | s in PlanOf(m, w, op).steps[..taken] ensures IsDiskStep(s) {
      UncommittedStep(m, w, op, taken, s);
    }
  }

  lemma UncommittedAvoid(m: Md5, w: World, op: Op, taken: nat, f: FileName)
    requires IsWrite(op) && taken <= |PlanOf(m, w, op).steps| && !CommitTaken(m, w, op, taken)
    requires !f.TempFile? && f != Dest(op)
    ensures forall s | s in PlanOf(m, w, op).steps[..taken] :: Avoids(s, f)
  {
    WriteStepsAvoid(AccountOf(op), |w.disk.inodes|, Dest(op), BodyOf(w, op), f);
    forall s | s in PlanOf(m, w, op).steps[..taken] ensures Avoids(s, f) {
      UncommittedStep(m, w, op, taken, s);
    }
  }

  // --------------------------------------------------- after the transaction

  ghost predicate Accepted(m: Md5, w: World, op: Op) {
    && op.PutBlockList? && PlanOf(m, w, op).reply.Ok?
    && ResolveAll(w.db, op.key, op.refs).Some? && AllStaged(ResolveAll(w.db, op.key, op.refs).value)
  }

  lemma CommittedSteps(m: Md5, w: World, op: Op, rs: seq<Resolved>, taken: nat)
    requires Accepted(m, w, op) && ResolveAll(w.db, op.key, op.refs) == Some(rs)
    requires AssemblyBody(w.disk, PathsOf(rs), op.schedule).complete && BlobFile(op.key) !in PathsOf(rs)
    requires |FileSteps(w, op)| < taken <= |PlanOf(m, w, op).steps|
    ensures var data := AssemblyBody(w.disk, PathsOf(rs), op.schedule).Data();
            Assembled(w, op.key, PathsOf(rs), BlocksOf(rs), NewRow(m, op.key, data, op.headers), data,
                      Midway(m, w, op, taken))
  {
    var steps, write := PlanOf(m, w, op).steps, FileSteps(w, op);
    assert steps == AssemblePlan(m, w, op.key, rs, op.headers, op.schedule).steps;
    AssembleEffectUpTo(m, w, op.key, rs, op.headers, op.schedule, 0, steps, write);
    AssembleEffectUpTo(m, w, op.key, rs, op.headers, op.schedule, taken - |write| - 1, steps, write);
  }

  /** Once the block list is committed the new blob is in place, while the part files
      are still being cleaned up. */
  lemma CommittedPrefix(m: Md5, w: World, op: Op, taken: nat, h: History)
    requires Intact(w, h) && Accepted(m, w, op)
    requires |FileSteps(w, op)| < taken <= |PlanOf(m, w, op).steps|
    ensures var rs := ResolveAll(w.db, op.key, op.refs).value;
            var files := PathsOf(rs);
            && (forall f | f in files :: w.disk.Holds(f) && f.BlockFile? && f.block.blob == op.key)
            && var data := PartsData(w.disk, files);
               Assembled(w, op.key, files, BlocksOf(rs), NewRow(m, op.key, data, op.headers), data,
                         Midway(m, w, op, taken))
  {
    var rs := ResolveAll(w.db, op.key, op.refs).value;
    AssemblyCompletes(w, h, op.key, op.refs, op.schedule);
    PathsOfOneBlob(w, h, op.key, op.refs);
    CommittedSteps(m, w, op, rs, taken);
  }

  /** The transaction is the last step of a Put Blob and a Put Block. */
  lemma CommittedIsFinished(m: Md5, w: World, op: Op, taken: nat)
    requires (op.PutBlob? || op.PutBlock?) && taken <= |PlanOf(m, w, op).steps| && CommitTaken(m, w, op, taken)
    ensures Midway(m, w, op, taken) == Finish(m, w, op)
  {
    assert taken == |PlanOf(m, w, op).steps|;
    MidwayAtEnd(m, w, op);
  }

  /** A committed upload of a blob: its row is the new one and its file is there for
      good. */
  lemma CommittedBlob(m: Md5, w: World, op: Op, taken: nat, h: History)
    requires (op.PutBlob? || op.PutBlockList?) && Intact(w, h)
    requires taken <= |PlanOf(m, w, op).steps| && CommitTaken(m, w, op, taken)
    ensures var w1 := Midway(m, w, op, taken);
            && w1.db.blobs == w.db.blobs[op.key := NewRow(m, op.key, BodyOf(w, op).Data(), op.headers)]
            && w1.disk.Entry(BlobFile(op.key)) == Some(|w.disk.inodes|)
            && w1.disk.Residue(BlobFile(op.key)) == {}
            && w1.disk.inodes == w.disk.inodes + [Inode(BodyOf(w, op).Data(), true)]
  {
    if op.PutBlob? {
      CommittedIsFinished(m, w, op, taken);
      PutBlobEffect(m, w, op);
    } else {
      var files := PathsOf(ResolveAll(w.db, op.key, op.refs).value);
      AssemblyCompletes(w, h, op.key, op.refs, op.schedule);
      CommittedPrefix(m, w, op, taken, h);
      AssembledBlob(w, op.key, files, BlocksOf(ResolveAll(w.db, op.key, op.refs).value),
                    NewRow(m, op.key, PartsData(w.disk, files), op.headers), PartsData(w.disk, files),
                    Midway(m, w, op, taken));
    }
  }

  lemma AssembledBlob(w: World, k: Key, files: seq<FileName>, blocks: seq<Block>, row: BlobRow, data: Bytes, w1: World)
    requires Assembled(w, k, files, blocks, row, data, w1)
    ensures w1.db.blobs == w.db.blobs[k := row]
    ensures w1.disk.Entry(BlobFile(k)) == Some(|w.disk.inodes|) && w1.disk.Residue(BlobFile(k)) == {}
    ensures w1.disk.inodes == w.disk.inodes + [Inode(data, true)]
  {
  }

  /** Once a deletion has begun all rows of the container are gone. */
  lemma DeletionBegun(m: Md5, w: World, a: string, c: string, taken: nat)
    requires (a, c) in w.db.containers && 1 <= taken <= |PlanOf(m, w, DeleteContainer(a, c)).steps|
    ensures Midway(m, w, DeleteContainer(a, c), taken).db == w.db.WithoutContainer(a, c)
  {
    var drop := DropContainer(a, c);
    var rest := Removes(BlobPaths(w.db, a, c)) + [RemoveTree(a, c)];
    var steps := PlanOf(m, w, DeleteContainer(a, c)).steps;
    assert steps == [drop] + rest;
    assert steps[..taken] == [drop] + rest[..taken - 1];
    RunAppend(w, [drop], rest[..taken - 1]);
    RunOne(w, drop);
    forall s | s in rest[..taken - 1] ensures IsDiskStep(s) {
      assert s in rest;
    }
    DiskStepsKeepDb(Apply(w, drop), rest[..taken - 1]);
  }

  // -------------------------------------------------- rows keep their files

  /** The step does not take the file's name away. */
  predicate Spares(s: Step, f: FileName) {
    match s
    case Rename(from, _) => f != from
    case Remove(g) => f != g
    case RemoveTree(a, c) => !f.In(a, c)
    case _ => true
  }

  lemma SparingStep(w: World, s: Step, f: FileName)
    requires Spares(s, f) && !f.TempFile? && None !in w.disk.Possible(f)
    ensures None !in Apply(w, s).disk.Possible(f)
  {
    PossibleAfter(w.disk, s, f);
    if !Touches(s, w.disk, f) { UntouchedPossible(w.disk, s, f); }
  }

  lemma {:induction false} RunSpares(w: World, steps: seq<Step>, f: FileName)
    requires forall s | s in steps :: Spares(s, f)
    requires !f.TempFile? && None !in w.disk.Possible(f)
    ensures None !in Run(w, steps).disk.Possible(f)
    decreases |steps|
  {
    if steps == [] {
    } else {
      assert steps[0] in steps;
      SparingStep(w, steps[0], f);
      RunSpares(Apply(w, steps[0]), steps[1..], f);
    }
  }

  lemma OthersBacked(m: Md5, w: World, op: Op, taken: nat, k: Key, h: History)
    requires Intact(w, h) && Settled(w) && taken <= |PlanOf(m, w, op).steps|
    requires !ScopeOf(op).Covers(k) && k in Midway(m, w, op, taken).db.blobs && k !in Missing(w)
    ensures None !in Midway(m, w, op, taken).disk.Possible(BlobFile(k))
  {
    OperationFrame(m, w, op, taken, h);
    assert k in w.db.blobs;
  }

  lemma WrittenBacked(m: Md5, w: World, op: Op, taken: nat, k: Key, h: History)
    requires IsWrite(op) && Intact(w, h) && Settled(w) && taken <= |PlanOf(m, w, op).steps|
    requires ScopeOf(op) == OneBlob(k) && k in Midway(m, w, op, taken).db.blobs
    requires k !in Missing(w) && !Clobbers(m, w.db, op)
    ensures None !in Midway(m, w, op, taken).disk.Possible(BlobFile(k))
  {
    if !CommitTaken(m, w, op, taken) {
      UncommittedBacked(m, w, op, taken, k, h);
    } else if op.PutBlock? {
      CommittedIsFinished(m, w, op, taken);
      PutBlockEffect(m, w, op);
    } else {
      CommittedBlob(m, w, op, taken, h);
    }
  }

  lemma UncommittedBacked(m: Md5, w: World, op: Op, taken: nat, k: Key, h: History)
    requires IsWrite(op) && Intact(w, h) && Settled(w) && taken <= |PlanOf(m, w, op).steps|
    requires !CommitTaken(m, w, op, taken)
    requires ScopeOf(op) == OneBlob(k) && k in Midway(m, w, op, taken).db.blobs
    requires k !in Missing(w) && !Clobbers(m, w.db, op)
    ensures None !in Midway(m, w, op, taken).disk.Possible(BlobFile(k))
  {
    BeforeTheCommit(m, w, op, taken, h);
    UncommittedSpares(m, w, op, taken, k);
    RunSpares(w, PlanOf(m, w, op).steps[..taken], BlobFile(k));
  }

  lemma UncommittedSpares(m: Md5, w: World, op: Op, taken: nat, k: Key)
    requires IsWrite(op) && taken <= |PlanOf(m, w, op).steps| && !CommitTaken(m, w, op, taken)
    requires ScopeOf(op) == OneBlob(k) && k in w.db.blobs && !Clobbers(m, w.db, op)
    ensures forall s | s in PlanOf(m, w, op).steps[..taken] :: Spares(s, BlobFile(k))
  {
    WriteStepsSpare(AccountOf(op), |w.disk.inodes|, Dest(op), BodyOf(w, op), BlobFile(k));
    forall s | s in PlanOf(m, w, op).steps[..taken] ensures Spares(s, BlobFile(k)) {
      UncommittedStep(m, w, op, taken, s);
    }
  }

  lemma WriteStepsSpare(a: string, ino: nat, dest: FileName, body: Body, f: FileName)
    requires !f.TempFile?
    ensures forall s | s in WriteSteps(a, ino, dest, body) :: Spares(s, f)
  {
  }

  lemma DeletedBlobBacked(m: Md5, w: World, op: Op, taken: nat)
    requires op.DeleteBlob? && taken <= |PlanOf(m, w, op).steps| && Settled(w)
    requires op.key in Midway(m, w, op, taken).db.blobs && op.key !in Missing(w)
    ensures None !in Midway(m, w, op, taken).disk.Possible(BlobFile(op.key))
  {
    if taken > 0 {
      DeletionMidway(m, w, op, taken);
    }
  }

  lemma DeletionMidway(m: Md5, w: World, op: Op, taken: nat)
    requires op.DeleteBlob? && 1 <= taken <= |PlanOf(m, w, op).steps|
    ensures var db := Midway(m, w, op, taken).db;
            db == if taken == 1 then ApplyDb(w.db, DeleteBlobRow(op.key))
                  else if taken == 2 then ApplyDb(ApplyDb(w.db, DeleteBlobRow(op.key)), DeleteCommitted(op.key))
                  else ApplyDb(ApplyDb(ApplyDb(w.db, DeleteBlobRow(op.key)), DeleteCommitted(op.key)),
                               DeleteStaged(op.key))
    ensures taken <= 3 ==> Midway(m, w, op, taken).disk == w.disk
    ensures taken == 4 ==> Midway(m, w, op, taken) == Finish(m, w, op)
  {
    var steps := PlanOf(m, w, op).steps;
    var one := [DeleteBlobRow(op.key)];
    var two := one + [DeleteCommitted(op.key)];
    var three := two + [DeleteStaged(op.key)];
    RunOne(w, DeleteBlobRow(op.key));
    RunSnoc(w, one, DeleteCommitted(op.key));
    RunSnoc(w, two, DeleteStaged(op.key));
    RunSnoc(w, three, steps[3]);
    assert steps == three + [steps[3]];
    assert steps[..1] == one && steps[..2] == two && steps[..3] == three && steps[..4] == steps;
  }

  lemma DeletedContainerBacked(m: Md5, w: World, op: Op, taken: nat, k: Key)
    requires op.DeleteContainer? && taken <= |PlanOf(m, w, op).steps| && Settled(w)
    requires ScopeOf(op).Covers(k) && k in Midway(m, w, op, taken).db.blobs && k !in Missing(w)
    ensures None !in Midway(m, w, op, taken).disk.Possible(BlobFile(k))
  {
    if taken > 0 {
      DeletionBegun(m, w, op.account, op.container, taken);
    }
  }

  lemma CreatedContainerBacked(m: Md5, w: World, op: Op, taken: nat, k: Key)
    requires op.CreateContainer? && taken <= |PlanOf(m, w, op).steps| && Settled(w)
    requires k in Midway(m, w, op, taken).db.blobs && k !in Missing(w)
    ensures None !in Midway(m, w, op, taken).disk.Possible(BlobFile(k))
  {
    if taken == 1 {
      MidwayAtEnd(m, w, op);
      RunOne(w, InsertContainer(op.account, op.container));
    }
  }

  /** The blobs that may be without a file while the operation is under way. */
  function LostMeanwhile(m: Md5, w: World, op: Op, lost: set<Key>): set<Key> {
    if Clobbers(m, w.db, op) then lost + {op.key} else lost
  }

  /** At every moment of an operation every blob row has its file, now and after a
      crash, but for the blobs that were lost and the one a refused overwrite loses. */
  lemma MidwayBacked(m: Md5, w: World, op: Op, taken: nat, h: History)
    requires Intact(w, h) && Settled(w) && taken <= |PlanOf(m, w, op).steps|
    ensures Backed(Midway(m, w, op, taken), LostMeanwhile(m, w, op, Missing(w)))
  {
    forall k | k in Midway(m, w, op, taken).db.blobs && k !in LostMeanwhile(m, w, op, Missing(w))
      ensures None !in Midway(m, w, op, taken).disk.Possible(BlobFile(k))
    {
      if !ScopeOf(op).Covers(k) {
        OthersBacked(m, w, op, taken, k, h);
      } else if IsWrite(op) {
        WrittenBacked(m, w, op, taken, k, h);
      } else if op.DeleteBlob? {
        DeletedBlobBacked(m, w, op, taken);
      } else if op.DeleteContainer? {
        DeletedContainerBacked(m, w, op, taken, k);
      } else {
        CreatedContainerBacked(m, w, op, taken, k);
      }
    }
  }
}
