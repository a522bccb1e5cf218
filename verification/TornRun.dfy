/** A run that ends in the window between the renaming and the transaction. */
module TornRun {
  import opened Types
  import opened World
  import opened Plans
  import opened Integrity
  import opened SafePlans
  import opened Moments
  import opened CrashSafety
  import opened Refinement
  import opened Recovery
  import opened BlobRead
  import opened Ranges
  import opened CutOff
  import opened Applied
  import Md5Mismatch

  /** The world right before the transaction of an overwrite, as a crash may leave it. */
  function JustBeforeCommit(m: Md5, w: World, op: Op): World
    requires op.PutBlob? && PlanOf(m, w, op).reply.Ok?
  {
    TransactionStep(m, w, op);
    var w1 := Midway(m, w, op, |FileSteps(w, op)|);
    World(w1.db, Reboot(w1.disk))
  }

  lemma JustBeforeCommitHappens(m: Md5, w: World, op: Op)
    requires op.PutBlob? && PlanOf(m, w, op).reply.Ok?
    ensures var w' := JustBeforeCommit(m, w, op);
            && Happens(m, w, Crash(op, |FileSteps(w, op)|, w'.disk), w')
            && w'.db == w.db && FoundNew(w, op, w'.disk)
            && w'.disk.Holds(BlobFile(op.key)) && w'.disk.Data(BlobFile(op.key)) == op.body.Data()
  {
    var write := FileSteps(w, op);
    TransactionStep(m, w, op);
    PlanShape(m, w, op);
    assert PlanOf(m, w, op).steps[..|write|] == write;
    RunWrite(w, op.key.account, BlobFile(op.key), op.body);
    RebootRecovers(Run(w, write).disk);
  }

  /** The window is real, and an acknowledged blob can become dishonest in it: put one
      byte, overwrite it with nothing, and crash between the renaming and the
      transaction. A GET then succeeds, announces one byte and delivers none. */
  lemma TornHappens(m: Md5, k: Key, one: bv8, headers: Headers) returns (w: World, op: Op, w': World)
    ensures w == RunOps(m, Empty({k.account}),
                        [CreateContainer(k.account, k.container), Md5Mismatch.FirstPut(k, one, headers)]).0
    ensures op == PutBlob(k, Body([], true), None, headers)
    ensures Happens(m, w, Crash(op, |FileSteps(w, op)|, w'.disk), w')
    ensures Torn(m, w, op, |FileSteps(w, op)|, w'.disk)
    ensures GetBlob(w', k, None).Ok? && GetBlob(w', k, None).value.totalLen == 1
    ensures GetBlob(w', k, None).value.body == []
    ensures !Honest(GetBlob(w', k, None).value, []) && !Faithful(m, w')
  {
    w := Md5Mismatch.OneBlob(m, k, one, headers);
    op := PutBlob(k, Body([], true), None, headers);
    SoundRow(m, w, k);
    RowOfSound(m, w, k);
    w' := JustBeforeCommit(m, w, op);
    JustBeforeCommitHappens(m, w, op);
    TornAnswer(m, w', k);
  }

  lemma RowOfSound(m: Md5, w: World, k: Key)
    requires Sound(m, w) && k in w.db.blobs
    ensures (k.account, k.container) in w.db.containers
  {
    var h :| Intact(w, h);
  }

  lemma TornAnswer(m: Md5, w: World, k: Key)
    requires k in w.db.blobs && w.db.blobs[k].path == BlobFile(k) && w.db.blobs[k].length == 1
    requires w.disk.Holds(BlobFile(k)) && w.disk.Data(BlobFile(k)) == []
    ensures GetBlob(w, k, None).Ok? && GetBlob(w, k, None).value.totalLen == 1
    ensures GetBlob(w, k, None).value.body == []
    ensures !Honest(GetBlob(w, k, None).value, []) && !Faithful(m, w)
  {
    assert !TrueRow(m, w.disk, k, w.db.blobs[k]);
    assert Numeral(1)[0] == '1' && Numeral(0)[0] == '0';
  }

  // ------------------------------------------------------ a cut-off deletion

  /** Create a container, stage a block, commit it and stage another. */
  function BeforeDeletion(k: Key, one: bv8, headers: Headers): seq<Op> {
    [CreateContainer(k.account, k.container)]
    + ([PutBlock(BlockKey(k, "a"), Body([[one]], true))]
       + ([PutBlockList(k, [BlockRef("a", Latest)], headers, [])]
          + ([PutBlock(BlockKey(k, "b"), Body([[one]], true))] + [])))
  }

  lemma DeletableOnStore(m: Md5, s: Store, k: Key, one: bv8, headers: Headers)
    requires s.Has(k)
    ensures var s' := StoreRun(m, s, BeforeDeletion(k, one, headers)[1..]).0;
            k in s'.blobs && k in s'.layout && BlockKey(k, "b") in s'.staged
  {
    var a, b := BlockKey(k, "a"), BlockKey(k, "b");
    var stage, commit := PutBlock(a, Body([[one]], true)), PutBlockList(k, [BlockRef("a", Latest)], headers, []);
    var again := PutBlock(b, Body([[one]], true));
    StageOne(m, s, a, [one]);
    var s1 := StoreStep(m, s, stage).0;
    CommitOne(m, s1, k, Latest, [one], headers);
    var s2 := StoreStep(m, s1, commit).0;
    StageOne(m, s2, b, [one]);
    assert BeforeDeletion(k, one, headers)[1..] == [stage] + ([commit] + ([again] + []));
    StoreRunCons(m, s, stage, [commit] + ([again] + []));
    StoreRunCons(m, s1, commit, [again] + []);
    StoreRunCons(m, s2, again, []);
  }

  /** A server with a blob of one committed block and another block staged. */
  lemma Deletable(m: Md5, k: Key, one: bv8, headers: Headers) returns (w: World)
    ensures w == RunOps(m, Empty({k.account}), BeforeDeletion(k, one, headers)).0
    ensures Sound(m, w) && k in w.db.blobs && k in w.db.committed && BlockKey(k, "b") in w.db.staged
  {
    var ops, s0 := BeforeDeletion(k, one, headers), Abstract(Empty({k.account}));
    w := RunOps(m, Empty({k.account}), ops).0;
    EmptyIsSound(m, {k.account});
    RunRefines(m, Empty({k.account}), ops);
    assert ops == [ops[0]] + ops[1..];
    StoreRunCons(m, s0, ops[0], ops[1..]);
    DeletableOnStore(m, StoreStep(m, s0, ops[0]).0, k, one, headers);
  }

  /** Cut off after its first statement a deletion leaves block rows of a blob that is not
      there any more: neither as before nor as after it, and not even consistent. */
  lemma TornDeletionHappens(m: Md5, k: Key, one: bv8, headers: Headers) returns (w: World, w': World)
    ensures w == RunOps(m, Empty({k.account}), BeforeDeletion(k, one, headers)).0
    ensures Happens(m, w, Crash(DeleteBlob(k), 1, w'.disk), w')
    ensures k !in w'.db.blobs && k in w'.db.committed && BlockKey(k, "b") in w'.db.staged
    ensures GetBlob(w', k, None) == Err(BlobNotFound)
    ensures !Referential(m, w') && !OldOrApplied(m, w, DeleteBlob(k), w')
  {
    w := Deletable(m, k, one, headers);
    w' := DeletionTears(m, w, k, BlockKey(k, "b"));
  }

  lemma DeletionTears(m: Md5, w: World, k: Key, b: BlockKey) returns (w': World)
    requires k in w.db.blobs && k in w.db.committed && b in w.db.staged && b.blob == k
    ensures Happens(m, w, Crash(DeleteBlob(k), 1, w'.disk), w')
    ensures k !in w'.db.blobs && k in w'.db.committed && b in w'.db.staged
    ensures GetBlob(w', k, None) == Err(BlobNotFound)
    ensures !Referential(m, w') && !OldOrApplied(m, w, DeleteBlob(k), w')
  {
    w' := FirstStatementOnly(m, w, k);
    LeftStagedShows(m, w, k, b, w');
    DanglingRows(m, w', k);
  }

  lemma FirstStatementOnly(m: Md5, w: World, k: Key) returns (w': World)
    requires k in w.db.blobs
    ensures Happens(m, w, Crash(DeleteBlob(k), 1, w'.disk), w') && w'.db == ApplyDb(w.db, DeleteBlobRow(k))
  {
    var w1 := Midway(m, w, DeleteBlob(k), 1);
    w' := World(w1.db, Reboot(w1.disk));
    RebootRecovers(w1.disk);
    DeletionMidway(m, w, DeleteBlob(k), 1);
  }

  lemma DanglingRows(m: Md5, w: World, k: Key)
    requires k !in w.db.blobs && k in w.db.committed
    ensures GetBlob(w, k, None) == Err(BlobNotFound) && !Referential(m, w)
  {
    assert k in w.db.committed.Keys;
  }
}
