/** What a client sees of an operation that a crash cut off: nothing of it, or all of it,
    but for the blobs that the crash tears. */
module Applied {
  import opened Types
  import opened World
  import opened Plans
  import opened Integrity
  import opened SafePlans
  import opened Frames
  import opened Effects
  import opened Moments
  import opened Lost
  import opened CrashSafety
  import opened Refinement
  import opened CutOff

  /** Rows that a deletion of the blob has not reached yet. */
  predicate LeftOver(db: Db, k: Key, n: nat) {
    || (n == 1 && k in db.committed)
    || (n <= 2 && exists b :: b in db.staged && b.blob == k)
  }

  /** The windows in which a crash leaves the operation's own blob between before and
      after: an overwrite between renaming and transaction, a deletion between its
      statements. What else may go wrong is that a lost blob comes back: `Returned`. */
  predicate Torn(m: Md5, w: World, op: Op, n: nat, found: Disk) {
    if IsWrite(op) then
      && !CommitTaken(m, w, op, n) && HasRow(w, op) && FoundNew(w, op, found)
      && !(w.disk.Holds(Dest(op)) && w.disk.Data(Dest(op)) == BodyOf(w, op).Data())
    else
      op.DeleteBlob? && 1 <= n <= 2 && LeftOver(w.db, op.key, n)
  }

  /** The state of the simple store without or with the operation. */
  ghost predicate OldOrApplied(m: Md5, w: World, op: Op, w': World) {
    Abstract(w') == Abstract(w) || Abstract(w') == StoreStep(m, Abstract(w), op).0
  }

  lemma UncommittedIsOld(m: Md5, w: World, op: Op, n: nat, w': World, h: History)
    requires IsWrite(op) && Sound(m, w) && Intact(w, h) && Intended(w, op) <= h
    requires Happens(m, w, Crash(op, n, w'.disk), w')
    requires !CommitTaken(m, w, op, n) && !Torn(m, w, op, n, w'.disk) && Returned(w, op, w') == {}
    ensures Faithful(m, w') && OldOrApplied(m, w, op, w')
  {
    OthersAfterCut(m, w, op, n, w', h);
    assert OtherKeys(w, op) - Returned(w, op, w') == OtherKeys(w, op);
    if !HasRow(w, op) {
      assert OtherKeys(w, op) == w.db.blobs.Keys && OtherStaged(w, op) == w.db.staged.Keys;
      SimulateSame(m, w, w');
    } else if FoundNew(w, op, w'.disk) {
      NewFileIsWhole(m, w, op, n, w', h);
      SameEverywhere(m, w, op, w');
    } else {
      OldFileIsKept(m, w, op, n, w', h);
      if SameFile(w.disk, w'.disk, Dest(op)) {
        SameEverywhere(m, w, op, w');
      } else {
        RefusedIsApplied(m, w, op, w');
      }
    }
  }

  lemma SameEverywhere(m: Md5, w: World, op: Op, w': World)
    requires IsWrite(op) && Faithful(m, w) && w'.db == w.db
    requires SameData(w.disk, w'.disk, OtherKeys(w, op), OtherStaged(w, op)) && SameFile(w.disk, w'.disk, Dest(op))
    ensures Abstract(w') == Abstract(w) && Faithful(m, w')
  {
    SimulateSame(m, w, w');
  }

  lemma RefusedIsApplied(m: Md5, w: World, op: Op, w': World)
    requires Clobbers(m, w.db, op) && Faithful(m, w) && w'.db == w.db && !w'.disk.Holds(Dest(op))
    requires SameData(w.disk, w'.disk, OtherKeys(w, op), OtherStaged(w, op))
    requires RowsInContainers(w.db)
    ensures Abstract(w') == StoreStep(m, Abstract(w), op).0 && Faithful(m, w')
  {
    SimulateLosing(m, w, op.key, w');
  }

  lemma WriteCutOff(m: Md5, w: World, op: Op, n: nat, w': World, h: History)
    requires IsWrite(op) && Sound(m, w) && Intact(w, h) && Intended(w, op) <= h
    requires Happens(m, w, Crash(op, n, w'.disk), w')
    requires !Torn(m, w, op, n, w'.disk) && Returned(w, op, w') == {}
    ensures Sound(m, w') && OldOrApplied(m, w, op, w')
  {
    EventKeepsInvariant(m, w, Crash(op, n, w'.disk), w', h);
    if CommitTaken(m, w, op, n) {
      CommittedAndFound(m, w, op, n, w', h);
    } else {
      UncommittedIsOld(m, w, op, n, w', h);
    }
  }

  /** A moment at which the server could as well be at rest. */
  ghost predicate Restful(m: Md5, w: World, op: Op, w1: World) {
    Sound(m, w1) && OldOrApplied(m, w, op, w1) && Missing(w1) <= Missing(w)
  }

  lemma FinishIsRestful(m: Md5, w: World, op: Op)
    requires Sound(m, w) && !Clobbers(m, w.db, op)
    ensures Restful(m, w, op, Finish(m, w, op))
  {
    var h :| Intact(w, h);
    SoundAfter(m, w, op);
    MissingAfter(m, w, op, h);
  }

  lemma DeletionDone(w: World, k: Key, n: nat, db: Db)
    requires 1 <= n <= 3 && (n <= 2 ==> !LeftOver(w.db, k, n))
    requires db == if n == 1 then ApplyDb(w.db, DeleteBlobRow(k))
                   else if n == 2 then ApplyDb(ApplyDb(w.db, DeleteBlobRow(k)), DeleteCommitted(k))
                   else ApplyDb(ApplyDb(ApplyDb(w.db, DeleteBlobRow(k)), DeleteCommitted(k)), DeleteStaged(k))
    ensures db == w.db.(blobs := w.db.blobs - {k}, committed := w.db.committed - {k}, staged := w.db.WithoutStaged(k))
  {
    if n == 1 { assert w.db.committed - {k} == w.db.committed; }
    if n <= 2 { assert w.db.WithoutStaged(k) == w.db.staged; }
  }

  lemma DeletedIsRestful(m: Md5, w: World, op: Op, w1: World)
    requires op.DeleteBlob? && op.key in w.db.blobs && Sound(m, w) && w1.disk == w.disk
    requires w1.db == w.db.(blobs := w.db.blobs - {op.key}, committed := w.db.committed - {op.key},
                            staged := w.db.WithoutStaged(op.key))
    requires exists h :: Intact(w1, h)
    ensures Restful(m, w, op, w1)
  {
    DeletedIsSimulated(m, w, op.key, w1);
    assert StoreStep(m, Abstract(w), op).0 == StoreStep(m, Abstract(w), DeleteBlob(op.key)).0;
  }

  lemma DeletedIsSimulated(m: Md5, w: World, k: Key, w1: World)
    requires k in w.db.blobs && Settled(w) && Faithful(m, w) && w1.disk == w.disk
    requires w1.db == w.db.(blobs := w.db.blobs - {k}, committed := w.db.committed - {k},
                            staged := w.db.WithoutStaged(k))
    ensures Abstract(w1) == StoreStep(m, Abstract(w), DeleteBlob(k)).0
    ensures Faithful(m, w1) && Settled(w1) && Missing(w1) <= Missing(w)
  {
    SimulateDeleteBlob(m, w, k, w1);
    FaithfulDelete(m, w, k, w1);
  }

  lemma DeleteBlobIsRestful(m: Md5, w: World, op: Op, n: nat, h: History)
    requires op.DeleteBlob? && Sound(m, w) && Intact(w, h) && n <= |PlanOf(m, w, op).steps|
    requires !(1 <= n <= 2 && LeftOver(w.db, op.key, n))
    ensures Restful(m, w, op, Midway(m, w, op, n))
  {
    if n == 0 {
    } else {
      DeletionMidway(m, w, op, n);
      if n == 4 {
        FinishIsRestful(m, w, op);
      } else {
        MidwayIntact(m, w, op, n, h);
        DeletionDone(w, op.key, n, Midway(m, w, op, n).db);
        DeletedIsRestful(m, w, op, Midway(m, w, op, n));
      }
    }
  }

  lemma DeleteContainerIsRestful(m: Md5, w: World, op: Op, n: nat, h: History)
    requires op.DeleteContainer? && Sound(m, w) && Intact(w, h) && n <= |PlanOf(m, w, op).steps|
    ensures Restful(m, w, op, Midway(m, w, op, n))
  {
    if n == 0 {
    } else {
      var w1 := Midway(m, w, op, n);
      DeletionBegun(m, w, op.account, op.container, n);
      OperationFrame(m, w, op, n, h);
      MidwayIntact(m, w, op, n, h);
      DroppedIsRestful(m, w, op, w1, h);
    }
  }

  lemma DroppedIsRestful(m: Md5, w: World, op: Op, w1: World, h: History)
    requires op.DeleteContainer? && (op.account, op.container) in w.db.containers
    requires Sound(m, w) && Intact(w, h) && Intact(w1, h)
    requires w1.db == w.db.WithoutContainer(op.account, op.container)
    requires SameRows(w.db, w1.db, ScopeOf(op)) && SameFiles(w.disk, w1.disk, ScopeOf(op))
    ensures Restful(m, w, op, w1)
  {
    SettledByFrame(w, op.account, op.container, w1);
    DeletionKeepsRest(w, op.account, op.container, w1, h);
    DeletionIsStoreStep(m, w, op.account, op.container, w1);
    MissingByDrop(w, op.account, op.container, w1);
  }

  lemma MidwayIsRestful(m: Md5, w: World, op: Op, n: nat, h: History)
    requires !IsWrite(op) && Sound(m, w) && Intact(w, h) && n <= |PlanOf(m, w, op).steps|
    requires !(op.DeleteBlob? && 1 <= n <= 2 && LeftOver(w.db, op.key, n))
    ensures Restful(m, w, op, Midway(m, w, op, n))
  {
    match op
    case DeleteBlob(_) => DeleteBlobIsRestful(m, w, op, n, h);
    case DeleteContainer(_, _) => DeleteContainerIsRestful(m, w, op, n, h);
    case CreateContainer(_, _) =>
      if n == |PlanOf(m, w, op).steps| {
        MidwayAtEnd(m, w, op);
        FinishIsRestful(m, w, op);
      }
  }

  /** The blobs that a crash leaves between before and after: the one that was torn, and
      lost ones under which a refused body comes back. */
  function Tears(m: Md5, w: World, op: Op, n: nat, w': World): set<Key> {
    (if Torn(m, w, op, n, w'.disk) then TornKeys(op) else {}) + Returned(w, op, w')
  }

  function TornKeys(op: Op): set<Key> {
    match op
    case PutBlob(k, _, _, _) => {k}
    case PutBlock(b, _) => {b.blob}
    case PutBlockList(k, _, _, _) => {k}
    case DeleteBlob(k) => {k}
    case CreateContainer(_, _) => {}
    case DeleteContainer(_, _) => {}
  }

  /** Where nothing is torn and nothing returns a cut-off operation either happened or did
      not: the server comes up sound, with the state of the simple store before or
      after the operation. */
  lemma CutOffRefines(m: Md5, w: World, op: Op, n: nat, w': World)
    requires Sound(m, w) && Happens(m, w, Crash(op, n, w'.disk), w')
    requires !Torn(m, w, op, n, w'.disk) && Returned(w, op, w') == {}
    ensures Sound(m, w') && OldOrApplied(m, w, op, w')
  {
    var h0 :| Intact(w, h0);
    var h := h0 + Intended(w, op);
    MoreHistory(w, h0, h);
    if IsWrite(op) {
      WriteCutOff(m, w, op, n, w', h);
    } else {
      RestfulCutOff(m, w, op, n, w', h);
    }
  }

  lemma RestfulCutOff(m: Md5, w: World, op: Op, n: nat, w': World, h: History)
    requires !IsWrite(op) && Sound(m, w) && Intact(w, h) && Happens(m, w, Crash(op, n, w'.disk), w')
    requires !Torn(m, w, op, n, w'.disk) && Returned(w, op, w') == {}
    ensures Sound(m, w') && OldOrApplied(m, w, op, w')
  {
    var w1 := Midway(m, w, op, n);
    MidwayIsRestful(m, w, op, n, h);
    NothingReturns(w, op, w1, w');
    CrashOfSound(m, w1, w'.disk);
  }

  lemma NothingReturns(w: World, op: Op, w1: World, w': World)
    requires !IsWrite(op) && Returned(w, op, w') == {} && Missing(w1) <= Missing(w) && w'.db == w1.db
    ensures forall k | k in Missing(w1) :: w'.disk.Entry(BlobFile(k)) == None
  {
    forall k | k in Missing(w1) ensures w'.disk.Entry(BlobFile(k)) == None {
      assert k !in Returned(w, op, w');
    }
  }

  // ------------------------------------------- deletions and container requests

  /** A lost blob that comes back is neither as before nor as after the operation. */
  lemma ReturnShows(m: Md5, w: World, op: Op, n: nat, w': World, k: Key, h: History)
    requires !IsWrite(op) && Intact(w, h) && Intended(w, op) <= h
    requires Happens(m, w, Crash(op, n, w'.disk), w') && k in Returned(w, op, w')
    ensures !OldOrApplied(m, w, op, w')
  {
    GoneThenThere(m, w, op, n, w', k, h);
    LostIsGone(m, w, op, k);
  }

  lemma GoneThenThere(m: Md5, w: World, op: Op, n: nat, w': World, k: Key, h: History)
    requires Intact(w, h) && Intended(w, op) <= h && Happens(m, w, Crash(op, n, w'.disk), w')
    requires k in Returned(w, op, w')
    ensures k in Abstract(w).blobs && Abstract(w).blobs[k].Gone?
    ensures k in Abstract(w').blobs && Abstract(w').blobs[k].Content?
  {
    MidwayIntact(m, w, op, n, h);
    FoundFile(Midway(m, w, op, n).disk, w'.disk, BlobFile(k), h);
  }

  lemma LostIsGone(m: Md5, w: World, op: Op, k: Key)
    requires !IsWrite(op) && k in Missing(w)
    ensures k in Abstract(w).blobs && Abstract(w).blobs[k].Gone?
    ensures var s := StoreStep(m, Abstract(w), op).0; k in s.blobs ==> s.blobs[k].Gone?
  {
  }

  lemma LeftOverShows(m: Md5, w: World, op: Op, n: nat, w': World)
    requires op.DeleteBlob? && Happens(m, w, Crash(op, n, w'.disk), w')
    requires 1 <= n <= 2 && LeftOver(w.db, op.key, n)
    ensures !(Sound(m, w') && OldOrApplied(m, w, op, w'))
  {
    DeletionMidway(m, w, op, n);
    if b :| b in w.db.staged && b.blob == op.key {
      LeftStagedShows(m, w, op.key, b, w');
      assert StoreStep(m, Abstract(w), op).0 == StoreStep(m, Abstract(w), DeleteBlob(op.key)).0;
    } else {
      LeftCommittedShows(m, op.key, w');
    }
  }

  lemma LeftStagedShows(m: Md5, w: World, k: Key, b: BlockKey, w': World)
    requires k in w.db.blobs && k !in w'.db.blobs && b in w'.db.staged && b.blob == k
    ensures Abstract(w') != Abstract(w) && Abstract(w') != StoreStep(m, Abstract(w), DeleteBlob(k)).0
  {
    assert k in Abstract(w).blobs && k !in Abstract(w').blobs;
    assert b in Abstract(w').staged && b !in StoreStep(m, Abstract(w), DeleteBlob(k)).0.staged;
  }

  lemma LeftCommittedShows(m: Md5, k: Key, w': World)
    requires k in w'.db.committed && k !in w'.db.blobs
    ensures !Faithful(m, w')
  {
  }

  /** Exactly: cut off anywhere, a deletion or a container request leaves the server sound
      and with the state before or after it, if and only if it is not a Delete Blob
      cut off between its statements while block rows are left, and no refused body
      comes back under a lost blob's row. */
  lemma NoWriteCutOffExactly(m: Md5, w: World, op: Op, n: nat, w': World)
    requires !IsWrite(op) && Sound(m, w) && Happens(m, w, Crash(op, n, w'.disk), w')
    ensures Sound(m, w') && OldOrApplied(m, w, op, w') <==>
              !(op.DeleteBlob? && 1 <= n <= 2 && LeftOver(w.db, op.key, n)) && Returned(w, op, w') == {}
  {
    var h0 :| Intact(w, h0);
    var h := h0 + Intended(w, op);
    MoreHistory(w, h0, h);
    if k :| k in Returned(w, op, w') {
      ReturnShows(m, w, op, n, w', k, h);
    } else if Torn(m, w, op, n, w'.disk) {
      LeftOverShows(m, w, op, n, w');
    } else {
      CutOffRefines(m, w, op, n, w');
    }
  }

  // ------------------------------------------------ what counts as torn is torn

  /** The simple stores hold the same of a blob and of its staged blocks. */
  ghost predicate SameAt(s: Store, s': Store, k: Key) {
    && (k in s.blobs <==> k in s'.blobs) && (k in s.blobs ==> s'.blobs[k] == s.blobs[k])
    && (forall b: BlockKey | b.blob == k ::
          && (b in s.staged <==> b in s'.staged) && (b in s.staged ==> s'.staged[b] == s.staged[b]))
  }

  /** No blob counts as torn by a crash that is as it was before the operation. */
  lemma TearsShow(m: Md5, w: World, op: Op, n: nat, w': World, k: Key, h0: History)
    requires Intact(w, h0) && Settled(w) && Happens(m, w, Crash(op, n, w'.disk), w')
    requires k in Tears(m, w, op, n, w')
    ensures !SameAt(Abstract(w), Abstract(w'), k)
  {
    var h := h0 + Intended(w, op);
    MoreHistory(w, h0, h);
    if k in Returned(w, op, w') {
      GoneThenThere(m, w, op, n, w', k, h);
    } else if IsWrite(op) {
      TornWriteShows(m, w, op, n, w', h);
    } else {
      TornDeletionShows(m, w, op, n, w');
    }
  }

  lemma TornDeletionShows(m: Md5, w: World, op: Op, n: nat, w': World)
    requires op.DeleteBlob? && Happens(m, w, Crash(op, n, w'.disk), w') && Torn(m, w, op, n, w'.disk)
    ensures op.key in Abstract(w).blobs && op.key !in Abstract(w').blobs
  {
    DeletionMidway(m, w, op, n);
  }

  lemma TornWriteShows(m: Md5, w: World, op: Op, n: nat, w': World, h: History)
    requires IsWrite(op) && Settled(w) && Intact(w, h) && Intended(w, op) <= h
    requires Happens(m, w, Crash(op, n, w'.disk), w') && Torn(m, w, op, n, w'.disk)
    ensures forall k | k in TornKeys(op) :: !SameAt(Abstract(w), Abstract(w'), k)
  {
    CutLeavesTables(m, w, op, n, w', h);
    NewFileIsWhole(m, w, op, n, w', h);
    if op.PutBlock? {
      NewBlockShows(w, op.block, BodyOf(w, op).Data(), w', h);
    } else {
      NewBlobShows(w, op.key, BodyOf(w, op).Data(), w');
    }
  }

  lemma CutLeavesTables(m: Md5, w: World, op: Op, n: nat, w': World, h: History)
    requires IsWrite(op) && Settled(w) && Intact(w, h) && Happens(m, w, Crash(op, n, w'.disk), w')
    requires !CommitTaken(m, w, op, n)
    ensures w'.db == w.db
  {
    OthersAfterCut(m, w, op, n, w', h);
  }

  lemma NewBlockShows(w: World, b: BlockKey, data: Bytes, w': World, h: History)
    requires Intact(w, h) && b in w.db.staged && w'.db == w.db
    requires w'.disk.Holds(BlockFile(b)) && w'.disk.Data(BlockFile(b)) == data
    requires !(w.disk.Holds(BlockFile(b)) && w.disk.Data(BlockFile(b)) == data)
    ensures !SameAt(Abstract(w), Abstract(w'), b.blob)
  {
    assert None !in w.disk.Possible(BlockFile(b));
    assert Good(w.disk, h, BlockFile(b), w.disk.Entry(BlockFile(b)));
    assert Abstract(w').staged[b] == data && Abstract(w).staged[b] != data;
  }

  lemma NewBlobShows(w: World, k: Key, data: Bytes, w': World)
    requires k in w.db.blobs && w'.db == w.db
    requires w'.disk.Holds(BlobFile(k)) && w'.disk.Data(BlobFile(k)) == data
    requires !(w.disk.Holds(BlobFile(k)) && w.disk.Data(BlobFile(k)) == data)
    ensures !SameAt(Abstract(w), Abstract(w'), k)
  {
    assert Abstract(w').blobs[k] == Content(data, w.db.blobs[k].headers);
    assert Abstract(w).blobs[k] != Content(data, w.db.blobs[k].headers);
  }
}
