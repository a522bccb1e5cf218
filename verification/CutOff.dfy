/** Where a crash leaves a row and a file of different versions: between the renaming and
    the transaction of an overwrite, and exactly when. */
module CutOff {
  import opened Types
  import opened World
  import opened Plans
  import opened Integrity
  import opened SafePlans
  import opened Frames
  import opened Effects
  import opened Moments
  import opened Lost
  import opened CrashSafety
  import opened Refinement
  import opened Recovery
  import opened Retry

  /** The lost blobs under whose row a body is found again that was refused earlier. */
  function Returned(w: World, op: Op, w': World): set<Key> {
    set k | k in Missing(w) && k in w'.db.blobs && w'.disk.Entry(BlobFile(k)) != None
            && !(IsWrite(op) && Dest(op) == BlobFile(k) && FoundNew(w, op, w'.disk))
  }

  /** There is a row for the name that is being written. */
  predicate HasRow(w: World, op: Op)
    requires IsWrite(op)
  {
    if op.PutBlock? then op.block in w.db.staged else op.key in w.db.blobs
  }

  /** The new bytes have the length and the digest that the old row records. */
  predicate RowFits(m: Md5, w: World, op: Op)
    requires IsWrite(op) && HasRow(w, op)
  {
    var data := BodyOf(w, op).Data();
    if op.PutBlock? then
      w.db.staged[op.block].size == U64(|data|) && w.db.staged[op.block].md5 == m.Digest(data)
    else
      w.db.blobs[op.key].length == U64(|data|) && w.db.blobs[op.key].md5 == m.Digest(data)
  }

  /** The new file is found under its final name. */
  predicate FoundNew(w: World, op: Op, found: Disk)
    requires IsWrite(op)
  {
    found.Entry(Dest(op)) == Some(|w.disk.inodes|)
  }

  function OtherKeys(w: World, op: Op): set<Key>
    requires IsWrite(op)
  {
    if op.PutBlock? then w.db.blobs.Keys else w.db.blobs.Keys - {op.key}
  }

  function OtherStaged(w: World, op: Op): set<BlockKey>
    requires IsWrite(op)
  {
    if op.PutBlock? then w.db.staged.Keys - {op.block} else w.db.staged.Keys
  }

  // ------------------------------------------------ cut off before the commit

  /** Cut off before its transaction a write leaves the tables and all other files, but
      for lost blobs that return. */
  lemma OthersAfterCut(m: Md5, w: World, op: Op, n: nat, w': World, h: History)
    requires IsWrite(op) && Intact(w, h) && Settled(w) && Happens(m, w, Crash(op, n, w'.disk), w')
    requires !CommitTaken(m, w, op, n)
    ensures w'.db == w.db
    ensures SameData(w.disk, w'.disk, OtherKeys(w, op) - Returned(w, op, w'), OtherStaged(w, op))
  {
    var w1 := Midway(m, w, op, n);
    BeforeTheCommit(m, w, op, n, h);
    forall k | k in OtherKeys(w, op) - Returned(w, op, w') ensures SameFile(w.disk, w'.disk, BlobFile(k)) {
      if k !in Missing(w) {
        CrashKeepsFile(w.disk, w1.disk, w'.disk, h, BlobFile(k));
      }
    }
    forall b | b in OtherStaged(w, op) ensures SameFile(w.disk, w'.disk, BlockFile(b)) {
      CrashKeepsFile(w.disk, w1.disk, w'.disk, h, BlockFile(b));
    }
  }

  /** Found new, the final name leads to the whole of the new bytes. */
  lemma NewFileIsWhole(m: Md5, w: World, op: Op, n: nat, w': World, h: History)
    requires IsWrite(op) && Intact(w, h) && Intended(w, op) <= h && Happens(m, w, Crash(op, n, w'.disk), w')
    requires FoundNew(w, op, w'.disk)
    ensures w'.disk.Holds(Dest(op)) && w'.disk.Data(Dest(op)) == BodyOf(w, op).Data()
  {
    MidwayIntact(m, w, op, n, h);
    FoundOldOrNew(m, w, op, n, h);
    FoundFile(Midway(m, w, op, n).disk, w'.disk, Dest(op), h);
  }

  /** Found otherwise, the file is the old one, or gone after a refusal. */
  lemma OldFileIsKept(m: Md5, w: World, op: Op, n: nat, w': World, h: History)
    requires IsWrite(op) && Intact(w, h) && Settled(w) && Happens(m, w, Crash(op, n, w'.disk), w')
    requires !CommitTaken(m, w, op, n) && HasRow(w, op) && !FoundNew(w, op, w'.disk)
    requires Dest(op).BlobFile? ==> op.key !in Returned(w, op, w')
    ensures || SameFile(w.disk, w'.disk, Dest(op))
            || (Clobbers(m, w.db, op) && !w'.disk.Holds(Dest(op)))
  {
    var w1 := Midway(m, w, op, n);
    BeforeTheCommit(m, w, op, n, h);
    FoundOldOrNew(m, w, op, n, h);
    assert w'.disk.Entry(Dest(op)) in w1.disk.Possible(Dest(op));
    if w'.disk.Entry(Dest(op)) == w.disk.Entry(Dest(op)) {
      SameEntrySameFile(w.disk, w1.disk, w'.disk, h, Dest(op));
    }
  }

  lemma SameEntrySameFile(d: Disk, d1: Disk, found: Disk, h: History, f: FileName)
    requires FilesComplete(d, h) && SyncedKept(d, d1) && Recovers(d1, found) && !f.TempFile?
    requires found.Entry(f) == d.Entry(f)
    ensures SameFile(d, found, f)
  {
    assert Good(d, h, f, d.Entry(f));
  }

  /** Where the files are the same the rows stay true, so the others decide. */
  lemma FaithfulBesides(m: Md5, w: World, w': World, ks: set<Key>, bs: set<BlockKey>)
    requires Faithful(m, w) && w'.db == w.db
    requires SameData(w.disk, w'.disk, w.db.blobs.Keys - ks, w.db.staged.Keys - bs)
    ensures Faithful(m, w') <==>
              && (forall k | k in ks && k in w.db.blobs :: TrueRow(m, w'.disk, k, w.db.blobs[k]))
              && (forall b | b in bs && b in w.db.staged :: TrueStagedRow(m, w'.disk, b, w.db.staged[b]))
  {
    if && (forall k | k in ks && k in w.db.blobs :: TrueRow(m, w'.disk, k, w.db.blobs[k]))
       && (forall b | b in bs && b in w.db.staged :: TrueStagedRow(m, w'.disk, b, w.db.staged[b])) {
      FaithfulKept(m, w, w', w.db.blobs.Keys - ks, w.db.staged.Keys - bs);
    }
  }

  // ------------------------------------------------------ what comes back

  /** The row of a lost blob records the length and digest of the older file that is
      found under its name. */
  predicate ReturnFits(m: Md5, w: World, k: Key, found: Disk) {
    && k in w.db.blobs && BlobFile(k) in found.entries && found.entries[BlobFile(k)] < |w.disk.inodes|
    && var data := w.disk.inodes[found.entries[BlobFile(k)]].data;
       w.db.blobs[k].length == U64(|data|) && w.db.blobs[k].md5 == m.Digest(data)
  }

  /** Whatever comes back fits its row. */
  predicate ReturnsFit(m: Md5, w: World, op: Op, w': World) {
    forall k | k in Returned(w, op, w') :: ReturnFits(m, w, k, w'.disk)
  }

  /** A write changes the meaning of no blob's name but that of its own. */
  lemma OtherNames(m: Md5, w: World, op: Op, n: nat, k: Key, h: History)
    requires IsWrite(op) && Intact(w, h) && n <= |PlanOf(m, w, op).steps| && BlobFile(k) != Dest(op)
    ensures Midway(m, w, op, n).disk.Possible(BlobFile(k)) == w.disk.Possible(BlobFile(k))
  {
    if !CommitTaken(m, w, op, n) {
      BeforeTheCommit(m, w, op, n, h);
    } else if op.PutBlock? {
      CommittedIsFinished(m, w, op, n);
      PutBlockEffect(m, w, op);
    } else {
      OperationFrame(m, w, op, n, h);
    }
  }

  /** What comes back under a name is an older file with its bytes. */
  lemma ReturnedFile(m: Md5, w: World, op: Op, n: nat, w': World, k: Key, h: History)
    requires IsWrite(op) && Intact(w, h) && Intended(w, op) <= h
    requires Happens(m, w, Crash(op, n, w'.disk), w') && k in Returned(w, op, w')
    ensures w'.disk.Holds(BlobFile(k)) && w'.disk.entries[BlobFile(k)] < |w.disk.inodes|
    ensures w'.disk.Data(BlobFile(k)) == w.disk.inodes[w'.disk.entries[BlobFile(k)]].data
  {
    var w1, f := Midway(m, w, op, n), BlobFile(k);
    MidwayIntact(m, w, op, n, h);
    FoundFile(w1.disk, w'.disk, f, h);
    if f == Dest(op) {
      FoundOldOrNew(m, w, op, n, h);
    } else {
      OtherNames(m, w, op, n, k, h);
    }
    assert w'.disk.Entry(f) in w.disk.Possible(f);
    assert Good(w.disk, h, f, w'.disk.Entry(f));
    SyncedMidway(m, w, op, n, h);
  }

  lemma SyncedMidway(m: Md5, w: World, op: Op, n: nat, h: History)
    requires Intact(w, h) && n <= |PlanOf(m, w, op).steps|
    ensures SyncedKept(w.disk, Midway(m, w, op, n).disk)
  {
    OperationFrame(m, w, op, n, h);
  }

  lemma ReturnedRow(m: Md5, w: World, op: Op, n: nat, w': World, k: Key, h: History)
    requires IsWrite(op) && Intact(w, h) && Intended(w, op) <= h
    requires Happens(m, w, Crash(op, n, w'.disk), w') && k in Returned(w, op, w')
    ensures TrueRow(m, w'.disk, k, w.db.blobs[k]) <==> ReturnFits(m, w, k, w'.disk)
  {
    ReturnedFile(m, w, op, n, w', k, h);
    assert w.db.blobs[k].path == BlobFile(k);
  }

  // ------------------------------------------------ exactly when rows are true

  /** What decides about the name that is being written. */
  predicate DestFits(m: Md5, w: World, op: Op, n: nat, found: Disk)
    requires IsWrite(op)
  {
    CommitTaken(m, w, op, n) || !HasRow(w, op) || !FoundNew(w, op, found) || RowFits(m, w, op)
  }

  function DestKeys(op: Op): set<Key>
    requires IsWrite(op)
  {
    if op.PutBlock? then {} else {op.key}
  }

  function DestBlocks(op: Op): set<BlockKey>
    requires IsWrite(op)
  {
    if op.PutBlock? then {op.block} else {}
  }

  lemma DestRow(m: Md5, w: World, op: Op, n: nat, w': World, h: History)
    requires (op.PutBlob? || op.PutBlockList?) && Intact(w, h) && Intended(w, op) <= h && Settled(w) && Faithful(m, w)
    requires Happens(m, w, Crash(op, n, w'.disk), w') && !CommitTaken(m, w, op, n)
    requires op.key in w.db.blobs && op.key !in Returned(w, op, w')
    ensures TrueRow(m, w'.disk, op.key, w.db.blobs[op.key]) <==> DestFits(m, w, op, n, w'.disk)
  {
    assert TrueRow(m, w.disk, op.key, w.db.blobs[op.key]);
    if FoundNew(w, op, w'.disk) {
      NewFileIsWhole(m, w, op, n, w', h);
      assert w.db.blobs[op.key].path == BlobFile(op.key);
    } else {
      OldFileIsKept(m, w, op, n, w', h);
    }
  }

  lemma DestStagedRow(m: Md5, w: World, op: Op, n: nat, w': World, h: History)
    requires op.PutBlock? && Intact(w, h) && Intended(w, op) <= h && Settled(w) && Faithful(m, w)
    requires Happens(m, w, Crash(op, n, w'.disk), w') && !CommitTaken(m, w, op, n) && op.block in w.db.staged
    ensures TrueStagedRow(m, w'.disk, op.block, w.db.staged[op.block]) <==> DestFits(m, w, op, n, w'.disk)
  {
    assert TrueStagedRow(m, w.disk, op.block, w.db.staged[op.block]);
    if FoundNew(w, op, w'.disk) {
      NewFileIsWhole(m, w, op, n, w', h);
      assert w.db.staged[op.block].path == BlockFile(op.block);
    } else {
      OldFileIsKept(m, w, op, n, w', h);
    }
  }

  lemma FaithfulBeforeCommit(m: Md5, w: World, op: Op, n: nat, w': World, h: History)
    requires IsWrite(op) && Intact(w, h) && Intended(w, op) <= h && Settled(w) && Faithful(m, w)
    requires Happens(m, w, Crash(op, n, w'.disk), w') && !CommitTaken(m, w, op, n)
    ensures Faithful(m, w') <==> DestFits(m, w, op, n, w'.disk) && ReturnsFit(m, w, op, w')
  {
    var back := Returned(w, op, w');
    OthersAfterCut(m, w, op, n, w', h);
    assert w.db.blobs.Keys - (back + DestKeys(op)) == OtherKeys(w, op) - back;
    assert w.db.staged.Keys - DestBlocks(op) == OtherStaged(w, op);
    FaithfulBesides(m, w, w', back + DestKeys(op), DestBlocks(op));
    forall k | k in back
      ensures k in w.db.blobs && (TrueRow(m, w'.disk, k, w.db.blobs[k]) <==> ReturnFits(m, w, k, w'.disk))
    {
      ReturnedRow(m, w, op, n, w', k, h);
    }
    DestDecides(m, w, op, n, w', h);
  }

  /** The row of the name that is being written, unless an older file comes back there. */
  lemma DestDecides(m: Md5, w: World, op: Op, n: nat, w': World, h: History)
    requires IsWrite(op) && Intact(w, h) && Intended(w, op) <= h && Settled(w) && Faithful(m, w)
    requires Happens(m, w, Crash(op, n, w'.disk), w') && !CommitTaken(m, w, op, n)
    ensures DestFits(m, w, op, n, w'.disk) <==>
              && (forall k | k in DestKeys(op) && k in w.db.blobs && k !in Returned(w, op, w') ::
                    TrueRow(m, w'.disk, k, w.db.blobs[k]))
              && (forall b | b in DestBlocks(op) && b in w.db.staged ::
                    TrueStagedRow(m, w'.disk, b, w.db.staged[b]))
  {
    if !HasRow(w, op) {
    } else if op.PutBlock? {
      DestStagedRow(m, w, op, n, w', h);
    } else if op.key in Returned(w, op, w') {
      assert !FoundNew(w, op, w'.disk);
    } else {
      DestRow(m, w, op, n, w', h);
    }
  }

  // ------------------------------------------------------- worlds at rest

  /** A crash of a server at rest: it is sound afterwards and holds the same. */
  lemma CrashOfSound(m: Md5, w1: World, found: Disk)
    requires Sound(m, w1) && Recovers(w1.disk, found)
    requires forall k | k in Missing(w1) :: found.Entry(BlobFile(k)) == None
    ensures Sound(m, World(w1.db, found)) && Abstract(World(w1.db, found)) == Abstract(w1)
  {
    var h :| Intact(w1, h);
    CrashAtRest(w1, found, h);
    CrashKeepsIntact(w1, found, h);
    SimulateSame(m, w1, World(w1.db, found));
  }

  /** A write whose transaction was taken counts as done. */
  lemma CommittedIsSound(m: Md5, w: World, op: Op, n: nat, h: History)
    requires IsWrite(op) && Sound(m, w) && Intact(w, h) && Intended(w, op) <= h
    requires n <= |PlanOf(m, w, op).steps| && CommitTaken(m, w, op, n)
    ensures var w1 := Midway(m, w, op, n);
            && Sound(m, w1) && Abstract(w1) == StoreStep(m, Abstract(w), op).0
            && Missing(w1) == LostAfter(m, w, op, Missing(w))
  {
    SoundAfter(m, w, op);
    MissingAfter(m, w, op, h);
    if op.PutBlockList? {
      BlockListValidation(w, op.key, op.refs);
      CommittedOutcome(m, w, op, n, h);
      MidwayIntact(m, w, op, n, h);
      SimulateSame(m, Finish(m, w, op), Midway(m, w, op, n));
      MissingOfCommitted(m, w, op, n, h);
    } else {
      CommittedIsFinished(m, w, op, n);
    }
  }

  lemma MissingOfCommitted(m: Md5, w: World, op: Op, n: nat, h: History)
    requires Accepted(m, w, op) && Intact(w, h) && n <= |PlanOf(m, w, op).steps| && |FileSteps(w, op)| < n
    ensures Missing(Midway(m, w, op, n)) == Missing(w) - {op.key}
  {
    CommittedPrefix(m, w, op, n, h);
    var rs := ResolveAll(w.db, op.key, op.refs).value;
    var data := PartsData(w.disk, PathsOf(rs));
    MissingByCommit(w, op.key, PathsOf(rs), BlocksOf(rs), NewRow(m, op.key, data, op.headers), data,
                    Midway(m, w, op, n));
  }

  lemma CommittedAndFound(m: Md5, w: World, op: Op, n: nat, w': World, h: History)
    requires IsWrite(op) && Sound(m, w) && Intact(w, h) && Intended(w, op) <= h
    requires Happens(m, w, Crash(op, n, w'.disk), w')
    requires CommitTaken(m, w, op, n) && Returned(w, op, w') == {}
    ensures Sound(m, w') && Abstract(w') == StoreStep(m, Abstract(w), op).0
  {
    CommittedIsSound(m, w, op, n, h);
    LostOfCommitted(m, w, op, w');
    CrashOfSound(m, Midway(m, w, op, n), w'.disk);
  }

  lemma LostOfCommitted(m: Md5, w: World, op: Op, w': World)
    requires IsWrite(op) && PlanOf(m, w, op).reply.Ok?
    ensures LostAfter(m, w, op, Missing(w)) == if op.PutBlock? then Missing(w) else Missing(w) - {op.key}
    ensures forall k | k in LostAfter(m, w, op, Missing(w)) && k in w'.db.blobs && k !in Returned(w, op, w') ::
              w'.disk.Entry(BlobFile(k)) == None
  {
  }

  lemma FaithfulAfterCommit(m: Md5, w: World, op: Op, n: nat, w': World, h: History)
    requires IsWrite(op) && Sound(m, w) && Intact(w, h) && Intended(w, op) <= h
    requires Happens(m, w, Crash(op, n, w'.disk), w') && CommitTaken(m, w, op, n)
    ensures Faithful(m, w') <==> ReturnsFit(m, w, op, w')
  {
    var w1, back := Midway(m, w, op, n), Returned(w, op, w');
    CommittedIsKept(m, w, op, n, w', h);
    FaithfulBesides(m, w1, w', back, {});
    forall k | k in back
      ensures k in w1.db.blobs && w1.db.blobs[k] == w.db.blobs[k]
      ensures TrueRow(m, w'.disk, k, w.db.blobs[k]) <==> ReturnFits(m, w, k, w'.disk)
    {
      ReturnedElsewhere(m, w, op, n, w', k, h);
      CommittedRows(m, w, op, n, k, h);
      ReturnedRow(m, w, op, n, w', k, h);
    }
  }

  lemma CommittedIsKept(m: Md5, w: World, op: Op, n: nat, w': World, h: History)
    requires IsWrite(op) && Sound(m, w) && Intact(w, h) && Intended(w, op) <= h
    requires Happens(m, w, Crash(op, n, w'.disk), w') && CommitTaken(m, w, op, n)
    ensures var w1 := Midway(m, w, op, n);
            && Faithful(m, w1) && w'.db == w1.db
            && SameData(w1.disk, w'.disk, w1.db.blobs.Keys - Returned(w, op, w'), w1.db.staged.Keys - {})
  {
    CommittedIsSound(m, w, op, n, h);
    MidwayIntact(m, w, op, n, h);
    LostOfCommitted(m, w, op, w');
    RestIsKept(m, Midway(m, w, op, n), w', Returned(w, op, w'), h);
  }

  /** A committed write's own name leads to the new file. */
  lemma ReturnedElsewhere(m: Md5, w: World, op: Op, n: nat, w': World, k: Key, h: History)
    requires IsWrite(op) && Intact(w, h) && CommitTaken(m, w, op, n)
    requires Happens(m, w, Crash(op, n, w'.disk), w') && k in Returned(w, op, w')
    ensures BlobFile(k) != Dest(op)
  {
    CommittedFile(m, w, op, n, h);
    assert w'.disk.Entry(BlobFile(k)) in Midway(m, w, op, n).disk.Possible(BlobFile(k));
  }

  /** A crash at rest keeps all files but those that return. */
  lemma RestIsKept(m: Md5, w1: World, w': World, back: set<Key>, h: History)
    requires Intact(w1, h) && Settled(w1) && w'.db == w1.db && Recovers(w1.disk, w'.disk)
    requires forall k | k in Missing(w1) && k !in back :: w'.disk.Entry(BlobFile(k)) == None
    ensures SameData(w1.disk, w'.disk, w1.db.blobs.Keys - back, w1.db.staged.Keys)
  {
    CrashAtRest(w1, w'.disk, h);
  }

  /** The rows of lost blobs that stay lost are those of before. */
  lemma CommittedRows(m: Md5, w: World, op: Op, n: nat, k: Key, h: History)
    requires IsWrite(op) && Intact(w, h) && n <= |PlanOf(m, w, op).steps| && CommitTaken(m, w, op, n)
    requires k in w.db.blobs && BlobFile(k) != Dest(op)
    ensures var w1 := Midway(m, w, op, n); k in w1.db.blobs && w1.db.blobs[k] == w.db.blobs[k]
  {
    if op.PutBlock? {
      CommittedIsFinished(m, w, op, n);
      PutBlockEffect(m, w, op);
    } else {
      CommittedBlob(m, w, op, n, h);
    }
  }

  /** The exact window: cut off anywhere, a Put Blob, Put Block or Put Block List leaves
      rows that tell the truth about their files if and only if (its transaction was
      taken, or its name had no row, or the new file is not found, or the old row
      happens to record the new file's length and digest) and (every refused body that
      comes back under a lost blob's row happens to have the length and digest the row
      records). */
  lemma FaithfulExactly(m: Md5, w: World, op: Op, n: nat, w': World)
    requires IsWrite(op) && Sound(m, w) && Happens(m, w, Crash(op, n, w'.disk), w')
    ensures Faithful(m, w') <==>
              && (|| CommitTaken(m, w, op, n)
                  || !HasRow(w, op)
                  || !FoundNew(w, op, w'.disk)
                  || RowFits(m, w, op))
              && ReturnsFit(m, w, op, w')
  {
    var h0 :| Intact(w, h0);
    var h := h0 + Intended(w, op);
    MoreHistory(w, h0, h);
    if CommitTaken(m, w, op, n) {
      FaithfulAfterCommit(m, w, op, n, w', h);
    } else {
      FaithfulBeforeCommit(m, w, op, n, w', h);
    }
  }
}
