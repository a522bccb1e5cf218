/** Crash safety over whole runs: operations one after the other, any of them cut
    off by a crash between any two of its steps. */
module CrashSafety {
  import opened Types
  import opened World
  import opened Plans
  import opened Integrity
  import opened SafePlans
  import opened Frames
  import opened Effects
  import opened Moments
  import opened Lost

  /** An operation runs to its end, or a crash strikes after `taken` of its steps
      and the server comes up with the disk `found`. */
  datatype Event = Completed(op: Op) | Crash(op: Op, taken: nat, found: Disk)

  ghost predicate Happens(m: Md5, w: World, e: Event, w': World) {
    match e
    case Completed(op) => w' == Finish(m, w, op)
    case Crash(op, taken, found) =>
      && taken <= |PlanOf(m, w, op).steps|
      && Recovers(Midway(m, w, op, taken).disk, found)
      && w' == World(Midway(m, w, op, taken).db, found)
  }

  /** `ws` are the worlds between the events, starting with an unused server. */
  ghost predicate IsRun(m: Md5, ws: seq<World>, es: seq<Event>) {
    && |ws| == |es| + 1
    && (exists accounts :: ws[0] == Empty(accounts))
    && (forall i | 0 <= i < |es| :: Happens(m, ws[i], es[i], ws[i + 1]))
  }

  /** Every complete body that the operations of a run set out to write. */
  function Written(ws: seq<World>, es: seq<Event>): History
    requires |ws| == |es| + 1
    decreases |es|
  {
    if es == [] then {}
    else
      var n := |es| - 1;
      Written(ws[..n + 1], es[..n]) + Intended(ws[n], es[n].op)
  }

  /** The blobs that may be without a file after an event, given those before it. */
  function LostBy(m: Md5, w: World, e: Event, lost: set<Key>): set<Key> {
    match e
    case Completed(op) => LostAfter(m, w, op, lost)
    case Crash(op, _, _) => LostMeanwhile(m, w, op, lost)
  }

  /** The blobs whose overwriting was refused during a run and that were neither
      written nor deleted since. */
  function LostIn(m: Md5, ws: seq<World>, es: seq<Event>): set<Key>
    requires |ws| == |es| + 1
    decreases |es|
  {
    if es == [] then {}
    else
      var n := |es| - 1;
      LostBy(m, ws[n], es[n], LostIn(m, ws[..n + 1], es[..n]))
  }

  lemma CrashMissesOnlyLost(w1: World, found: Disk, lost: set<Key>)
    requires Backed(w1, lost) && Recovers(w1.disk, found)
    ensures Missing(World(w1.db, found)) <= lost
  {
    forall k | k in w1.db.blobs && k !in lost ensures found.Entry(BlobFile(k)) != None {
      assert found.Entry(BlobFile(k)) in w1.disk.Possible(BlobFile(k));
    }
  }

  /** Every operation, whole or cut off, keeps the invariant; and only refused
      overwrites lose files. */
  lemma EventKeepsInvariant(m: Md5, w: World, e: Event, w': World, h: History)
    requires Intact(w, h) && Settled(w) && Intended(w, e.op) <= h
    requires Happens(m, w, e, w')
    ensures Intact(w', h) && Settled(w')
    ensures Missing(w') <= LostBy(m, w, e, Missing(w))
  {
    match e
    case Completed(op) =>
      MidwayAtEnd(m, w, op);
      MidwayIntact(m, w, op, |PlanOf(m, w, op).steps|, h);
      SettledAfter(m, w, op, h);
      MissingAfter(m, w, op, h);
    case Crash(op, taken, found) =>
      MidwayIntact(m, w, op, taken, h);
      CrashKeepsIntact(Midway(m, w, op, taken), found, h);
      MidwayBacked(m, w, op, taken, h);
      CrashMissesOnlyLost(Midway(m, w, op, taken), found, LostMeanwhile(m, w, op, Missing(w)));
  }

  lemma LostByMore(m: Md5, w: World, e: Event, lost: set<Key>, more: set<Key>)
    requires lost <= more
    ensures LostBy(m, w, e, lost) <= LostBy(m, w, e, more)
  {
  }

  /** After any run with any crashes the invariant holds, every file that a row names
      is there for good, and only the blobs that a refused overwrite lost are
      without one. */
  lemma {:induction false} RunIsIntact(m: Md5, ws: seq<World>, es: seq<Event>)
    requires IsRun(m, ws, es)
    ensures Intact(ws[|es|], Written(ws, es)) && Settled(ws[|es|])
    ensures Missing(ws[|es|]) <= LostIn(m, ws, es)
    decreases |es|
  {
    if es == [] {
    } else {
      var n := |es| - 1;
      var before, events := ws[..n + 1], es[..n];
      EarlierRun(m, ws, es, before, events);
      RunIsIntact(m, before, events);
      MoreHistory(ws[n], Written(before, events), Written(ws, es));
      EventKeepsInvariant(m, ws[n], es[n], ws[n + 1], Written(ws, es));
      LostByMore(m, ws[n], es[n], Missing(ws[n]), LostIn(m, before, events));
    }
  }

  lemma EarlierRun(m: Md5, ws: seq<World>, es: seq<Event>, before: seq<World>, events: seq<Event>)
    requires IsRun(m, ws, es) && es != []
    requires before == ws[..|es|] && events == es[..|es| - 1]
    ensures IsRun(m, before, events)
    ensures before[|events|] == ws[|es| - 1]
    ensures Written(ws, es) == Written(before, events) + Intended(ws[|es| - 1], es[|es| - 1].op)
    ensures LostIn(m, ws, es) == LostBy(m, ws[|es| - 1], es[|es| - 1], LostIn(m, before, events))
  {
  }

  /** Without refused overwrites nothing is lost. */
  lemma {:induction false} NothingLost(m: Md5, ws: seq<World>, es: seq<Event>)
    requires |ws| == |es| + 1 && forall i | 0 <= i < |es| :: !Clobbers(m, ws[i].db, es[i].op)
    ensures LostIn(m, ws, es) == {}
    decreases |es|
  {
    if es == [] {
    } else {
      var n := |es| - 1;
      NothingLost(m, ws[..n + 1], es[..n]);
    }
  }

  ghost predicate CompleteFile(d: Disk, f: FileName, h: History) {
    d.Holds(f) && (f, d.Data(f)) in h
  }

  lemma IntactRowsComplete(w: World, h: History)
    requires Intact(w, h)
    ensures forall k | k in w.db.blobs && k !in Missing(w) :: CompleteFile(w.disk, w.db.blobs[k].path, h)
    ensures forall b | b in w.db.staged :: CompleteFile(w.disk, w.db.staged[b].path, h)
  {
    forall k | k in w.db.blobs && k !in Missing(w) ensures CompleteFile(w.disk, BlobFile(k), h) {
      assert Good(w.disk, h, BlobFile(k), w.disk.Entry(BlobFile(k)));
    }
    forall b | b in w.db.staged ensures CompleteFile(w.disk, BlockFile(b), h) {
      assert Good(w.disk, h, BlockFile(b), w.disk.Entry(BlockFile(b)));
    }
  }

  /** Crash safety. Take any run with any crashes, and a crash at any step of one
      more operation: whatever the disk comes back with, every row names a file
      that is there and holds exactly one complete body that was to be written
      under that very name. The only rows without a file are those of blobs that a
      refused overwrite lost. */
  lemma NoRowEverNamesAPartialFile(m: Md5, ws: seq<World>, es: seq<Event>, e: Event, w: World)
    requires IsRun(m, ws, es) && e.Crash? && Happens(m, ws[|es|], e, w)
    ensures var h := Written(ws, es) + Intended(ws[|es|], e.op);
            && (forall k | k in w.db.blobs ::
                  || CompleteFile(w.disk, w.db.blobs[k].path, h)
                  || (k in LostBy(m, ws[|es|], e, LostIn(m, ws, es)) && w.disk.Entry(w.db.blobs[k].path) == None))
            && (forall b | b in w.db.staged :: CompleteFile(w.disk, w.db.staged[b].path, h))
            && RowsInContainers(w.db)
  {
    var h := Written(ws, es) + Intended(ws[|es|], e.op);
    RunIsIntact(m, ws, es);
    MoreHistory(ws[|es|], Written(ws, es), h);
    EventKeepsInvariant(m, ws[|es|], e, w, h);
    LostByMore(m, ws[|es|], e, Missing(ws[|es|]), LostIn(m, ws, es));
    IntactRowsComplete(w, h);
  }

  /** An operation newly loses the file of a row if and only if it is a refused
      overwrite of a blob that has its file. */
  lemma ClobberExactly(m: Md5, w: World, op: Op, h: History)
    requires Intact(w, h)
    ensures Missing(Finish(m, w, op)) <= Missing(w) <==> !Clobbers(m, w.db, op) || op.key in Missing(w)
  {
    MissingAfter(m, w, op, h);
  }

  /** Durability: once an operation was answered, no crash takes anything back. */
  lemma AnsweredMeansDurable(w: World, found: Disk, h: History)
    requires Intact(w, h) && Settled(w) && Recovers(w.disk, found)
    ensures forall k | k in w.db.blobs && k !in Missing(w) ::
              w.disk.Holds(BlobFile(k)) && found.Holds(BlobFile(k))
              && found.Data(BlobFile(k)) == w.disk.Data(BlobFile(k))
    ensures forall b | b in w.db.staged ::
              w.disk.Holds(BlockFile(b)) && found.Holds(BlockFile(b))
              && found.Data(BlockFile(b)) == w.disk.Data(BlockFile(b))
  {
    forall k | k in w.db.blobs && k !in Missing(w)
      ensures w.disk.Holds(BlobFile(k)) && found.Holds(BlobFile(k))
              && found.Data(BlobFile(k)) == w.disk.Data(BlobFile(k))
    {
      SettledNameSurvives(w.disk, found, h, BlobFile(k));
    }
    forall b | b in w.db.staged
      ensures w.disk.Holds(BlockFile(b)) && found.Holds(BlockFile(b))
              && found.Data(BlockFile(b)) == w.disk.Data(BlockFile(b))
    {
      SettledNameSurvives(w.disk, found, h, BlockFile(b));
    }
  }

  lemma SettledNameSurvives(d: Disk, found: Disk, h: History, f: FileName)
    requires FilesComplete(d, h) && Recovers(d, found)
    requires !f.TempFile? && d.Residue(f) == {} && d.Entry(f) != None
    ensures d.Holds(f) && found.Holds(f) && found.Data(f) == d.Data(f)
  {
    assert Good(d, h, f, d.Entry(f));
    assert found.Entry(f) in d.Possible(f);
  }

  // ------------------------------------------------------- old or new

  /** The file of a new inode holds the whole of the new bytes wherever the final name
      may mean it. */
  lemma PublishedIsWhole(w: World, a: string, dest: FileName, body: Body, taken: nat)
    requires !dest.TempFile? && Some(|w.disk.inodes|) !in w.disk.Possible(dest)
    requires taken <= |WriteSteps(a, |w.disk.inodes|, dest, body)|
    ensures var d := Run(w, WriteSteps(a, |w.disk.inodes|, dest, body)[..taken]).disk;
            && d.Possible(dest) <= w.disk.Possible(dest) + {Some(|w.disk.inodes|)}
            && (Some(|w.disk.inodes|) in d.Possible(dest) ==>
                  d.inodes == w.disk.inodes + [Inode(body.Data(), true)])
  {
    var n := |w.disk.inodes|;
    var write := WriteSteps(a, n, dest, body);
    var start := [CreateTemp(a)] + Appends(n, body.chunks);
    if taken <= |start| + 1 {
      forall s | s in write[..taken] ensures Avoids(s, dest) {
        var i :| 0 <= i < taken && write[i] == s;
      }
      RunAvoids(w, write[..taken], dest);
    } else {
      var some := Publish(a, n, dest)[..taken - |start|];
      assert write[..taken] == start + some;
      RunStart(w, a, body.chunks);
      RunAppend(w, start, some);
      RunPublishUpTo(w, a, dest, body.Data(), taken - |start|);
    }
  }

  lemma RunPublishUpTo(w: World, a: string, dest: FileName, data: Bytes, taken: nat)
    requires !dest.TempFile? && 2 <= taken <= 3
    ensures var d := Run(WithTemp(w, a, data), Publish(a, |w.disk.inodes|, dest)[..taken]).disk;
            && d.inodes == w.disk.inodes + [Inode(data, true)]
            && d.Possible(dest) <= w.disk.Possible(dest) + {Some(|w.disk.inodes|)}
  {
    var n := |w.disk.inodes|;
    var w1 := WithTemp(w, a, data);
    var s := Publish(a, n, dest);
    assert s[..2] == [s[0]] + [s[1]] && s[..3] == [s[0]] + [s[1]] + [s[2]];
    RunOne(w1, s[0]);
    RunSnoc(w1, [s[0]], s[1]);
    RunSnoc(w1, [s[0]] + [s[1]], s[2]);
  }

  lemma NewInodeIsNew(d: Disk, h: History, f: FileName)
    requires FilesComplete(d, h)
    ensures Some(|d.inodes|) !in d.Possible(f)
  {
    forall o | o in d.Possible(f) ensures o != Some(|d.inodes|) {
      assert Good(d, h, f, o);
    }
  }

  /** Wherever an operation is cut off, its final name can only mean what it meant
      before, or the new file as a whole, or nothing once a refused file is removed. */
  lemma FoundOldOrNew(m: Md5, w: World, op: Op, taken: nat, h: History)
    requires IsWrite(op) && Intact(w, h) && taken <= |PlanOf(m, w, op).steps|
    ensures var d := Midway(m, w, op, taken).disk;
            && (forall o | o in d.Possible(Dest(op)) ::
                  || o in w.disk.Possible(Dest(op))
                  || o == Some(|w.disk.inodes|)
                  || (o == None && PlanOf(m, w, op).reply == Err(Md5Mismatch)))
            && (Some(|w.disk.inodes|) in d.Possible(Dest(op)) ==>
                  d.inodes == w.disk.inodes + [Inode(BodyOf(w, op).Data(), true)])
  {
    var (steps, write) := (PlanOf(m, w, op).steps, FileSteps(w, op));
    NewInodeIsNew(w.disk, h, Dest(op));
    if steps == [] {
    } else {
      PlanShape(m, w, op);
      if taken <= |write| {
        assert steps[..taken] == write[..taken];
        PublishedIsWhole(w, AccountOf(op), Dest(op), BodyOf(w, op), taken);
      } else if CommitTaken(m, w, op, taken) {
        CommittedFile(m, w, op, taken, h);
      } else {
        FoundAfterRemoval(m, w, op, taken);
      }
    }
  }

  lemma FoundAfterRemoval(m: Md5, w: World, op: Op, taken: nat)
    requires IsWrite(op) && |FileSteps(w, op)| < taken <= |PlanOf(m, w, op).steps| && !CommitTaken(m, w, op, taken)
    requires Some(|w.disk.inodes|) !in w.disk.Possible(Dest(op))
    ensures var d := Midway(m, w, op, taken).disk;
            && PlanOf(m, w, op).reply == Err(Md5Mismatch)
            && d.Possible(Dest(op)) <= w.disk.Possible(Dest(op)) + {Some(|w.disk.inodes|), None}
            && (Some(|w.disk.inodes|) in d.Possible(Dest(op)) ==>
                  d.inodes == w.disk.inodes + [Inode(BodyOf(w, op).Data(), true)])
  {
    var write := FileSteps(w, op);
    RefusedSteps(m, w, op, taken);
    assert write[..|write|] == write;
    PublishedIsWhole(w, AccountOf(op), Dest(op), BodyOf(w, op), |write|);
    RunSnoc(w, write, Remove(Dest(op)));
  }

  lemma RefusedSteps(m: Md5, w: World, op: Op, taken: nat)
    requires IsWrite(op) && |FileSteps(w, op)| < taken <= |PlanOf(m, w, op).steps| && !CommitTaken(m, w, op, taken)
    ensures PlanOf(m, w, op).reply == Err(Md5Mismatch)
    ensures PlanOf(m, w, op).steps[..taken] == FileSteps(w, op) + [Remove(Dest(op))]
  {
    PlanShape(m, w, op);
  }

  lemma CommittedFile(m: Md5, w: World, op: Op, taken: nat, h: History)
    requires IsWrite(op) && Intact(w, h) && taken <= |PlanOf(m, w, op).steps| && CommitTaken(m, w, op, taken)
    ensures var d := Midway(m, w, op, taken).disk;
            && d.Possible(Dest(op)) == {Some(|w.disk.inodes|)}
            && d.inodes == w.disk.inodes + [Inode(BodyOf(w, op).Data(), true)]
  {
    if op.PutBlock? {
      CommittedIsFinished(m, w, op, taken);
      PutBlockEffect(m, w, op);
    } else {
      CommittedBlob(m, w, op, taken, h);
    }
  }

  /** What is found under a final name after a crash, given what it may mean. */
  lemma FoundFile(d: Disk, found: Disk, f: FileName, h: History)
    requires FilesComplete(d, h) && Recovers(d, found) && !f.TempFile? && found.Entry(f) != None
    ensures d.Possible(f) != {} && found.Entry(f) in d.Possible(f)
    ensures found.Holds(f) && found.entries[f] < |d.inodes| && found.Data(f) == d.inodes[found.entries[f]].data
  {
    assert Good(d, h, f, found.Entry(f));
  }

  /** Overwriting, cut off by a crash at any step: the row is the new one exactly if
      the transaction was taken, and then the file is the new one; otherwise the row
      is the old one and the file is the old or the new one as a whole, or missing
      once a refused file was removed. */
  lemma OldOrNew(m: Md5, w: World, op: Op, taken: nat, w': World, h: History)
    requires op.PutBlob? || op.PutBlockList?
    requires Intact(w, h) && Settled(w) && op.key in w.db.blobs && op.key !in Missing(w)
    requires Happens(m, w, Crash(op, taken, w'.disk), w')
    ensures w.disk.Holds(BlobFile(op.key)) && op.key in w'.db.blobs
    ensures var (data, written) := (w.disk.Data(BlobFile(op.key)), BodyOf(w, op).Data());
            if CommitTaken(m, w, op, taken) then
              && w'.db.blobs[op.key] == NewRow(m, op.key, written, op.headers)
              && w'.disk.Holds(BlobFile(op.key)) && w'.disk.Data(BlobFile(op.key)) == written
            else
              && w'.db.blobs[op.key] == w.db.blobs[op.key]
              && (w'.disk.Holds(BlobFile(op.key)) ==> w'.disk.Data(BlobFile(op.key)) in {data, written})
              && (!w'.disk.Holds(BlobFile(op.key)) ==> Clobbers(m, w.db, op))
  {
    BlobFileHolds(w, h, op.key);
    if CommitTaken(m, w, op, taken) {
      CommittedIsFound(m, w, op, taken, w', h);
    } else {
      OldRowFile(m, w, op, taken, w', h);
    }
  }

  lemma CommittedIsFound(m: Md5, w: World, op: Op, taken: nat, w': World, h: History)
    requires (op.PutBlob? || op.PutBlockList?) && Intact(w, h)
    requires Happens(m, w, Crash(op, taken, w'.disk), w') && CommitTaken(m, w, op, taken)
    ensures op.key in w'.db.blobs
    ensures w'.db.blobs[op.key] == NewRow(m, op.key, BodyOf(w, op).Data(), op.headers)
    ensures w'.disk.Holds(BlobFile(op.key)) && w'.disk.Data(BlobFile(op.key)) == BodyOf(w, op).Data()
  {
    CommittedBlob(m, w, op, taken, h);
    assert w'.disk.Entry(BlobFile(op.key)) in Midway(m, w, op, taken).disk.Possible(BlobFile(op.key));
  }

  lemma OldRowFile(m: Md5, w: World, op: Op, taken: nat, w': World, h: History)
    requires (op.PutBlob? || op.PutBlockList?) && Intact(w, h) && Settled(w)
    requires op.key in w.db.blobs && w.disk.Holds(BlobFile(op.key))
    requires Happens(m, w, Crash(op, taken, w'.disk), w') && !CommitTaken(m, w, op, taken)
    ensures w'.db == w.db
    ensures w'.disk.Holds(BlobFile(op.key)) ==>
              w'.disk.Data(BlobFile(op.key)) in {w.disk.Data(BlobFile(op.key)), BodyOf(w, op).Data()}
    ensures !w'.disk.Holds(BlobFile(op.key)) ==> Clobbers(m, w.db, op)
  {
    var h1 := h + Intended(w, op);
    MoreHistory(w, h, h1);
    MidwayIntact(m, w, op, taken, h1);
    FoundOldOrNew(m, w, op, taken, h);
    BeforeTheCommit(m, w, op, taken, h);
    var w1 := Midway(m, w, op, taken);
    assert w'.disk.Entry(BlobFile(op.key)) in w1.disk.Possible(BlobFile(op.key));
    if w'.disk.Entry(BlobFile(op.key)) != None {
      FoundFile(w1.disk, w'.disk, BlobFile(op.key), h1);
      FoundBytes(w.disk, w1.disk, w'.disk, BlobFile(op.key), h);
    }
  }

  /** An old file has its old bytes. */
  lemma FoundBytes(d: Disk, d1: Disk, found: Disk, f: FileName, h: History)
    requires FilesComplete(d, h) && SyncedKept(d, d1) && !f.TempFile?
    requires found.Holds(f) && found.entries[f] < |d1.inodes| && found.Data(f) == d1.inodes[found.entries[f]].data
    ensures found.Entry(f) == d.Entry(f) ==> d.Holds(f) && found.Data(f) == d.Data(f)
  {
    assert Good(d, h, f, d.Entry(f));
  }
}
