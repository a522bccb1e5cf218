/** What an operation leaves alone, at every step and after a crash. */
module Frames {
  import opened Types
  import opened World
  import opened Plans
  import opened Integrity
  import opened SafePlans

  datatype Scope = OneBlob(key: Key) | WholeContainer(account: string, container: string) {
    predicate Covers(k: Key) {
      match this
      case OneBlob(key) => k == key
      case WholeContainer(a, c) => k.In(a, c)
    }
  }

  function ScopeOf(op: Op): Scope {
    match op
    case CreateContainer(a, c) => WholeContainer(a, c)
    case DeleteContainer(a, c) => WholeContainer(a, c)
    case PutBlob(k, _, _, _) => OneBlob(k)
    case PutBlock(b, _) => OneBlob(b.blob)
    case PutBlockList(k, _, _, _) => OneBlob(k)
    case DeleteBlob(k) => OneBlob(k)
  }

  predicate FileIn(f: FileName, scope: Scope) {
    match f
    case BlobFile(k) => scope.Covers(k)
    case BlockFile(b) => scope.Covers(b.blob)
    case TempFile(_, _) => true
  }

  /** The step changes nothing outside the scope but temporary files. */
  predicate StepIn(s: Step, scope: Scope) {
    match s
    case CreateTemp(_) => true
    case Append(_, _) => true
    case SyncFile(_) => true
    case Rename(from, to) => FileIn(from, scope) && FileIn(to, scope)
    case SyncDir(f) => FileIn(f, scope)
    case Remove(f) => FileIn(f, scope)
    case RemoveTree(a, c) => scope == WholeContainer(a, c)
    case InsertContainer(a, c) => scope == WholeContainer(a, c)
    case DropContainer(a, c) => scope == WholeContainer(a, c)
    case UpsertBlob(k, _) => scope.Covers(k)
    case StageBlock(b, _) => scope.Covers(b.blob)
    case CommitBlocks(k, _, _) => scope.Covers(k)
    case DeleteBlobRow(k) => scope.Covers(k)
    case DeleteCommitted(k) => scope.Covers(k)
    case DeleteStaged(k) => scope.Covers(k)
  }

  ghost predicate AllIn(steps: seq<Step>, scope: Scope) {
    forall s | s in steps :: StepIn(s, scope)
  }

  lemma AllInAppend(a: seq<Step>, b: seq<Step>, scope: Scope)
    requires AllIn(a, scope) && AllIn(b, scope)
    ensures AllIn(a + b, scope)
  {
  }

  /** The tables agree about every blob outside the scope. */
  ghost predicate SameRows(db: Db, db': Db, scope: Scope) {
    && (forall k | !scope.Covers(k) ::
          && (k in db.blobs <==> k in db'.blobs)
          && (k in db.blobs ==> db'.blobs[k] == db.blobs[k])
          && (k in db.committed <==> k in db'.committed)
          && (k in db.committed ==> db'.committed[k] == db.committed[k]))
    && (forall b: BlockKey | !scope.Covers(b.blob) ::
          && (b in db.staged <==> b in db'.staged)
          && (b in db.staged ==> db'.staged[b] == db.staged[b]))
  }

  /** Every final name outside the scope means what it meant, now and after a
      crash, and every file that was synced still has its bytes. */
  ghost predicate SameFiles(d: Disk, d': Disk, scope: Scope) {
    && (forall f | !FileIn(f, scope) :: d'.Entry(f) == d.Entry(f) && d'.Residue(f) == d.Residue(f))
    && SyncedKept(d, d')
  }

  /** A file that was synced is never written again. */
  ghost predicate SyncedKept(d: Disk, d': Disk) {
    && |d.inodes| <= |d'.inodes|
    && (forall i | 0 <= i < |d.inodes| && d.inodes[i].synced :: d'.inodes[i] == d.inodes[i])
  }

  /** The one discipline of writing: bytes are only appended to a file that was not
      synced yet. */
  ghost predicate Gentle(w: World, s: Step) {
    s.Append? ==> s.ino < |w.disk.inodes| && !w.disk.inodes[s.ino].synced
  }

  ghost predicate AllGentle(w: World, steps: seq<Step>)
    decreases |steps|
  {
    steps == [] || (Gentle(w, steps[0]) && AllGentle(Apply(w, steps[0]), steps[1..]))
  }

  lemma {:induction false} SafeIsGentle(w: World, steps: seq<Step>, h: History)
    requires AllSafe(w, steps, h)
    ensures AllGentle(w, steps)
    decreases |steps|
  {
    if steps == [] {
    } else {
      SafeIsGentle(Apply(w, steps[0]), steps[1..], h);
    }
  }

  lemma {:induction false} GentlePrefix(w: World, steps: seq<Step>, n: nat)
    requires AllGentle(w, steps) && n <= |steps|
    ensures AllGentle(w, steps[..n])
    decreases n
  {
    if n == 0 {
    } else {
      assert steps[..n][1..] == steps[1..][..n - 1];
      GentlePrefix(Apply(w, steps[0]), steps[1..], n - 1);
    }
  }

  lemma PlanIsGentle(m: Md5, w: World, op: Op, h: History)
    requires Intact(w, h)
    ensures AllGentle(w, PlanOf(m, w, op).steps)
  {
    var h' := h + Intended(w, op);
    MoreHistory(w, h, h');
    PlanIsSafe(m, w, op, h');
    SafeIsGentle(w, PlanOf(m, w, op).steps, h');
  }

  lemma StepElsewhere(w: World, s: Step, scope: Scope)
    requires Gentle(w, s) && StepIn(s, scope)
    ensures SameRows(w.db, Apply(w, s).db, scope)
    ensures SameFiles(w.disk, Apply(w, s).disk, scope)
  {
  }

  /** A run inside a scope changes nothing outside it. */
  lemma {:induction false} RunElsewhere(w: World, steps: seq<Step>, scope: Scope)
    requires AllGentle(w, steps) && AllIn(steps, scope)
    ensures SameRows(w.db, Run(w, steps).db, scope)
    ensures SameFiles(w.disk, Run(w, steps).disk, scope)
    decreases |steps|
  {
    if steps == [] {
    } else {
      assert steps[0] in steps;
      StepElsewhere(w, steps[0], scope);
      RunElsewhere(Apply(w, steps[0]), steps[1..], scope);
    }
  }

  lemma WriteStepsIn(a: string, ino: nat, dest: FileName, body: Body, scope: Scope)
    requires FileIn(dest, scope)
    ensures AllIn(WriteSteps(a, ino, dest, body), scope)
  {
  }

  lemma RemovesIn(files: seq<FileName>, scope: Scope)
    requires forall f | f in files :: FileIn(f, scope)
    ensures AllIn(Removes(files), scope)
  {
  }

  lemma AssembleInScope(m: Md5, w: World, k: Key, rs: seq<Resolved>, headers: Headers,
                        schedule: seq<seq<nat>>)
    requires AllStaged(rs) && forall f | f in PathsOf(rs) :: FileIn(f, OneBlob(k))
    ensures AllIn(AssemblePlan(m, w, k, rs, headers, schedule).steps, OneBlob(k))
  {
    var body := AssemblyBody(w.disk, PathsOf(rs), schedule);
    var write := WriteSteps(k.account, |w.disk.inodes|, BlobFile(k), body);
    WriteStepsIn(k.account, |w.disk.inodes|, BlobFile(k), body, OneBlob(k));
    if body.complete {
      var commit := CommitBlocks(k, BlocksOf(rs), NewRow(m, k, body.Data(), headers));
      assert AllIn([commit], OneBlob(k));
      AllInAppend(write, [commit], OneBlob(k));
      RemovesIn(PathsOf(rs), OneBlob(k));
      AllInAppend(write + [commit], Removes(PathsOf(rs)), OneBlob(k));
    }
  }

  lemma PathsOfOneBlob(w: World, h: History, k: Key, refs: seq<BlockRef>)
    requires Intact(w, h)
    requires ResolveAll(w.db, k, refs).Some? && AllStaged(ResolveAll(w.db, k, refs).value)
    ensures forall f | f in PathsOf(ResolveAll(w.db, k, refs).value) ::
              f.BlockFile? && f.block.blob == k && f.block in w.db.staged && w.disk.Holds(f)
  {
    var rs := ResolveAll(w.db, k, refs).value;
    ResolvedPaths(w, h, k, refs);
    forall f | f in PathsOf(rs)
      ensures f.BlockFile? && f.block.blob == k && f.block in w.db.staged && w.disk.Holds(f)
    {
      var i :| 0 <= i < |rs| && f == PathsOf(rs)[i];
    }
  }

  lemma BlockListInScope(m: Md5, w: World, op: Op, h: History)
    requires op.PutBlockList? && Intact(w, h)
    ensures AllIn(PlanOf(m, w, op).steps, ScopeOf(op))
  {
    var resolved := ResolveAll(w.db, op.key, op.refs);
    if resolved.Some? && AllStaged(resolved.value) {
      PathsOfOneBlob(w, h, op.key, op.refs);
      AssembleInScope(m, w, op.key, resolved.value, op.headers, op.schedule);
    }
  }

  lemma PutBlobInScope(m: Md5, w: World, op: Op)
    requires op.PutBlob?
    ensures AllIn(PlanOf(m, w, op).steps, ScopeOf(op))
  {
    WriteStepsIn(op.key.account, |w.disk.inodes|, BlobFile(op.key), op.body, ScopeOf(op));
  }

  lemma PutBlockInScope(m: Md5, w: World, op: Op)
    requires op.PutBlock?
    ensures AllIn(PlanOf(m, w, op).steps, ScopeOf(op))
  {
    WriteStepsIn(op.block.blob.account, |w.disk.inodes|, BlockFile(op.block), op.body, ScopeOf(op));
  }

  lemma DeleteContainerInScope(m: Md5, w: World, op: Op, h: History)
    requires op.DeleteContainer? && Intact(w, h)
    ensures AllIn(PlanOf(m, w, op).steps, ScopeOf(op))
  {
    BlobPathsInContainer(w, h, op.account, op.container);
    RemovesIn(BlobPaths(w.db, op.account, op.container), ScopeOf(op));
  }

  lemma PlanInScope(m: Md5, w: World, op: Op, h: History)
    requires Intact(w, h)
    ensures AllIn(PlanOf(m, w, op).steps, ScopeOf(op))
  {
    match op
    case PutBlob(_, _, _, _) => PutBlobInScope(m, w, op);
    case PutBlock(_, _) => PutBlockInScope(m, w, op);
    case PutBlockList(_, _, _, _) => BlockListInScope(m, w, op, h);
    case DeleteContainer(_, _) => DeleteContainerInScope(m, w, op, h);
    case DeleteBlob(_) => DeleteBlobInScope(m, w, op, h);
    case CreateContainer(_, _) =>
  }

  lemma DeleteBlobInScope(m: Md5, w: World, op: Op, h: History)
    requires op.DeleteBlob? && Intact(w, h)
    ensures AllIn(PlanOf(m, w, op).steps, ScopeOf(op))
  {
    if op.key in w.db.blobs {
      DeletionIn(op.key);
    }
  }

  lemma DeletionIn(k: Key)
    ensures AllIn([DeleteBlobRow(k), DeleteCommitted(k), DeleteStaged(k), Remove(BlobFile(k))], OneBlob(k))
  {
  }

  /** An operation, cut off after any number of steps, changes no row, block list
      or file outside its own blob or container, and writes to no finished file. */
  lemma OperationFrame(m: Md5, w: World, op: Op, n: nat, h: History)
    requires Intact(w, h) && n <= |PlanOf(m, w, op).steps|
    ensures var w' := Run(w, PlanOf(m, w, op).steps[..n]);
            SameRows(w.db, w'.db, ScopeOf(op)) && SameFiles(w.disk, w'.disk, ScopeOf(op))
  {
    var steps := PlanOf(m, w, op).steps;
    PlanIsGentle(m, w, op, h);
    GentlePrefix(w, steps, n);
    PlanInScope(m, w, op, h);
    assert forall s | s in steps[..n] :: s in steps;
    RunElsewhere(w, steps[..n], ScopeOf(op));
  }

  /** The same containers are there, but for the one of the scope. */
  ghost predicate SameContainers(db: Db, db': Db, scope: Scope) {
    forall a, c | scope != WholeContainer(a, c) :: (a, c) in db'.containers <==> (a, c) in db.containers
  }

  lemma {:induction false} RunContainers(w: World, steps: seq<Step>, scope: Scope)
    requires AllIn(steps, scope)
    ensures SameContainers(w.db, Run(w, steps).db, scope)
    decreases |steps|
  {
    if steps == [] {
    } else {
      assert steps[0] in steps;
      RunContainers(Apply(w, steps[0]), steps[1..], scope);
    }
  }

  lemma OperationContainers(m: Md5, w: World, op: Op, n: nat, h: History)
    requires Intact(w, h) && n <= |PlanOf(m, w, op).steps|
    ensures SameContainers(w.db, Run(w, PlanOf(m, w, op).steps[..n]).db, ScopeOf(op))
  {
    var steps := PlanOf(m, w, op).steps;
    PlanInScope(m, w, op, h);
    assert forall s | s in steps[..n] :: s in steps;
    RunContainers(w, steps[..n], ScopeOf(op));
  }

  // ------------------------------------------------------- a single name

  predicate Avoids(s: Step, f: FileName) {
    match s
    case CreateTemp(_) => !f.TempFile?
    case Rename(from, to) => f != from && f != to
    case SyncDir(g) => f != g
    case Remove(g) => f != g
    case RemoveTree(a, c) => !f.In(a, c)
    case _ => true
  }

  lemma {:induction false} RunAvoids(w: World, steps: seq<Step>, f: FileName)
    requires forall s | s in steps :: Avoids(s, f)
    ensures Run(w, steps).disk.Entry(f) == w.disk.Entry(f)
    ensures Run(w, steps).disk.Residue(f) == w.disk.Residue(f)
    decreases |steps|
  {
    if steps == [] {
    } else {
      assert steps[0] in steps;
      RunAvoids(Apply(w, steps[0]), steps[1..], f);
    }
  }

  lemma {:induction false} DiskStepsKeepDb(w: World, steps: seq<Step>)
    requires forall s | s in steps :: IsDiskStep(s)
    ensures Run(w, steps).db == w.db
    decreases |steps|
  {
    if steps == [] {
    } else {
      assert steps[0] in steps;
      DiskStepsKeepDb(Apply(w, steps[0]), steps[1..]);
    }
  }

  lemma {:induction false} GentleKeepsSynced(w: World, steps: seq<Step>)
    requires AllGentle(w, steps)
    ensures SyncedKept(w.disk, Run(w, steps).disk)
    decreases |steps|
  {
    if steps == [] {
    } else {
      GentleKeepsSynced(Apply(w, steps[0]), steps[1..]);
    }
  }

  lemma WriteStepsAvoid(a: string, ino: nat, dest: FileName, body: Body, f: FileName)
    requires !f.TempFile? && f != dest
    ensures forall s | s in WriteSteps(a, ino, dest, body) :: Avoids(s, f) && IsDiskStep(s)
  {
  }

  lemma WriteStepsAreDiskSteps(a: string, ino: nat, dest: FileName, body: Body)
    ensures forall s | s in WriteSteps(a, ino, dest, body) :: IsDiskStep(s)
  {
  }
}
