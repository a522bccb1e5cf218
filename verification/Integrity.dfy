/** The invariant that every step of every operation keeps, and that survives a
    crash at any moment. */
module Integrity {
  import opened Types
  import opened World

  /** The complete bodies ever intended for a file: what a history may contain. */
  type History = set<(FileName, Bytes)>

  ghost predicate Good(d: Disk, h: History, f: FileName, o: Option<nat>) {
    o.Some? ==>
      && o.value < |d.inodes|
      && (!f.TempFile? ==> d.inodes[o.value].synced && (f, d.inodes[o.value].data) in h)
  }

  /** Whatever a final name means, now or after a crash, is a synced file that
      holds one complete body of the history, never part of one. */
  ghost predicate FilesComplete(d: Disk, h: History) {
    forall f, o | o in d.Possible(f) :: Good(d, h, f, o)
  }

  /** Each row names the file of its own name, and a staged block's file is there,
      now and after a crash. */
  ghost predicate RowsPlaced(w: World) {
    && (forall k | k in w.db.blobs :: w.db.blobs[k].path == BlobFile(k))
    && (forall b | b in w.db.staged ::
          w.db.staged[b].path == BlockFile(b) && None !in w.disk.Possible(BlockFile(b)))
  }

  /** The blobs whose row has no file. */
  function Missing(w: World): set<Key> {
    set k | k in w.db.blobs && w.disk.Entry(BlobFile(k)) == None
  }

  /** The file of every blob row is there, now and after a crash, but for the given
      blobs. */
  ghost predicate Backed(w: World, lost: set<Key>) {
    forall k | k in w.db.blobs && k !in lost :: None !in w.disk.Possible(BlobFile(k))
  }

  ghost predicate RowsInContainers(db: Db) {
    && (forall k | k in db.blobs :: (k.account, k.container) in db.containers)
    && (forall b | b in db.staged :: (b.blob.account, b.blob.container) in db.containers)
    && (forall k | k in db.committed :: (k.account, k.container) in db.containers)
  }

  /** The invariant that every step of every operation keeps. It does not say that
      blob rows have their files: that is Backed. */
  ghost predicate Intact(w: World, h: History) {
    FilesComplete(w.disk, h) && RowsPlaced(w) && RowsInContainers(w.db)
  }

  /** What the program must respect when it takes a step. */
  ghost predicate Safe(w: World, s: Step, h: History) {
    match s
    case CreateTemp(_) => true
    case Append(i, _) => i < |w.disk.inodes| && !w.disk.inodes[i].synced
    case SyncFile(i) => i < |w.disk.inodes|
    case Rename(from, to) =>
      && from.TempFile? && !to.TempFile? && w.disk.Holds(from)
      && w.disk.inodes[w.disk.entries[from]].synced
      && (to, w.disk.Data(from)) in h
    case SyncDir(_) => true
    case Remove(f) => f.BlockFile? ==> f.block !in w.db.staged
    case RemoveTree(a, c) => (a, c) !in w.db.containers
    case InsertContainer(_, _) => true
    case DropContainer(_, _) => true
    case UpsertBlob(k, row) => (k.account, k.container) in w.db.containers && row.path == BlobFile(k)
    case StageBlock(b, row) =>
      && (b.blob.account, b.blob.container) in w.db.containers
      && row.path == BlockFile(b) && None !in w.disk.Possible(BlockFile(b))
    case CommitBlocks(k, _, row) => (k.account, k.container) in w.db.containers && row.path == BlobFile(k)
    case DeleteBlobRow(_) => true
    case DeleteCommitted(_) => true
    case DeleteStaged(_) => true
  }

  predicate IsDiskStep(s: Step) {
    s.CreateTemp? || s.Append? || s.SyncFile? || s.Rename? || s.SyncDir? || s.Remove? || s.RemoveTree?
  }

  /** Names whose meaning a step may change. */
  predicate Touches(s: Step, d: Disk, f: FileName) {
    match s
    case CreateTemp(a) => f == TempFile(a, |d.inodes|)
    case Rename(from, to) => f == from || f == to
    case SyncDir(g) => f == g
    case Remove(g) => f == g
    case RemoveTree(a, c) => f.In(a, c)
    case _ => false
  }

  lemma UntouchedPossible(d: Disk, s: Step, f: FileName)
    requires !Touches(s, d, f)
    ensures ApplyDisk(d, s).Possible(f) == d.Possible(f)
    ensures ApplyDisk(d, s).Entry(f) == d.Entry(f)
  {
  }

  /** The new meaning a step can give to a name it touches. */
  function NewMeaning(s: Step, d: Disk, f: FileName): Option<nat> {
    match s
    case CreateTemp(a) => Some(|d.inodes|)
    case Rename(from, to) => if f == to && from in d.entries then Some(d.entries[from]) else None
    case _ => None
  }

  lemma PossibleAfter(d: Disk, s: Step, f: FileName)
    ensures ApplyDisk(d, s).Possible(f) <= d.Possible(f) + {NewMeaning(s, d, f)}
  {
  }

  lemma SafeStepFiles(w: World, s: Step, h: History)
    requires Intact(w, h) && Safe(w, s, h)
    ensures FilesComplete(Apply(w, s).disk, h)
  {
    var d, d' := w.disk, Apply(w, s).disk;
    forall f, o | o in d'.Possible(f) ensures Good(d', h, f, o) {
      PossibleAfter(d, s, f);
      if o in d.Possible(f) {
        assert Good(d, h, f, o);
      } else if s.Rename? && f == s.to {
        assert d.Entry(s.from) in d.Possible(s.from);
      } else {
        UntouchedUnlessTemp(d, s, f, o);
      }
    }
  }

  lemma UntouchedUnlessTemp(d: Disk, s: Step, f: FileName, o: Option<nat>)
    requires o in ApplyDisk(d, s).Possible(f) && o !in d.Possible(f)
    requires !(s.Rename? && f == s.to)
    ensures o.Some? ==> s.CreateTemp? && f.TempFile? && o.value < |ApplyDisk(d, s).inodes|
  {
  }

  lemma SafeStepRows(w: World, s: Step, h: History)
    requires Intact(w, h) && Safe(w, s, h)
    ensures RowsPlaced(Apply(w, s))
  {
    var w' := Apply(w, s);
    forall b | b in w'.db.staged
      ensures w'.db.staged[b].path == BlockFile(b) && None !in w'.disk.Possible(BlockFile(b))
    {
      PossibleAfter(w.disk, s, BlockFile(b));
      if !Touches(s, w.disk, BlockFile(b)) { UntouchedPossible(w.disk, s, BlockFile(b)); }
    }
  }

  /** A safe step keeps the invariant. */
  lemma SafeStep(w: World, s: Step, h: History)
    requires Intact(w, h) && Safe(w, s, h)
    ensures Intact(Apply(w, s), h)
  {
    SafeStepFiles(w, s, h);
    SafeStepRows(w, s, h);
  }

  /** A crash at any moment keeps the invariant, whatever the disk loses. */
  lemma CrashKeepsIntact(w: World, disk': Disk, h: History)
    requires Intact(w, h) && Recovers(w.disk, disk')
    ensures Intact(World(w.db, disk'), h)
  {
    var d := w.disk;
    forall f, o | o in disk'.Possible(f) ensures Good(disk', h, f, o) && o in d.Possible(f) {
      assert o == disk'.Entry(f);
      assert Good(d, h, f, o);
    }
  }

  ghost predicate AllSafe(w: World, steps: seq<Step>, h: History)
    decreases |steps|
  {
    steps == [] || (Safe(w, steps[0], h) && AllSafe(Apply(w, steps[0]), steps[1..], h))
  }

  lemma {:induction false} AllSafeAppend(w: World, a: seq<Step>, b: seq<Step>, h: History)
    requires AllSafe(w, a, h) && AllSafe(Run(w, a), b, h)
    ensures AllSafe(w, a + b, h)
    decreases |a|
  {
    if a == [] {
      assert a + b == b;
    } else {
      assert (a + b)[1..] == a[1..] + b;
      AllSafeAppend(Apply(w, a[0]), a[1..], b, h);
    }
  }

  /** Every world on the way of a safe run is intact. */
  lemma {:induction false} SafeRun(w: World, steps: seq<Step>, n: nat, h: History)
    requires Intact(w, h) && AllSafe(w, steps, h) && n <= |steps|
    ensures Intact(Run(w, steps[..n]), h)
    ensures n < |steps| ==> Safe(Run(w, steps[..n]), steps[n], h)
    decreases n
  {
    if n == 0 {
    } else {
      SafeStep(w, steps[0], h);
      assert steps[..n][1..] == steps[1..][..n - 1];
      SafeRun(Apply(w, steps[0]), steps[1..], n - 1, h);
    }
  }

  lemma MoreHistory(w: World, h: History, h': History)
    requires Intact(w, h) && h <= h'
    ensures Intact(w, h')
  {
    forall f, o | o in w.disk.Possible(f) ensures Good(w.disk, h', f, o) {
      assert Good(w.disk, h, f, o);
    }
  }
}
