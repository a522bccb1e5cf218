/** Leaving some blobs out of sight: an operation on any other blob takes the same steps
    with the same effect whether their rows are there or not. */
module Hiding {
  import opened Types
  import opened World
  import opened Plans
  import opened Integrity
  import opened Frames
  import opened Effects
  import opened Moments
  import opened CrashSafety
  import opened Refinement

  function HideRows(db: Db, hidden: set<Key>): Db {
    db.(blobs := db.blobs - hidden,
        staged := map b | b in db.staged && b.blob !in hidden :: db.staged[b],
        committed := db.committed - hidden)
  }

  /** The world without the rows of the hidden blobs; their files stay. */
  function Restrict(w: World, hidden: set<Key>): World {
    World(HideRows(w.db, hidden), w.disk)
  }

  /** The simple store without the hidden blobs and their blocks. */
  function Hide(s: Store, hidden: set<Key>): Store {
    s.(blobs := s.blobs - hidden,
       staged := map b | b in s.staged && b.blob !in hidden :: s.staged[b],
       layout := s.layout - hidden)
  }

  lemma HideIsAbstract(w: World, hidden: set<Key>)
    ensures Abstract(Restrict(w, hidden)) == Hide(Abstract(w), hidden)
  {
    assert BlobView(Restrict(w, hidden)) == BlobView(w) - hidden;
  }

  lemma RestrictKeeps(w: World, hidden: set<Key>, h: History)
    requires Intact(w, h) && Settled(w)
    ensures Intact(Restrict(w, hidden), h) && Settled(Restrict(w, hidden))
    ensures Missing(Restrict(w, hidden)) == Missing(w) - hidden
  {
  }

  // ------------------------------------------------ operations on other blobs

  /** The blob an operation is about, if it is not about a container. */
  function KeyOf(op: Op): Option<Key> {
    match op
    case CreateContainer(_, _) => None
    case DeleteContainer(_, _) => None
    case PutBlob(k, _, _, _) => Some(k)
    case PutBlock(b, _) => Some(b.blob)
    case PutBlockList(k, _, _, _) => Some(k)
    case DeleteBlob(k) => Some(k)
  }

  predicate Visible(op: Op, hidden: set<Key>) {
    !op.DeleteContainer? && (KeyOf(op).Some? ==> KeyOf(op).value !in hidden)
  }

  /** The step is about no hidden row. */
  predicate Clear(s: Step, hidden: set<Key>) {
    match s
    case UpsertBlob(k, _) => k !in hidden
    case StageBlock(b, _) => b.blob !in hidden
    case CommitBlocks(k, _, _) => k !in hidden
    case DeleteBlobRow(k) => k !in hidden
    case DeleteCommitted(k) => k !in hidden
    case DeleteStaged(k) => k !in hidden
    case _ => true
  }

  lemma HideStep(db: Db, s: Step, hidden: set<Key>)
    requires Clear(s, hidden)
    ensures ApplyDb(HideRows(db, hidden), s) == HideRows(ApplyDb(db, s), hidden)
  {
    match s
    case DropContainer(a, c) => HideDrop(db, a, c, hidden);
    case CommitBlocks(k, blocks, row) => HideCommit(db, k, blocks, row, hidden);
    case DeleteStaged(k) => HideStaged(db, k, hidden);
    case StageBlock(b, row) =>
      assert HideRows(db, hidden).staged[b := row] == HideRows(db.(staged := db.staged[b := row]), hidden).staged;
    case UpsertBlob(k, row) =>
      assert (db.blobs - hidden)[k := row] == db.blobs[k := row] - hidden;
    case DeleteBlobRow(k) => assert (db.blobs - hidden) - {k} == (db.blobs - {k}) - hidden;
    case DeleteCommitted(k) => assert (db.committed - hidden) - {k} == (db.committed - {k}) - hidden;
    case _ =>
  }

  lemma HideStaged(db: Db, k: Key, hidden: set<Key>)
    ensures HideRows(db, hidden).WithoutStaged(k) == HideRows(db.(staged := db.WithoutStaged(k)), hidden).staged
  {
  }

  lemma HideCommit(db: Db, k: Key, blocks: seq<Block>, row: BlobRow, hidden: set<Key>)
    requires k !in hidden
    ensures ApplyDb(HideRows(db, hidden), CommitBlocks(k, blocks, row))
         == HideRows(ApplyDb(db, CommitBlocks(k, blocks, row)), hidden)
  {
    HideStaged(db, k, hidden);
    assert (db.blobs - hidden)[k := row] == db.blobs[k := row] - hidden;
    assert (db.committed - hidden)[k := blocks] == db.committed[k := blocks] - hidden;
  }

  lemma HideDrop(db: Db, a: string, c: string, hidden: set<Key>)
    ensures HideRows(db, hidden).WithoutContainer(a, c) == HideRows(db.WithoutContainer(a, c), hidden)
  {
  }

  lemma {:induction false} HideRun(w: World, steps: seq<Step>, hidden: set<Key>)
    requires forall s | s in steps :: Clear(s, hidden)
    ensures Run(Restrict(w, hidden), steps) == Restrict(Run(w, steps), hidden)
    decreases |steps|
  {
    if steps == [] {
    } else {
      assert steps[0] in steps;
      HideStep(w.db, steps[0], hidden);
      HideRun(Apply(w, steps[0]), steps[1..], hidden);
    }
  }

  lemma SameResolve(db: Db, k: Key, refs: seq<BlockRef>, hidden: set<Key>)
    requires k !in hidden
    ensures ResolveAll(HideRows(db, hidden), k, refs) == ResolveAll(db, k, refs)
  {
    var few, sizes := HideRows(db, hidden), SizeTable(db.CommittedBlocks(k));
    assert few.CommittedBlocks(k) == db.CommittedBlocks(k);
    forall i | 0 <= i < |refs| ensures ResolveRef(few, k, sizes, refs[i]) == ResolveRef(db, k, sizes, refs[i]) {
      SameRef(db, k, sizes, refs[i], hidden);
    }
    var all, those := ResolveAll(db, k, refs), ResolveAll(few, k, refs);
    assert all.Some? <==> those.Some?;
    if all.Some? {
      assert |those.value| == |all.value|;
      assert forall i | 0 <= i < |refs| :: those.value[i] == all.value[i];
      assert those.value == all.value;
    }
  }

  lemma SameRef(db: Db, k: Key, sizes: map<string, nat>, ref: BlockRef, hidden: set<Key>)
    requires k !in hidden
    ensures ResolveRef(HideRows(db, hidden), k, sizes, ref) == ResolveRef(db, k, sizes, ref)
  {
    var b := BlockKey(k, ref.id);
    assert b in HideRows(db, hidden).staged <==> b in db.staged;
  }

  lemma SamePlan(m: Md5, w: World, op: Op, hidden: set<Key>)
    requires Visible(op, hidden)
    ensures PlanOf(m, Restrict(w, hidden), op) == PlanOf(m, w, op)
  {
    match op
    case PutBlockList(k, refs, headers, schedule) =>
      SameResolve(w.db, k, refs, hidden);
      SameCommitPlan(m, w, k, refs, headers, schedule, hidden);
    case DeleteBlob(k) =>
      assert k in HideRows(w.db, hidden).blobs <==> k in w.db.blobs;
      assert DeleteBlobPlan(Restrict(w, hidden), k) == DeleteBlobPlan(w, k);
    case PutBlob(k, body, md5Header, headers) =>
      assert PutBlobPlan(m, Restrict(w, hidden), k, body, md5Header, headers)
          == PutBlobPlan(m, w, k, body, md5Header, headers);
    case PutBlock(b, body) =>
      assert PutBlockPlan(m, Restrict(w, hidden), b, body) == PutBlockPlan(m, w, b, body);
    case CreateContainer(a, c) =>
      assert CreateContainerPlan(Restrict(w, hidden), a, c) == CreateContainerPlan(w, a, c);
  }

  lemma SameCommitPlan(m: Md5, w: World, k: Key, refs: seq<BlockRef>, headers: Headers, schedule: seq<seq<nat>>,
                       hidden: set<Key>)
    requires ResolveAll(HideRows(w.db, hidden), k, refs) == ResolveAll(w.db, k, refs)
    ensures PutBlockListPlan(m, Restrict(w, hidden), k, refs, headers, schedule)
         == PutBlockListPlan(m, w, k, refs, headers, schedule)
  {
    var rs := ResolveAll(w.db, k, refs);
    if rs.Some? && AllStaged(rs.value) {
      assert AssemblePlan(m, Restrict(w, hidden), k, rs.value, headers, schedule)
          == AssemblePlan(m, w, k, rs.value, headers, schedule);
    }
  }

  lemma PlanIsClear(m: Md5, w: World, op: Op, hidden: set<Key>, h: History)
    requires Intact(w, h) && Visible(op, hidden)
    ensures forall s | s in PlanOf(m, w, op).steps :: Clear(s, hidden)
  {
    PlanInScope(m, w, op, h);
    forall s | s in PlanOf(m, w, op).steps ensures Clear(s, hidden) {
      assert StepIn(s, ScopeOf(op));
      if op.CreateContainer? { assert s == InsertContainer(op.account, op.container); }
    }
  }

  /** The operation has the same effect with the rows of the others out of sight. */
  lemma HideMidway(m: Md5, w: World, op: Op, taken: nat, hidden: set<Key>, h: History)
    requires Intact(w, h) && Visible(op, hidden) && taken <= |PlanOf(m, w, op).steps|
    ensures PlanOf(m, Restrict(w, hidden), op) == PlanOf(m, w, op)
    ensures Midway(m, Restrict(w, hidden), op, taken) == Restrict(Midway(m, w, op, taken), hidden)
  {
    var some := PlanOf(m, w, op).steps[..taken];
    SamePlan(m, w, op, hidden);
    PlanIsClear(m, w, op, hidden, h);
    assert forall s | s in some :: s in PlanOf(m, w, op).steps;
    HideRun(w, some, hidden);
  }

  lemma HideEvent(m: Md5, w: World, e: Event, w': World, hidden: set<Key>, h: History)
    requires Intact(w, h) && Visible(e.op, hidden) && Happens(m, w, e, w')
    ensures Happens(m, Restrict(w, hidden), e, Restrict(w', hidden))
  {
    match e
    case Completed(op) =>
      HideMidway(m, w, op, |PlanOf(m, w, op).steps|, hidden, h);
      MidwayAtEnd(m, w, op);
      MidwayAtEnd(m, Restrict(w, hidden), op);
    case Crash(op, taken, found) =>
      HideMidway(m, w, op, taken, hidden, h);
  }

  // --------------------------------------------- operations on hidden blobs

  /** The step is about hidden rows, or no rows. */
  predicate Unseen(s: Step, hidden: set<Key>) {
    match s
    case UpsertBlob(k, _) => k in hidden
    case StageBlock(b, _) => b.blob in hidden
    case CommitBlocks(k, _, _) => k in hidden
    case DeleteBlobRow(k) => k in hidden
    case DeleteCommitted(k) => k in hidden
    case DeleteStaged(k) => k in hidden
    case InsertContainer(_, _) => false
    case DropContainer(_, _) => false
    case _ => true
  }

  lemma UnseenStep(db: Db, s: Step, hidden: set<Key>)
    requires Unseen(s, hidden)
    ensures HideRows(ApplyDb(db, s), hidden) == HideRows(db, hidden)
  {
  }

  lemma {:induction false} UnseenRun(w: World, steps: seq<Step>, hidden: set<Key>)
    requires forall s | s in steps :: Unseen(s, hidden)
    ensures HideRows(Run(w, steps).db, hidden) == HideRows(w.db, hidden)
    decreases |steps|
  {
    if steps == [] {
    } else {
      assert steps[0] in steps;
      UnseenStep(w.db, steps[0], hidden);
      UnseenRun(Apply(w, steps[0]), steps[1..], hidden);
    }
  }

  lemma UnseenMidway(m: Md5, w: World, op: Op, taken: nat, hidden: set<Key>, h: History)
    requires Intact(w, h) && KeyOf(op).Some? && KeyOf(op).value in hidden
    requires taken <= |PlanOf(m, w, op).steps|
    ensures HideRows(Midway(m, w, op, taken).db, hidden) == HideRows(w.db, hidden)
  {
    PlanInScope(m, w, op, h);
    forall s | s in PlanOf(m, w, op).steps[..taken] ensures Unseen(s, hidden) {
      assert s in PlanOf(m, w, op).steps && StepIn(s, OneBlob(KeyOf(op).value));
    }
    UnseenRun(w, PlanOf(m, w, op).steps[..taken], hidden);
  }
}
