/** What clients of other blobs and containers notice of an operation: nothing; and
    what is left in a container that was deleted and created again: nothing. */
module Isolation {
  import opened Types
  import opened World
  import opened Plans
  import opened Integrity
  import opened Frames
  import opened Effects
  import opened Moments
  import opened Refinement
  import opened CrashSafety
  import opened Recovery
  import opened BlobRead

  /** Reads of all blobs but the given ones, block lists, staged blocks and the entries
      of blob and container listings outside the scope are the same in both worlds. */
  ghost predicate LooksTheSame(w: World, w': World, scope: Scope, unread: set<Key>) {
    && (forall k: Key, range | !scope.Covers(k) && k !in unread :: GetBlob(w', k, range) == GetBlob(w, k, range))
    && (forall k: Key | !scope.Covers(k) :: w'.db.CommittedBlocks(k) == w.db.CommittedBlocks(k))
    && (forall b: BlockKey | !scope.Covers(b.blob) ::
          && (b in w'.db.staged <==> b in w.db.staged)
          && (b in w.db.staged ==> w'.db.staged[b] == w.db.staged[b]
                                   && DataOf(w'.disk, BlockFile(b)) == DataOf(w.disk, BlockFile(b))))
    && (forall a, c, n | !scope.Covers(Key(a, c, n)) ::
          n in BlobNames(w'.db, a, c) <==> n in BlobNames(w.db, a, c))
    && (forall a, c | scope != WholeContainer(a, c) ::
          c in ContainerNames(w'.db, a) <==> c in ContainerNames(w.db, a))
  }

  lemma SameRowsLookTheSame(w: World, w': World, scope: Scope, unread: set<Key>)
    requires SameRows(w.db, w'.db, scope) && SameContainers(w.db, w'.db, scope)
    requires forall k: Key | !scope.Covers(k) && k in w.db.blobs && k !in unread ::
               SameFile(w.disk, w'.disk, w.db.blobs[k].path)
    requires forall b: BlockKey | !scope.Covers(b.blob) && b in w.db.staged :: SameFile(w.disk, w'.disk, BlockFile(b))
    ensures LooksTheSame(w, w', scope, unread)
  {
    forall k: Key, range | !scope.Covers(k) && k !in unread ensures GetBlob(w', k, range) == GetBlob(w, k, range) {
      if k in w.db.blobs {
        assert SameFile(w.disk, w'.disk, w.db.blobs[k].path);
      }
    }
    forall a, c, n | !scope.Covers(Key(a, c, n))
      ensures n in BlobNames(w'.db, a, c) <==> n in BlobNames(w.db, a, c)
    {
      BlobNamesAreKeys(w.db, a, c);
      BlobNamesAreKeys(w'.db, a, c);
    }
    forall a, c | scope != WholeContainer(a, c)
      ensures c in ContainerNames(w'.db, a) <==> c in ContainerNames(w.db, a)
    {
      ContainerNamesAreKeys(w.db, a);
      ContainerNamesAreKeys(w'.db, a);
    }
  }

  /** At every moment of an operation everything outside its scope looks as before. */
  lemma OthersNoticeNothing(m: Md5, w: World, op: Op, taken: nat, h: History)
    requires Intact(w, h) && taken <= |PlanOf(m, w, op).steps|
    ensures LooksTheSame(w, Midway(m, w, op, taken), ScopeOf(op), {})
  {
    var w' := Midway(m, w, op, taken);
    var scope := ScopeOf(op);
    OperationFrame(m, w, op, taken, h);
    OperationContainers(m, w, op, taken, h);
    forall k: Key | !scope.Covers(k) && k in w.db.blobs ensures SameFile(w.disk, w'.disk, w.db.blobs[k].path) {
      DataKept(w.disk, w'.disk, h, BlobFile(k));
    }
    forall b: BlockKey | !scope.Covers(b.blob) && b in w.db.staged ensures SameFile(w.disk, w'.disk, BlockFile(b)) {
      DataKept(w.disk, w'.disk, h, BlockFile(b));
    }
    SameRowsLookTheSame(w, w', scope, {});
  }

  /** And a crash in the middle of it changes nothing there either; only a name whose
      removal was not made durable, that of a lost blob, may lead to a file again. */
  lemma OthersNoticeNoCrash(m: Md5, w: World, op: Op, taken: nat, w': World, h: History)
    requires Intact(w, h) && Settled(w) && Happens(m, w, Crash(op, taken, w'.disk), w')
    ensures LooksTheSame(w, w', ScopeOf(op), Wavering(w))
    ensures Wavering(w) <= Missing(w)
  {
    var w1 := Midway(m, w, op, taken);
    var scope := ScopeOf(op);
    OperationFrame(m, w, op, taken, h);
    OperationContainers(m, w, op, taken, h);
    forall k: Key | !scope.Covers(k) && k in w.db.blobs && k !in Wavering(w)
      ensures SameFile(w.disk, w'.disk, w.db.blobs[k].path)
    {
      CrashKeepsFile(w.disk, w1.disk, w'.disk, h, BlobFile(k));
    }
    forall b: BlockKey | !scope.Covers(b.blob) && b in w.db.staged ensures SameFile(w.disk, w'.disk, BlockFile(b)) {
      CrashKeepsFile(w.disk, w1.disk, w'.disk, h, BlockFile(b));
    }
    SameRowsLookTheSame(w, w', scope, Wavering(w));
  }

  // ---------------------------------------------------- deleting containers

  /** Deleting a container removes the names of exactly its own files. */
  lemma DeleteContainerExactly(m: Md5, w: World, a: string, c: string, h: History)
    requires Intact(w, h) && (a, c) in w.db.containers
    ensures var w' := Finish(m, w, DeleteContainer(a, c));
            forall f: FileName | !f.TempFile? ::
              w'.disk.Entry(f) == if f.In(a, c) then None else w.disk.Entry(f)
  {
    DeleteContainerEffect(m, w, DeleteContainer(a, c));
    WholeFrame(m, w, DeleteContainer(a, c), h);
  }

  ghost predicate Clean(m: Md5, w: World, a: string, c: string) {
    && BlobNames(w.db, a, c) == {}
    && (forall k: Key, range | k.In(a, c) :: GetBlob(w, k, range) == Err(BlobNotFound))
    && (forall k: Key | k.In(a, c) :: w.db.CommittedBlocks(k) == [])
    && (forall b: BlockKey | b.blob.In(a, c) :: b !in w.db.staged)
    && (forall op: Op | op.PutBlockList? && op.key.In(a, c) && op.refs != [] ::
          PlanOf(m, w, op) == Plan([], Err(InvalidBlockList)))
  }

  lemma NoStagedNoCommit(m: Md5, w: World, op: Op)
    requires op.PutBlockList? && op.refs != [] && (op.key.account, op.key.container) in w.db.containers
    requires forall b | b in w.db.staged :: b.blob != op.key
    requires w.db.CommittedBlocks(op.key) == []
    ensures PlanOf(m, w, op) == Plan([], Err(InvalidBlockList))
  {
    assert ResolveRef(w.db, op.key, SizeTable([]), op.refs[0]).None?;
  }

  /** A container that is created where none is starts clean, whatever files an
      earlier one of the name left behind. */
  lemma CreatedContainerIsClean(m: Md5, w: World, a: string, c: string)
    requires RowsInContainers(w.db) && (a, c) !in w.db.containers && a in w.db.accounts
    ensures Clean(m, Finish(m, w, CreateContainer(a, c)), a, c)
  {
    var w' := Finish(m, w, CreateContainer(a, c));
    RunOne(w, InsertContainer(a, c));
    BlobNamesAreKeys(w'.db, a, c);
    forall op: Op | op.PutBlockList? && op.key.In(a, c) && op.refs != []
      ensures PlanOf(m, w', op) == Plan([], Err(InvalidBlockList))
    {
      NoStagedNoCommit(m, w', op);
    }
  }

  /** Once a deletion has begun the container is gone for good: even if a crash cuts
      it off, a container created anew under the name starts clean. */
  lemma RecreationAfterCrashIsClean(m: Md5, w: World, a: string, c: string, taken: nat, w': World)
    requires RowsInContainers(w.db) && (a, c) in w.db.containers && a in w.db.accounts && taken >= 1
    requires Happens(m, w, Crash(DeleteContainer(a, c), taken, w'.disk), w')
    ensures Clean(m, Finish(m, w', CreateContainer(a, c)), a, c)
  {
    DeletionBegun(m, w, a, c, taken);
    CreatedContainerIsClean(m, w', a, c);
  }
}
