/** Which blobs have a row but no file: those whose upload was refused over an earlier
    version, until they are written again or deleted. */
module Lost {
  import opened Types
  import opened World
  import opened Plans
  import opened Integrity
  import opened SafePlans
  import opened Frames
  import opened Effects

  /** The lost blobs after an operation, given those before it. */
  function LostAfter(m: Md5, w: World, op: Op, lost: set<Key>): set<Key> {
    if Clobbers(m, w.db, op) then lost + {op.key}
    else if PlanOf(m, w, op).reply.Err? then lost
    else
      match op
      case PutBlob(k, _, _, _) => lost - {k}
      case PutBlockList(k, _, _, _) => lost - {k}
      case DeleteBlob(k) => lost - {k}
      case DeleteContainer(a, c) => set k | k in lost && !k.In(a, c)
      case CreateContainer(_, _) => lost
      case PutBlock(_, _) => lost
  }

  lemma MissingKept(w: World, w': World)
    requires w'.db.blobs == w.db.blobs
    requires forall k | k in w.db.blobs :: w'.disk.Entry(BlobFile(k)) == w.disk.Entry(BlobFile(k))
    ensures Missing(w') == Missing(w)
  {
  }

  lemma MissingByUpsert(w: World, k: Key, row: BlobRow, w': World)
    requires w'.db.blobs == w.db.blobs[k := row] && w'.disk.Entry(BlobFile(k)) != None
    requires forall k' | k' != k :: w'.disk.Entry(BlobFile(k')) == w.disk.Entry(BlobFile(k'))
    ensures Missing(w') == Missing(w) - {k}
  {
  }

  lemma MissingByMismatch(w: World, k: Key, w': World)
    requires w'.db.blobs == w.db.blobs && w'.disk.Entry(BlobFile(k)) == None
    requires forall k' | k' != k :: w'.disk.Entry(BlobFile(k')) == w.disk.Entry(BlobFile(k'))
    ensures Missing(w') == if k in w.db.blobs then Missing(w) + {k} else Missing(w)
  {
  }

  lemma MissingByDeletion(w: World, k: Key, w': World)
    requires w'.db.blobs == w.db.blobs - {k}
    requires forall k' | k' != k :: w'.disk.Entry(BlobFile(k')) == w.disk.Entry(BlobFile(k'))
    ensures Missing(w') == Missing(w) - {k}
  {
  }

  lemma MissingByDrop(w: World, a: string, c: string, w': World)
    requires w'.db == w.db.WithoutContainer(a, c) && SameFiles(w.disk, w'.disk, WholeContainer(a, c))
    ensures Missing(w') == set k | k in Missing(w) && !k.In(a, c)
  {
  }

  lemma MissingByCommit(w: World, k: Key, files: seq<FileName>, blocks: seq<Block>, row: BlobRow, data: Bytes,
                        w': World)
    requires Assembled(w, k, files, blocks, row, data, w')
    requires forall f | f in files :: f.BlockFile?
    ensures Missing(w') == Missing(w) - {k}
  {
    MissingByUpsert(w, k, row, w');
  }

  lemma MissingAfterCommit(m: Md5, w: World, op: Op, h: History)
    requires op.PutBlockList? && Intact(w, h) && PlanOf(m, w, op).reply.Ok?
    ensures Missing(Finish(m, w, op)) == Missing(w) - {op.key}
  {
    PutBlockListEffect(m, w, op, h);
    var rs := ResolveAll(w.db, op.key, op.refs).value;
    var data := PartsData(w.disk, PathsOf(rs));
    MissingByCommit(w, op.key, PathsOf(rs), BlocksOf(rs), NewRow(m, op.key, data, op.headers), data, Finish(m, w, op));
  }

  lemma MissingAfterDrop(m: Md5, w: World, op: Op, h: History)
    requires op.DeleteContainer? && Intact(w, h) && PlanOf(m, w, op).reply.Ok?
    ensures Missing(Finish(m, w, op)) == set k | k in Missing(w) && !k.In(op.account, op.container)
  {
    DeleteContainerEffect(m, w, op);
    WholeFrame(m, w, op, h);
    MissingByDrop(w, op.account, op.container, Finish(m, w, op));
  }

  lemma MissingAfterWrite(m: Md5, w: World, op: Op)
    requires (op.PutBlob? || op.PutBlock?) && PlanOf(m, w, op).reply.Ok?
    ensures Missing(Finish(m, w, op)) == if op.PutBlob? then Missing(w) - {op.key} else Missing(w)
  {
    if op.PutBlob? {
      PutBlobEffect(m, w, op);
      MissingByUpsert(w, op.key, NewRow(m, op.key, op.body.Data(), op.headers), Finish(m, w, op));
    } else {
      PutBlockEffect(m, w, op);
      MissingKept(w, Finish(m, w, op));
    }
  }

  lemma MissingAfterDelete(m: Md5, w: World, op: Op)
    requires op.DeleteBlob? && PlanOf(m, w, op).reply.Ok? && w.db.blobs[op.key].path == BlobFile(op.key)
    ensures Missing(Finish(m, w, op)) == Missing(w) - {op.key}
  {
    DeleteBlobEffect(m, w, op);
    MissingByDeletion(w, op.key, Finish(m, w, op));
  }

  lemma MissingAfterOk(m: Md5, w: World, op: Op, h: History)
    requires Intact(w, h) && PlanOf(m, w, op).reply.Ok?
    ensures Missing(Finish(m, w, op)) == LostAfter(m, w, op, Missing(w))
  {
    match op
    case CreateContainer(a, c) =>
      RunOne(w, InsertContainer(a, c));
      MissingKept(w, Finish(m, w, op));
    case PutBlob(_, _, _, _) => MissingAfterWrite(m, w, op);
    case PutBlock(_, _) => MissingAfterWrite(m, w, op);
    case PutBlockList(_, _, _, _) => MissingAfterCommit(m, w, op, h);
    case DeleteBlob(_) => MissingAfterDelete(m, w, op);
    case DeleteContainer(_, _) => MissingAfterDrop(m, w, op, h);
  }

  /** Exactly the refused overwrites lose a blob's file, and exactly a later write or
      deletion ends it. */
  lemma MissingAfter(m: Md5, w: World, op: Op, h: History)
    requires Intact(w, h)
    ensures Missing(Finish(m, w, op)) == LostAfter(m, w, op, Missing(w))
  {
    var reply := PlanOf(m, w, op).reply;
    if reply == Err(Md5Mismatch) {
      PutBlobMismatchEffect(m, w, op);
      MissingByMismatch(w, op.key, Finish(m, w, op));
    } else if reply.Err? {
      FailureEffect(m, w, op, h);
      MissingKept(w, Finish(m, w, op));
    } else {
      MissingAfterOk(m, w, op, h);
    }
  }
}
