/** Crash safety in the words of the requests: after any run with any crashes every file
    that a row names holds all bytes of one request for that name. */
module WholeBodies {
  import opened Types
  import opened World
  import opened Plans
  import opened Integrity
  import opened SafePlans
  import opened Effects
  import opened CrashSafety
  import opened Refinement

  /** The request asks for these bytes, all of them, in this file. */
  ghost predicate AsksFor(w: World, op: Op, f: FileName, bytes: Bytes) {
    match op
    case PutBlob(k, body, _, _) => body.complete && f == BlobFile(k) && bytes == body.Data()
    case PutBlock(b, body) => body.complete && f == BlockFile(b) && bytes == body.Data()
    case PutBlockList(k, refs, _, _) =>
      Abstract(w).AllUsable(k, refs) && f == BlobFile(k) && bytes == Abstract(w).Joined(k, refs)
    case CreateContainer(_, _) => false
    case DeleteContainer(_, _) => false
    case DeleteBlob(_) => false
  }

  lemma JoinedIsIntended(w: World, op: Op, h: History)
    requires op.PutBlockList? && Intact(w, h)
    ensures Abstract(w).AllUsable(op.key, op.refs) ==>
              Intended(w, op) == {(BlobFile(op.key), Abstract(w).Joined(op.key, op.refs))}
    ensures !Abstract(w).AllUsable(op.key, op.refs) ==> Intended(w, op) == {}
  {
    BlockListValidation(w, op.key, op.refs);
    if Abstract(w).AllUsable(op.key, op.refs) {
      var files := PathsOf(ResolveAll(w.db, op.key, op.refs).value);
      AssemblyCompletes(w, h, op.key, op.refs, op.schedule);
      ResolvedPaths(w, h, op.key, op.refs);
      JoinedIsParts(w, op.key, op.refs, files);
    }
  }

  lemma IntendedExactly(w: World, op: Op, h: History, f: FileName, bytes: Bytes)
    requires Intact(w, h)
    ensures (f, bytes) in Intended(w, op) <==> AsksFor(w, op, f, bytes)
  {
    if op.PutBlockList? {
      JoinedIsIntended(w, op, h);
    }
  }

  /** Some request of the run asks for these bytes in this file. */
  ghost predicate Requested(ws: seq<World>, es: seq<Event>, f: FileName, bytes: Bytes)
    requires |ws| == |es| + 1
  {
    exists i :: 0 <= i < |es| && AsksFor(ws[i], es[i].op, f, bytes)
  }

  /** What counts as written in a run is what its requests ask for. */
  lemma {:induction false} WrittenExactly(m: Md5, ws: seq<World>, es: seq<Event>, f: FileName, bytes: Bytes)
    requires IsRun(m, ws, es)
    ensures (f, bytes) in Written(ws, es) <==> Requested(ws, es, f, bytes)
    decreases |es|
  {
    if es == [] {
    } else {
      var n := |es| - 1;
      var before, events := ws[..n + 1], es[..n];
      EarlierRun(m, ws, es, before, events);
      WrittenExactly(m, before, events, f, bytes);
      RunIsIntact(m, before, events);
      IntendedExactly(ws[n], es[n].op, Written(before, events), f, bytes);
      RequestedBefore(ws, es, before, events, f, bytes);
    }
  }

  lemma RequestedBefore(ws: seq<World>, es: seq<Event>, before: seq<World>, events: seq<Event>,
                        f: FileName, bytes: Bytes)
    requires |ws| == |es| + 1 && es != [] && before == ws[..|es|] && events == es[..|es| - 1]
    ensures Requested(ws, es, f, bytes)
       <==> Requested(before, events, f, bytes) || AsksFor(ws[|es| - 1], es[|es| - 1].op, f, bytes)
  {
    if Requested(before, events, f, bytes) {
      var i :| 0 <= i < |events| && AsksFor(before[i], events[i].op, f, bytes);
      assert AsksFor(ws[i], es[i].op, f, bytes);
    }
    if Requested(ws, es, f, bytes) {
      var i :| 0 <= i < |es| && AsksFor(ws[i], es[i].op, f, bytes);
      if i < |es| - 1 {
        assert AsksFor(before[i], events[i].op, f, bytes);
      }
    }
  }

  /** The request overwrites an existing blob with bytes that do not have the digest of
      its header. */
  predicate IsRefused(m: Md5, w: World, op: Op, k: Key) {
    && op.PutBlob? && op.key == k && k in w.db.blobs && op.body.complete
    && op.md5Header.Some? && op.md5Header.value != m.Digest(op.body.Data())
  }

  ghost predicate WasRefused(m: Md5, ws: seq<World>, es: seq<Event>, k: Key)
    requires |ws| == |es| + 1
  {
    exists i :: 0 <= i < |es| && IsRefused(m, ws[i], es[i].op, k)
  }

  lemma {:induction false} LostWasRefused(m: Md5, ws: seq<World>, es: seq<Event>, k: Key)
    requires |ws| == |es| + 1 && k in LostIn(m, ws, es)
    ensures WasRefused(m, ws, es, k)
    decreases |es|
  {
    var n := |es| - 1;
    var before, events := ws[..n + 1], es[..n];
    if k in LostIn(m, before, events) {
      LostWasRefused(m, before, events, k);
      var i :| 0 <= i < |events| && IsRefused(m, before[i], events[i].op, k);
      assert IsRefused(m, ws[i], es[i].op, k);
    } else {
      assert IsRefused(m, ws[n], es[n].op, k);
    }
  }

  /** The file is there with all the bytes of one request for it. */
  ghost predicate HoldsWhole(ws: seq<World>, es: seq<Event>, f: FileName)
    requires |ws| == |es| + 1
  {
    var d := ws[|es|].disk;
    d.Holds(f) && Requested(ws, es, f, d.Data(f))
  }

  /** After any run of a new server, with any operations and crashes at any of their steps,
      every blob has the whole bytes of one request for it, unless an overwrite of it
      was refused, when it may have no file; and every staged block has the whole
      bytes of one request. */
  lemma EveryRowHoldsAWholeBody(m: Md5, ws: seq<World>, es: seq<Event>)
    requires IsRun(m, ws, es)
    ensures forall k | k in ws[|es|].db.blobs ::
              || HoldsWhole(ws, es, BlobFile(k))
              || (WasRefused(m, ws, es, k) && ws[|es|].disk.Entry(BlobFile(k)) == None)
    ensures forall b | b in ws[|es|].db.staged :: HoldsWhole(ws, es, BlockFile(b))
  {
    var w, h := ws[|es|], Written(ws, es);
    RunIsIntact(m, ws, es);
    IntactRowsComplete(w, h);
    forall k | k in w.db.blobs
      ensures || HoldsWhole(ws, es, BlobFile(k))
              || (WasRefused(m, ws, es, k) && w.disk.Entry(BlobFile(k)) == None)
    {
      if k in Missing(w) {
        LostWasRefused(m, ws, es, k);
      } else {
        assert CompleteFile(w.disk, w.db.blobs[k].path, h) && w.db.blobs[k].path == BlobFile(k);
        WrittenExactly(m, ws, es, BlobFile(k), w.disk.Data(BlobFile(k)));
      }
    }
    forall b | b in w.db.staged ensures HoldsWhole(ws, es, BlockFile(b)) {
      assert CompleteFile(w.disk, w.db.staged[b].path, h) && w.db.staged[b].path == BlockFile(b);
      WrittenExactly(m, ws, es, BlockFile(b), w.disk.Data(BlockFile(b)));
    }
  }
}
