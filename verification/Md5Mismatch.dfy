/** The one operation that loses a blob: Put Blob over an existing one with an MD5
    header that does not match. */
module Md5Mismatch {
  import opened Types
  import opened World
  import opened Plans
  import opened Integrity
  import opened SafePlans
  import opened Effects
  import opened Lost
  import opened Refinement
  import opened Recovery
  import opened BlobRead

  /** It is refused, but the earlier version is gone: its row stays and its file does
      not, so every later GET that is not a bad range fails inside the server. */
  lemma EarlierVersionIsLost(m: Md5, w: World, op: Op, h: History)
    requires Intact(w, h) && Clobbers(m, w.db, op)
    ensures var w' := Finish(m, w, op);
            && PlanOf(m, w, op).reply == Err(Md5Mismatch)
            && w'.db == w.db && op.key in w'.db.blobs
            && GetBlob(w', op.key, None) == Err(InternalError)
  {
    PutBlobMismatchEffect(m, w, op);
  }

  /** Over a name without a blob the same request leaves no trace in the store. */
  lemma NewNameIsUntouched(m: Md5, w: World, op: Op)
    requires Sound(m, w) && op.PutBlob? && op.key !in w.db.blobs
    requires PlanOf(m, w, op).reply == Err(Md5Mismatch)
    ensures Sound(m, Finish(m, w, op)) && Abstract(Finish(m, w, op)) == Abstract(w)
  {
    SoundAfter(m, w, op);
  }

  /** The refused body was published before it was removed, and the removal is not
      durable: after a crash it may be found under the row of the earlier version. */
  lemma RefusedBodyCanReturn(m: Md5, w: World, op: Op) returns (found: Disk)
    requires Clobbers(m, w.db, op) && (op.key.account, op.key.container) in w.db.containers
    ensures Recovers(Finish(m, w, op).disk, found)
    ensures found.Holds(BlobFile(op.key)) && found.Data(BlobFile(op.key)) == op.body.Data()
  {
    var d := Finish(m, w, op).disk;
    PutBlobMismatchEffect(m, w, op);
    RebootRecovers(d);
    found := Reboot(d).(entries := d.entries[BlobFile(op.key) := |w.disk.inodes|]);
    forall f ensures found.Entry(f) in d.Possible(f) {
      if f != BlobFile(op.key) { assert found.Entry(f) == d.Entry(f); }
    }
  }

  /** The lost blobs after a serial run, given those before it. */
  function LostRun(m: Md5, w: World, ops: seq<Op>, lost: set<Key>): set<Key>
    decreases |ops|
  {
    if ops == [] then lost else LostRun(m, Finish(m, w, ops[0]), ops[1..], LostAfter(m, w, ops[0], lost))
  }

  /** In a serial run exactly the blobs are without their file whose overwriting was
      refused and that were neither written nor deleted since. */
  lemma {:induction false} LostExactly(m: Md5, w: World, ops: seq<Op>)
    requires Sound(m, w)
    ensures Missing(RunOps(m, w, ops).0) == LostRun(m, w, ops, Missing(w))
    decreases |ops|
  {
    if ops == [] {
    } else {
      var h :| Intact(w, h);
      MissingAfter(m, w, ops[0], h);
      SoundAfter(m, w, ops[0]);
      LostExactly(m, Finish(m, w, ops[0]), ops[1..]);
    }
  }

  function FirstPut(k: Key, one: bv8, headers: Headers): Op {
    PutBlob(k, Body([[one]], true), None, headers)
  }

  lemma FirstPutIsKept(m: Md5, w: World, k: Key, one: bv8, headers: Headers)
    requires Sound(m, w) && Abstract(w).Has(k)
    ensures var w' := Finish(m, w, FirstPut(k, one, headers));
            Sound(m, w') && k in w'.db.blobs && k !in Missing(w') && DataOf(w'.disk, BlobFile(k)) == [one]
  {
    var put := FirstPut(k, one, headers);
    SoundAfter(m, w, put);
    assert put.body.Data() == [one] + Concat([[one]][1..]);
    assert Abstract(Finish(m, w, put)).blobs[k] == Content([one], headers);
  }

  lemma ContainerIsThere(m: Md5, k: Key)
    ensures var w := Finish(m, Empty({k.account}), CreateContainer(k.account, k.container));
            Sound(m, w) && Abstract(w).Has(k)
  {
    EmptyIsSound(m, {k.account});
    SoundAfter(m, Empty({k.account}), CreateContainer(k.account, k.container));
  }

  lemma RunTwo(m: Md5, w: World, first: Op, second: Op)
    ensures RunOps(m, w, [first, second]).0 == Finish(m, Finish(m, w, first), second)
  {
    assert [first, second][1..] == [second];
    assert [second][1..] == [];
    assert RunOps(m, Finish(m, w, first), [second]).0 == RunOps(m, Finish(m, Finish(m, w, first), second), []).0;
  }

  /** A server with one blob. */
  lemma OneBlob(m: Md5, k: Key, one: bv8, headers: Headers) returns (w: World)
    ensures w == RunOps(m, Empty({k.account}), [CreateContainer(k.account, k.container), FirstPut(k, one, headers)]).0
    ensures Sound(m, w) && k in w.db.blobs && k !in Missing(w)
    ensures DataOf(w.disk, BlobFile(k)) == [one]
  {
    var create, put := CreateContainer(k.account, k.container), FirstPut(k, one, headers);
    ContainerIsThere(m, k);
    FirstPutIsKept(m, Finish(m, Empty({k.account}), create), k, one, headers);
    RunTwo(m, Empty({k.account}), create, put);
    w := Finish(m, Finish(m, Empty({k.account}), create), put);
  }

  /** It can happen: put a blob, then put it again with a wrong digest. */
  lemma LossHappens(m: Md5, k: Key, one: bv8, headers: Headers) returns (w: World)
    ensures w == RunOps(m, Empty({k.account}), [CreateContainer(k.account, k.container), FirstPut(k, one, headers)]).0
    ensures GetBlob(w, k, None).Ok? && GetBlob(w, k, None).value.body == [one]
    ensures var body := Body([[one]], true);
            var again := PutBlob(k, body, Some(m.Digest(body.Data()) + "x"), headers);
            GetBlob(Finish(m, w, again), k, None) == Err(InternalError)
  {
    w := OneBlob(m, k, one, headers);
    SoundRow(m, w, k);
    GetFromTrueRow(w, k, None);
    MismatchLoses(m, w, k, Body([[one]], true), headers);
  }

  lemma MismatchLoses(m: Md5, w: World, k: Key, body: Body, headers: Headers)
    requires Sound(m, w) && k in w.db.blobs && body.complete
    ensures GetBlob(Finish(m, w, PutBlob(k, body, Some(m.Digest(body.Data()) + "x"), headers)), k, None)
         == Err(InternalError)
  {
    var digest := m.Digest(body.Data());
    assert |digest + "x"| != |digest|;
    var h :| Intact(w, h);
    EarlierVersionIsLost(m, w, PutBlob(k, body, Some(digest + "x"), headers), h);
  }
}
