/** What a crash leaves of worlds at rest: everything but names whose removal was not
    made durable. */
module Recovery {
  import opened World
  import opened Integrity
  import opened Frames
  import opened Effects
  import opened Refinement

  /** The blobs whose name may mean something else after a crash. */
  function Wavering(w: World): set<Key> {
    set k | k in w.db.blobs && w.disk.Residue(BlobFile(k)) != {}
  }

  lemma CrashKeepsFile(d: Disk, d1: Disk, found: Disk, h: History, f: FileName)
    requires FilesComplete(d, h) && SyncedKept(d, d1) && Recovers(d1, found) && !f.TempFile?
    requires d.Residue(f) == {} && d1.Entry(f) == d.Entry(f) && d1.Residue(f) == d.Residue(f)
    ensures SameFile(d, found, f)
  {
    assert Good(d, h, f, d.Entry(f));
    assert found.Entry(f) in d1.Possible(f);
  }

  /** One disk a crash may leave: every name means what it meant last, and nothing of
      any file is lost. */
  function Reboot(d: Disk): Disk {
    Disk(d.entries, map[], seq(|d.inodes|, i requires 0 <= i < |d.inodes| => Inode(d.inodes[i].data, true)))
  }

  lemma RebootRecovers(d: Disk)
    ensures Recovers(d, Reboot(d))
    ensures forall f :: Reboot(d).Entry(f) == d.Entry(f)
  {
  }

  /** The tables are the same, and so are the bytes of all staged blocks and of all
      blobs but the given ones. */
  ghost predicate SameOutcome(w1: World, w2: World, unsure: set<Key>) {
    w2.db == w1.db && SameData(w1.disk, w2.disk, w1.db.blobs.Keys - unsure, w1.db.staged.Keys)
  }

  lemma CrashAtRest(w: World, found: Disk, h: History)
    requires Intact(w, h) && Settled(w) && Recovers(w.disk, found)
    ensures SameOutcome(w, World(w.db, found), Wavering(w))
  {
    forall k | k in w.db.blobs.Keys - Wavering(w) ensures SameFile(w.disk, found, BlobFile(k)) {
      CrashKeepsFile(w.disk, w.disk, found, h, BlobFile(k));
    }
    forall b | b in w.db.staged.Keys ensures SameFile(w.disk, found, BlockFile(b)) {
      CrashKeepsFile(w.disk, w.disk, found, h, BlockFile(b));
    }
  }

  lemma OutcomeTransitive(w1: World, w2: World, w3: World, unsure: set<Key>)
    requires SameOutcome(w1, w2, {}) && SameOutcome(w2, w3, unsure)
    ensures SameOutcome(w1, w3, unsure)
  {
  }
}
