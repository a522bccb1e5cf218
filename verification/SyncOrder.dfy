/** Why a file is synced before it is renamed, and its directory afterwards: without
    either step a crash can take away what was written. */
module SyncOrder {
  import opened Types
  import opened World
  import opened Plans
  import opened SafePlans
  import opened Recovery

  /** The file written and renamed, but never synced. */
  function WithoutFileSync(a: string, n: nat, dest: FileName, body: Body): seq<Step> {
    [CreateTemp(a)] + Appends(n, body.chunks) + [Rename(TempFile(a, n), dest), SyncDir(dest)]
  }

  /** The file written, synced and renamed, but not its directory. */
  function WithoutDirSync(a: string, n: nat, dest: FileName, body: Body): seq<Step> {
    [CreateTemp(a)] + Appends(n, body.chunks) + [SyncFile(n), Rename(TempFile(a, n), dest)]
  }

  lemma RunTwo(w: World, s: Step, t: Step)
    ensures Run(w, [s, t]) == Apply(Apply(w, s), t)
  {
    assert [s, t] == [s] + [t];
    RunSnoc(w, [s], t);
    RunOne(w, s);
  }

  lemma RunBehindStart(w: World, a: string, body: Body, s: Step, t: Step)
    ensures Run(w, [CreateTemp(a)] + Appends(|w.disk.inodes|, body.chunks) + [s, t])
         == Apply(Apply(WithTemp(w, a, body.Data()), s), t)
  {
    RunStart(w, a, body.chunks);
    RunAppend(w, [CreateTemp(a)] + Appends(|w.disk.inodes|, body.chunks), [s, t]);
    RunTwo(WithTemp(w, a, body.Data()), s, t);
  }

  /** A crash may leave any bytes in a file that was not synced. */
  lemma AnyBytes(d: Disk, i: nat, bytes: Bytes) returns (found: Disk)
    requires i < |d.inodes| && !d.inodes[i].synced
    ensures Recovers(d, found) && found.entries == d.entries && |found.inodes| == |d.inodes|
    ensures found.inodes[i].data == bytes
  {
    RebootRecovers(d);
    found := Reboot(d).(inodes := Reboot(d).inodes[i := Inode(bytes, true)]);
    assert forall f :: found.Entry(f) == Reboot(d).Entry(f);
  }

  /** A crash may give a name back any older meaning that its directory still holds. */
  lemma AnyMeaning(d: Disk, f: FileName, o: Option<nat>) returns (found: Disk)
    requires o in d.Possible(f)
    ensures Recovers(d, found) && found.Entry(f) == o
    ensures forall g | g != f :: found.Entry(g) == d.Entry(g)
  {
    RebootRecovers(d);
    found := Reboot(d).(entries := if o.Some? then d.entries[f := o.value] else d.entries - {f});
    forall g ensures found.Entry(g) in d.Possible(g) {
      if g != f { assert found.Entry(g) == d.Entry(g); }
    }
  }

  /** If the file is not synced first, a crash after the whole write may leave anything
      at all under the final name. */
  lemma FileSyncIsNeeded(w: World, a: string, dest: FileName, body: Body, bytes: Bytes) returns (found: Disk)
    requires !dest.TempFile?
    ensures Recovers(Run(w, WithoutFileSync(a, |w.disk.inodes|, dest, body)).disk, found)
    ensures found.Holds(dest) && found.Data(dest) == bytes
  {
    var n := |w.disk.inodes|;
    var d := Run(w, WithoutFileSync(a, n, dest, body)).disk;
    RunBehindStart(w, a, body, Rename(TempFile(a, n), dest), SyncDir(dest));
    RenamedTemp(w, a, dest, body.Data(), false);
    found := AnyBytes(d, n, bytes);
  }

  /** If the directory is not synced, a crash after the whole write may bring back what
      the name meant before, as if nothing had been written. */
  lemma DirSyncIsNeeded(w: World, a: string, dest: FileName, body: Body) returns (found: Disk)
    requires !dest.TempFile?
    ensures Recovers(Run(w, WithoutDirSync(a, |w.disk.inodes|, dest, body)).disk, found)
    ensures found.Entry(dest) == w.disk.Entry(dest)
  {
    var n := |w.disk.inodes|;
    var d := Run(w, WithoutDirSync(a, n, dest, body)).disk;
    RunBehindStart(w, a, body, SyncFile(n), Rename(TempFile(a, n), dest));
    RenamedTemp(w, a, dest, body.Data(), true);
    found := AnyMeaning(d, dest, w.disk.Entry(dest));
  }

  lemma RenamedTemp(w: World, a: string, dest: FileName, data: Bytes, synced: bool)
    requires !dest.TempFile?
    ensures var n := |w.disk.inodes|;
            var w1 := WithTemp(w, a, data);
            var d1 := if synced then ApplyDisk(w1.disk, SyncFile(n)) else w1.disk;
            var d2 := ApplyDisk(d1, Rename(TempFile(a, n), dest));
            && d2.Entry(dest) == Some(n) && w.disk.Entry(dest) in d2.Possible(dest)
            && |d2.inodes| == n + 1 && d2.inodes[n] == Inode(data, synced)
  {
    var n := |w.disk.inodes|;
    assert TempFile(a, n) in WithTemp(w, a, data).disk.entries;
  }
}
