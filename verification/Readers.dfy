/** A GET that runs while writers work: its steps fall between arbitrary steps of a
    serial run of writes, and still it delivers bytes of one complete version. */
module Readers {
  import opened Types
  import opened World
  import opened Plans
  import opened Integrity
  import opened SafePlans
  import opened Frames
  import opened BlobRead

  /** All steps of a serial run of operations. */
  function AllSteps(m: Md5, w: World, ops: seq<Op>): seq<Step>
    decreases |ops|
  {
    if ops == [] then []
    else PlanOf(m, w, ops[0]).steps + AllSteps(m, Finish(m, w, ops[0]), ops[1..])
  }

  /** Every complete body the operations set out to write. */
  function Versions(m: Md5, w: World, ops: seq<Op>): History
    decreases |ops|
  {
    if ops == [] then {} else Intended(w, ops[0]) + Versions(m, Finish(m, w, ops[0]), ops[1..])
  }

  lemma {:induction false} AllStepsSafe(m: Md5, w: World, ops: seq<Op>, h: History)
    requires Intact(w, h) && Versions(m, w, ops) <= h
    ensures AllSafe(w, AllSteps(m, w, ops), h)
    decreases |ops|
  {
    if ops == [] {
    } else {
      var steps := PlanOf(m, w, ops[0]).steps;
      PlanIsSafe(m, w, ops[0], h);
      SafeRun(w, steps, |steps|, h);
      assert steps[..|steps|] == steps;
      AllStepsSafe(m, Finish(m, w, ops[0]), ops[1..], h);
      AllSafeAppend(w, steps, AllSteps(m, Finish(m, w, ops[0]), ops[1..]), h);
    }
  }

  /** The world after the first t steps. */
  function At(w: World, steps: seq<Step>, t: nat): World
    requires t <= |steps|
  {
    Run(w, steps[..t])
  }

  /** One read of an open file: when it happens and how many bytes are wanted. */
  datatype Read = Read(time: nat, want: nat)

  /** What an open file holds, nothing if there is no such file. */
  function Held(d: Disk, ino: nat): Bytes {
    if ino < |d.inodes| then d.inodes[ino].data else []
  }

  /** Every read happens between the given moment and the end of the run. */
  predicate Timed(rs: seq<Read>, since: nat, steps: seq<Step>) {
    forall i | 0 <= i < |rs| :: since <= rs[i].time <= |steps|
  }

  /** What the open file holds at each of the reads. */
  function Seen(w: World, steps: seq<Step>, ino: nat, rs: seq<Read>): seq<Bytes>
    requires Timed(rs, 0, steps)
  {
    seq(|rs|, i requires 0 <= i < |rs| => Held(At(w, steps, rs[i].time).disk, ino))
  }

  /** The bytes a reader has in the end if it has `sofar` before its i-th read: each
      read goes on where the last one ended and returns what the file holds there and
      then; no more than `total` bytes are taken. */
  function Collect(held: seq<Bytes>, rs: seq<Read>, i: nat, start: nat, total: nat, sofar: Bytes): Bytes
    requires |held| == |rs| && |sofar| <= total
    decreases |rs| - i
  {
    if i >= |rs| then sofar
    else
      var got := ReadAt(held[i], start + |sofar|, Min(rs[i].want, total - |sofar|));
      Collect(held, rs, i + 1, start, total, sofar + got)
  }

  /** The same over a file that stands still. */
  function CollectFrom(data: Bytes, rs: seq<Read>, i: nat, start: nat, total: nat, sofar: Bytes): Bytes
    requires |sofar| <= total
    decreases |rs| - i
  {
    if i >= |rs| then sofar
    else
      var got := ReadAt(data, start + |sofar|, Min(rs[i].want, total - |sofar|));
      CollectFrom(data, rs, i + 1, start, total, sofar + got)
  }

  /** The reader, who has n bytes before its i-th read, goes on until a read of at
      least one byte returns nothing. */
  predicate Drains(data: Bytes, rs: seq<Read>, i: nat, start: nat, total: nat, n: nat)
    requires n <= total
    decreases |rs| - i
  {
    && i < |rs|
    && var got := ReadAt(data, start + n, Min(rs[i].want, total - n));
       (got == [] && rs[i].want > 0) || Drains(data, rs, i + 1, start, total, n + |got|)
  }

  /** A synced file reads the same at every later moment. */
  lemma FileIsFrozen(w: World, steps: seq<Step>, t: nat, t': nat, ino: nat)
    requires AllGentle(w, steps) && t <= t' <= |steps|
    requires ino < |At(w, steps, t).disk.inodes| && At(w, steps, t).disk.inodes[ino].synced
    ensures ino < |At(w, steps, t').disk.inodes|
    ensures At(w, steps, t').disk.inodes[ino] == At(w, steps, t).disk.inodes[ino]
  {
    assert steps[..t'] == steps[..t] + steps[t..t'];
    RunAppend(w, steps[..t], steps[t..t']);
    GentleTail(w, steps, t, t');
    GentleKeepsSynced(At(w, steps, t), steps[t..t']);
  }

  lemma {:induction false} GentleTail(w: World, steps: seq<Step>, t: nat, t': nat)
    requires AllGentle(w, steps) && t <= t' <= |steps|
    ensures AllGentle(At(w, steps, t), steps[t..t'])
    decreases t
  {
    if t == 0 {
      assert steps[0..t'] == steps[..t'];
      GentlePrefix(w, steps, t');
    } else {
      GentleTail(Apply(w, steps[0]), steps[1..], t - 1, t' - 1);
      CutBehindFirst(steps, t, t');
    }
  }

  lemma CutBehindFirst(steps: seq<Step>, t: nat, t': nat)
    requires 1 <= t <= t' <= |steps|
    ensures steps[..t][0] == steps[0] && steps[..t][1..] == steps[1..][..t - 1]
    ensures steps[1..][t - 1..t' - 1] == steps[t..t']
  {
  }

  lemma ReadOn(data: Bytes, start: nat, total: nat, sofar: Bytes, want: nat, got: Bytes)
    requires |sofar| <= total && sofar == ReadAt(data, start, |sofar|)
    requires got == ReadAt(data, start + |sofar|, Min(want, total - |sofar|))
    ensures |sofar + got| <= total && sofar + got == ReadAt(data, start, |sofar + got|)
    ensures got == [] && want > 0 ==> sofar == ReadAt(data, start, total)
  {
  }

  lemma NoMoreToRead(data: Bytes, start: nat, total: nat, sofar: Bytes, got: Bytes)
    requires sofar == ReadAt(data, start, total) && got == ReadAt(data, start, |got|)
    requires |sofar| <= |got| <= total
    ensures got == sofar
  {
  }

  /** A file that holds the same bytes at every read stands still for the reader. */
  lemma {:induction false} CollectsFrozen(held: seq<Bytes>, data: Bytes, rs: seq<Read>, i: nat, start: nat, total: nat,
                                          sofar: Bytes)
    requires |held| == |rs| && forall j | 0 <= j < |rs| :: held[j] == data
    requires |sofar| <= total
    ensures Collect(held, rs, i, start, total, sofar) == CollectFrom(data, rs, i, start, total, sofar)
    decreases |rs| - i
  {
    if i >= |rs| {
    } else {
      var got := ReadAt(data, start + |sofar|, Min(rs[i].want, total - |sofar|));
      CollectsFrozen(held, data, rs, i + 1, start, total, sofar + got);
    }
  }

  lemma {:induction false} StaysSlice(data: Bytes, rs: seq<Read>, i: nat, start: nat, total: nat, sofar: Bytes)
    requires |sofar| <= total && sofar == ReadAt(data, start, |sofar|)
    ensures var got := CollectFrom(data, rs, i, start, total, sofar);
            |sofar| <= |got| <= total && got == ReadAt(data, start, |got|)
    decreases |rs| - i
  {
    if i >= |rs| {
    } else {
      var got := ReadAt(data, start + |sofar|, Min(rs[i].want, total - |sofar|));
      ReadOn(data, start, total, sofar, rs[i].want, got);
      StaysSlice(data, rs, i + 1, start, total, sofar + got);
    }
  }

  lemma {:induction false} ReachesEnd(data: Bytes, rs: seq<Read>, i: nat, start: nat, total: nat, sofar: Bytes)
    requires |sofar| <= total && sofar == ReadAt(data, start, |sofar|)
    requires Drains(data, rs, i, start, total, |sofar|)
    ensures CollectFrom(data, rs, i, start, total, sofar) == ReadAt(data, start, total)
    decreases |rs| - i
  {
    var got := ReadAt(data, start + |sofar|, Min(rs[i].want, total - |sofar|));
    ReadOn(data, start, total, sofar, rs[i].want, got);
    if got == [] && rs[i].want > 0 {
      StaysSlice(data, rs, i, start, total, sofar);
      NoMoreToRead(data, start, total, sofar, CollectFrom(data, rs, i, start, total, sofar));
    } else {
      ReachesEnd(data, rs, i + 1, start, total, sofar + got);
    }
  }

  /** Reading a standing file piece by piece yields a contiguous slice, however
      short the reads are, and the whole of what was asked for if the reader goes on. */
  lemma CollectsSlice(data: Bytes, rs: seq<Read>, start: nat, total: nat)
    ensures var got := CollectFrom(data, rs, 0, start, total, []);
            && |got| <= total
            && got == ReadAt(data, start, |got|)
            && (Drains(data, rs, 0, start, total, 0) ==> got == ReadAt(data, start, total))
  {
    StaysSlice(data, rs, 0, start, total, []);
    if Drains(data, rs, 0, start, total, 0) {
      ReachesEnd(data, rs, 0, start, total, []);
    }
  }

  /** A synced file holds the same bytes at every later read. */
  lemma SeenAlike(w: World, steps: seq<Step>, since: nat, ino: nat, rs: seq<Read>)
    requires AllGentle(w, steps) && since <= |steps| && Timed(rs, since, steps)
    requires ino < |At(w, steps, since).disk.inodes| && At(w, steps, since).disk.inodes[ino].synced
    ensures forall i | 0 <= i < |rs| :: Seen(w, steps, ino, rs)[i] == At(w, steps, since).disk.inodes[ino].data
  {
    forall i | 0 <= i < |rs|
      ensures Seen(w, steps, ino, rs)[i] == At(w, steps, since).disk.inodes[ino].data
    {
      FileIsFrozen(w, steps, since, rs[i].time, ino);
    }
  }

  /** What a GET delivers when it reads the row after `rowTime` steps, opens the
      file after `openTime` steps and reads at the given later moments. */
  function InterleavedGet(w: World, steps: seq<Step>, k: Key, range: Option<(nat, nat)>,
                          rowTime: nat, openTime: nat, rs: seq<Read>): Result<Bytes>
    requires rowTime <= openTime <= |steps| && Timed(rs, openTime, steps)
  {
    var seen := At(w, steps, rowTime);
    if k !in seen.db.blobs then Err(BlobNotFound)
    else
      var row := seen.db.blobs[k];
      var resolved := ResolveRange(row.length, range);
      if resolved.Err? then Err(resolved.error)
      else
        var disk := At(w, steps, openTime).disk;
        if !disk.Holds(row.path) then Err(InternalError)
        else
          var r := resolved.value;
          Ok(Collect(Seen(w, steps, disk.entries[row.path], rs), rs, 0, StartOf(r), TakeLen(row.length, r), []))
  }

  /** The delivered bytes are those of `version` from the requested place on: a
      contiguous slice, and all of the requested length if the reader went on. */
  ghost predicate Whole(bytes: Bytes, version: Bytes, total: nat, range: Option<(nat, nat)>, rs: seq<Read>) {
    var resolved := ResolveRange(total, range);
    && resolved.Ok?
    && var start, len := StartOf(resolved.value), TakeLen(total, resolved.value);
       && |bytes| <= len
       && bytes == ReadAt(version, start, |bytes|)
       && (Drains(version, rs, 0, start, len, 0) ==> bytes == ReadAt(version, start, len))
  }

  /** What the blob's name led to when the reader opened it. */
  ghost predicate Opened(w: World, steps: seq<Step>, k: Key, openTime: nat, version: Bytes)
    requires openTime <= |steps|
  {
    var disk := At(w, steps, openTime).disk;
    disk.Holds(BlobFile(k)) && disk.Data(BlobFile(k)) == version
  }

  /** No torn reads: however a GET's steps fall between the steps of a serial run of
      puts, commits and deletes, refused ones included, what it delivers is a
      contiguous slice of one single complete version of the blob, the one its name
      meant when the file was opened, beginning at the requested place. The length it
      asks for is that of the row it read. */
  lemma NoTornRead(m: Md5, w: World, ops: seq<Op>, h: History, k: Key, range: Option<(nat, nat)>,
                   rowTime: nat, openTime: nat, rs: seq<Read>) returns (version: Bytes)
    requires Intact(w, h) && Versions(m, w, ops) <= h
    requires rowTime <= openTime <= |AllSteps(m, w, ops)| && Timed(rs, openTime, AllSteps(m, w, ops))
    requires InterleavedGet(w, AllSteps(m, w, ops), k, range, rowTime, openTime, rs).Ok?
    ensures (BlobFile(k), version) in h && Opened(w, AllSteps(m, w, ops), k, openTime, version)
    ensures Whole(InterleavedGet(w, AllSteps(m, w, ops), k, range, rowTime, openTime, rs).value, version,
                  At(w, AllSteps(m, w, ops), rowTime).db.blobs[k].length, range, rs)
  {
    var steps := AllSteps(m, w, ops);
    AllStepsSafe(m, w, ops, h);
    SafeIsGentle(w, steps, h);
    SafeRun(w, steps, rowTime, h);
    SafeRun(w, steps, openTime, h);
    version := DeliveredVersion(w, steps, h, k, range, rowTime, openTime, rs);
  }

  lemma DeliveredVersion(w: World, steps: seq<Step>, h: History, k: Key, range: Option<(nat, nat)>,
                         rowTime: nat, openTime: nat, rs: seq<Read>) returns (version: Bytes)
    requires AllGentle(w, steps)
    requires rowTime <= openTime <= |steps| && Timed(rs, openTime, steps)
    requires Intact(At(w, steps, rowTime), h) && Intact(At(w, steps, openTime), h)
    requires InterleavedGet(w, steps, k, range, rowTime, openTime, rs).Ok?
    ensures (BlobFile(k), version) in h && Opened(w, steps, k, openTime, version)
    ensures Whole(InterleavedGet(w, steps, k, range, rowTime, openTime, rs).value, version,
                  At(w, steps, rowTime).db.blobs[k].length, range, rs)
  {
    var row := At(w, steps, rowTime).db.blobs[k];
    var disk := At(w, steps, openTime).disk;
    assert row.path == BlobFile(k);
    assert Good(disk, h, row.path, disk.Entry(row.path));
    var ino := disk.entries[row.path];
    version := disk.inodes[ino].data;
    var r := ResolveRange(row.length, range).value;
    SeenAlike(w, steps, openTime, ino, rs);
    CollectsFrozen(Seen(w, steps, ino, rs), version, rs, 0, StartOf(r), TakeLen(row.length, r), []);
    CollectsSlice(version, rs, StartOf(r), TakeLen(row.length, r));
  }

  /** The reader goes on to the end of what it asked for. */
  ghost predicate ReadsToEnd(w: World, k: Key, range: Option<(nat, nat)>, rs: seq<Read>) {
    && k in w.db.blobs && w.disk.Holds(w.db.blobs[k].path)
    && var r := ResolveRange(w.db.blobs[k].length, range);
       && r.Ok?
       && Drains(w.disk.Data(w.db.blobs[k].path), rs, 0, StartOf(r.value), TakeLen(w.db.blobs[k].length, r.value), 0)
  }

  /** As if the whole GET had happened at once: the same error, or the same bytes as far as
      the reader went on. */
  predicate AsIfAtOnce(now: Result<Payload>, got: Result<Bytes>, toEnd: bool) {
    if now.Err? then got == Err(now.error)
    else got.Ok? && got.value <= now.value.body && (toEnd ==> got.value == now.value.body)
  }

  /** A GET that finds row and file at one moment delivers what a GET delivers that is
      carried out at once then, whatever the writers do while it reads. */
  lemma GetAsOfOpening(m: Md5, w: World, ops: seq<Op>, h: History, k: Key, range: Option<(nat, nat)>,
                       time: nat, rs: seq<Read>)
    requires Intact(w, h) && Versions(m, w, ops) <= h
    requires time <= |AllSteps(m, w, ops)| && Timed(rs, time, AllSteps(m, w, ops))
    ensures var now := At(w, AllSteps(m, w, ops), time);
            AsIfAtOnce(GetBlob(now, k, range), InterleavedGet(w, AllSteps(m, w, ops), k, range, time, time, rs),
                       ReadsToEnd(now, k, range, rs))
  {
    var steps := AllSteps(m, w, ops);
    AllStepsSafe(m, w, ops, h);
    SafeIsGentle(w, steps, h);
    SafeRun(w, steps, time, h);
    if GetBlob(At(w, steps, time), k, range).Ok? {
      DeliveredAtOnce(w, steps, h, k, range, time, rs);
    }
  }

  lemma DeliveredAtOnce(w: World, steps: seq<Step>, h: History, k: Key, range: Option<(nat, nat)>,
                        time: nat, rs: seq<Read>)
    requires AllGentle(w, steps) && time <= |steps| && Timed(rs, time, steps) && Intact(At(w, steps, time), h)
    requires GetBlob(At(w, steps, time), k, range).Ok?
    ensures AsIfAtOnce(GetBlob(At(w, steps, time), k, range), InterleavedGet(w, steps, k, range, time, time, rs),
                       ReadsToEnd(At(w, steps, time), k, range, rs))
  {
    var now := At(w, steps, time);
    var row := now.db.blobs[k];
    assert Good(now.disk, h, row.path, now.disk.Entry(row.path));
    var ino := now.disk.entries[row.path];
    var data := now.disk.inodes[ino].data;
    var r := ResolveRange(row.length, range).value;
    SeenAlike(w, steps, time, ino, rs);
    CollectsFrozen(Seen(w, steps, ino, rs), data, rs, 0, StartOf(r), TakeLen(row.length, r), []);
    CollectsSlice(data, rs, StartOf(r), TakeLen(row.length, r));
    ShorterSlice(data, StartOf(r), |CollectFrom(data, rs, 0, StartOf(r), TakeLen(row.length, r), [])|,
                 TakeLen(row.length, r));
  }

  lemma ShorterSlice(data: Bytes, start: nat, n: nat, len: nat)
    requires n <= len
    ensures ReadAt(data, start, n) <= ReadAt(data, start, len)
  {
  }

  lemma StepsOfOne(m: Md5, w: World, op: Op)
    ensures AllSteps(m, w, [op]) == PlanOf(m, w, op).steps
  {
    assert AllSteps(m, w, [op]) == PlanOf(m, w, op).steps + AllSteps(m, Finish(m, w, op), [op][1..]);
  }

  lemma RefusedWrite(m: Md5, w: World, op: Op)
    requires Clobbers(m, w.db, op) && (op.key.account, op.key.container) in w.db.containers
    ensures var steps := PlanOf(m, w, op).steps;
            && steps != []
            && Published(w, op.key.account, BlobFile(op.key), op.body.Data(), At(w, steps, |steps| - 1))
  {
    var steps := PlanOf(m, w, op).steps;
    var write := WriteSteps(op.key.account, |w.disk.inodes|, BlobFile(op.key), op.body);
    assert steps == write + [Remove(BlobFile(op.key))];
    assert steps[..|steps| - 1] == write;
    RunWrite(w, op.key.account, BlobFile(op.key), op.body);
  }

  /** A refused body can be read: a GET that opens the file between the renaming and
      the removal delivers it, cut to the length of the earlier version. */
  lemma RefusedBodyCanBeRead(m: Md5, w: World, op: Op, h: History, want: nat)
    requires Intact(w, h) && Clobbers(m, w.db, op) && want >= w.db.blobs[op.key].length
    ensures var steps := AllSteps(m, w, [op]);
            && steps != []
            && InterleavedGet(w, steps, op.key, None, |steps| - 1, |steps| - 1, [Read(|steps| - 1, want)])
               == Ok(ReadAt(op.body.Data(), 0, w.db.blobs[op.key].length))
  {
    StepsOfOne(m, w, op);
    RefusedWrite(m, w, op);
    var steps := PlanOf(m, w, op).steps;
    var rs := [Read(|steps| - 1, want)];
    assert Seen(w, steps, |w.disk.inodes|, rs) == [op.body.Data()];
    OneReadCollects(op.body.Data(), rs[0], w.db.blobs[op.key].length);
  }

  lemma OneReadCollects(data: Bytes, r: Read, total: nat)
    requires r.want >= total
    ensures Collect([data], [r], 0, 0, total, []) == ReadAt(data, 0, total)
  {
    var got := ReadAt(data, 0, total);
    assert [] + got == got;
    assert Collect([data], [r], 1, 0, total, got) == got;
  }
}
