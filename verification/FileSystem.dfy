/** The operating system's files as the program calls them, and the write-then-rename
    routines built on them. A ghost journal records the atomic steps in the order
    in which they are taken. */
module FileSystem {
  import opened Types
  import opened World
  import opened Plans
  import opened SafePlans

  class Journal {
    ghost var steps: seq<Step>

    constructor ()
      ensures steps == []
    {
      steps := [];
    }
  }

  class Files {
    var entries: map<FileName, nat>
    var residue: map<FileName, set<Option<nat>>>
    var inodes: seq<Inode>
    const journal: Journal

    ghost predicate Valid()
      reads this
    {
      forall f | f in entries :: entries[f] < |inodes|
    }

    function Contents(): Disk
      reads this
    {
      Disk(entries, residue, inodes)
    }

    constructor (journal: Journal)
      ensures Valid() && this.journal == journal && Contents() == Disk(map[], map[], [])
    {
      entries, residue, inodes := map[], map[], [];
      this.journal := journal;
    }

    /** Creates a temporary file under a name not used before. */
    method CreateTempFile(account: string) returns (file: nat)
      requires Valid()
      modifies this, journal
      ensures Valid() && file == |old(inodes)|
      ensures Contents() == ApplyDisk(old(Contents()), CreateTemp(account))
      ensures journal.steps == old(journal.steps) + [CreateTemp(account)]
    {
      file := |inodes|;
      entries := entries[TempFile(account, file) := file];
      inodes := inodes + [Inode([], false)];
      journal.steps := journal.steps + [CreateTemp(account)];
    }

    method WriteAll(file: nat, chunk: Bytes)
      requires Valid() && file < |inodes|
      modifies this, journal
      ensures Valid()
      ensures Contents() == ApplyDisk(old(Contents()), Append(file, chunk))
      ensures journal.steps == old(journal.steps) + [Append(file, chunk)]
    {
      inodes := inodes[file := Inode(inodes[file].data + chunk, false)];
      journal.steps := journal.steps + [Append(file, chunk)];
    }

    method SyncAll(file: nat)
      requires Valid() && file < |inodes|
      modifies this, journal
      ensures Valid()
      ensures Contents() == ApplyDisk(old(Contents()), SyncFile(file))
      ensures journal.steps == old(journal.steps) + [SyncFile(file)]
    {
      inodes := inodes[file := Inode(inodes[file].data, true)];
      journal.steps := journal.steps + [SyncFile(file)];
    }

    method RenameFile(from: FileName, to: FileName)
      requires Valid() && from in entries
      modifies this, journal
      ensures Valid()
      ensures Contents() == ApplyDisk(old(Contents()), Rename(from, to))
      ensures journal.steps == old(journal.steps) + [Rename(from, to)]
    {
      residue := residue[from := Contents().Possible(from)][to := Contents().Possible(to)];
      entries := (entries - {from})[to := entries[from]];
      journal.steps := journal.steps + [Rename(from, to)];
    }

    /** Syncs the directory of a file; only that file's name is counted on. */
    method SyncParent(file: FileName)
      requires Valid()
      modifies this, journal
      ensures Valid()
      ensures Contents() == ApplyDisk(old(Contents()), SyncDir(file))
      ensures journal.steps == old(journal.steps) + [SyncDir(file)]
    {
      residue := residue - {file};
      journal.steps := journal.steps + [SyncDir(file)];
    }

    /** Removes a file; a missing one is not an error. */
    method RemoveFileIfExists(file: FileName)
      requires Valid()
      modifies this, journal
      ensures Valid()
      ensures Contents() == ApplyDisk(old(Contents()), Remove(file))
      ensures journal.steps == old(journal.steps) + [Remove(file)]
    {
      if file in entries {
        residue := residue[file := Contents().Possible(file)];
        entries := entries - {file};
      } else {
        assert old(Contents()).Unlink({file}).residue == residue;
        assert old(Contents()).Unlink({file}).entries == entries;
      }
      journal.steps := journal.steps + [Remove(file)];
    }

    /** Removes everything below a container's directory. */
    method RemoveDirAll(account: string, container: string)
      requires Valid()
      modifies this, journal
      ensures Valid()
      ensures Contents() == ApplyDisk(old(Contents()), RemoveTree(account, container))
      ensures journal.steps == old(journal.steps) + [RemoveTree(account, container)]
    {
      var left := Contents().Unlink(set f | f in entries && f.In(account, container));
      entries, residue := left.entries, left.residue;
      journal.steps := journal.steps + [RemoveTree(account, container)];
    }

    method Open(file: FileName) returns (r: Option<nat>)
      ensures r == if Contents().Holds(file) then Some(entries[file]) else None
    {
      if file in entries && entries[file] < |inodes| {
        r := Some(entries[file]);
      } else {
        r := None;
      }
    }

    /** One read of an open file: at least one byte unless the end is reached, at
        most a buffer full, and otherwise as many as the system likes to give. */
    method Read(file: nat, pos: nat, want: nat) returns (piece: Bytes)
      requires file < |inodes| && pos <= |inodes[file].data|
      ensures pos == |inodes[file].data| ==> piece == []
      ensures pos < |inodes[file].data| ==>
                piece == inodes[file].data[pos..pos + ReadSize(|inodes[file].data| - pos, want)]
    {
      if pos == |inodes[file].data| {
        piece := [];
      } else {
        piece := inodes[file].data[pos..pos + ReadSize(|inodes[file].data| - pos, want)];
      }
    }
  }

  lemma CountUp(total: nat, n: nat)
    ensures U64(U64(total) + n) == U64(total + n)
  {
  }

  /** Since `start`, when the journal was `log`, exactly these steps were taken. */
  ghost predicate Taken(files: Files, db: Db, start: World, log: seq<Step>, steps: seq<Step>)
    reads files, files.journal
  {
    && World(db, files.Contents()) == Run(start, steps)
    && files.journal.steps == log + steps
  }

  /** Counter and hasher of a file into which the given chunks went. */
  ghost predicate Tally(md5: Md5, chunks: seq<Bytes>, total: nat, hasher: Bytes) {
    && total == U64(|Concat(chunks)|)
    && hasher == md5.Absorb(md5.init, Concat(chunks))
  }

  function Started(account: string, file: nat, chunks: seq<Bytes>): seq<Step> {
    [CreateTemp(account)] + Appends(file, chunks)
  }

  lemma StartedSnoc(start: World, account: string, file: nat, chunks: seq<Bytes>, chunk: Bytes)
    ensures Started(account, file, chunks + [chunk]) == Started(account, file, chunks) + [Append(file, chunk)]
    ensures Run(start, Started(account, file, chunks + [chunk]))
         == Apply(Run(start, Started(account, file, chunks)), Append(file, chunk))
  {
    assert Appends(file, chunks + [chunk]) == Appends(file, chunks) + [Append(file, chunk)];
    RunSnoc(start, Started(account, file, chunks), Append(file, chunk));
  }

  lemma TallyMore(md5: Md5, data: Bytes, chunk: Bytes, total: nat, hasher: Bytes)
    requires total == U64(|data|) && hasher == md5.Absorb(md5.init, data)
    ensures U64(total + |chunk|) == U64(|data + chunk|)
    ensures md5.Absorb(hasher, chunk) == md5.Absorb(md5.init, data + chunk)
  {
    md5.AbsorbConcat(md5.init, data, chunk);
    CountUp(|data|, |chunk|);
  }

  lemma TallySnoc(md5: Md5, chunks: seq<Bytes>, chunk: Bytes, total: nat, hasher: Bytes)
    requires Tally(md5, chunks, total, hasher)
    ensures Tally(md5, chunks + [chunk], U64(total + |chunk|), md5.Absorb(hasher, chunk))
  {
    ConcatSnoc(chunks, chunk);
    TallyMore(md5, Concat(chunks), chunk, total, hasher);
  }

  /** Syncs, renames and syncs the directory: the end of both write routines. */
  method PublishFile(files: Files, account: string, file: nat, dest: FileName,
                     ghost db: Db, ghost start: World, ghost log: seq<Step>, ghost taken: seq<Step>)
    requires files.Valid() && file < |files.inodes| && TempFile(account, file) in files.entries
    requires Taken(files, db, start, log, taken)
    modifies files, files.journal
    ensures files.Valid()
    ensures Taken(files, db, start, log, taken + Publish(account, file, dest))
  {
    ghost var here := World(db, files.Contents());
    files.SyncAll(file);
    files.RenameFile(TempFile(account, file), dest);
    files.SyncParent(dest);
    ghost var s := Publish(account, file, dest);
    assert s == [s[0]] + [s[1]] + [s[2]];
    RunOne(here, s[0]);
    RunSnoc(here, [s[0]], s[1]);
    RunSnoc(here, [s[0]] + [s[1]], s[2]);
    RunAppend(start, taken, s);
  }

  /** Streams a body into a temporary file and publishes it under `dest`. Whatever
      the chunks, the file, the count and the digest are those of their
      concatenation; a body that breaks off publishes nothing. */
  method WriteStreamAtomic(files: Files, account: string, dest: FileName, body: Body, md5: Md5, ghost db: Db)
    returns (r: Result<(nat, string)>)
    requires files.Valid()
    modifies files, files.journal
    ensures files.Valid()
    ensures Taken(files, db, World(db, old(files.Contents())), old(files.journal.steps),
                  WriteSteps(account, |old(files.inodes)|, dest, body))
    ensures r == if body.complete then Ok((U64(|body.Data()|), md5.Digest(body.Data()))) else Err(InternalError)
  {
    ghost var start, log := World(db, files.Contents()), files.journal.steps;
    var file := files.CreateTempFile(account);
    var hasher := md5.init;
    var total: nat := 0;
    RunOne(start, CreateTemp(account));
    assert Started(account, file, []) == [CreateTemp(account)];
    for i := 0 to |body.chunks|
      invariant files.Valid() && file == |old(files.inodes)| < |files.inodes|
      invariant TempFile(account, file) in files.entries
      invariant Taken(files, db, start, log, Started(account, file, body.chunks[..i]))
      invariant Tally(md5, body.chunks[..i], total, hasher)
    {
      var chunk := body.chunks[i];
      assert body.chunks[..i + 1] == body.chunks[..i] + [chunk];
      TallySnoc(md5, body.chunks[..i], chunk, total, hasher);
      StartedSnoc(start, account, file, body.chunks[..i], chunk);
      hasher := md5.Absorb(hasher, chunk);
      total := U64(total + |chunk|);
      files.WriteAll(file, chunk);
    }
    assert body.chunks[..|body.chunks|] == body.chunks;
    if !body.complete {
      assert WriteSteps(account, file, dest, body) == Started(account, file, body.chunks);
      return Err(InternalError);
    }
    PublishFile(files, account, file, dest, db, start, log, Started(account, file, body.chunks));
    r := Ok((total, md5.finish(hasher)));
  }

  /** The temporary file `file` is being written; everything else stands still. */
  ghost predicate Writing(files: Files, db: Db, start: World, log: seq<Step>, account: string, file: nat,
                          chunks: seq<Bytes>)
    reads files, files.journal
  {
    && files.Valid() && file == |start.disk.inodes|
    && files.Contents() == WithTemp(start, account, Concat(chunks)).disk
    && Taken(files, db, start, log, Started(account, file, chunks))
  }

  lemma WritingKeepsInput(files: Files, db: Db, start: World, log: seq<Step>, account: string, file: nat,
                          chunks: seq<Bytes>, input: nat)
    requires Writing(files, db, start, log, account, file, chunks) && input < file
    ensures input < |files.inodes| && files.inodes[input] == start.disk.inodes[input]
  {
  }

  /** Hashes, counts and writes one piece. */
  method CopyPiece(files: Files, account: string, file: nat, piece: Bytes, md5: Md5,
                   total0: nat, hasher0: Bytes,
                   ghost db: Db, ghost start: World, ghost log: seq<Step>, ghost chunks: seq<Bytes>)
    returns (total: nat, hasher: Bytes)
    requires Writing(files, db, start, log, account, file, chunks)
    requires Tally(md5, chunks, total0, hasher0)
    modifies files, files.journal
    ensures Writing(files, db, start, log, account, file, chunks + [piece])
    ensures Tally(md5, chunks + [piece], total, hasher)
  {
    TallySnoc(md5, chunks, piece, total0, hasher0);
    StartedSnoc(start, account, file, chunks, piece);
    RunStart(start, account, chunks + [piece]);
    hasher := md5.Absorb(hasher0, piece);
    total := U64(total0 + |piece|);
    files.WriteAll(file, piece);
  }

  /** The pieces done and the pieces still to come are all the pieces. */
  ghost predicate PiecesLeft(data: Bytes, all: seq<Bytes>, done: seq<Bytes>, pos: nat, rest: seq<nat>) {
    pos <= |data| && done + Pieces(data[pos..], rest) == all
  }

  lemma AllLeft(data: Bytes, before: seq<Bytes>, sizes: seq<nat>)
    ensures PiecesLeft(data, before + Pieces(data, sizes), before, 0, sizes)
  {
    assert data[0..] == data;
  }

  /** What one read at `pos` hands over; nothing only at the end. */
  predicate Delivered(data: Bytes, pos: nat, want: nat, piece: Bytes) {
    && pos <= |data|
    && piece == if pos == |data| then [] else data[pos..pos + ReadSize(|data| - pos, want)]
  }

  function NextSize(rest: seq<nat>): nat {
    if rest == [] then READ_BUFFER else rest[0]
  }

  function LaterSizes(rest: seq<nat>): seq<nat> {
    if rest == [] then [] else rest[1..]
  }

  lemma NextPiece(data: Bytes, all: seq<Bytes>, done: seq<Bytes>, pos: nat, rest: seq<nat>, piece: Bytes)
    requires PiecesLeft(data, all, done, pos, rest) && Delivered(data, pos, NextSize(rest), piece) && piece != []
    ensures PiecesLeft(data, all, done + [piece], pos + |piece|, LaterSizes(rest))
  {
    CutPiece(data, pos, |piece|);
    FirstPiece(data[pos..], rest);
    Assoc(done, [piece], Pieces(data[pos + |piece|..], LaterSizes(rest)));
  }

  lemma CutPiece(data: Bytes, pos: nat, n: nat)
    requires pos + n <= |data|
    ensures data[pos..][..n] == data[pos..pos + n] && data[pos..][n..] == data[pos + n..]
  {
  }

  lemma FirstPiece(data: Bytes, sizes: seq<nat>)
    requires data != []
    ensures var n := ReadSize(|data|, NextSize(sizes));
            Pieces(data, sizes) == [data[..n]] + Pieces(data[n..], LaterSizes(sizes))
  {
  }

  lemma LastPiece(data: Bytes, all: seq<Bytes>, done: seq<Bytes>, pos: nat, rest: seq<nat>)
    requires PiecesLeft(data, all, done, pos, rest) && Delivered(data, pos, NextSize(rest), [])
    ensures done == all
  {
    assert done + [] == done;
  }

  /** One turn of the copying loop: an empty piece means that the part is at its end. */
  method CopyNext(files: Files, account: string, file: nat, input: nat, pos: nat, want: nat, md5: Md5,
                  total0: nat, hasher0: Bytes,
                  ghost db: Db, ghost start: World, ghost log: seq<Step>, ghost chunks: seq<Bytes>)
    returns (piece: Bytes, total: nat, hasher: Bytes)
    requires Writing(files, db, start, log, account, file, chunks) && input < file
    requires Tally(md5, chunks, total0, hasher0)
    requires pos <= |start.disk.inodes[input].data|
    modifies files, files.journal
    ensures Delivered(start.disk.inodes[input].data, pos, want, piece)
    ensures var all := if piece == [] then chunks else chunks + [piece];
            Writing(files, db, start, log, account, file, all) && Tally(md5, all, total, hasher)
  {
    total, hasher := total0, hasher0;
    WritingKeepsInput(files, db, start, log, account, file, chunks, input);
    piece := files.Read(input, pos, want);
    if piece != [] {
      total, hasher := CopyPiece(files, account, file, piece, md5, total, hasher, db, start, log, chunks);
    }
  }

  /** Copies one open part to the end of the temporary file, read by read. */
  method CopyPart(files: Files, account: string, file: nat, input: nat, sizes: seq<nat>, md5: Md5,
                  total0: nat, hasher0: Bytes,
                  ghost db: Db, ghost start: World, ghost log: seq<Step>, ghost chunks: seq<Bytes>)
    returns (total: nat, hasher: Bytes)
    requires Writing(files, db, start, log, account, file, chunks) && input < file
    requires Tally(md5, chunks, total0, hasher0)
    modifies files, files.journal
    ensures var all := chunks + Pieces(start.disk.inodes[input].data, sizes);
            Writing(files, db, start, log, account, file, all) && Tally(md5, all, total, hasher)
  {
    total, hasher := total0, hasher0;
    ghost var data := start.disk.inodes[input].data;
    ghost var done, all := chunks, chunks + Pieces(data, sizes);
    var pos, rest := 0, sizes;
    AllLeft(data, chunks, sizes);
    while true
      invariant PiecesLeft(data, all, done, pos, rest)
      invariant Writing(files, db, start, log, account, file, done)
      invariant Tally(md5, done, total, hasher)
      decreases |data| - pos
    {
      var piece;
      piece, total, hasher := CopyNext(files, account, file, input, pos, NextSize(rest), md5, total, hasher,
                                       db, start, log, done);
      if piece == [] {
        break;
      }
      NextPiece(data, all, done, pos, rest, piece);
      done := done + [piece];
      pos, rest := pos + |piece|, LaterSizes(rest);
    }
    LastPiece(data, all, done, pos, rest);
  }

  lemma {:induction false} OpenableUpTo(d: Disk, parts: seq<FileName>, n: nat)
    requires n <= |parts| && (forall p | p in parts[..n] :: d.Holds(p))
    requires n < |parts| ==> !d.Holds(parts[n])
    ensures Openable(d, parts) == n
  {
  }

  lemma AssemblyUpTo(d: Disk, parts: seq<FileName>, n: nat, schedule: seq<seq<nat>>)
    requires n <= |parts| && (forall p | p in parts[..n] :: d.Holds(p))
    requires n < |parts| ==> !d.Holds(parts[n])
    ensures AssemblyBody(d, parts, schedule) == Body(PartPieces(d, parts[..n], schedule), n == |parts|)
  {
    OpenableUpTo(d, parts, n);
  }

  lemma NextPart(d: Disk, parts: seq<FileName>, i: nat, schedule: seq<seq<nat>>)
    requires i < |parts| && (forall p | p in parts[..i] :: d.Holds(p)) && d.Holds(parts[i])
    ensures forall p | p in parts[..i + 1] :: d.Holds(p)
    ensures PartPieces(d, parts[..i + 1], schedule)
         == PartPieces(d, parts[..i], schedule) + Pieces(d.Data(parts[i]), Schedule(schedule, i))
  {
    var some := parts[..i + 1];
    assert some == parts[..i] + [parts[i]];
    assert some[..i] == parts[..i] && some[i] == parts[i];
  }

  lemma StartedIsWrite(account: string, file: nat, dest: FileName, chunks: seq<Bytes>)
    ensures WriteSteps(account, file, dest, Body(chunks, false)) == Started(account, file, chunks)
    ensures WriteSteps(account, file, dest, Body(chunks, true))
         == Started(account, file, chunks) + Publish(account, file, dest)
  {
  }

  /** Concatenates files, in order, into a new file published under `dest`. The
      parts are read piece by piece, in whatever sizes the system hands over. */
  method ConcatenateFilesAtomic(files: Files, account: string, dest: FileName, parts: seq<FileName>,
                                schedule: seq<seq<nat>>, md5: Md5, ghost db: Db)
    returns (r: Result<(nat, string)>)
    requires files.Valid() && forall p | p in parts :: !p.TempFile?
    modifies files, files.journal
    ensures files.Valid()
    ensures var body := AssemblyBody(old(files.Contents()), parts, schedule);
            && Taken(files, db, World(db, old(files.Contents())), old(files.journal.steps),
                     WriteSteps(account, |old(files.inodes)|, dest, body))
            && r == if body.complete then Ok((U64(|body.Data()|), md5.Digest(body.Data()))) else Err(InternalError)
  {
    ghost var start, log := World(db, files.Contents()), files.journal.steps;
    var file := files.CreateTempFile(account);
    var hasher := md5.init;
    var total: nat := 0;
    RunOne(start, CreateTemp(account));
    RunStart(start, account, []);
    assert Started(account, file, []) == [CreateTemp(account)];
    for i := 0 to |parts|
      invariant file == |start.disk.inodes| && forall p | p in parts[..i] :: start.disk.Holds(p)
      invariant var chunks := PartPieces(start.disk, parts[..i], schedule);
                Writing(files, db, start, log, account, file, chunks) && Tally(md5, chunks, total, hasher)
    {
      ghost var chunks := PartPieces(start.disk, parts[..i], schedule);
      assert parts[i] in parts;
      var input := files.Open(parts[i]);
      if input.None? {
        AssemblyUpTo(start.disk, parts, i, schedule);
        StartedIsWrite(account, file, dest, chunks);
        return Err(InternalError);
      }
      total, hasher := CopyPart(files, account, file, input.value, Schedule(schedule, i), md5, total, hasher,
                                db, start, log, chunks);
      NextPart(start.disk, parts, i, schedule);
    }
    ghost var pieces := PartPieces(start.disk, parts[..|parts|], schedule);
    AssemblyUpTo(start.disk, parts, |parts|, schedule);
    StartedIsWrite(account, file, dest, pieces);
    PublishFile(files, account, file, dest, db, start, log, Started(account, file, pieces));
    r := Ok((total, md5.finish(hasher)));
  }
}
