/** The durable world of one server: the metadata tables and the file system,
    with the smallest steps by which the program changes them and what a crash
    may leave behind. */
module World {
  import opened Types

  // ---------------------------------------------------------------- names

  datatype Key = Key(account: string, container: string, blob: string) {
    predicate In(a: string, c: string) {
      account == a && container == c
    }
  }

  datatype BlockKey = BlockKey(blob: Key, id: string)

  /** The files of the on-disk layout. PathLayout gives each its path and shows
      that different names have different paths. */
  datatype FileName =
    | BlobFile(key: Key)
    | BlockFile(block: BlockKey)
    | TempFile(account: string, number: nat)
  {
    predicate In(a: string, c: string) {
      match this
      case BlobFile(k) => k.In(a, c)
      case BlockFile(b) => b.blob.In(a, c)
      case TempFile(_, _) => false
    }
  }

  // ----------------------------------------------------------- file system

  datatype Inode = Inode(data: Bytes, synced: bool)

  /** `entries` is the name table every process sees and `inodes` all files ever
      created, open or not. `residue` holds, for a name whose directory was not
      synced since, the older meanings a crash may bring back. */
  datatype Disk = Disk(entries: map<FileName, nat>,
                       residue: map<FileName, set<Option<nat>>>,
                       inodes: seq<Inode>)
  {
    function Entry(f: FileName): Option<nat> {
      if f in entries then Some(entries[f]) else None
    }

    function Residue(f: FileName): set<Option<nat>> {
      if f in residue then residue[f] else {}
    }

    /** Every meaning the name may have after a crash at this moment. */
    function Possible(f: FileName): set<Option<nat>> {
      {Entry(f)} + Residue(f)
    }

    predicate Holds(f: FileName) {
      f in entries && entries[f] < |inodes|
    }

    function Data(f: FileName): Bytes
      requires Holds(f)
    {
      inodes[entries[f]].data
    }

    function Unlink(files: set<FileName>): Disk {
      Disk(entries - files,
           residue + map f | f in files && f in entries :: Possible(f),
           inodes)
    }

    function Move(from: FileName, to: FileName): Disk
      requires from in entries
    {
      Disk((entries - {from})[to := entries[from]],
           residue[from := Possible(from)][to := Possible(to)],
           inodes)
    }
  }

  /** What may be found after a crash: each name has one of its possible
      meanings, and only files that were synced are sure to keep their bytes. */
  ghost predicate Recovers(d: Disk, d': Disk) {
    && d'.residue == map[]
    && |d'.inodes| == |d.inodes|
    && (forall f :: d'.Entry(f) in d.Possible(f))
    && (forall i | 0 <= i < |d.inodes| ::
          d'.inodes[i].synced && (d.inodes[i].synced ==> d'.inodes[i].data == d.inodes[i].data))
  }

  // ------------------------------------------------------------- metadata

  /** The two columns a write request sets besides the content. */
  datatype Headers = Headers(contentType: Option<string>, metadata: map<string, string>)

  datatype BlobRow = BlobRow(length: nat, md5: string, headers: Headers, path: FileName)

  datatype StagedRow = StagedRow(size: nat, md5: string, path: FileName)

  datatype Block = Block(id: string, size: nat)

  datatype Db = Db(accounts: set<string>,
                   containers: set<(string, string)>,
                   blobs: map<Key, BlobRow>,
                   staged: map<BlockKey, StagedRow>,
                   committed: map<Key, seq<Block>>)
  {
    function CommittedBlocks(k: Key): seq<Block> {
      if k in committed then committed[k] else []
    }

    function WithoutStaged(k: Key): map<BlockKey, StagedRow> {
      map b | b in staged && b.blob != k :: staged[b]
    }

    function WithoutContainer(a: string, c: string): Db {
      Db(accounts,
         containers - {(a, c)},
         map k | k in blobs && !k.In(a, c) :: blobs[k],
         map b | b in staged && !b.blob.In(a, c) :: staged[b],
         map k | k in committed && !k.In(a, c) :: committed[k])
    }
  }

  // ---------------------------------------------------------------- steps

  /** One atomic change: a file-system call or a database transaction. */
  datatype Step =
    | CreateTemp(account: string)
    | Append(ino: nat, chunk: Bytes)
    | SyncFile(ino: nat)
    | Rename(from: FileName, to: FileName)
    | SyncDir(file: FileName)
    | Remove(file: FileName)
    | RemoveTree(account: string, container: string)
    | InsertContainer(account: string, container: string)
    | DropContainer(account: string, container: string)
    | UpsertBlob(key: Key, row: BlobRow)
    | StageBlock(block: BlockKey, staged: StagedRow)
    | CommitBlocks(key: Key, blocks: seq<Block>, row: BlobRow)
    | DeleteBlobRow(key: Key)
    | DeleteCommitted(key: Key)
    | DeleteStaged(key: Key)

  function ApplyDisk(d: Disk, s: Step): Disk {
    match s
    case CreateTemp(a) =>
      d.(entries := d.entries[TempFile(a, |d.inodes|) := |d.inodes|],
         inodes := d.inodes + [Inode([], false)])
    case Append(i, chunk) =>
      if i < |d.inodes| then
        d.(inodes := d.inodes[i := Inode(d.inodes[i].data + chunk, false)])
      else d
    case SyncFile(i) =>
      if i < |d.inodes| then
        d.(inodes := d.inodes[i := Inode(d.inodes[i].data, true)])
      else d
    case Rename(from, to) =>
      if from in d.entries then d.Move(from, to) else d
    case SyncDir(f) => d.(residue := d.residue - {f})
    case Remove(f) => d.Unlink({f})
    case RemoveTree(a, c) => d.Unlink(set f | f in d.entries && f.In(a, c))
    case _ => d
  }

  function ApplyDb(db: Db, s: Step): Db {
    match s
    case InsertContainer(a, c) => db.(containers := db.containers + {(a, c)})
    case DropContainer(a, c) => db.WithoutContainer(a, c)
    case UpsertBlob(k, row) => db.(blobs := db.blobs[k := row])
    case StageBlock(b, row) => db.(staged := db.staged[b := row])
    case CommitBlocks(k, blocks, row) =>
      db.(blobs := db.blobs[k := row],
          committed := db.committed[k := blocks],
          staged := db.WithoutStaged(k))
    case DeleteBlobRow(k) => db.(blobs := db.blobs - {k})
    case DeleteCommitted(k) => db.(committed := db.committed - {k})
    case DeleteStaged(k) => db.(staged := db.WithoutStaged(k))
    case _ => db
  }

  datatype World = World(db: Db, disk: Disk)

  function Apply(w: World, s: Step): World {
    World(ApplyDb(w.db, s), ApplyDisk(w.disk, s))
  }

  function Run(w: World, steps: seq<Step>): World
    decreases |steps|
  {
    if steps == [] then w else Run(Apply(w, steps[0]), steps[1..])
  }

  lemma {:induction false} RunAppend(w: World, a: seq<Step>, b: seq<Step>)
    ensures Run(w, a + b) == Run(Run(w, a), b)
    decreases |a|
  {
    if a == [] {
      assert a + b == b;
    } else {
      assert (a + b)[1..] == a[1..] + b;
      RunAppend(Apply(w, a[0]), a[1..], b);
    }
  }

  lemma RunOne(w: World, s: Step)
    ensures Run(w, [s]) == Apply(w, s)
  {
    assert Run(w, [s]) == Run(Apply(w, s), [s][1..]);
  }

  lemma RunSnoc(w: World, a: seq<Step>, s: Step)
    ensures Run(w, a + [s]) == Apply(Run(w, a), s)
  {
    RunAppend(w, a, [s]);
    RunOne(Run(w, a), s);
  }

  /** A server that was never written to. */
  function Empty(accounts: set<string>): World {
    World(Db(accounts, {}, map[], map[], map[]), Disk(map[], map[], []))
  }
}
