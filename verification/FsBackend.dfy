/** The storage backend: every method against its plan. The journal shows that the
    steps really are taken in the plan's order, so what is proved of every prefix
    of a plan holds at every moment of the method. */
module FsBackend {
  import opened Types
  import opened World
  import opened Plans
  import opened FileSystem
  import opened MetadataDb
  import opened Integrity
  import opened SafePlans
  import opened Moments
  import opened Refinement
  import opened BlobRead
  import Folding

  /** What holds at every moment: the invariant, and that only the given blobs may be
      without their file. */
  ghost predicate Consistent(w: World, lost: set<Key>) {
    Backed(w, lost) && exists h :: Intact(w, h)
  }

  lemma EveryMomentConsistent(m: Md5, w: World, op: Op)
    requires Sound(m, w)
    ensures forall n | 0 <= n <= |PlanOf(m, w, op).steps| ::
              Consistent(Run(w, PlanOf(m, w, op).steps[..n]), LostMeanwhile(m, w, op, Missing(w)))
  {
    var h0 :| Intact(w, h0);
    var h := h0 + Intended(w, op);
    MoreHistory(w, h0, h);
    forall n | 0 <= n <= |PlanOf(m, w, op).steps|
      ensures Consistent(Run(w, PlanOf(m, w, op).steps[..n]), LostMeanwhile(m, w, op, Missing(w)))
    {
      MidwayIntact(m, w, op, n, h);
      MidwayBacked(m, w, op, n, h);
      assert Midway(m, w, op, n) == Run(w, PlanOf(m, w, op).steps[..n]);
    }
  }

  class Backend {
    const db: Tables
    const files: Files
    const md5: Md5

    constructor (accounts: set<string>, md5: Md5)
      ensures Valid() && this.md5 == md5 && fresh(db) && fresh(files) && fresh(files.journal)
      ensures Now() == Empty(accounts) && files.journal.steps == []
    {
      var journal := new Journal();
      db := new Tables(accounts, journal);
      files := new Files(journal);
      this.md5 := md5;
    }

    /** Rows name the files of the layout, and names lead to files. */
    ghost predicate Valid()
      reads this, db, files
    {
      && db.journal == files.journal && files.Valid()
      && (forall k | k in db.blobs :: db.blobs[k].path == BlobFile(k))
      && (forall b | b in db.staged :: db.staged[b].path == BlockFile(b))
    }

    function Now(): World
      reads this, db, files
    {
      World(db.Contents(), files.Contents())
    }

    /** Exactly the steps of the operation's plan were taken, in order. */
    twostate predicate Followed(plan: Plan)
      reads this, db, files, files.journal
    {
      && Now() == Run(old(Now()), plan.steps)
      && files.journal.steps == old(files.journal.steps) + plan.steps
    }

    /** What a method that follows its plan means to a client, and at every moment of
        its journal. */
    twostate lemma FollowedIsStoreStep(op: Op)
      requires Sound(md5, old(Now()))
      requires Followed(PlanOf(md5, old(Now()), op))
      ensures Sound(md5, Now())
      ensures Abstract(Now()) == StoreStep(md5, Abstract(old(Now())), op).0
      ensures forall n | |old(files.journal.steps)| <= n <= |files.journal.steps| ::
                Consistent(Run(old(Now()), files.journal.steps[|old(files.journal.steps)|..n]),
                           LostMeanwhile(md5, old(Now()), op, Missing(old(Now()))))
    {
      var w := old(Now());
      var before := |old(files.journal.steps)|;
      SoundAfter(md5, w, op);
      EveryMomentConsistent(md5, w, op);
      var steps := PlanOf(md5, w, op).steps;
      forall n | before <= n <= |files.journal.steps|
        ensures Consistent(Run(w, files.journal.steps[before..n]), LostMeanwhile(md5, w, op, Missing(w)))
      {
        assert files.journal.steps[before..n] == steps[..n - before];
      }
    }

    method CreateContainer(a: string, c: string) returns (r: Result<Reply>)
      requires Valid()
      modifies db, files, files.journal
      ensures Valid()
      ensures Followed(PlanOf(md5, old(Now()), Op.CreateContainer(a, c)))
      ensures r == PlanOf(md5, old(Now()), Op.CreateContainer(a, c)).reply
    {
      var row := db.CreateContainer(a, c);
      if row.Err? {
        return Err(row.error);
      }
      RunOne(old(Now()), InsertContainer(a, c));
      r := Ok(Done);
    }

    method DeleteContainer(a: string, c: string) returns (r: Result<Reply>)
      requires Valid()
      modifies db, files, files.journal
      ensures Valid()
      ensures Followed(PlanOf(md5, old(Now()), Op.DeleteContainer(a, c)))
      ensures r == PlanOf(md5, old(Now()), Op.DeleteContainer(a, c)).reply
    {
      ghost var start, log := Now(), files.journal.steps;
      var paths := db.DeleteContainer(a, c);
      if paths.Err? {
        return Err(paths.error);
      }
      RunOne(start, DropContainer(a, c));
      RemoveFiles(paths.value, start, log, [DropContainer(a, c)]);
      files.RemoveDirAll(a, c);
      RunSnoc(start, [DropContainer(a, c)] + Removes(paths.value), RemoveTree(a, c));
      r := Ok(Done);
    }

    /** Best-effort removal of a list of files. */
    method RemoveFiles(paths: seq<FileName>, ghost start: World, ghost log: seq<Step>, ghost taken: seq<Step>)
      requires Valid() && Taken(files, db.Contents(), start, log, taken)
      modifies files, files.journal
      ensures Valid()
      ensures Taken(files, db.Contents(), start, log, taken + Removes(paths))
    {
      assert taken + Removes([]) == taken;
      for i := 0 to |paths|
        invariant Valid() && Taken(files, db.Contents(), start, log, taken + Removes(paths[..i]))
      {
        assert taken + Removes(paths[..i + 1]) == taken + Removes(paths[..i]) + [Remove(paths[i])];
        RunSnoc(start, taken + Removes(paths[..i]), Remove(paths[i]));
        files.RemoveFileIfExists(paths[i]);
      }
      assert paths[..|paths|] == paths;
    }

    method PutBlob(k: Key, body: Body, md5Header: Option<string>, headers: Headers) returns (r: Result<Reply>)
      requires Valid()
      modifies db, files, files.journal
      ensures Valid()
      ensures Followed(PlanOf(md5, old(Now()), Op.PutBlob(k, body, md5Header, headers)))
      ensures r == PlanOf(md5, old(Now()), Op.PutBlob(k, body, md5Header, headers)).reply
    {
      ghost var start := Now();
      ghost var write := WriteSteps(k.account, |files.inodes|, BlobFile(k), body);
      var found := db.RequireContainer(k.account, k.container);
      if found.Err? {
        return Err(found.error);
      }
      var written := WriteStreamAtomic(files, k.account, BlobFile(k), body, md5, db.Contents());
      if written.Err? {
        return Err(InternalError);
      }
      var (size, digest) := written.value;
      if md5Header.Some? && md5Header.value != digest {
        files.RemoveFileIfExists(BlobFile(k));
        RunSnoc(start, write, Remove(BlobFile(k)));
        return Err(Md5Mismatch);
      }
      var row := db.UpsertBlobSingleShot(k, BlobFile(k), size, digest, headers);
      RunSnoc(start, write, UpsertBlob(k, row.value));
      r := Ok(BlobReply(row.value));
    }

    method PutBlock(b: BlockKey, body: Body) returns (r: Result<Reply>)
      requires Valid()
      modifies db, files, files.journal
      ensures Valid()
      ensures Followed(PlanOf(md5, old(Now()), Op.PutBlock(b, body)))
      ensures r == PlanOf(md5, old(Now()), Op.PutBlock(b, body)).reply
    {
      ghost var start := Now();
      ghost var write := WriteSteps(b.blob.account, |files.inodes|, BlockFile(b), body);
      var found := db.RequireContainer(b.blob.account, b.blob.container);
      if found.Err? {
        return Err(found.error);
      }
      var written := WriteStreamAtomic(files, b.blob.account, BlockFile(b), body, md5, db.Contents());
      if written.Err? {
        return Err(InternalError);
      }
      var (size, digest) := written.value;
      db.StageBlockRow(b, size, digest, BlockFile(b));
      RunSnoc(start, write, StageBlock(b, db.staged[b]));
      r := Ok(BlockReply(digest));
    }

    /** The committed sizes by id, as a table. */
    method TableOfSizes(blocks: seq<Block>) returns (sizes: map<string, nat>)
      ensures sizes == SizeTable(blocks)
    {
      sizes := map[];
      for i := 0 to |blocks|
        invariant sizes == SizeTable(blocks[..i])
      {
        sizes := sizes[blocks[i].id := blocks[i].size];
        assert blocks[..i + 1][..i] == blocks[..i];
      }
      assert blocks[..|blocks|] == blocks;
    }

    /** Looks up every reference; gives up at the first that cannot be resolved. */
    method ResolveBlocks(k: Key, refs: seq<BlockRef>) returns (r: Option<seq<Resolved>>)
      ensures r == ResolveAll(db.Contents(), k, refs)
    {
      var blocks := db.GetCommittedBlocks(k);
      var sizes := TableOfSizes(blocks);
      var resolved: seq<Resolved> := [];
      for i := 0 to |refs|
        invariant |resolved| == i
        invariant forall j | 0 <= j < i ::
                    ResolveRef(db.Contents(), k, sizes, refs[j]) == Some(resolved[j])
      {
        var ref := refs[i];
        var staged := db.GetStagedBlock(BlockKey(k, ref.id));
        match ref.kind {
          case Uncommitted =>
            if staged.None? {
              assert ResolveRef(db.Contents(), k, sizes, refs[i]).None?;
              return None;
            }
            resolved := resolved + [Resolved(ref.id, staged.value.size, Some(staged.value.path))];
          case Committed =>
            if ref.id !in sizes || staged.None? {
              assert ResolveRef(db.Contents(), k, sizes, refs[i]).None?;
              return None;
            }
            resolved := resolved + [Resolved(ref.id, sizes[ref.id], Some(staged.value.path))];
          case Latest =>
            if staged.Some? {
              resolved := resolved + [Resolved(ref.id, staged.value.size, Some(staged.value.path))];
            } else if ref.id in sizes {
              resolved := resolved + [Resolved(ref.id, sizes[ref.id], None)];
            } else {
              assert ResolveRef(db.Contents(), k, sizes, refs[i]).None?;
              return None;
            }
        }
      }
      assert resolved == ResolveAll(db.Contents(), k, refs).value;
      r := Some(resolved);
    }

    method PutBlockList(k: Key, refs: seq<BlockRef>, headers: Headers, schedule: seq<seq<nat>>)
      returns (r: Result<Reply>)
      requires Valid()
      modifies db, files, files.journal
      ensures Valid()
      ensures Followed(PlanOf(md5, old(Now()), Op.PutBlockList(k, refs, headers, schedule)))
      ensures r == PlanOf(md5, old(Now()), Op.PutBlockList(k, refs, headers, schedule)).reply
    {
      var found := db.RequireContainer(k.account, k.container);
      if found.Err? {
        return Err(found.error);
      }
      var resolved := ResolveBlocks(k, refs);
      if resolved.None? || !AllStaged(resolved.value) {
        return Err(InvalidBlockList);
      }
      ResolvedArePaths(k, refs);
      r := AssembleBlocks(k, resolved.value, headers, schedule);
    }

    lemma ResolvedArePaths(k: Key, refs: seq<BlockRef>)
      requires Valid() && ResolveAll(db.Contents(), k, refs).Some?
      requires AllStaged(ResolveAll(db.Contents(), k, refs).value)
      ensures forall f | f in PathsOf(ResolveAll(db.Contents(), k, refs).value) :: f.BlockFile?
    {
      var rs := ResolveAll(db.Contents(), k, refs).value;
      forall f | f in PathsOf(rs) ensures f.BlockFile? {
        var i :| 0 <= i < |rs| && f == PathsOf(rs)[i];
        assert rs[i] == ResolveRef(db.Contents(), k, SizeTable(db.Contents().CommittedBlocks(k)), refs[i]).value;
      }
    }

    method AssembleBlocks(k: Key, rs: seq<Resolved>, headers: Headers, schedule: seq<seq<nat>>)
      returns (r: Result<Reply>)
      requires Valid() && AllStaged(rs) && forall f | f in PathsOf(rs) :: f.BlockFile?
      requires (k.account, k.container) in db.containers
      modifies db, files, files.journal
      ensures Valid()
      ensures Followed(AssemblePlan(md5, old(Now()), k, rs, headers, schedule))
      ensures r == AssemblePlan(md5, old(Now()), k, rs, headers, schedule).reply
    {
      ghost var start, log := Now(), files.journal.steps;
      ghost var body := AssemblyBody(files.Contents(), PathsOf(rs), schedule);
      ghost var write := WriteSteps(k.account, |files.inodes|, BlobFile(k), body);
      var written := ConcatenateFilesAtomic(files, k.account, BlobFile(k), PathsOf(rs), schedule, md5, db.Contents());
      if written.Err? {
        return Err(InternalError);
      }
      var (total, digest) := written.value;
      var blocks := seq(|rs|, i requires 0 <= i < |rs| => (rs[i].id, rs[i].size));
      var row := db.CommitBlockList(k, blocks, BlobFile(k), total, digest, headers);
      ghost var commit := CommitBlocks(k, BlocksOf(rs), row.value);
      assert BlocksOf(rs) == seq(|blocks|, i requires 0 <= i < |blocks| => Block(blocks[i].0, blocks[i].1));
      RunSnoc(start, write, commit);
      assert Taken(files, db.Contents(), start, log, write + [commit]);
      RemoveFiles(PathsOf(rs), start, log, write + [commit]);
      r := Ok(BlobReply(row.value));
    }

    method DeleteBlob(k: Key) returns (r: Result<Reply>)
      requires Valid()
      modifies db, files, files.journal
      ensures Valid()
      ensures Followed(PlanOf(md5, old(Now()), Op.DeleteBlob(k)))
      ensures r == PlanOf(md5, old(Now()), Op.DeleteBlob(k)).reply
    {
      ghost var start, log := Now(), files.journal.steps;
      var path := db.DeleteBlob(k);
      if path.Err? {
        return Err(path.error);
      }
      files.RemoveFileIfExists(path.value);
      RunDeletion(start, k, path.value);
      ghost var rows := [DeleteBlobRow(k), DeleteCommitted(k), DeleteStaged(k)];
      Assoc(log, rows, [Remove(path.value)]);
      assert rows + [Remove(path.value)] == PlanOf(md5, start, Op.DeleteBlob(k)).steps;
      r := Ok(Done);
    }

    /** A GET with nothing in between: read the row, resolve the range, open, seek
        and take. */
    method GetBlob(k: Key, range: Option<(nat, nat)>) returns (r: Result<Payload>)
      requires Valid()
      ensures r == BlobRead.GetBlob(Now(), k, range)
    {
      var row := db.RequireBlob(k);
      if row.Err? {
        return Err(row.error);
      }
      var total := row.value.length;
      var resolved: Option<ByteRange> := None;
      if range.Some? {
        var (start, end) := range.value;
        end := Min(end, if total == 0 then 0 else total - 1);
        if start > end || start >= total {
          return Err(InvalidRange);
        }
        resolved := Some(ByteRange(start, end));
      }
      var file := files.Open(row.value.path);
      if file.None? {
        return Err(InternalError);
      }
      var start, take := 0, total;
      if resolved.Some? {
        start, take := resolved.value.start, resolved.value.end - resolved.value.start + 1;
      }
      r := Ok(Payload(row.value, total, resolved, ReadAt(files.inodes[file.value].data, start, take)));
    }

    /** One page of a container's blobs, folded at the delimiter if one is given. */
    method ListBlobs(a: string, c: string, prefix: Option<string>, delim: Option<string>, marker: Option<string>,
                     max: nat)
      returns (r: Result<(Folding.Folded, Option<string>)>)
      ensures var p := if prefix.Some? then prefix.value else "";
              var page := Listing.ListPage(BlobNames(db.Contents(), a, c), p,
                                           if marker.Some? then marker.value else "", max, Listing.BlobLimit(max));
              r == if (a, c) in db.containers then Ok((Folding.Fold(page.names, p, delim), page.next))
                   else Err(ContainerNotFound)
    {
      var p := if prefix.Some? then prefix.value else "";
      var found := db.ListBlobs(a, c, p, if marker.Some? then marker.value else "", max);
      if found.Err? {
        return Err(found.error);
      }
      var folded := FoldRows(found.value.names, p, delim);
      r := Ok((folded, found.value.next));
    }

    /** Name by name: into its group if the delimiter follows the prefix, a group not
        listed yet being added, otherwise into the list of blobs. */
    method FoldRows(rows: seq<string>, p: string, delim: Option<string>) returns (r: Folding.Folded)
      ensures r == Folding.Fold(rows, p, delim)
    {
      var blobs: seq<string>, groups: seq<string> := [], [];
      for i := 0 to |rows|
        invariant Folding.Folded(blobs, groups) == Folding.Fold(rows[..i], p, delim)
      {
        assert rows[..i + 1][..i] == rows[..i];
        if delim.Some? {
          var rest := rows[i][Min(|p|, |rows[i]|)..];
          var at := Folding.Find(rest, delim.value);
          if at.Some? {
            var group := p + rest[..at.value + |delim.value|];
            if group !in groups {
              groups := groups + [group];
            }
            continue;
          }
        }
        blobs := blobs + [rows[i]];
      }
      assert rows[..|rows|] == rows;
      r := Folding.Folded(blobs, groups);
    }
  }
}
