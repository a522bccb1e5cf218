/** The metadata tables as an object: each method is one or more transactions, and
    the ghost journal records them in order. */
module MetadataDb {
  import opened Types
  import opened World
  import opened Plans
  import opened FileSystem
  import Listing
  import Like
  import Names

  class Tables {
    var accounts: set<string>
    var containers: set<(string, string)>
    var blobs: map<Key, BlobRow>
    var staged: map<BlockKey, StagedRow>
    var committed: map<Key, seq<Block>>
    const journal: Journal

    function Contents(): Db
      reads this
    {
      Db(accounts, containers, blobs, staged, committed)
    }

    constructor (accounts: set<string>, journal: Journal)
      ensures Contents() == Db(accounts, {}, map[], map[], map[]) && this.journal == journal
    {
      this.accounts, containers, blobs, staged, committed := accounts, {}, map[], map[], map[];
      this.journal := journal;
    }

    method CreateContainer(a: string, c: string) returns (r: Result<()>)
      modifies this, journal
      ensures r == if (a, c) in old(containers) then Err(ContainerAlreadyExists)
                   else if a !in old(accounts) then Err(InternalError)
                   else Ok(())
      ensures Contents() == if r.Ok? then ApplyDb(old(Contents()), InsertContainer(a, c)) else old(Contents())
      ensures journal.steps == old(journal.steps) + if r.Ok? then [InsertContainer(a, c)] else []
    {
      if (a, c) in containers {
        return Err(ContainerAlreadyExists);
      }
      if a !in accounts {
        return Err(InternalError);
      }
      containers := containers + {(a, c)};
      journal.steps := journal.steps + [InsertContainer(a, c)];
      r := Ok(());
    }

    method RequireContainer(a: string, c: string) returns (r: Result<()>)
      ensures r == if (a, c) in containers then Ok(()) else Err(ContainerNotFound)
    {
      r := if (a, c) in containers then Ok(()) else Err(ContainerNotFound);
    }

    method RequireBlob(k: Key) returns (r: Result<BlobRow>)
      ensures r == if k in blobs then Ok(blobs[k]) else Err(BlobNotFound)
    {
      r := if k in blobs then Ok(blobs[k]) else Err(BlobNotFound);
    }

    /** Drops the container with all its rows in one transaction and returns the
        paths of its blobs. */
    method DeleteContainer(a: string, c: string) returns (r: Result<seq<FileName>>)
      modifies this, journal
      ensures r == if (a, c) in old(containers) then Ok(BlobPaths(old(Contents()), a, c)) else Err(ContainerNotFound)
      ensures Contents() == if r.Ok? then ApplyDb(old(Contents()), DropContainer(a, c)) else old(Contents())
      ensures journal.steps == old(journal.steps) + if r.Ok? then [DropContainer(a, c)] else []
    {
      var found := RequireContainer(a, c);
      if found.Err? {
        return Err(found.error);
      }
      var paths := BlobPaths(Contents(), a, c);
      committed := map k | k in committed && !k.In(a, c) :: committed[k];
      staged := map b | b in staged && !b.blob.In(a, c) :: staged[b];
      blobs := map k | k in blobs && !k.In(a, c) :: blobs[k];
      containers := containers - {(a, c)};
      journal.steps := journal.steps + [DropContainer(a, c)];
      r := Ok(paths);
    }

    method UpsertBlobSingleShot(k: Key, path: FileName, length: nat, md5: string, headers: Headers)
      returns (r: Result<BlobRow>)
      modifies this, journal
      ensures var row := BlobRow(length, md5, headers, path);
              && r == (if (k.account, k.container) in old(containers) then Ok(row) else Err(ContainerNotFound))
              && Contents() == (if r.Ok? then ApplyDb(old(Contents()), UpsertBlob(k, row)) else old(Contents()))
              && journal.steps == old(journal.steps) + if r.Ok? then [UpsertBlob(k, row)] else []
    {
      var found := RequireContainer(k.account, k.container);
      if found.Err? {
        return Err(found.error);
      }
      blobs := blobs[k := BlobRow(length, md5, headers, path)];
      journal.steps := journal.steps + [UpsertBlob(k, blobs[k])];
      r := RequireBlob(k);
    }

    method DeleteRow(k: Key)
      modifies this, journal
      ensures Contents() == ApplyDb(old(Contents()), DeleteBlobRow(k))
      ensures journal.steps == old(journal.steps) + [DeleteBlobRow(k)]
    {
      blobs := blobs - {k};
      journal.steps := journal.steps + [DeleteBlobRow(k)];
    }

    method DeleteCommittedRows(k: Key)
      modifies this, journal
      ensures Contents() == ApplyDb(old(Contents()), DeleteCommitted(k))
      ensures journal.steps == old(journal.steps) + [DeleteCommitted(k)]
    {
      committed := committed - {k};
      journal.steps := journal.steps + [DeleteCommitted(k)];
    }

    method DeleteStagedRows(k: Key)
      modifies this, journal
      ensures Contents() == ApplyDb(old(Contents()), DeleteStaged(k))
      ensures journal.steps == old(journal.steps) + [DeleteStaged(k)]
    {
      staged := map b | b in staged && b.blob != k :: staged[b];
      journal.steps := journal.steps + [DeleteStaged(k)];
    }

    /** Deletes the blob's row, its committed list and its staged rows, one
        statement after the other. */
    method DeleteBlob(k: Key) returns (r: Result<FileName>)
      modifies this, journal
      ensures r == if k in old(blobs) then Ok(old(blobs)[k].path) else Err(BlobNotFound)
      ensures Contents() == if r.Ok? then
                ApplyDb(ApplyDb(ApplyDb(old(Contents()), DeleteBlobRow(k)), DeleteCommitted(k)), DeleteStaged(k))
              else old(Contents())
      ensures journal.steps == old(journal.steps) +
                if r.Ok? then [DeleteBlobRow(k), DeleteCommitted(k), DeleteStaged(k)] else []
    {
      var row := RequireBlob(k);
      if row.Err? {
        return Err(row.error);
      }
      DeleteRow(k);
      DeleteCommittedRows(k);
      DeleteStagedRows(k);
      r := Ok(row.value.path);
    }

    method StageBlockRow(b: BlockKey, size: nat, md5: string, path: FileName)
      modifies this, journal
      ensures var row := StagedRow(size, md5, path);
              && Contents() == ApplyDb(old(Contents()), StageBlock(b, row))
              && journal.steps == old(journal.steps) + [StageBlock(b, row)]
    {
      staged := staged[b := StagedRow(size, md5, path)];
      journal.steps := journal.steps + [StageBlock(b, staged[b])];
    }

    method GetStagedBlock(b: BlockKey) returns (r: Option<StagedRow>)
      ensures r == if b in staged then Some(staged[b]) else None
    {
      r := if b in staged then Some(staged[b]) else None;
    }

    method GetCommittedBlocks(k: Key) returns (r: seq<Block>)
      ensures r == Contents().CommittedBlocks(k)
    {
      r := if k in committed then committed[k] else [];
    }

    /** Replaces the committed list, upserts the blob's row and clears its staged
        rows, in one transaction: the journal gets one step at its end. */
    method CommitBlockList(k: Key, resolved: seq<(string, nat)>, path: FileName, total: nat, md5: string,
                           headers: Headers)
      returns (r: Result<BlobRow>)
      modifies this, journal
      ensures var row := BlobRow(total, md5, headers, path);
              var blocks := seq(|resolved|, i requires 0 <= i < |resolved| => Block(resolved[i].0, resolved[i].1));
              && r == (if (k.account, k.container) in old(containers) then Ok(row) else Err(ContainerNotFound))
              && Contents()
                 == (if r.Ok? then ApplyDb(old(Contents()), CommitBlocks(k, blocks, row)) else old(Contents()))
              && journal.steps == old(journal.steps) + if r.Ok? then [CommitBlocks(k, blocks, row)] else []
    {
      var found := RequireContainer(k.account, k.container);
      if found.Err? {
        return Err(found.error);
      }
      ghost var blocks := seq(|resolved|, i requires 0 <= i < |resolved| => Block(resolved[i].0, resolved[i].1));
      committed := committed[k := []];
      for i := 0 to |resolved|
        invariant committed == old(committed)[k := blocks[..i]]
        invariant containers == old(containers) && blobs == old(blobs) && staged == old(staged)
        invariant accounts == old(accounts) && journal.steps == old(journal.steps)
      {
        assert blocks[..i + 1] == blocks[..i] + [Block(resolved[i].0, resolved[i].1)];
        committed := committed[k := committed[k] + [Block(resolved[i].0, resolved[i].1)]];
        assert committed == old(committed)[k := blocks[..i + 1]];
      }
      assert blocks[..|resolved|] == blocks;
      blobs := blobs[k := BlobRow(total, md5, headers, path)];
      staged := map b | b in staged && b.blob != k :: staged[b];
      journal.steps := journal.steps + [CommitBlocks(k, blocks, blobs[k])];
      r := RequireBlob(k);
    }

    /** The names of a page of an account's containers, and no others, and the marker of
        the next page. */
    method ListContainers(a: string, prefix: string, marker: string, max: nat)
      returns (page: seq<string>, next: Option<string>)
      requires max < Listing.U32_MODULUS
      ensures forall n | n in page :: (a, n) in containers && Like.Selects(prefix, n) && Names.Less(marker, n)
      ensures Listing.Page(page, next)
           == Listing.ListPage(ContainerNames(Contents(), a), prefix, marker, max, Listing.ContainerLimit(max))
    {
      var rows := Listing.Query(ContainerNames(Contents(), a), prefix, marker, (max + 1) % Listing.U32_MODULUS);
      page, next := CutPage(rows, max);
      Listing.RowsMatch(ContainerNames(Contents(), a), prefix, marker, (max + 1) % Listing.U32_MODULUS);
      ContainerNamesAreKeys(Contents(), a);
    }

    /** The names of a page of a container's blobs and the marker of the next page. */
    method ListBlobs(a: string, c: string, prefix: string, marker: string, max: nat)
      returns (r: Result<Listing.Page>)
      ensures r == if (a, c) in containers then
                     Ok(Listing.ListPage(BlobNames(Contents(), a, c), prefix, marker, max, Listing.BlobLimit(max)))
                   else Err(ContainerNotFound)
      ensures r.Ok? ==> forall n | n in r.value.names ::
                Key(a, c, n) in blobs && Like.Selects(prefix, n) && Names.Less(marker, n)
    {
      var found := RequireContainer(a, c);
      if found.Err? {
        return Err(found.error);
      }
      var rows := Listing.Query(BlobNames(Contents(), a, c), prefix, marker, max + 1);
      var page, next := CutPage(rows, max);
      Listing.RowsMatch(BlobNames(Contents(), a, c), prefix, marker, max + 1);
      BlobNamesAreKeys(Contents(), a, c);
      r := Ok(Listing.Page(page, next));
    }

    /** Cuts the row beyond the page off again; if there was one, the last row that
        stays is the marker. */
    method CutPage(rows: seq<string>, max: nat) returns (page: seq<string>, next: Option<string>)
      ensures |rows| <= max ==> page == rows && next == None
      ensures |rows| > max ==> page == rows[..max] && next == if max == 0 then None else Some(rows[max - 1])
    {
      page, next := rows, None;
      if |page| > max {
        page := page[..max];
        next := if page == [] then None else Some(page[|page| - 1]);
      }
    }
  }

  /** For limits that work the pages of containers are complete: all pages together are
      the sorted names of exactly the account's own containers that the prefix selects,
      and each page is what the method answers with. */
  lemma ContainerPagesAreComplete(db: Db, a: string, prefix: string, max: nat)
    requires 1 <= max < Listing.U32_MODULUS - 1
    ensures var all := Listing.Flatten(Listing.Pages(ContainerNames(db, a), prefix, "", max));
            && Names.Ascending(all)
            && (forall n :: n in all <==> (a, n) in db.containers && Like.Selects(prefix, n) && n != "")
    ensures forall marker :: Listing.ListPage(ContainerNames(db, a), prefix, marker, max, Listing.ContainerLimit(max))
                          == Listing.ListPage(ContainerNames(db, a), prefix, marker, max, max + 1)
  {
    Listing.PagesListMatches(ContainerNames(db, a), prefix, max);
    ContainerNamesAreKeys(db, a);
    assert Listing.ContainerLimit(max) == max + 1;
  }
}
