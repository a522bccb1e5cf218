/** What clients learn of digests: a Put Blob is refused exactly for a wrong one, and
    the replies tell the digest of the bytes that were stored. */
module Digests {
  import opened Types
  import opened World
  import opened Plans
  import opened Integrity
  import opened Refinement
  import opened BlobRead

  /** A complete Put Blob into an existing container is refused if and only if it has an
      MD5 header that differs from the hash of its bytes, taken byte by byte. */
  lemma PutBlobRefusedExactly(m: Md5, w: World, op: Op, g: Bytes -> Bytes)
    requires op.PutBlob? && op.body.complete && (op.key.account, op.key.container) in w.db.containers
    requires m.Folds(g)
    ensures PlanOf(m, w, op).reply == Err(Md5Mismatch)
       <==> op.md5Header.Some? && op.md5Header.value != m.finish(g(op.body.Data()))
    ensures PlanOf(m, w, op).reply != Err(Md5Mismatch) ==> PlanOf(m, w, op).reply.Ok?
  {
    m.DigestIsFold(g, op.body.Data());
  }

  /** The row has the length of the bytes, the digest and the headers. */
  predicate Tells(row: BlobRow, data: Bytes, digest: string, headers: Headers) {
    row.length == U64(|data|) && row.md5 == digest && row.headers == headers
  }

  /** The reply tells the digest, length and headers of the bytes the request stores. */
  ghost predicate TellsTruth(m: Md5, s: Store, op: Op, reply: Reply, g: Bytes -> Bytes) {
    match op
    case PutBlob(_, body, _, headers) =>
      reply.BlobReply? && Tells(reply.row, body.Data(), m.finish(g(body.Data())), headers)
    case PutBlock(_, body) => reply == BlockReply(m.finish(g(body.Data())))
    case PutBlockList(k, refs, headers, _) =>
      && s.AllUsable(k, refs) && reply.BlobReply?
      && Tells(reply.row, s.Joined(k, refs), m.finish(g(s.Joined(k, refs))), headers)
    case _ => reply == Done
  }

  lemma RepliesTellDigests(m: Md5, w: World, op: Op, g: Bytes -> Bytes)
    requires Sound(m, w) && m.Folds(g) && PlanOf(m, w, op).reply.Ok?
    ensures TellsTruth(m, Abstract(w), op, PlanOf(m, w, op).reply.value, g)
  {
    var h :| Intact(w, h);
    OperationRefines(m, w, op, h);
    match op
    case PutBlob(_, body, _, _) => m.DigestIsFold(g, body.Data());
    case PutBlock(_, body) => m.DigestIsFold(g, body.Data());
    case PutBlockList(k, refs, _, _) => m.DigestIsFold(g, Abstract(w).Joined(k, refs));
    case _ =>
  }

  /** A GET tells the digest of the bytes that the simple store holds. */
  lemma GetTellsDigest(m: Md5, w: World, k: Key, range: Option<(nat, nat)>, g: Bytes -> Bytes)
    requires Sound(m, w) && m.Folds(g) && k in w.db.blobs && w.disk.Holds(BlobFile(k))
    requires GetBlob(w, k, range).Ok?
    ensures var content := Abstract(w).blobs[k];
            && content.Content?
            && Tells(GetBlob(w, k, range).value.row, content.data, m.finish(g(content.data)), content.headers)
  {
    assert TrueRow(m, w.disk, k, w.db.blobs[k]);
    m.DigestIsFold(g, w.disk.Data(BlobFile(k)));
  }
}
