/** Where each file lies on disk, and that no two files share a place. */
module PathLayout {
  import opened World
  import opened Text

  /** The hash that turns a name into hexadecimal digits, and the generator of
      unique temporary names. */
  datatype Layout = Layout(hash: string -> string, tempName: nat -> string) {

    function ContainerRoot(account: string, container: string): seq<string> {
      ["accounts", account, "containers", container]
    }

    function Components(f: FileName): seq<string>
      requires forall s :: |hash(s)| == 64
    {
      match f
      case BlobFile(k) =>
        var h := hash(k.blob);
        ContainerRoot(k.account, k.container) + ["blobs", h[0..2], h[2..4], h + ".bin"]
      case BlockFile(b) =>
        ContainerRoot(b.blob.account, b.blob.container)
        + [".staging", "blocks", hash(b.blob.blob), hash(b.id) + ".blk"]
      case TempFile(a, n) => ["accounts", a, "tmp", tempName(n) + ".tmp"]
    }

    function Path(f: FileName): string
      requires forall s :: |hash(s)| == 64
    {
      Join("/", Components(f))
    }

    /** The hash tells the names of these two files apart. */
    predicate TellsApart(f: FileName, g: FileName) {
      match (f, g)
      case (BlobFile(k), BlobFile(l)) => hash(k.blob) == hash(l.blob) ==> k.blob == l.blob
      case (BlockFile(b), BlockFile(c)) =>
        && (hash(b.blob.blob) == hash(c.blob.blob) ==> b.blob.blob == c.blob.blob)
        && (hash(b.id) == hash(c.id) ==> b.id == c.id)
      case (TempFile(_, n), TempFile(_, o)) => tempName(n) == tempName(o) ==> n == o
      case _ => true
    }

    /** The path as the tables store it: backslashes become slashes. */
    function StoredPath(f: FileName): string
      requires forall s :: |hash(s)| == 64
    {
      Slashed(Path(f))
    }
  }

  function Slashed(s: string): string {
    if s == [] then [] else [if s[0] == '\\' then '/' else s[0]] + Slashed(s[1..])
  }

  predicate IsHex(c: char) {
    '0' <= c <= '9' || 'a' <= c <= 'f'
  }

  /** An account or container name that is one ordinary path component. */
  predicate Ordinary(name: string) {
    name != "" && name != "." && name != ".." && Free('/', name) && Free('\\', name)
  }

  predicate OrdinaryNames(l: Layout, f: FileName) {
    match f
    case BlobFile(k) => Ordinary(k.account) && Ordinary(k.container)
    case BlockFile(b) => Ordinary(b.blob.account) && Ordinary(b.blob.container)
    case TempFile(a, n) => Ordinary(a) && Ordinary(l.tempName(n))
  }

  ghost predicate HexHash(l: Layout) {
    forall s :: |l.hash(s)| == 64 && forall i | 0 <= i < 64 :: IsHex(l.hash(s)[i])
  }

  lemma ComponentsOrdinary(l: Layout, f: FileName, c: char)
    requires HexHash(l) && OrdinaryNames(l, f) && c in {'/', '\\'}
    ensures AllFree(c, l.Components(f))
  {
    match f
    case BlobFile(k) =>
      assert forall x | x in l.hash(k.blob) :: IsHex(x);
    case BlockFile(b) =>
      assert forall x | x in l.hash(b.blob.blob) :: IsHex(x);
      assert forall x | x in l.hash(b.id) :: IsHex(x);
    case TempFile(_, _) =>
  }

  lemma SuffixInjective(a: string, b: string, suffix: string)
    requires a + suffix == b + suffix
    ensures a == b
  {
    assert |a| == |b|;
    assert (a + suffix)[..|a|] == a && (b + suffix)[..|b|] == b;
  }

  lemma DifferentComponents(l: Layout, f: FileName, g: FileName)
    requires HexHash(l) && l.TellsApart(f, g) && l.Components(f) == l.Components(g)
    requires OrdinaryNames(l, f) && OrdinaryNames(l, g)
    ensures f == g
  {
    var a, b := l.Components(f), l.Components(g);
    assert |a| == |b| && a[1] == b[1] && a[2] == b[2] && a[3] == b[3];
    assert |a| > 4 ==> a[4] == b[4];
    match (f, g)
    case (BlobFile(k), BlobFile(m)) =>
      assert a[7] == b[7];
      SuffixInjective(l.hash(k.blob), l.hash(m.blob), ".bin");
    case (BlockFile(x), BlockFile(y)) =>
      assert a[6] == b[6] && a[7] == b[7];
      SuffixInjective(l.hash(x.id), l.hash(y.id), ".blk");
    case (TempFile(_, n), TempFile(_, o)) =>
      SuffixInjective(l.tempName(n), l.tempName(o), ".tmp");
    case _ =>
  }

  /** Two files have one path only if they are the same file: names are kept apart
      by the layout, provided account and container names are ordinary components
      and the hash does not collide on the two names. */
  lemma PathsAreSeparate(l: Layout, f: FileName, g: FileName)
    requires HexHash(l) && l.TellsApart(f, g) && OrdinaryNames(l, f) && OrdinaryNames(l, g)
    ensures l.Path(f) == l.Path(g) <==> f == g
  {
    if l.Path(f) == l.Path(g) {
      ComponentsOrdinary(l, f, '/');
      ComponentsOrdinary(l, g, '/');
      JoinInjective('/', l.Components(f), l.Components(g));
      DifferentComponents(l, f, g);
    }
  }

  /** What lies below a container's root directory is exactly what belongs to the
      container: removing the directory removes these files and no others. */
  lemma RootHoldsExactlyTheContainer(l: Layout, f: FileName, a: string, c: string)
    requires HexHash(l)
    ensures l.ContainerRoot(a, c) <= l.Components(f) <==> f.In(a, c)
  {
    var root, path := l.ContainerRoot(a, c), l.Components(f);
    if root <= path {
      assert root[1] == path[1] && root[2] == path[2] && root[3] == path[3];
    }
    match f
    case BlobFile(k) =>
      if f.In(a, c) { assert path[..4] == root; }
    case BlockFile(b) =>
      if f.In(a, c) { assert path[..4] == root; }
    case TempFile(_, _) =>
      assert path[2] == "tmp" && root[2] == "containers";
  }

  lemma {:induction false} SlashedSame(s: string)
    requires Free('\\', s)
    ensures Slashed(s) == s
  {
    if s == [] {
    } else {
      assert s[0] in s;
      assert forall x | x in s[1..] :: x in s;
      SlashedSame(s[1..]);
    }
  }

  lemma {:induction false} SlashedExactly(s: string)
    ensures |Slashed(s)| == |s|
    ensures forall i | 0 <= i < |s| :: Slashed(s)[i] == if s[i] == '\\' then '/' else s[i]
  {
    if s == [] {
    } else {
      SlashedExactly(s[1..]);
      assert forall i | 1 <= i < |s| :: Slashed(s)[i] == Slashed(s[1..])[i - 1] && s[i] == s[1..][i - 1];
    }
  }

  /** The account and container as they are, the blob and the block by the hash of their
      names, a blob's file below two levels of shards. */
  predicate LiesAt(l: Layout, f: FileName, parts: seq<string>)
    requires forall s :: |l.hash(s)| == 64
  {
    match f
    case BlobFile(k) =>
      parts == ["accounts", k.account, "containers", k.container, "blobs",
                l.hash(k.blob)[0..2], l.hash(k.blob)[2..4], l.hash(k.blob) + ".bin"]
    case BlockFile(b) =>
      parts == ["accounts", b.blob.account, "containers", b.blob.container, ".staging", "blocks",
                l.hash(b.blob.blob), l.hash(b.id) + ".blk"]
    case TempFile(a, n) => parts == ["accounts", a, "tmp", l.tempName(n) + ".tmp"]
  }

  /** The parts of a path, cut at the slashes. */
  lemma PathParts(l: Layout, f: FileName)
    requires HexHash(l) && OrdinaryNames(l, f)
    ensures LiesAt(l, f, Split('/', l.Path(f)))
  {
    ComponentsOrdinary(l, f, '/');
    SplitJoin('/', l.Components(f));
  }

  /** For ordinary names the stored path is the path the file was written to, so a
      later lookup by the stored path finds it. */
  lemma StoredPathIsPath(l: Layout, f: FileName)
    requires HexHash(l) && OrdinaryNames(l, f)
    ensures l.StoredPath(f) == l.Path(f)
  {
    ComponentsOrdinary(l, f, '\\');
    JoinFree('\\', "/", l.Components(f));
    SlashedSame(l.Path(f));
  }
}
