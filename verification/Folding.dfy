/** Delimiter listing: each page folds the names that contain the delimiter behind
    the prefix into virtual directories. */
module Folding {
  import opened Types
  import opened Names
  import opened Listing

  /** Where a text first occurs in another. */
  function Find(s: string, d: string): (r: Option<nat>)
    ensures r.Some? ==> r.value + |d| <= |s| && s[r.value..r.value + |d|] == d
    decreases |s|
  {
    if d <= s then Some(0)
    else if s == [] then None
    else
      match Find(s[1..], d)
      case None => None
      case Some(i) =>
        assert s[i + 1..i + 1 + |d|] == s[1..][i..i + |d|];
        Some(i + 1)
  }

  /** The virtual directory of a name: the prefix and what follows it up to and
      including the first delimiter. */
  function GroupOf(prefix: string, delim: string, name: string): Option<string> {
    var rest := name[Min(|prefix|, |name|)..];
    match Find(rest, delim)
    case None => None
    case Some(i) => Some(prefix + rest[..i + |delim|])
  }

  datatype Folded = Folded(blobs: seq<string>, groups: seq<string>)

  /** Folding one page, name after name. */
  function Fold(names: seq<string>, prefix: string, delim: Option<string>): Folded {
    if names == [] then Folded([], [])
    else
      var n := |names| - 1;
      var before := Fold(names[..n], prefix, delim);
      if delim.Some? && GroupOf(prefix, delim.value, names[n]).Some? then
        var g := GroupOf(prefix, delim.value, names[n]).value;
        if g in before.groups then before else Folded(before.blobs, before.groups + [g])
      else Folded(before.blobs + [names[n]], before.groups)
  }

  // --------------------------------------------------------- single names

  predicate Occurs(s: string, d: string, j: nat) {
    j + |d| <= |s| && s[j..j + |d|] == d
  }

  lemma {:induction false} FindIsFirst(s: string, d: string, j: nat)
    requires Occurs(s, d, j)
    ensures Find(s, d).Some? && Find(s, d).value <= j
    decreases |s|
  {
    if d <= s {
    } else {
      assert s[1..][j - 1..j - 1 + |d|] == s[j..j + |d|];
      FindIsFirst(s[1..], d, j - 1);
    }
  }

  /** The delimiter stands at j and nowhere before. */
  predicate FirstAt(s: string, d: string, j: nat) {
    Occurs(s, d, j) && forall i: nat | i < j :: !Occurs(s, d, i)
  }

  /** Where the delimiter is looked for: what follows as many characters as the prefix
      has. */
  function Behind(prefix: string, name: string): string {
    if |prefix| <= |name| then name[|prefix|..] else ""
  }

  /** A name has a group if and only if the delimiter occurs behind the prefix. */
  predicate Divided(prefix: string, delim: string, name: string) {
    exists j: nat :: j <= |name| && Occurs(Behind(prefix, name), delim, j)
  }

  /** The name is cut behind the first delimiter that follows the prefix. */
  predicate IsCut(prefix: string, delim: string, name: string, g: string) {
    exists j: nat :: j <= |name| && FirstAt(Behind(prefix, name), delim, j)
                     && g == prefix + Behind(prefix, name)[..j + |delim|]
  }

  lemma FindIsFirstAt(s: string, d: string)
    requires Find(s, d).Some?
    ensures FirstAt(s, d, Find(s, d).value)
    ensures forall j: nat :: FirstAt(s, d, j) ==> j == Find(s, d).value
  {
    FindOccurs(s, d);
    forall i: nat | i < Find(s, d).value ensures !Occurs(s, d, i) {
      if Occurs(s, d, i) { FindIsFirst(s, d, i); }
    }
  }

  lemma GroupIsDivided(prefix: string, delim: string, name: string)
    ensures GroupOf(prefix, delim, name).Some? <==> Divided(prefix, delim, name)
  {
    var rest := Behind(prefix, name);
    assert rest == name[Min(|prefix|, |name|)..];
    if Divided(prefix, delim, name) {
      var j: nat :| j <= |name| && Occurs(rest, delim, j);
      FindIsFirst(rest, delim, j);
    }
    if Find(rest, delim).Some? {
      FindOccurs(rest, delim);
    }
  }

  lemma CutIsGroup(prefix: string, delim: string, name: string, j: nat)
    requires FirstAt(Behind(prefix, name), delim, j)
    ensures GroupOf(prefix, delim, name) == Some(prefix + Behind(prefix, name)[..j + |delim|])
  {
    var rest := Behind(prefix, name);
    assert rest == name[Min(|prefix|, |name|)..];
    FindIsFirst(rest, delim, j);
    FindOccurs(rest, delim);
  }

  /** Exactly the names in which the delimiter follows the prefix have a group, and it is
      the prefix and what follows it up to the end of the first such delimiter. */
  lemma GroupOfExactly(prefix: string, delim: string, name: string)
    ensures GroupOf(prefix, delim, name).Some? <==> Divided(prefix, delim, name)
    ensures forall g :: GroupOf(prefix, delim, name) == Some(g) <==> IsCut(prefix, delim, name, g)
  {
    var rest := Behind(prefix, name);
    GroupIsDivided(prefix, delim, name);
    if GroupOf(prefix, delim, name).Some? {
      assert rest == name[Min(|prefix|, |name|)..];
      FindIsFirstAt(rest, delim);
      CutIsGroup(prefix, delim, name, Find(rest, delim).value);
    }
    forall g | IsCut(prefix, delim, name, g) ensures GroupOf(prefix, delim, name) == Some(g) {
      var j: nat :| j <= |name| && FirstAt(rest, delim, j) && g == prefix + rest[..j + |delim|];
      CutIsGroup(prefix, delim, name, j);
    }
  }

  lemma BeginningThenMore(a: string, b: string, n: nat)
    requires n <= |b|
    ensures a + b[..n] == (a + b)[..|a| + n]
  {
  }

  /** For a name that begins with the prefix the group is a beginning of the name. */
  lemma CutIsBeginning(prefix: string, delim: string, name: string, j: nat)
    requires prefix <= name && FirstAt(name[|prefix|..], delim, j)
    ensures GroupOf(prefix, delim, name) == Some(name[..|prefix| + j + |delim|])
  {
    CutIsGroup(prefix, delim, name, j);
    BeginningThenMore(prefix, name[|prefix|..], j + |delim|);
    assert name == prefix + name[|prefix|..];
  }

  lemma OccursInBoth(s: string, t: string, d: string, n: nat, j: nat)
    requires n <= |s| && n <= |t| && s[..n] == t[..n] && j + |d| <= n && Occurs(s, d, j)
    ensures Occurs(t, d, j)
  {
    assert s[j..j + |d|] == s[..n][j..j + |d|] && t[j..j + |d|] == t[..n][j..j + |d|];
  }

  lemma FindOccurs(s: string, d: string)
    requires Find(s, d).Some?
    ensures Occurs(s, d, Find(s, d).value)
  {
  }

  /** A shared beginning that holds the first delimiter of one text holds the first
      delimiter of the other, at the same place. */
  lemma FindInCommon(s: string, t: string, d: string, n: nat)
    requires Find(s, d).Some? && n == Find(s, d).value + |d|
    requires n <= |t| && s[..n] == t[..n]
    ensures Find(t, d) == Find(s, d)
  {
    FindOccurs(s, d);
    OccursInBoth(s, t, d, n, n - |d|);
    FindIsFirst(t, d, n - |d|);
    FindOccurs(t, d);
    OccursInBoth(t, s, d, n, Find(t, d).value);
    FindIsFirst(s, d, Find(t, d).value);
  }

  lemma GroupIsPrefix(prefix: string, delim: string, name: string)
    requires prefix <= name && GroupOf(prefix, delim, name).Some?
    ensures prefix <= GroupOf(prefix, delim, name).value <= name
  {
    var rest := name[|prefix|..];
    assert name == prefix + rest;
    var i := Find(rest, delim).value;
    assert rest == rest[..i + |delim|] + rest[i + |delim|..];
  }

  /** A name that begins with another name's group belongs to that group. */
  lemma SharedGroup(prefix: string, delim: string, a: string, b: string)
    requires prefix <= a && prefix <= b && GroupOf(prefix, delim, a).Some?
    requires GroupOf(prefix, delim, a).value <= b
    ensures GroupOf(prefix, delim, b) == GroupOf(prefix, delim, a)
  {
    GroupByFind(prefix, delim, a);
    SharedRest(prefix, a[|prefix|..], b, delim, Find(a[|prefix|..], delim).value + |delim|);
  }

  lemma SharedRest(prefix: string, rest: string, b: string, delim: string, n: nat)
    requires prefix <= b && Find(rest, delim).Some? && n == Find(rest, delim).value + |delim|
    requires prefix + rest[..n] <= b
    ensures GroupOf(prefix, delim, b) == Some(prefix + rest[..n])
  {
    CutPrefix(prefix, rest[..n], b);
    FindInCommon(rest, b[|prefix|..], delim, n);
    GroupByFind(prefix, delim, b);
  }

  lemma GroupByFind(prefix: string, delim: string, name: string)
    requires prefix <= name
    ensures var rest := name[|prefix|..];
            GroupOf(prefix, delim, name)
            == if Find(rest, delim).None? then None else Some(prefix + rest[..Find(rest, delim).value + |delim|])
  {
    assert Min(|prefix|, |name|) == |prefix|;
  }

  lemma CutPrefix(prefix: string, more: string, s: string)
    requires prefix + more <= s
    ensures |prefix| + |more| <= |s| && s[|prefix|..][..|more|] == more
  {
    assert s[..|prefix + more|] == prefix + more;
    assert s[|prefix|..][..|more|] == s[..|prefix + more|][|prefix|..];
  }

  /** Between two texts that begin with g, everything begins with g. */
  lemma {:induction false} BetweenHasPrefix(g: string, a: string, b: string, c: string)
    requires g <= a && g <= c && Less(a, b) && Less(b, c)
    ensures g <= b
    decreases |g|
  {
    if g == [] {
    } else {
      assert a[0] == g[0] && c[0] == g[0];
      assert b[0] == g[0];
      BetweenHasPrefix(g[1..], a[1..], b[1..], c[1..]);
      assert b == [b[0]] + b[1..] && g == [g[0]] + g[1..];
    }
  }

  /** Names of one group are neighbours in the order. */
  lemma GroupsAreContiguous(prefix: string, delim: string, a: string, b: string, c: string)
    requires prefix <= a && prefix <= b && prefix <= c && Less(a, b) && Less(b, c)
    requires GroupOf(prefix, delim, a).Some? && GroupOf(prefix, delim, c) == GroupOf(prefix, delim, a)
    ensures GroupOf(prefix, delim, b) == GroupOf(prefix, delim, a)
  {
    var g := GroupOf(prefix, delim, a).value;
    GroupIsPrefix(prefix, delim, a);
    GroupIsPrefix(prefix, delim, c);
    BetweenHasPrefix(g, a, b, c);
    SharedGroup(prefix, delim, a, b);
  }

  /** Unless one is a prefix of the other, texts are ordered as what they begin. */
  lemma {:induction false} OrderOfPrefixes(p: string, q: string, a: string, b: string)
    requires p <= a && q <= b && Less(a, b) && !(p <= q) && !(q <= p)
    ensures Less(p, q)
    decreases |p|
  {
    if p[0] != q[0] {
    } else {
      assert a[0] == p[0] && b[0] == q[0];
      assert q == [q[0]] + q[1..] && p == [p[0]] + p[1..];
      OrderOfPrefixes(p[1..], q[1..], a[1..], b[1..]);
    }
  }

  /** Different groups come in the order of their names. */
  lemma GroupsAscend(prefix: string, delim: string, a: string, b: string)
    requires prefix <= a && prefix <= b && Less(a, b)
    requires GroupOf(prefix, delim, a).Some? && GroupOf(prefix, delim, b).Some?
    requires GroupOf(prefix, delim, a) != GroupOf(prefix, delim, b)
    ensures Less(GroupOf(prefix, delim, a).value, GroupOf(prefix, delim, b).value)
  {
    var p, q := GroupOf(prefix, delim, a).value, GroupOf(prefix, delim, b).value;
    GroupIsPrefix(prefix, delim, a);
    GroupIsPrefix(prefix, delim, b);
    if p <= q {
      SharedGroup(prefix, delim, a, b);
    } else if q <= p {
      SharedGroup(prefix, delim, b, a);
    } else {
      OrderOfPrefixes(p, q, a, b);
    }
  }

  // --------------------------------------------------------------- a page

  ghost predicate AllBegin(prefix: string, names: seq<string>) {
    forall n | n in names :: prefix <= n
  }

  ghost predicate InGroup(prefix: string, delim: string, names: seq<string>, g: string) {
    exists n :: n in names && GroupOf(prefix, delim, n) == Some(g)
  }

  ghost predicate IsCutOfOne(prefix: string, delim: string, names: seq<string>, g: string) {
    exists n :: n in names && IsCut(prefix, delim, n, g)
  }

  function Unfolded(names: seq<string>, prefix: string, delim: string): seq<string> {
    if names == [] then []
    else if GroupOf(prefix, delim, names[0]).Some? then Unfolded(names[1..], prefix, delim)
    else [names[0]] + Unfolded(names[1..], prefix, delim)
  }

  lemma {:induction false} UnfoldedAppend(a: seq<string>, b: seq<string>, prefix: string, delim: string)
    ensures Unfolded(a + b, prefix, delim) == Unfolded(a, prefix, delim) + Unfolded(b, prefix, delim)
  {
    if a == [] {
      assert a + b == b;
    } else {
      assert (a + b)[1..] == a[1..] + b;
      UnfoldedAppend(a[1..], b, prefix, delim);
    }
  }

  /** Folding keeps every unfolded name, in order, and lists the group of every
      folded name. */
  lemma {:induction false} FoldKeepsAll(names: seq<string>, prefix: string, delim: string)
    ensures Fold(names, prefix, Some(delim)).blobs == Unfolded(names, prefix, delim)
    ensures forall g :: g in Fold(names, prefix, Some(delim)).groups <==> InGroup(prefix, delim, names, g)
    decreases |names|
  {
    if names == [] {
    } else {
      var n := |names| - 1;
      var last := names[n];
      FoldKeepsAll(names[..n], prefix, delim);
      assert names == names[..n] + [last];
      UnfoldedAppend(names[..n], [last], prefix, delim);
      assert Unfolded([last], prefix, delim)
          == if GroupOf(prefix, delim, last).Some? then [] else [last] + Unfolded([], prefix, delim);
      forall g ensures g in Fold(names, prefix, Some(delim)).groups <==> InGroup(prefix, delim, names, g) {
        assert InGroup(prefix, delim, names, g)
          <==> InGroup(prefix, delim, names[..n], g) || GroupOf(prefix, delim, last) == Some(g);
      }
    }
  }

  lemma {:induction false} UnfoldedExactly(names: seq<string>, prefix: string, delim: string)
    ensures forall n :: n in Unfolded(names, prefix, delim) <==> n in names && !Divided(prefix, delim, n)
    ensures Ascending(names) ==> Ascending(Unfolded(names, prefix, delim))
  {
    if names == [] {
    } else {
      UnfoldedExactly(names[1..], prefix, delim);
      GroupIsDivided(prefix, delim, names[0]);
      if Ascending(names) {
        forall x | x in Unfolded(names[1..], prefix, delim) ensures Less(names[0], x) {
          var i :| 0 <= i < |names[1..]| && names[1..][i] == x;
          assert names[i + 1] == x;
        }
        AscendingConcat([names[0]], Unfolded(names[1..], prefix, delim));
      }
    }
  }

  lemma InGroupExactly(prefix: string, delim: string, names: seq<string>, g: string)
    ensures InGroup(prefix, delim, names, g) <==> IsCutOfOne(prefix, delim, names, g)
  {
    forall n {
      GroupOfExactly(prefix, delim, n);
    }
    if n :| n in names && GroupOf(prefix, delim, n) == Some(g) {
      assert IsCut(prefix, delim, n, g);
    }
    if n :| n in names && IsCut(prefix, delim, n, g) {
      assert GroupOf(prefix, delim, n) == Some(g);
    }
  }

  /** A page exactly: a name of it is listed as a blob if and only if the delimiter does
      not occur behind the prefix, and a text is listed as a group if and only if it is
      a name of the page cut behind the first delimiter that follows the prefix. */
  lemma FoldExactly(names: seq<string>, prefix: string, delim: string)
    ensures forall n :: n in Fold(names, prefix, Some(delim)).blobs <==> n in names && !Divided(prefix, delim, n)
    ensures forall g :: g in Fold(names, prefix, Some(delim)).groups <==> IsCutOfOne(prefix, delim, names, g)
    ensures Ascending(names) ==> Ascending(Fold(names, prefix, Some(delim)).blobs)
  {
    FoldKeepsAll(names, prefix, delim);
    UnfoldedExactly(names, prefix, delim);
    forall g {
      InGroupExactly(prefix, delim, names, g);
    }
  }

  /** Without a delimiter nothing is folded. */
  lemma {:induction false} FoldWithoutDelimiter(names: seq<string>, prefix: string)
    ensures Fold(names, prefix, None) == Folded(names, [])
    decreases |names|
  {
    if names == [] {
    } else {
      var n := |names| - 1;
      FoldWithoutDelimiter(names[..n], prefix);
      assert names == names[..n] + [names[n]];
    }
  }

  lemma AscendingInit(names: seq<string>, n: nat)
    requires Ascending(names) && n <= |names|
    ensures Ascending(names[..n])
  {
  }

  lemma LaterGroupIsGreater(names: seq<string>, n: nat, prefix: string, delim: string, x: string, g: string)
    requires Ascending(names) && AllBegin(prefix, names) && n < |names|
    requires InGroup(prefix, delim, names[..n], x) && GroupOf(prefix, delim, names[n]) == Some(g) && x != g
    ensures Less(x, g)
  {
    var m :| m in names[..n] && GroupOf(prefix, delim, m) == Some(x);
    var i :| 0 <= i < n && names[i] == m;
    assert names[i] in names && names[n] in names;
    GroupsAscend(prefix, delim, m, names[n]);
  }

  /** The groups of a page of ascending names are strictly ascending. */
  lemma {:induction false} GroupsOfPageAscend(names: seq<string>, prefix: string, delim: string)
    requires Ascending(names) && AllBegin(prefix, names)
    ensures Ascending(Fold(names, prefix, Some(delim)).groups)
    decreases |names|
  {
    if names == [] {
    } else {
      var n := |names| - 1;
      var before := Fold(names[..n], prefix, Some(delim)).groups;
      assert AllBegin(prefix, names[..n]) by {
        assert forall x | x in names[..n] :: x in names;
      }
      AscendingInit(names, n);
      GroupsOfPageAscend(names[..n], prefix, delim);
      FoldKeepsAll(names[..n], prefix, delim);
      NewGroupAtEnd(names, n, prefix, delim, before);
    }
  }

  lemma NewGroupAtEnd(names: seq<string>, n: nat, prefix: string, delim: string, before: seq<string>)
    requires Ascending(names) && AllBegin(prefix, names) && n < |names| && Ascending(before)
    requires forall g :: g in before <==> InGroup(prefix, delim, names[..n], g)
    ensures var o := GroupOf(prefix, delim, names[n]);
            o.Some? && o.value !in before ==> Ascending(before + [o.value])
  {
    var o := GroupOf(prefix, delim, names[n]);
    if o.Some? && o.value !in before {
      forall x | x in before ensures Less(x, o.value) {
        LaterGroupIsGreater(names, n, prefix, delim, x, o.value);
      }
      AscendingConcat(before, [o.value]);
    }
  }

  // ------------------------------------------------------------ all pages

  function BlobsOfPages(pages: seq<seq<string>>, prefix: string, delim: string): seq<string> {
    if pages == [] then []
    else Fold(pages[0], prefix, Some(delim)).blobs + BlobsOfPages(pages[1..], prefix, delim)
  }

  /** All pages together list every unfolded name once, in order. */
  lemma {:induction false} PagesKeepBlobs(pages: seq<seq<string>>, prefix: string, delim: string)
    ensures BlobsOfPages(pages, prefix, delim) == Unfolded(Flatten(pages), prefix, delim)
  {
    if pages == [] {
    } else {
      FoldKeepsAll(pages[0], prefix, delim);
      PagesKeepBlobs(pages[1..], prefix, delim);
      UnfoldedAppend(pages[0], Flatten(pages[1..]), prefix, delim);
    }
  }

  lemma {:induction false} FlattenHas(pages: seq<seq<string>>, x: string)
    ensures x in Flatten(pages) <==> exists i :: 0 <= i < |pages| && x in pages[i]
  {
    if pages == [] {
    } else {
      FlattenHas(pages[1..], x);
      if x in Flatten(pages[1..]) {
        var i :| 0 <= i < |pages[1..]| && x in pages[1..][i];
        assert x in pages[i + 1];
      }
    }
  }

  /** Some page lists a group exactly if some name is folded into it. */
  lemma PagesKeepGroups(pages: seq<seq<string>>, prefix: string, delim: string, g: string)
    ensures (exists i :: 0 <= i < |pages| && g in Fold(pages[i], prefix, Some(delim)).groups)
       <==> InGroup(prefix, delim, Flatten(pages), g)
  {
    forall i | 0 <= i < |pages|
      ensures g in Fold(pages[i], prefix, Some(delim)).groups <==> InGroup(prefix, delim, pages[i], g)
    {
      FoldKeepsAll(pages[i], prefix, delim);
    }
    if i :| 0 <= i < |pages| && g in Fold(pages[i], prefix, Some(delim)).groups {
      var n :| n in pages[i] && GroupOf(prefix, delim, n) == Some(g);
      FlattenHas(pages, n);
    }
    if InGroup(prefix, delim, Flatten(pages), g) {
      var n :| n in Flatten(pages) && GroupOf(prefix, delim, n) == Some(g);
      FlattenHas(pages, n);
      var i :| 0 <= i < |pages| && n in pages[i];
      assert InGroup(prefix, delim, pages[i], g);
    }
  }

  lemma {:induction false} PageBeforePage(pages: seq<seq<string>>, i: nat, j: nat, x: string, y: string)
    requires Ascending(Flatten(pages)) && i < j < |pages| && x in pages[i] && y in pages[j]
    ensures Less(x, y)
  {
    var head, tail := pages[0], Flatten(pages[1..]);
    assert Flatten(pages) == head + tail;
    if i == 0 {
      assert pages[1..][j - 1] == pages[j];
      FlattenHas(pages[1..], y);
      var a :| 0 <= a < |head| && head[a] == x;
      var b :| 0 <= b < |tail| && tail[b] == y;
      assert Flatten(pages)[a] == x && Flatten(pages)[|head| + b] == y;
    } else {
      assert forall k | 0 <= k < |tail| :: tail[k] == Flatten(pages)[|head| + k];
      PageBeforePage(pages[1..], i - 1, j - 1, x, y);
    }
  }

  lemma GroupFillsPage(pages: seq<seq<string>>, prefix: string, delim: string, g: string, i: nat, j: nat, k: nat)
    requires Ascending(Flatten(pages)) && AllBegin(prefix, Flatten(pages)) && i < j < k < |pages|
    requires g in Fold(pages[i], prefix, Some(delim)).groups && g in Fold(pages[k], prefix, Some(delim)).groups
    requires pages[j] != []
    ensures Fold(pages[j], prefix, Some(delim)) == Folded([], [g])
  {
    FoldKeepsAll(pages[i], prefix, delim);
    FoldKeepsAll(pages[k], prefix, delim);
    var a :| a in pages[i] && GroupOf(prefix, delim, a) == Some(g);
    var c :| c in pages[k] && GroupOf(prefix, delim, c) == Some(g);
    FlattenHas(pages, a);
    FlattenHas(pages, c);
    forall b | b in pages[j] ensures GroupOf(prefix, delim, b) == Some(g) {
      FlattenHas(pages, b);
      PageBeforePage(pages, i, j, a, b);
      PageBeforePage(pages, j, k, b, c);
      GroupsAreContiguous(prefix, delim, a, b, c);
    }
    OneGroup(pages[j], prefix, delim, g);
  }

  lemma {:induction false} OneGroup(names: seq<string>, prefix: string, delim: string, g: string)
    requires names != [] && forall b | b in names :: GroupOf(prefix, delim, b) == Some(g)
    ensures Fold(names, prefix, Some(delim)) == Folded([], [g])
    decreases |names|
  {
    var n := |names| - 1;
    assert names[n] in names;
    if n > 0 {
      assert forall b | b in names[..n] :: b in names;
      OneGroup(names[..n], prefix, delim, g);
    } else {
      assert names[..0] == [];
    }
  }

  lemma ScanIsOrdered(names: set<string>, prefix: string, max: nat)
    requires max >= 1
    requires forall n | n in Candidates(names, prefix, "") :: prefix <= n
    ensures var all := Flatten(Pages(names, prefix, "", max));
            all == Sorted(Candidates(names, prefix, "")) && Ascending(all) && AllBegin(prefix, all)
  {
    PagesAreComplete(names, prefix, "", max);
    SortedIsSorted(Candidates(names, prefix, ""));
  }

  /** In a complete scan a group that is listed on two pages fills every page between
      them. */
  lemma GroupRepeatsOnlyOnNeighbours(names: set<string>, prefix: string, max: nat, delim: string, g: string,
                                     i: nat, j: nat, k: nat)
    requires max >= 1 && i < j < k < |Pages(names, prefix, "", max)|
    requires forall n | n in Candidates(names, prefix, "") :: prefix <= n
    requires g in Fold(Pages(names, prefix, "", max)[i], prefix, Some(delim)).groups
    requires g in Fold(Pages(names, prefix, "", max)[k], prefix, Some(delim)).groups
    ensures Fold(Pages(names, prefix, "", max)[j], prefix, Some(delim)) == Folded([], [g])
  {
    ScanIsOrdered(names, prefix, max);
    PagesBeforeLast(names, prefix, "", max, j);
    GroupFillsPage(Pages(names, prefix, "", max), prefix, delim, g, i, j, k);
  }

  /** No group is listed on two pages without filling those between. */
  ghost predicate GroupsAdjoin(pages: seq<seq<string>>, prefix: string, delim: string) {
    forall g, i, j, k | 0 <= i < j < k < |pages|
                        && g in Fold(pages[i], prefix, Some(delim)).groups
                        && g in Fold(pages[k], prefix, Some(delim)).groups ::
      Fold(pages[j], prefix, Some(delim)) == Folded([], [g])
  }

  /** Hierarchical listing: over an unchanged table whose selected names begin with
      the prefix, the pages of a complete scan list exactly the names in which the
      delimiter does not follow the prefix, each once and in order, and as groups
      exactly the other names cut behind it, each on neighbouring pages only. */
  lemma HierarchicalListing(names: set<string>, prefix: string, max: nat, delim: string)
    requires max >= 1
    requires forall n | n in Candidates(names, prefix, "") :: prefix <= n
    ensures var pages := Pages(names, prefix, "", max);
            var all := Sorted(Candidates(names, prefix, ""));
            && Flatten(pages) == all && Ascending(all) && AllBegin(prefix, all)
            && BlobsOfPages(pages, prefix, delim) == Unfolded(all, prefix, delim)
            && Ascending(BlobsOfPages(pages, prefix, delim))
            && (forall n :: n in BlobsOfPages(pages, prefix, delim) <==> n in all && !Divided(prefix, delim, n))
            && (forall g :: (exists i :: 0 <= i < |pages| && g in Fold(pages[i], prefix, Some(delim)).groups)
                            <==> IsCutOfOne(prefix, delim, all, g))
            && (forall i | 0 <= i < |pages| :: Ascending(Fold(pages[i], prefix, Some(delim)).groups))
            && GroupsAdjoin(pages, prefix, delim)
  {
    var pages := Pages(names, prefix, "", max);
    ScanIsOrdered(names, prefix, max);
    PagesKeepBlobs(pages, prefix, delim);
    UnfoldedExactly(Flatten(pages), prefix, delim);
    PagesKeepAllGroups(pages, prefix, delim);
    GroupsOfPagesAscend(pages, prefix, delim);
    ScanGroupsAdjoin(names, prefix, max, delim);
  }

  lemma PagesKeepAllGroups(pages: seq<seq<string>>, prefix: string, delim: string)
    ensures forall g :: (exists i :: 0 <= i < |pages| && g in Fold(pages[i], prefix, Some(delim)).groups)
                        <==> IsCutOfOne(prefix, delim, Flatten(pages), g)
  {
    forall g
      ensures (exists i :: 0 <= i < |pages| && g in Fold(pages[i], prefix, Some(delim)).groups)
         <==> IsCutOfOne(prefix, delim, Flatten(pages), g)
    {
      PagesKeepGroups(pages, prefix, delim, g);
      InGroupExactly(prefix, delim, Flatten(pages), g);
    }
  }

  lemma GroupsOfPagesAscend(pages: seq<seq<string>>, prefix: string, delim: string)
    requires Ascending(Flatten(pages)) && AllBegin(prefix, Flatten(pages))
    ensures forall i | 0 <= i < |pages| :: Ascending(Fold(pages[i], prefix, Some(delim)).groups)
  {
    forall i | 0 <= i < |pages| ensures Ascending(Fold(pages[i], prefix, Some(delim)).groups) {
      PageOfAscending(pages, i);
      forall n | n in pages[i] ensures prefix <= n {
        FlattenHas(pages, n);
      }
      GroupsOfPageAscend(pages[i], prefix, delim);
    }
  }

  lemma ScanGroupsAdjoin(names: set<string>, prefix: string, max: nat, delim: string)
    requires max >= 1
    requires forall n | n in Candidates(names, prefix, "") :: prefix <= n
    ensures GroupsAdjoin(Pages(names, prefix, "", max), prefix, delim)
  {
    var pages := Pages(names, prefix, "", max);
    forall g, i, j, k | 0 <= i < j < k < |pages|
                        && g in Fold(pages[i], prefix, Some(delim)).groups
                        && g in Fold(pages[k], prefix, Some(delim)).groups
      ensures Fold(pages[j], prefix, Some(delim)) == Folded([], [g])
    {
      GroupRepeatsOnlyOnNeighbours(names, prefix, max, delim, g, i, j, k);
    }
  }

  lemma {:induction false} PageOfAscending(pages: seq<seq<string>>, i: nat)
    requires Ascending(Flatten(pages)) && i < |pages|
    ensures Ascending(pages[i])
  {
    var head, tail := pages[0], Flatten(pages[1..]);
    assert Flatten(pages) == head + tail;
    if i == 0 {
      assert forall k | 0 <= k < |head| :: head[k] == Flatten(pages)[k];
    } else {
      assert forall k | 0 <= k < |tail| :: tail[k] == Flatten(pages)[|head| + k];
      PageOfAscending(pages[1..], i - 1);
    }
  }
}
