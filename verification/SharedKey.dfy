/** Shared Key: the canonical text of a request, what it depends on, and the check of
    a signature. */
module SharedKey {
  import opened Types
  import opened Names
  import opened Text
  import opened StableSort

  type Pair = (string, string)

  /** Library text functions and the MAC, all uninterpreted; the MAC fails on a key
      that is not base64. */
  datatype Library = Library(lower: string -> string, trim: string -> string,
                             mac: (string, string) -> Option<Bytes>)

  datatype Request = Request(verb: string, contentEncoding: string, contentLanguage: string,
                             contentLength: string, contentMd5: string, contentType: string, date: string,
                             ifModifiedSince: string, ifMatch: string, ifNoneMatch: string,
                             ifUnmodifiedSince: string, range: string,
                             headers: seq<Pair>, path: string, query: seq<Pair>)

  function NameOf(p: Pair): string {
    p.0
  }

  function Itself(s: string): string {
    s
  }

  // ------------------------------------------------------------- headers

  function Prepared(l: Library, headers: seq<Pair>): seq<Pair> {
    seq(|headers|, i requires 0 <= i < |headers| => (l.lower(headers[i].0), l.trim(headers[i].1)))
  }

  function Line(p: Pair): string {
    p.0 + ":" + p.1
  }

  function Lines(pairs: seq<Pair>): string {
    if pairs == [] then "" else Lines(pairs[..|pairs| - 1]) + Line(pairs[|pairs| - 1]) + "\n"
  }

  function HeaderText(l: Library, headers: seq<Pair>): string {
    Lines(Sort(Prepared(l, headers), NameOf))
  }

  method CanonicalizedHeaders(l: Library, headers: seq<Pair>) returns (out: string)
    ensures out == HeaderText(l, headers)
  {
    var sorted := Sort(Prepared(l, headers), NameOf);
    out := "";
    for i := 0 to |sorted|
      invariant out == Lines(sorted[..i])
    {
      assert sorted[..i + 1][..i] == sorted[..i];
      out := out + (sorted[i].0 + ":" + sorted[i].1) + "\n";
    }
    assert sorted[..|sorted|] == sorted;
  }

  // ------------------------------------------------------------ resource

  function ValuesOf(l: Library, query: seq<Pair>, name: string): seq<string> {
    if query == [] then []
    else
      var n := |query| - 1;
      ValuesOf(l, query[..n], name) + if l.lower(query[n].0) == name then [query[n].1] else []
  }

  function ParameterNames(l: Library, query: seq<Pair>): set<string> {
    set i | 0 <= i < |query| :: l.lower(query[i].0)
  }

  function ParameterLines(l: Library, query: seq<Pair>, names: seq<string>): string {
    if names == [] then ""
    else
      var n := |names| - 1;
      ParameterLines(l, query, names[..n]) + "\n" + names[n] + ":"
      + Join(",", Sort(ValuesOf(l, query, names[n]), Itself))
  }

  function ResourceText(l: Library, account: string, path: string, query: seq<Pair>): string {
    "/" + account + path + ParameterLines(l, query, Sorted(ParameterNames(l, query)))
  }

  /** Groups the values by lower-cased name, in a table ordered by name. */
  method GroupParameters(l: Library, query: seq<Pair>) returns (grouped: map<string, seq<string>>)
    ensures grouped.Keys == ParameterNames(l, query)
    ensures forall name | name in grouped :: grouped[name] == ValuesOf(l, query, name)
  {
    grouped := map[];
    for i := 0 to |query|
      invariant grouped.Keys == ParameterNames(l, query[..i])
      invariant forall name | name in grouped :: grouped[name] == ValuesOf(l, query[..i], name)
      invariant forall name | name !in grouped :: ValuesOf(l, query[..i], name) == []
    {
      var name := l.lower(query[i].0);
      assert query[..i + 1][..i] == query[..i];
      NamesSnoc(l, query, i);
      grouped := grouped[name := (if name in grouped then grouped[name] else []) + [query[i].1]];
    }
    assert query[..|query|] == query;
  }

  lemma NamesSnoc(l: Library, query: seq<Pair>, i: nat)
    requires i < |query|
    ensures ParameterNames(l, query[..i + 1]) == ParameterNames(l, query[..i]) + {l.lower(query[i].0)}
  {
    forall x | x in ParameterNames(l, query[..i]) + {l.lower(query[i].0)}
      ensures x in ParameterNames(l, query[..i + 1])
    {
      if x == l.lower(query[i].0) {
        assert query[..i + 1][i] == query[i];
      } else {
        var j :| 0 <= j < i && l.lower(query[..i][j].0) == x;
        assert query[..i + 1][j] == query[..i][j];
      }
    }
    forall x | x in ParameterNames(l, query[..i + 1])
      ensures x in ParameterNames(l, query[..i]) + {l.lower(query[i].0)}
    {
      var j :| 0 <= j < i + 1 && l.lower(query[..i + 1][j].0) == x;
      if j < i { assert query[..i][j] == query[..i + 1][j]; }
    }
  }

  method CanonicalizedResource(l: Library, account: string, path: string, query: seq<Pair>) returns (out: string)
    ensures out == ResourceText(l, account, path, query)
  {
    out := "/" + account + path;
    ghost var start := out;
    var grouped := GroupParameters(l, query);
    var names := Sorted(grouped.Keys);
    SortedIsSorted(grouped.Keys);
    assert ParameterLines(l, query, names[..0]) == "";
    for i := 0 to |names|
      invariant out == start + ParameterLines(l, query, names[..i])
    {
      assert names[i] in names;
      assert names[..i + 1][..i] == names[..i];
      var values := Sort(grouped[names[i]], Itself);
      out := out + "\n";
      out := out + names[i];
      out := out + ":";
      out := out + Join(",", values);
      LinesSnoc(l, query, names, i, start);
    }
    assert names[..|names|] == names;
  }

  lemma LinesSnoc(l: Library, query: seq<Pair>, names: seq<string>, i: nat, start: string)
    requires i < |names|
    ensures start + ParameterLines(l, query, names[..i + 1])
         == start + ParameterLines(l, query, names[..i]) + "\n" + names[i] + ":"
            + Join(",", Sort(ValuesOf(l, query, names[i]), Itself))
  {
    assert names[..i + 1][..i] == names[..i];
  }

  // ------------------------------------------------------- string to sign

  function FixedParts(r: Request): seq<string> {
    [r.verb, r.contentEncoding, r.contentLanguage, if r.contentLength == "0" then "" else r.contentLength,
     r.contentMd5, r.contentType, r.date, r.ifModifiedSince, r.ifMatch, r.ifNoneMatch,
     r.ifUnmodifiedSince, r.range]
  }

  function TextToSign(l: Library, account: string, r: Request): string {
    Join("\n", FixedParts(r)) + "\n" + HeaderText(l, r.headers) + ResourceText(l, account, r.path, r.query)
  }

  method StringToSign(l: Library, account: string, r: Request) returns (s: string)
    ensures s == TextToSign(l, account, r)
  {
    s := Join("\n", FixedParts(r));
    s := s + "\n";
    var headers := CanonicalizedHeaders(l, r.headers);
    s := s + headers;
    var resource := CanonicalizedResource(l, account, r.path, r.query);
    s := s + resource;
  }

  // ------------------------------------------- the order of query parameters

  lemma {:induction false} ValuesAppend(l: Library, a: seq<Pair>, b: seq<Pair>, name: string)
    ensures ValuesOf(l, a + b, name) == ValuesOf(l, a, name) + ValuesOf(l, b, name)
    decreases |b|
  {
    if b == [] {
      assert a + b == a;
    } else {
      var n := |b| - 1;
      assert (a + b)[..|a + b| - 1] == a + b[..n];
      ValuesAppend(l, a, b[..n], name);
    }
  }

  /** The values given to a name are the same, up to their order. */
  lemma {:induction false} SameValues(l: Library, a: seq<Pair>, b: seq<Pair>, name: string)
    requires multiset(a) == multiset(b)
    ensures multiset(ValuesOf(l, a, name)) == multiset(ValuesOf(l, b, name))
    decreases |a|
  {
    if a == [] {
      assert |multiset(b)| == 0;
    } else {
      var j := RemoveLast(a, b);
      var front, last, fewer := a[..|a| - 1], a[|a| - 1], b[..j] + b[j + 1..];
      assert a == front + [last];
      SameValues(l, front, fewer, name);
      ValuesAppend(l, front, [last], name);
      ValuesWithout(l, b, j, fewer, name);
    }
  }

  lemma ValuesWithout(l: Library, b: seq<Pair>, j: nat, fewer: seq<Pair>, name: string)
    requires j < |b| && fewer == b[..j] + b[j + 1..]
    ensures multiset(ValuesOf(l, b, name)) == multiset(ValuesOf(l, fewer, name)) + multiset(ValuesOf(l, [b[j]], name))
  {
    assert b == b[..j] + [b[j]] + b[j + 1..];
    ValuesAppend(l, b[..j], b[j + 1..], name);
    ValuesAppend(l, b[..j] + [b[j]], b[j + 1..], name);
    ValuesAppend(l, b[..j], [b[j]], name);
  }

  lemma SameNames(l: Library, a: seq<Pair>, b: seq<Pair>)
    requires multiset(a) == multiset(b)
    ensures ParameterNames(l, a) == ParameterNames(l, b)
  {
    SomeNames(l, a, b);
    SomeNames(l, b, a);
  }

  lemma SomeNames(l: Library, a: seq<Pair>, b: seq<Pair>)
    requires multiset(a) == multiset(b)
    ensures ParameterNames(l, a) <= ParameterNames(l, b)
  {
    forall x | x in ParameterNames(l, a) ensures x in ParameterNames(l, b) {
      var i :| 0 <= i < |a| && l.lower(a[i].0) == x;
      assert a[i] in multiset(a);
      var j :| 0 <= j < |b| && b[j] == a[i];
    }
  }

  lemma SortOfBag(a: seq<string>, b: seq<string>)
    requires multiset(a) == multiset(b)
    ensures Sort(a, Itself) == Sort(b, Itself)
  {
    SortIsSorted(a, Itself);
    SortIsSorted(b, Itself);
    SortedUnique(Sort(a, Itself), Sort(b, Itself), Itself);
  }

  lemma {:induction false} SameParameterLines(l: Library, a: seq<Pair>, b: seq<Pair>, names: seq<string>)
    requires multiset(a) == multiset(b)
    ensures ParameterLines(l, a, names) == ParameterLines(l, b, names)
    decreases |names|
  {
    if names == [] {
    } else {
      var n := |names| - 1;
      SameParameterLines(l, a, b, names[..n]);
      SameValues(l, a, b, names[n]);
      SortOfBag(ValuesOf(l, a, names[n]), ValuesOf(l, b, names[n]));
    }
  }

  /** The order of the query parameters does not matter, repeated names and names of
      mixed case included. */
  lemma QueryOrderIrrelevant(l: Library, account: string, path: string, a: seq<Pair>, b: seq<Pair>)
    requires multiset(a) == multiset(b)
    ensures ResourceText(l, account, path, a) == ResourceText(l, account, path, b)
  {
    SameNames(l, a, b);
    SameParameterLines(l, a, b, Sorted(ParameterNames(l, a)));
  }

  // ------------------------------------------------------ the order of headers

  /** Headers whose names fall together have the same value. */
  ghost predicate Unambiguous(l: Library, headers: seq<Pair>) {
    forall i, j | 0 <= i < |headers| && 0 <= j < |headers| && l.lower(headers[i].0) == l.lower(headers[j].0) ::
      l.trim(headers[i].1) == l.trim(headers[j].1)
  }

  lemma PreparedAppend(l: Library, a: seq<Pair>, b: seq<Pair>)
    ensures Prepared(l, a + b) == Prepared(l, a) + Prepared(l, b)
  {
  }

  lemma {:induction false} PreparedBag(l: Library, a: seq<Pair>, b: seq<Pair>)
    requires multiset(a) == multiset(b)
    ensures multiset(Prepared(l, a)) == multiset(Prepared(l, b))
    decreases |a|
  {
    assert |a| == |multiset(a)| && |b| == |multiset(b)|;
    if a == [] {
    } else {
      var n := |a| - 1;
      var j := RemoveLast(a, b);
      PreparedBag(l, a[..n], b[..j] + b[j + 1..]);
      assert a == a[..n] + [a[n]];
      PreparedAppend(l, a[..n], [a[n]]);
      PreparedAppend(l, b[..j], b[j + 1..]);
      PreparedAppend(l, b[..j] + [b[j]], b[j + 1..]);
      PreparedAppend(l, b[..j], [b[j]]);
    }
  }

  lemma SameHeaderText(l: Library, a: seq<Pair>, b: seq<Pair>)
    requires multiset(a) == multiset(b) && Unambiguous(l, a)
    ensures HeaderText(l, a) == HeaderText(l, b)
  {
    PreparedBag(l, a, b);
    var pa, pb := Prepared(l, a), Prepared(l, b);
    SortIsSorted(pa, NameOf);
    SortIsSorted(pb, NameOf);
    forall x, y | x in Sort(pa, NameOf) && y in Sort(pa, NameOf) && NameOf(x) == NameOf(y) ensures x == y {
      assert x in multiset(pa) && y in multiset(pa);
      var i :| 0 <= i < |pa| && pa[i] == x;
      var j :| 0 <= j < |pa| && pa[j] == y;
      assert l.lower(a[i].0) == l.lower(a[j].0);
    }
    SortedUnique(Sort(pa, NameOf), Sort(pb, NameOf), NameOf);
  }

  /** Names and values as they come over the wire: no colon in a name and no line
      break anywhere. */
  ghost predicate WireClean(l: Library, headers: seq<Pair>) {
    forall i | 0 <= i < |headers| ::
      && Free(':', l.lower(headers[i].0)) && Free('\n', l.lower(headers[i].0))
      && Free('\n', l.trim(headers[i].1))
  }

  ghost predicate CleanPairs(pairs: seq<Pair>) {
    forall p | p in pairs :: Free(':', p.0) && Free('\n', p.0) && Free('\n', p.1)
  }

  lemma LineDecodes(p: Pair, q: Pair)
    requires Free(':', p.0) && Free(':', q.0) && Line(p) == Line(q)
    ensures p == q
  {
    assert Line(p) == p.0 + (":" + p.1) && Line(q) == q.0 + (":" + q.1);
    FirstPart(':', p.0, ":" + p.1, q.0, ":" + q.1);
    assert (":" + p.1)[1..] == p.1 && (":" + q.1)[1..] == q.1;
  }

  function LinesFront(pairs: seq<Pair>): string {
    if pairs == [] then "" else Line(pairs[0]) + "\n" + LinesFront(pairs[1..])
  }

  lemma {:induction false} LinesFromFront(pairs: seq<Pair>)
    ensures Lines(pairs) == LinesFront(pairs)
    decreases |pairs|
  {
    if pairs == [] {
    } else {
      var front, last := pairs[..|pairs| - 1], pairs[|pairs| - 1];
      LinesFromFront(front);
      LinesFrontSnoc(front, last);
      assert pairs == front + [last];
    }
  }

  lemma {:induction false} LinesFrontSnoc(pairs: seq<Pair>, p: Pair)
    ensures LinesFront(pairs + [p]) == LinesFront(pairs) + Line(p) + "\n"
    decreases |pairs|
  {
    if pairs == [] {
      assert LinesFront([p]) == Line(p) + "\n" + LinesFront([p][1..]);
      assert pairs + [p] == [p];
    } else {
      LinesFrontSnoc(pairs[1..], p);
      assert (pairs + [p])[1..] == pairs[1..] + [p];
      Assoc(Line(pairs[0]) + "\n", LinesFront(pairs[1..]), Line(p));
      Assoc(Line(pairs[0]) + "\n", LinesFront(pairs[1..]) + Line(p), "\n");
    }
  }

  lemma {:induction false} LinesDecode(a: seq<Pair>, b: seq<Pair>)
    requires CleanPairs(a) && CleanPairs(b) && LinesFront(a) == LinesFront(b)
    ensures a == b
    decreases |a|
  {
    if a == [] || b == [] {
    } else {
      assert a[0] in a && b[0] in b;
      assert LinesFront(a) == Line(a[0]) + ("\n" + LinesFront(a[1..]));
      assert LinesFront(b) == Line(b[0]) + ("\n" + LinesFront(b[1..]));
      FirstPart('\n', Line(a[0]), "\n" + LinesFront(a[1..]), Line(b[0]), "\n" + LinesFront(b[1..]));
      assert ("\n" + LinesFront(a[1..]))[1..] == LinesFront(a[1..]);
      assert ("\n" + LinesFront(b[1..]))[1..] == LinesFront(b[1..]);
      LineDecodes(a[0], b[0]);
      LinesDecode(a[1..], b[1..]);
      assert a == [a[0]] + a[1..] && b == [b[0]] + b[1..];
    }
  }

  /** The canonical header text determines the sorted headers. */
  lemma HeaderTextDecodes(l: Library, a: seq<Pair>, b: seq<Pair>)
    requires WireClean(l, a) && WireClean(l, b) && HeaderText(l, a) == HeaderText(l, b)
    ensures Sort(Prepared(l, a), NameOf) == Sort(Prepared(l, b), NameOf)
  {
    CleanSorted(l, a);
    CleanSorted(l, b);
    LinesFromFront(Sort(Prepared(l, a), NameOf));
    LinesFromFront(Sort(Prepared(l, b), NameOf));
    LinesDecode(Sort(Prepared(l, a), NameOf), Sort(Prepared(l, b), NameOf));
  }

  lemma CleanSorted(l: Library, headers: seq<Pair>)
    requires WireClean(l, headers)
    ensures CleanPairs(Sort(Prepared(l, headers), NameOf))
  {
    var ps := Prepared(l, headers);
    SortIsSorted(ps, NameOf);
    forall p | p in Sort(ps, NameOf) ensures Free(':', p.0) && Free('\n', p.0) && Free('\n', p.1) {
      assert p in multiset(ps);
      var i :| 0 <= i < |ps| && ps[i] == p;
    }
  }

  // ------------------------------------------- what the resource text tells

  /** Lower-cased names without colon and line feed, values without comma and line
      feed. Values arrive percent-decoded, so this is not a matter of course. */
  predicate PlainQuery(l: Library, query: seq<Pair>) {
    forall i | 0 <= i < |query| ::
      && Free(':', l.lower(query[i].0)) && Free('\n', l.lower(query[i].0))
      && Free(',', query[i].1) && Free('\n', query[i].1)
  }

  function ParameterLine(l: Library, query: seq<Pair>, name: string): Pair {
    (name, Join(",", Sort(ValuesOf(l, query, name), Itself)))
  }

  function ParameterPairs(l: Library, query: seq<Pair>, names: seq<string>): seq<Pair> {
    seq(|names|, i requires 0 <= i < |names| => ParameterLine(l, query, names[i]))
  }

  /** The lines, each begun by a line feed, front to back. */
  function Follow(pairs: seq<Pair>): string {
    if pairs == [] then "" else "\n" + Line(pairs[0]) + Follow(pairs[1..])
  }

  lemma {:induction false} FollowSnoc(pairs: seq<Pair>, p: Pair)
    ensures Follow(pairs + [p]) == Follow(pairs) + ("\n" + Line(p))
    decreases |pairs|
  {
    if pairs == [] {
      assert pairs + [p] == [p] && [p][1..] == [];
      assert Follow([p]) == "\n" + Line(p) + Follow([p][1..]);
    } else {
      FollowSnoc(pairs[1..], p);
      assert (pairs + [p])[1..] == pairs[1..] + [p];
      Assoc("\n" + Line(pairs[0]), Follow(pairs[1..]), "\n" + Line(p));
    }
  }

  lemma {:induction false} LinesFollow(l: Library, query: seq<Pair>, names: seq<string>)
    ensures ParameterLines(l, query, names) == Follow(ParameterPairs(l, query, names))
    decreases |names|
  {
    if names == [] {
    } else {
      var front, last := names[..|names| - 1], names[|names| - 1];
      LinesFollow(l, query, front);
      FollowSnoc(ParameterPairs(l, query, front), ParameterLine(l, query, last));
      PairsSnoc(l, query, names);
      LastLine(ParameterLines(l, query, front), last, Join(",", Sort(ValuesOf(l, query, last), Itself)));
    }
  }

  lemma PairsSnoc(l: Library, query: seq<Pair>, names: seq<string>)
    requires names != []
    ensures ParameterPairs(l, query, names)
         == ParameterPairs(l, query, names[..|names| - 1]) + [ParameterLine(l, query, names[|names| - 1])]
  {
  }

  lemma LastLine(before: string, name: string, values: string)
    ensures before + "\n" + name + ":" + values == before + ("\n" + Line((name, values)))
  {
  }

  lemma {:induction false} FollowDecodes(a: seq<Pair>, b: seq<Pair>)
    requires CleanPairs(a) && CleanPairs(b) && Follow(a) == Follow(b)
    ensures a == b
    decreases |a|
  {
    if a == [] || b == [] {
    } else {
      assert a[0] in a && b[0] in b;
      FollowFirst(a);
      FollowFirst(b);
      FirstPart('\n', Line(a[0]), Follow(a[1..]), Line(b[0]), Follow(b[1..]));
      LineDecodes(a[0], b[0]);
      FollowDecodes(a[1..], b[1..]);
      assert a == [a[0]] + a[1..] && b == [b[0]] + b[1..];
    }
  }

  lemma FollowFirst(pairs: seq<Pair>)
    requires pairs != []
    ensures Follow(pairs)[1..] == Line(pairs[0]) + Follow(pairs[1..])
    ensures Follow(pairs[1..]) == "" || Follow(pairs[1..])[0] == '\n'
  {
    assert Follow(pairs) == "\n" + (Line(pairs[0]) + Follow(pairs[1..]));
  }

  lemma {:induction false} ValuesArePlain(l: Library, query: seq<Pair>, name: string)
    requires PlainQuery(l, query)
    ensures AllFree(',', ValuesOf(l, query, name)) && AllFree('\n', ValuesOf(l, query, name))
    ensures ValuesOf(l, query, name) == [] <==> name !in ParameterNames(l, query)
    decreases |query|
  {
    if query == [] {
    } else {
      var n := |query| - 1;
      ValuesArePlain(l, query[..n], name);
      NamesSnoc(l, query, n);
      assert query[..n + 1] == query;
    }
  }

  lemma SortedArePlain(values: seq<string>, c: char)
    requires AllFree(c, values)
    ensures AllFree(c, Sort(values, Itself)) && multiset(Sort(values, Itself)) == multiset(values)
  {
    SortIsSorted(values, Itself);
    forall i | 0 <= i < |Sort(values, Itself)| ensures Free(c, Sort(values, Itself)[i]) {
      assert Sort(values, Itself)[i] in multiset(values);
    }
  }

  lemma PairsAreClean(l: Library, query: seq<Pair>, names: seq<string>)
    requires PlainQuery(l, query) && forall name | name in names :: name in ParameterNames(l, query)
    ensures CleanPairs(ParameterPairs(l, query, names))
  {
    forall p | p in ParameterPairs(l, query, names) ensures Free(':', p.0) && Free('\n', p.0) && Free('\n', p.1) {
      var i :| 0 <= i < |names| && p == ParameterLine(l, query, names[i]);
      assert names[i] in names;
      ValuesArePlain(l, query, names[i]);
      SortedArePlain(ValuesOf(l, query, names[i]), '\n');
      JoinFree('\n', ",", Sort(ValuesOf(l, query, names[i]), Itself));
    }
  }

  lemma SameLineSameValues(l: Library, a: seq<Pair>, b: seq<Pair>, name: string)
    requires PlainQuery(l, a) && PlainQuery(l, b)
    requires name in ParameterNames(l, a) && name in ParameterNames(l, b)
    requires ParameterLine(l, a, name) == ParameterLine(l, b, name)
    ensures multiset(ValuesOf(l, a, name)) == multiset(ValuesOf(l, b, name))
  {
    var x, y := ValuesOf(l, a, name), ValuesOf(l, b, name);
    ValuesArePlain(l, a, name);
    ValuesArePlain(l, b, name);
    SortedArePlain(x, ',');
    SortedArePlain(y, ',');
    assert |Sort(x, Itself)| == |multiset(x)| && |Sort(y, Itself)| == |multiset(y)|;
    JoinInjective(',', Sort(x, Itself), Sort(y, Itself));
  }

  /** Both queries give every name the same values, up to their order. */
  ghost predicate SameTable(l: Library, a: seq<Pair>, b: seq<Pair>) {
    && ParameterNames(l, a) == ParameterNames(l, b)
    && forall name :: multiset(ValuesOf(l, a, name)) == multiset(ValuesOf(l, b, name))
  }

  lemma SamePairsSameLines(l: Library, a: seq<Pair>, b: seq<Pair>, xs: seq<string>, ys: seq<string>)
    requires ParameterPairs(l, a, xs) == ParameterPairs(l, b, ys)
    ensures xs == ys
    ensures forall i | 0 <= i < |xs| :: ParameterLine(l, a, xs[i]) == ParameterLine(l, b, xs[i])
  {
    assert |xs| == |ParameterPairs(l, a, xs)| && |ys| == |ParameterPairs(l, b, ys)|;
    forall i | 0 <= i < |xs| ensures xs[i] == ys[i] && ParameterLine(l, a, xs[i]) == ParameterLine(l, b, xs[i]) {
      assert ParameterPairs(l, a, xs)[i] == ParameterPairs(l, b, ys)[i];
    }
  }

  lemma SamePairsSameTable(l: Library, a: seq<Pair>, b: seq<Pair>, xs: seq<string>, ys: seq<string>)
    requires PlainQuery(l, a) && PlainQuery(l, b)
    requires xs == Sorted(ParameterNames(l, a)) && ys == Sorted(ParameterNames(l, b))
    requires ParameterPairs(l, a, xs) == ParameterPairs(l, b, ys)
    ensures SameTable(l, a, b)
  {
    SortedIsSorted(ParameterNames(l, a));
    SortedIsSorted(ParameterNames(l, b));
    SamePairsSameLines(l, a, b, xs, ys);
    assert ParameterNames(l, a) == ParameterNames(l, b);
    forall name ensures multiset(ValuesOf(l, a, name)) == multiset(ValuesOf(l, b, name)) {
      if name in xs {
        var i :| 0 <= i < |xs| && xs[i] == name;
        SameLineSameValues(l, a, b, name);
      } else {
        ValuesArePlain(l, a, name);
        ValuesArePlain(l, b, name);
      }
    }
  }

  lemma {:induction false} SameTableSameLines(l: Library, a: seq<Pair>, b: seq<Pair>, names: seq<string>)
    requires SameTable(l, a, b)
    ensures ParameterLines(l, a, names) == ParameterLines(l, b, names)
    decreases |names|
  {
    if names == [] {
    } else {
      var n := |names| - 1;
      SameTableSameLines(l, a, b, names[..n]);
      SortOfBag(ValuesOf(l, a, names[n]), ValuesOf(l, b, names[n]));
    }
  }

  /** The canonical resource determines the grouped table: for plain queries the text is
      the same if and only if every name has the same values. */
  lemma ResourceTextDecodes(l: Library, account: string, path: string, a: seq<Pair>, b: seq<Pair>)
    requires PlainQuery(l, a) && PlainQuery(l, b)
    ensures ResourceText(l, account, path, a) == ResourceText(l, account, path, b) <==> SameTable(l, a, b)
  {
    var xs, ys := Sorted(ParameterNames(l, a)), Sorted(ParameterNames(l, b));
    if ResourceText(l, account, path, a) == ResourceText(l, account, path, b) {
      SameTail("/" + account + path, ParameterLines(l, a, xs), ParameterLines(l, b, ys));
      LinesFollow(l, a, xs);
      LinesFollow(l, b, ys);
      SortedIsSorted(ParameterNames(l, a));
      SortedIsSorted(ParameterNames(l, b));
      PairsAreClean(l, a, xs);
      PairsAreClean(l, b, ys);
      FollowDecodes(ParameterPairs(l, a, xs), ParameterPairs(l, b, ys));
      SamePairsSameTable(l, a, b, xs, ys);
    }
    if SameTable(l, a, b) {
      SameTableSameLines(l, a, b, xs);
    }
  }

  lemma SameTail(head: string, x: string, y: string)
    requires head + x == head + y
    ensures x == y
  {
    assert (head + x)[|head|..] == x && (head + y)[|head|..] == y;
  }

  /** With a line feed in a value it does not: a whole parameter fits into the value of
      another. */
  lemma LineFeedCollides(l: Library, account: string, path: string, x: string, u: string, y: string, v: string)
    requires l.lower(x) == x && l.lower(y) == y && Less(x, y)
    ensures var (one, two) := ([(x, u + "\n" + Line((y, v)))], [(x, u), (y, v)]);
            ResourceText(l, account, path, one) == ResourceText(l, account, path, two) && !SameTable(l, one, two)
  {
    var value := u + "\n" + Line((y, v));
    LinesOfOne(l, x, value);
    LinesOfTwo(l, x, u, y, v);
    LineInValue(x, u, Line((y, v)));
    NamesOfOne(l, [(x, value)]);
    NamesOfTwo(l, [(x, u), (y, v)]);
    LessIrreflexive(x);
    assert y in ParameterNames(l, [(x, u), (y, v)]) && y !in ParameterNames(l, [(x, value)]);
  }

  /** With a comma in a value it does not: one value can stand for two. */
  lemma CommaCollides(l: Library, account: string, path: string, x: string, u: string, v: string)
    requires l.lower(x) == x && NotAbove(u, v)
    ensures var (one, two) := ([(x, u + "," + v)], [(x, u), (x, v)]);
            ResourceText(l, account, path, one) == ResourceText(l, account, path, two) && !SameTable(l, one, two)
  {
    LinesOfOne(l, x, u + "," + v);
    LinesOfRepeated(l, x, u, v);
    ValuesOfRepeated(l, x, u, v);
    assert ValuesOf(l, [(x, u + "," + v)], x) == [u + "," + v] by {
      assert [(x, u + "," + v)][..0] == [];
    }
    assert |multiset([u, v])| == 2 && |multiset([u + "," + v])| == 1;
  }

  lemma ValuesOfRepeated(l: Library, x: string, u: string, v: string)
    requires l.lower(x) == x
    ensures ValuesOf(l, [(x, u), (x, v)], x) == [u, v]
  {
    var two := [(x, u), (x, v)];
    assert two[..1] == [(x, u)] && [(x, u)][..0] == [];
    assert ValuesOf(l, [(x, u)], x) == [u];
  }

  lemma LinesOfRepeated(l: Library, x: string, u: string, v: string)
    requires l.lower(x) == x && NotAbove(u, v)
    ensures var query := [(x, u), (x, v)];
            ParameterLines(l, query, Sorted(ParameterNames(l, query))) == "\n" + Line((x, u + "," + v))
  {
    var query := [(x, u), (x, v)];
    NamesOfTwo(l, query);
    assert {x, x} == {x};
    SortedOne(x);
    LinesFollow(l, query, [x]);
    ValuesOfRepeated(l, x, u, v);
    SortOfTwo(u, v);
    JoinOfTwo(u, v);
    assert ParameterPairs(l, query, [x]) == [(x, u + "," + v)];
    FollowOfOne((x, u + "," + v));
  }

  lemma SortOfTwo(u: string, v: string)
    requires NotAbove(u, v)
    ensures Sort([u, v], Itself) == [u, v]
  {
    assert [u, v][..1] == [u];
    SortOfOne(u);
    assert Sort([u, v], Itself) == Insert(Sort([u, v][..1], Itself), Itself, v);
  }

  lemma JoinOfTwo(u: string, v: string)
    ensures Join(",", [u, v]) == u + "," + v
  {
    assert [u, v][1..] == [v];
  }

  /** With a colon in a name it does not: the name can end in the value. */
  lemma ColonCollides(l: Library, account: string, path: string, x: string, y: string, v: string)
    requires l.lower(x) == x && l.lower(x + ":" + y) == x + ":" + y
    ensures var (one, two) := ([(x + ":" + y, v)], [(x, y + ":" + v)]);
            ResourceText(l, account, path, one) == ResourceText(l, account, path, two) && !SameTable(l, one, two)
  {
    LinesOfOne(l, x + ":" + y, v);
    LinesOfOne(l, x, y + ":" + v);
    assert Line((x + ":" + y, v)) == Line((x, y + ":" + v));
    NamesOfOne(l, [(x + ":" + y, v)]);
    NamesOfOne(l, [(x, y + ":" + v)]);
    assert |x| < |x + ":" + y|;
    assert x in ParameterNames(l, [(x, y + ":" + v)]) && x !in ParameterNames(l, [(x + ":" + y, v)]);
  }

  lemma LineInValue(x: string, u: string, line: string)
    ensures "\n" + Line((x, u + "\n" + line)) == "\n" + Line((x, u)) + ("\n" + line)
  {
  }

  lemma LinesOfOne(l: Library, name: string, value: string)
    requires l.lower(name) == name
    ensures var query := [(name, value)];
            ParameterLines(l, query, Sorted(ParameterNames(l, query))) == "\n" + Line((name, value))
  {
    var query := [(name, value)];
    NamesOfOne(l, query);
    SortedOne(name);
    LinesFollow(l, query, [name]);
    ValuesOfOne(l, name, value);
    assert ParameterPairs(l, query, [name]) == query;
    FollowOfOne((name, value));
  }

  lemma LinesOfTwo(l: Library, x: string, u: string, y: string, v: string)
    requires l.lower(x) == x && l.lower(y) == y && Less(x, y)
    ensures var query := [(x, u), (y, v)];
            ParameterLines(l, query, Sorted(ParameterNames(l, query))) == "\n" + Line((x, u)) + ("\n" + Line((y, v)))
  {
    var query := [(x, u), (y, v)];
    NamesOfTwo(l, query);
    SortedTwo(x, y);
    LinesFollow(l, query, [x, y]);
    LessIrreflexive(x);
    ValuesOfTwo(l, x, u, y, v);
    assert ParameterPairs(l, query, [x, y]) == query;
    FollowOfTwo((x, u), (y, v));
  }

  lemma NamesOfOne(l: Library, query: seq<Pair>)
    requires |query| == 1
    ensures ParameterNames(l, query) == {l.lower(query[0].0)}
  {
  }

  lemma NamesOfTwo(l: Library, query: seq<Pair>)
    requires |query| == 2
    ensures ParameterNames(l, query) == {l.lower(query[0].0), l.lower(query[1].0)}
  {
  }

  lemma SortedOne(x: string)
    ensures Sorted({x}) == [x]
  {
    SortedIsSorted({x});
    AscendingUnique(Sorted({x}), [x]);
  }

  lemma SortedTwo(x: string, y: string)
    requires Less(x, y)
    ensures Sorted({x, y}) == [x, y]
  {
    SortedIsSorted({x, y});
    AscendingUnique(Sorted({x, y}), [x, y]);
  }

  lemma SortOfOne(x: string)
    ensures Sort([x], Itself) == [x]
  {
    assert [x][..0] == [];
    assert Sort([x], Itself) == Insert(Sort([x][..0], Itself), Itself, x);
  }

  lemma ValuesOfOne(l: Library, name: string, value: string)
    requires l.lower(name) == name
    ensures ParameterLine(l, [(name, value)], name) == (name, value)
  {
    assert [(name, value)][..0] == [];
    assert ValuesOf(l, [(name, value)], name) == [value];
    SortOfOne(value);
  }

  lemma ValuesOfTwo(l: Library, x: string, u: string, y: string, v: string)
    requires l.lower(x) == x && l.lower(y) == y && x != y
    ensures ParameterLine(l, [(x, u), (y, v)], x) == (x, u) && ParameterLine(l, [(x, u), (y, v)], y) == (y, v)
  {
    var two := [(x, u), (y, v)];
    assert two[..1] == [(x, u)] && [(x, u)][..0] == [];
    assert ValuesOf(l, [(x, u)], x) == [u] && ValuesOf(l, [(x, u)], y) == [];
    assert ValuesOf(l, two, x) == [u] && ValuesOf(l, two, y) == [v];
    SortOfOne(u);
    SortOfOne(v);
  }

  lemma FollowOfOne(p: Pair)
    ensures Follow([p]) == "\n" + Line(p)
  {
    assert [p][1..] == [];
    assert Follow([p]) == "\n" + Line(p) + Follow([p][1..]);
  }

  lemma FollowOfTwo(p: Pair, q: Pair)
    ensures Follow([p, q]) == "\n" + Line(p) + ("\n" + Line(q))
  {
    assert [p, q][1..] == [q];
    FollowOfOne(q);
  }

  // ------------------------------------------- where the order of headers shows

  function Swapped(headers: seq<Pair>, i: nat, j: nat): seq<Pair>
    requires i < j < |headers|
  {
    headers[i := headers[j]][j := headers[i]]
  }

  lemma {:induction false} WithKeyFirstDifference(a: seq<Pair>, b: seq<Pair>, k: string, i: nat)
    requires |a| == |b| && i < |a|
    requires forall n | 0 <= n < i :: a[n] == b[n]
    requires a[i] != b[i] && a[i].0 == k && b[i].0 == k
    ensures WithKey(a, NameOf, k) != WithKey(b, NameOf, k)
    decreases i
  {
    if i == 0 {
      assert WithKey(a, NameOf, k)[0] == a[0] && WithKey(b, NameOf, k)[0] == b[0];
    } else {
      assert a[0] == b[0];
      WithKeyFirstDifference(a[1..], b[1..], k, i - 1);
      if a[0].0 == k {
        assert WithKey(a, NameOf, k)[1..] == WithKey(a[1..], NameOf, k);
        assert WithKey(b, NameOf, k)[1..] == WithKey(b[1..], NameOf, k);
      }
    }
  }

  lemma SwapShows(l: Library, headers: seq<Pair>, i: nat, j: nat)
    requires WireClean(l, headers) && i < j < |headers|
    requires l.lower(headers[i].0) == l.lower(headers[j].0) && l.trim(headers[i].1) != l.trim(headers[j].1)
    ensures multiset(Swapped(headers, i, j)) == multiset(headers)
    ensures HeaderText(l, Swapped(headers, i, j)) != HeaderText(l, headers)
  {
    var other := Swapped(headers, i, j);
    SwapBag(headers, i, j);
    SwapIsClean(l, headers, i, j);
    if HeaderText(l, other) == HeaderText(l, headers) {
      HeaderTextDecodes(l, headers, other);
      var k := l.lower(headers[i].0);
      SortIsStable(Prepared(l, headers), NameOf, k);
      SortIsStable(Prepared(l, other), NameOf, k);
      SwapMoves(l, headers, i, j);
    }
  }

  lemma SwapBag(headers: seq<Pair>, i: nat, j: nat)
    requires i < j < |headers|
    ensures multiset(Swapped(headers, i, j)) == multiset(headers)
  {
  }

  lemma SwapIsClean(l: Library, headers: seq<Pair>, i: nat, j: nat)
    requires WireClean(l, headers) && i < j < |headers|
    ensures WireClean(l, Swapped(headers, i, j))
  {
  }

  lemma SwapMoves(l: Library, headers: seq<Pair>, i: nat, j: nat)
    requires i < j < |headers|
    requires l.lower(headers[i].0) == l.lower(headers[j].0) && l.trim(headers[i].1) != l.trim(headers[j].1)
    ensures WithKey(Prepared(l, headers), NameOf, l.lower(headers[i].0))
         != WithKey(Prepared(l, Swapped(headers, i, j)), NameOf, l.lower(headers[i].0))
  {
    WithKeyFirstDifference(Prepared(l, headers), Prepared(l, Swapped(headers, i, j)), l.lower(headers[i].0), i);
  }

  /** The order of the headers does not matter exactly when headers whose names fall
      together have the same value: those with equal names keep their order. */
  lemma HeaderOrderIrrelevantExactly(l: Library, headers: seq<Pair>)
    requires WireClean(l, headers)
    ensures (forall other :: multiset(other) == multiset(headers) ==> HeaderText(l, other) == HeaderText(l, headers))
       <==> Unambiguous(l, headers)
  {
    if Unambiguous(l, headers) {
      forall other | multiset(other) == multiset(headers) ensures HeaderText(l, other) == HeaderText(l, headers) {
        SameHeaderText(l, headers, other);
      }
    } else {
      var i, j :| 0 <= i < |headers| && 0 <= j < |headers|
                  && l.lower(headers[i].0) == l.lower(headers[j].0)
                  && l.trim(headers[i].1) != l.trim(headers[j].1);
      if i < j { SwapShows(l, headers, i, j); } else { SwapShows(l, headers, j, i); }
    }
  }

  /** So a signature does not depend on the order of the query parameters, nor on
      that of headers with distinct names. */
  lemma SignedTextIgnoresOrder(l: Library, account: string, r: Request, headers: seq<Pair>, query: seq<Pair>)
    requires multiset(headers) == multiset(r.headers) && Unambiguous(l, r.headers)
    requires multiset(query) == multiset(r.query)
    ensures TextToSign(l, account, r.(headers := headers, query := query)) == TextToSign(l, account, r)
  {
    SameHeaderText(l, r.headers, headers);
    QueryOrderIrrelevant(l, account, r.path, r.query, query);
  }

  // ---------------------------------------------------------- verification

  lemma XorOr(diff: bv8, x: bv8, y: bv8)
    ensures diff | (x ^ y) == 0 <==> diff == 0 && x == y
  {
  }

  /** Compares without stopping at the first difference. */
  method ConstantTimeEq(a: Bytes, b: Bytes) returns (equal: bool)
    ensures equal <==> a == b
  {
    if |a| != |b| {
      return false;
    }
    var diff: bv8 := 0;
    for i := 0 to |a|
      invariant diff == 0 <==> a[..i] == b[..i]
    {
      XorOr(diff, a[i], b[i]);
      assert a[..i + 1] == a[..i] + [a[i]] && b[..i + 1] == b[..i] + [b[i]];
      diff := diff | (a[i] ^ b[i]);
    }
    assert a[..|a|] == a && b[..|a|] == b;
    equal := diff == 0;
  }

  /** A request is accepted exactly if its signature is the MAC of its canonical text
      under one of the account's keys. */
  method Verify(l: Library, account: string, r: Request, signature: Bytes, key1: string, key2: Option<string>)
    returns (accepted: bool)
    ensures var text := TextToSign(l, account, r);
            accepted <==> l.mac(key1, text) == Some(signature)
                          || (key2.Some? && l.mac(key2.value, text) == Some(signature))
  {
    var text := StringToSign(l, account, r);
    var sig1 := l.mac(key1, text);
    if sig1.Some? {
      var same := ConstantTimeEq(sig1.value, signature);
      if same {
        return true;
      }
    }
    if key2.Some? {
      var sig2 := l.mac(key2.value, text);
      if sig2.Some? {
        var same := ConstantTimeEq(sig2.value, signature);
        if same {
          return true;
        }
      }
    }
    accepted := false;
  }
}
