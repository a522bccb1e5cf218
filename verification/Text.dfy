/** Joining texts with a separator, and getting the parts back. */
module Text {
  import opened Types

  predicate Free(c: char, s: string) {
    c !in s
  }

  predicate AllFree(c: char, parts: seq<string>) {
    forall i | 0 <= i < |parts| :: Free(c, parts[i])
  }

  function Join(sep: string, parts: seq<string>): string {
    if parts == [] then ""
    else if |parts| == 1 then parts[0]
    else parts[0] + sep + Join(sep, parts[1..])
  }

  /** Two texts that each run up to their first separator are told apart by it. */
  lemma {:induction false} FirstPart(c: char, a: string, a': string, b: string, b': string)
    requires Free(c, a) && Free(c, b)
    requires a' == [] || a'[0] == c
    requires b' == [] || b'[0] == c
    requires a + a' == b + b'
    ensures a == b && a' == b'
    decreases |a|
  {
    assert a != [] ==> (a + a')[0] == a[0];
    assert b != [] ==> (b + b')[0] == b[0];
    assert a == [] ==> a + a' == a';
    assert b == [] ==> b + b' == b';
    if a == [] || b == [] {
    } else {
      assert (a + a')[1..] == a[1..] + a' && (b + b')[1..] == b[1..] + b';
      FirstPart(c, a[1..], a', b[1..], b');
      assert a == [a[0]] + a[1..] && b == [b[0]] + b[1..];
    }
  }

  function Rest(c: char, parts: seq<string>): string
    requires parts != []
  {
    if |parts| == 1 then [] else [c] + Join([c], parts[1..])
  }

  lemma JoinRest(c: char, parts: seq<string>)
    requires parts != []
    ensures Join([c], parts) == parts[0] + Rest(c, parts)
    ensures Rest(c, parts) == [] || Rest(c, parts)[0] == c
    ensures |parts| > 1 ==> Rest(c, parts) != [] && Rest(c, parts)[1..] == Join([c], parts[1..])
  {
    if |parts| == 1 {
      assert parts[0] + [] == parts[0];
    } else {
      assert parts[0] + [c] + Join([c], parts[1..]) == parts[0] + ([c] + Join([c], parts[1..]));
    }
  }

  /** Joined texts that are equal have equal first parts and equal rests. */
  lemma SameFirstPart(c: char, a: seq<string>, b: seq<string>)
    requires a != [] && b != [] && AllFree(c, a) && AllFree(c, b)
    requires Join([c], a) == Join([c], b)
    ensures a[0] == b[0] && Rest(c, a) == Rest(c, b)
  {
    JoinRest(c, a);
    JoinRest(c, b);
    FirstPart(c, a[0], Rest(c, a), b[0], Rest(c, b));
  }

  /** Joining with a separator that no part contains loses nothing. */
  lemma {:induction false} JoinInjective(c: char, a: seq<string>, b: seq<string>)
    requires a != [] && b != [] && AllFree(c, a) && AllFree(c, b)
    requires Join([c], a) == Join([c], b)
    ensures a == b
    decreases |a|
  {
    SameFirstPart(c, a, b);
    JoinRest(c, a);
    JoinRest(c, b);
    var x, y := a[1..], b[1..];
    assert a == [a[0]] + x && b == [b[0]] + y;
    if |a| == 1 || |b| == 1 {
    } else {
      JoinInjective(c, x, y);
    }
  }

  /** A joined text has as many separators as there are gaps, and more if a part
      contains one. */
  lemma {:induction false} CountSeparators(c: char, parts: seq<string>)
    requires parts != []
    ensures multiset(Join([c], parts))[c] >= |parts| - 1
    ensures multiset(Join([c], parts))[c] == |parts| - 1 <==> AllFree(c, parts)
    decreases |parts|
  {
    if |parts| == 1 {
    } else {
      CountSeparators(c, parts[1..]);
      assert multiset(Join([c], parts)) == multiset(parts[0]) + multiset{c} + multiset(Join([c], parts[1..]));
      AllFreeCons(c, parts);
    }
  }

  lemma AllFreeCons(c: char, parts: seq<string>)
    requires parts != []
    ensures AllFree(c, parts) <==> Free(c, parts[0]) && AllFree(c, parts[1..])
  {
    assert forall i | 1 <= i < |parts| :: parts[i] == parts[1..][i - 1];
  }

  /** It is enough that the parts of one side do not contain the separator, if there
      are equally many. */
  lemma JoinInjectiveOneSided(c: char, a: seq<string>, b: seq<string>)
    requires a != [] && |a| == |b| && AllFree(c, a)
    requires Join([c], a) == Join([c], b)
    ensures a == b
  {
    CountSeparators(c, a);
    CountSeparators(c, b);
    JoinInjective(c, a, b);
  }

  lemma {:induction false} JoinFree(c: char, sep: string, parts: seq<string>)
    requires AllFree(c, parts) && Free(c, sep)
    ensures Free(c, Join(sep, parts))
    decreases |parts|
  {
    if |parts| <= 1 {
    } else {
      JoinFree(c, sep, parts[1..]);
    }
  }

  /** Splitting at every separator; there is always at least one part. */
  function Split(c: char, s: string): (parts: seq<string>)
    ensures parts != []
  {
    if s == [] then [""]
    else
      var rest := Split(c, s[1..]);
      if s[0] == c then [""] + rest else [[s[0]] + rest[0]] + rest[1..]
  }

  lemma {:induction false} SplitPart(c: char, part: string, rest: string)
    requires Free(c, part)
    ensures Split(c, part + rest) == [part + Split(c, rest)[0]] + Split(c, rest)[1..]
    decreases |part|
  {
    if part == [] {
      assert part + rest == rest && part + Split(c, rest)[0] == Split(c, rest)[0];
    } else {
      assert part[0] in part;
      assert (part + rest)[1..] == part[1..] + rest;
      SplitPart(c, part[1..], rest);
      assert [part[0]] + (part[1..] + Split(c, rest)[0]) == part + Split(c, rest)[0];
    }
  }

  /** Splitting undoes joining, if no part contains the separator. */
  lemma {:induction false} SplitJoin(c: char, parts: seq<string>)
    requires parts != [] && AllFree(c, parts)
    ensures Split(c, Join([c], parts)) == parts
    decreases |parts|
  {
    if |parts| == 1 {
      SplitPart(c, parts[0], "");
      assert parts[0] + "" == parts[0];
      assert parts == [parts[0]];
    } else {
      var tail := Join([c], parts[1..]);
      SplitJoin(c, parts[1..]);
      SplitPart(c, parts[0], [c] + tail);
      assert parts[0] + [c] + tail == parts[0] + ([c] + tail);
      assert ([c] + tail)[1..] == tail;
      assert Split(c, [c] + tail) == [""] + parts[1..];
      assert parts == [parts[0]] + parts[1..] && parts[0] + "" == parts[0];
    }
  }

  lemma SplitCons(c: char, part: string, tail: string)
    requires Free(c, part)
    ensures Split(c, part + ([c] + tail)) == [part] + Split(c, tail)
  {
    assert ([c] + tail)[1..] == tail;
    SplitPart(c, part, [c] + tail);
    assert part + "" == part;
  }

  lemma JoinCons(c: char, parts: seq<string>, rest: string)
    requires |parts| > 1
    ensures Join([c], parts) + [c] + rest == parts[0] + ([c] + (Join([c], parts[1..]) + [c] + rest))
  {
  }

  lemma Regroup(parts: seq<string>, more: seq<string>)
    requires parts != []
    ensures [parts[0]] + (parts[1..] + more) == parts + more
  {
  }

  /** Parts that are joined in front of a further text come first when it is split. */
  lemma {:induction false} SplitHead(c: char, parts: seq<string>, rest: string)
    requires parts != [] && AllFree(c, parts)
    ensures Split(c, Join([c], parts) + [c] + rest) == parts + Split(c, rest)
    decreases |parts|
  {
    if |parts| == 1 {
      assert parts == [parts[0]];
      assert parts[0] + [c] + rest == parts[0] + ([c] + rest);
      SplitCons(c, parts[0], rest);
    } else {
      var first, others := parts[0], parts[1..];
      AllFreeCons(c, parts);
      JoinCons(c, parts, rest);
      SplitHead(c, others, rest);
      SplitCons(c, first, Join([c], others) + [c] + rest);
      Regroup(parts, Split(c, rest));
    }
  }

  /** Joining undoes splitting. */
  lemma {:induction false} JoinSplit(c: char, s: string)
    ensures Join([c], Split(c, s)) == s
    decreases |s|
  {
    if s == [] {
    } else {
      var rest := Split(c, s[1..]);
      JoinSplit(c, s[1..]);
      assert s == [s[0]] + s[1..];
      if s[0] == c {
        assert ([""] + rest)[1..] == rest;
      } else {
        var parts := [[s[0]] + rest[0]] + rest[1..];
        assert parts[1..] == rest[1..];
        assert Join([c], parts) == [s[0]] + Join([c], rest);
      }
    }
  }

  function IndexOf(c: char, s: string): (r: Option<nat>)
    ensures r.None? <==> c !in s
    ensures r.Some? ==> r.value < |s| && s[r.value] == c && c !in s[..r.value]
  {
    if s == [] then None
    else if s[0] == c then Some(0)
    else
      match IndexOf(c, s[1..])
      case None => None
      case Some(i) =>
        assert s[..i + 1] == [s[0]] + s[1..][..i];
        Some(i + 1)
  }

  lemma SplitAtFirst(a: string, c: char, b: string)
    requires c !in a
    ensures IndexOf(c, a + [c] + b) == Some(|a|)
  {
    var s := a + [c] + b;
    assert s[|a|] == c;
    assert forall j | 0 <= j < |a| :: s[j] == a[j];
    assert forall j | |a| < j <= |s| :: s[..j][|a|] == c;
  }
}
