/** The query string: parsing it into pairs, and that a signature does not depend on
    the order of its parts. */
module Query {
  import opened Types
  import opened Text
  import opened StableSort
  import opened SharedKey

  /** Percent-decoding, which fails on what is not valid text. */
  type Decoder = string -> Option<string>

  function Decoded(decode: Decoder, s: string): string {
    if decode(s).Some? then decode(s).value else s
  }

  /** The text before the first `=` and the text behind it. */
  function Cut(s: string): (string, string) {
    if s == [] then ("", "")
    else if s[0] == '=' then ("", s[1..])
    else
      var (name, value) := Cut(s[1..]);
      ([s[0]] + name, value)
  }

  function ParsePair(decode: Decoder, part: string): Pair {
    var (name, value) := Cut(part);
    (Decoded(decode, name), Decoded(decode, value))
  }

  function ParseParts(decode: Decoder, parts: seq<string>): seq<Pair> {
    if parts == [] then []
    else
      var n := |parts| - 1;
      ParseParts(decode, parts[..n]) + if parts[n] == "" then [] else [ParsePair(decode, parts[n])]
  }

  function ParseQuery(decode: Decoder, raw: string): seq<Pair> {
    if raw == "" then [] else ParseParts(decode, Split('&', raw))
  }

  lemma {:induction false} PartsAppend(decode: Decoder, a: seq<string>, b: seq<string>)
    ensures ParseParts(decode, a + b) == ParseParts(decode, a) + ParseParts(decode, b)
    decreases |b|
  {
    if b == [] {
      assert a + b == a;
    } else {
      var n := |b| - 1;
      assert (a + b)[..|a + b| - 1] == a + b[..n];
      PartsAppend(decode, a, b[..n]);
    }
  }

  lemma {:induction false} SamePairs(decode: Decoder, a: seq<string>, b: seq<string>)
    requires multiset(a) == multiset(b)
    ensures multiset(ParseParts(decode, a)) == multiset(ParseParts(decode, b))
    decreases |a|
  {
    if a == [] {
      assert |multiset(b)| == 0;
    } else {
      var j := RemoveLast(a, b);
      var fewer := b[..j] + b[j + 1..];
      var front, last := a[..|a| - 1], a[|a| - 1];
      assert a == front + [last];
      SamePairs(decode, front, fewer);
      PartsAppend(decode, front, [last]);
      PairsWithout(decode, b, j, fewer);
    }
  }

  lemma PairsWithout(decode: Decoder, b: seq<string>, j: nat, fewer: seq<string>)
    requires j < |b| && fewer == b[..j] + b[j + 1..]
    ensures multiset(ParseParts(decode, b))
         == multiset(ParseParts(decode, fewer)) + multiset(ParseParts(decode, [b[j]]))
  {
    assert b == b[..j] + [b[j]] + b[j + 1..];
    PartsAppend(decode, b[..j], b[j + 1..]);
    PartsAppend(decode, b[..j] + [b[j]], b[j + 1..]);
    PartsAppend(decode, b[..j], [b[j]]);
  }

  lemma ParseJoined(decode: Decoder, parts: seq<string>)
    requires parts != [] && AllFree('&', parts)
    ensures ParseQuery(decode, Join("&", parts)) == ParseParts(decode, parts)
  {
    SplitJoin('&', parts);
    if Join("&", parts) == "" {
      assert parts == [""];
      assert ParseParts(decode, [""][..0]) == [];
    }
  }

  /** The name and value of a part written as `name=value` come back decoded. */
  lemma {:induction false} CutPrinted(name: string, value: string)
    requires Free('=', name)
    ensures Cut(name + "=" + value) == (name, value)
  {
    if name == [] {
      assert (name + "=" + value)[1..] == value;
    } else {
      assert name[0] in name;
      assert (name + "=" + value)[0] == name[0] && name == [name[0]] + name[1..];
      assert (name + "=" + value)[1..] == name[1..] + "=" + value;
      CutPrinted(name[1..], value);
    }
  }

  lemma {:induction false} CutWithout(s: string)
    requires Free('=', s)
    ensures Cut(s) == (s, "")
  {
    if s == [] {
    } else {
      assert s[0] in s && s == [s[0]] + s[1..];
      CutWithout(s[1..]);
    }
  }

  // --------------------------------------------------------- printed queries

  /** A percent-encoding that the decoder undoes and that leaves no separators. */
  ghost predicate Undoes(decode: Decoder, encode: string -> string) {
    forall s :: decode(encode(s)) == Some(s) && Free('&', encode(s)) && Free('=', encode(s))
  }

  function PrintPair(encode: string -> string, p: Pair): string {
    encode(p.0) + "=" + encode(p.1)
  }

  function PrintQuery(encode: string -> string, pairs: seq<Pair>): seq<string> {
    seq(|pairs|, i requires 0 <= i < |pairs| => PrintPair(encode, pairs[i]))
  }

  lemma ParsePrintedPair(decode: Decoder, encode: string -> string, p: Pair)
    requires Undoes(decode, encode)
    ensures ParsePair(decode, PrintPair(encode, p)) == p
    ensures PrintPair(encode, p) != "" && Free('&', PrintPair(encode, p))
  {
    CutPrinted(encode(p.0), encode(p.1));
    assert forall c | c in PrintPair(encode, p) :: c in encode(p.0) || c == '=' || c in encode(p.1);
  }

  lemma {:induction false} ParsePrintedParts(decode: Decoder, encode: string -> string, pairs: seq<Pair>)
    requires Undoes(decode, encode)
    ensures ParseParts(decode, PrintQuery(encode, pairs)) == pairs && AllFree('&', PrintQuery(encode, pairs))
    decreases |pairs|
  {
    var parts := PrintQuery(encode, pairs);
    forall i | 0 <= i < |parts| ensures Free('&', parts[i]) {
      ParsePrintedPair(decode, encode, pairs[i]);
    }
    if pairs == [] {
    } else {
      var n := |pairs| - 1;
      assert parts[..n] == PrintQuery(encode, pairs[..n]);
      ParsePrintedParts(decode, encode, pairs[..n]);
      ParsePrintedPair(decode, encode, pairs[n]);
      assert pairs == pairs[..n] + [pairs[n]];
    }
  }

  /** The round trip: the pairs of a query come back with their names and values, in
      order, from the encoded query. */
  lemma ParsePrintedQuery(decode: Decoder, encode: string -> string, pairs: seq<Pair>)
    requires Undoes(decode, encode)
    ensures ParseQuery(decode, Join("&", PrintQuery(encode, pairs))) == pairs
  {
    ParsePrintedParts(decode, encode, pairs);
    if pairs != [] {
      ParseJoined(decode, PrintQuery(encode, pairs));
    }
  }

  /** Empty parts are skipped, a part without an equals sign is a name with an empty
      value, and what cannot be decoded is taken as it stands. */
  lemma OddParts(decode: Decoder, part: string)
    requires Free('&', part) && Free('=', part) && part != ""
    ensures ParseQuery(decode, Join("&", ["", part, ""]))
         == [(if decode(part).Some? then decode(part).value else part,
              if decode("").Some? then decode("").value else "")]
  {
    var parts := ["", part, ""];
    ParseJoined(decode, parts);
    CutWithout(part);
    assert parts[..2] == ["", part] && ["", part][..1] == [""] && [""][..0] == [];
    assert ParseParts(decode, [""]) == [];
    assert ParseParts(decode, ["", part]) == [ParsePair(decode, part)];
  }

  /** Rearranging the parts of the raw query string leaves the text to sign as it is. */
  lemma RawQueryOrderIrrelevant(l: Library, decode: Decoder, account: string, r: Request,
                                a: seq<string>, b: seq<string>)
    requires a != [] && AllFree('&', a) && AllFree('&', b) && multiset(a) == multiset(b)
    ensures TextToSign(l, account, r.(query := ParseQuery(decode, Join("&", a))))
         == TextToSign(l, account, r.(query := ParseQuery(decode, Join("&", b))))
  {
    assert |a| == |multiset(a)| && |b| == |multiset(b)|;
    ParseJoined(decode, a);
    ParseJoined(decode, b);
    SamePairs(decode, a, b);
    QueryOrderIrrelevant(l, account, r.path, ParseParts(decode, a), ParseParts(decode, b));
  }
}
