/** The text that Shared Key signs, line by line, and one whole example. */
module SignedText {
  import opened Names
  import opened Text
  import opened StableSort
  import opened SharedKey

  /** None of the twelve fields contains a line feed. */
  predicate FieldsOnOneLine(r: Request) {
    && Free('\n', r.verb) && Free('\n', r.contentEncoding) && Free('\n', r.contentLanguage)
    && Free('\n', r.contentLength) && Free('\n', r.contentMd5) && Free('\n', r.contentType)
    && Free('\n', r.date) && Free('\n', r.ifModifiedSince) && Free('\n', r.ifMatch)
    && Free('\n', r.ifNoneMatch) && Free('\n', r.ifUnmodifiedSince) && Free('\n', r.range)
  }

  /** The first twelve lines of the signed text are the fields of the request in this
      order, a length of zero left empty; what follows them is the header text and the
      resource text. */
  lemma SignedLines(l: Library, account: string, r: Request)
    requires FieldsOnOneLine(r)
    ensures var lines := Split('\n', TextToSign(l, account, r));
            && |lines| > 12
            && lines[0] == r.verb && lines[1] == r.contentEncoding && lines[2] == r.contentLanguage
            && lines[3] == (if r.contentLength == "0" then "" else r.contentLength)
            && lines[4] == r.contentMd5 && lines[5] == r.contentType && lines[6] == r.date
            && lines[7] == r.ifModifiedSince && lines[8] == r.ifMatch && lines[9] == r.ifNoneMatch
            && lines[10] == r.ifUnmodifiedSince && lines[11] == r.range
            && Join("\n", lines[12..]) == HeaderText(l, r.headers) + ResourceText(l, account, r.path, r.query)
  {
    var rest := HeaderText(l, r.headers) + ResourceText(l, account, r.path, r.query);
    SplitHead('\n', FixedParts(r), rest);
    JoinSplit('\n', rest);
    assert TextToSign(l, account, r) == Join("\n", FixedParts(r)) + ['\n'] + rest;
    assert (FixedParts(r) + Split('\n', rest))[12..] == Split('\n', rest);
  }

  // ---------------------------------------------------------- one whole text

  lemma SortOfTwoOutOfOrder(x: Pair, y: Pair)
    requires Less(y.0, x.0)
    ensures Sort([x, y], NameOf) == [y, x]
  {
    assert [x, y][..1] == [x] && [x][..0] == [];
    assert Sort([x], NameOf) == Insert(Sort([x][..0], NameOf), NameOf, x);
    assert Sort([x, y], NameOf) == Insert(Sort([x, y][..1], NameOf), NameOf, y);
    assert Insert([x], NameOf, y) == Insert([x][..0], NameOf, y) + [x];
  }

  lemma LinesOfTwoPairs(x: Pair, y: Pair)
    ensures Lines([x, y]) == Line(x) + "\n" + Line(y) + "\n"
  {
    assert [x, y][..1] == [x] && [x][..0] == [];
    assert Lines([x]) == Lines([x][..0]) + Line(x) + "\n";
    assert "" + Line(x) == Line(x);
  }

  /** Two headers out of order come in order, names lower-cased and values trimmed. */
  lemma TwoHeaders(l: Library, x: Pair, y: Pair)
    requires Less(l.lower(y.0), l.lower(x.0))
    ensures HeaderText(l, [x, y])
         == l.lower(y.0) + ":" + l.trim(y.1) + "\n" + (l.lower(x.0) + ":" + l.trim(x.1)) + "\n"
  {
    var first, second := (l.lower(y.0), l.trim(y.1)), (l.lower(x.0), l.trim(x.1));
    assert Prepared(l, [x, y]) == [second, first];
    SortOfTwoOutOfOrder(second, first);
    LinesOfTwoPairs(first, second);
  }

  lemma ValuesOfPair(l: Library, x: Pair, y: Pair, name: string)
    ensures ValuesOf(l, [x, y], name)
         == (if l.lower(x.0) == name then [x.1] else []) + (if l.lower(y.0) == name then [y.1] else [])
  {
    assert [x, y][..1] == [x] && [x][..0] == [];
    assert ValuesOf(l, [x], name) == ValuesOf(l, [], name) + if l.lower(x.0) == name then [x.1] else [];
  }

  lemma TwoValues(l: Library, x: Pair, y: Pair)
    requires l.lower(x.0) != l.lower(y.0)
    ensures ParameterLine(l, [x, y], l.lower(x.0)) == (l.lower(x.0), x.1)
    ensures ParameterLine(l, [x, y], l.lower(y.0)) == (l.lower(y.0), y.1)
  {
    ValuesOfPair(l, x, y, l.lower(x.0));
    ValuesOfPair(l, x, y, l.lower(y.0));
    SortOfOne(x.1);
    SortOfOne(y.1);
  }

  /** Two parameters out of order come in order, names lower-cased, behind the path. */
  lemma TwoParameters(l: Library, account: string, path: string, x: Pair, y: Pair)
    requires Less(l.lower(y.0), l.lower(x.0))
    ensures ResourceText(l, account, path, [x, y])
         == "/" + account + path + ("\n" + Line((l.lower(y.0), y.1)) + ("\n" + Line((l.lower(x.0), x.1))))
  {
    var first, second := (l.lower(y.0), y.1), (l.lower(x.0), x.1);
    NamesOfTwo(l, [x, y]);
    assert {l.lower(x.0), l.lower(y.0)} == {first.0, second.0};
    SortedTwo(first.0, second.0);
    LessIrreflexive(first.0);
    TwoValues(l, x, y);
    LinesFollow(l, [x, y], [first.0, second.0]);
    assert ParameterPairs(l, [x, y], [first.0, second.0]) == [first, second];
    FollowOfTwo(first, second);
  }

  const DATE: string := "Fri, 26 Jun 2015 23:39:12 GMT"

  /** A Put Block with two headers out of order, one of them with white space around its
      value, and with two query parameters out of order. */
  function Example(): Request {
    Request("PUT", "", "", "11", "", "text/plain", "", "", "", "", "", "",
            [("x-ms-version", "2021-08-06"), ("X-Ms-Date", " " + DATE)],
            "/box/name", [("comp", "block"), ("BlockId", "YQ==")])
  }

  /** What the library makes of the names and values of the example. */
  predicate KnowsExample(l: Library) {
    && l.lower("x-ms-version") == "x-ms-version" && l.lower("X-Ms-Date") == "x-ms-date"
    && l.lower("comp") == "comp" && l.lower("BlockId") == "blockid"
    && l.trim("2021-08-06") == "2021-08-06" && l.trim(" " + DATE) == DATE
  }

  lemma ExampleOrder()
    ensures Less("x-ms-date", "x-ms-version") && Less("blockid", "comp")
  {
    assert SmallerAt("x-ms-date", "x-ms-version", 5);
    LessExactly("x-ms-date", "x-ms-version");
    assert SmallerAt("blockid", "comp", 0);
    LessExactly("blockid", "comp");
  }

  /** The whole text that is signed for the example. */
  lemma ExampleText(l: Library)
    requires KnowsExample(l)
    ensures TextToSign(l, "acct", Example())
         == Join("\n", ["PUT", "", "", "11", "", "text/plain", "", "", "", "", "", ""]) + "\n"
            + ("x-ms-date" + ":" + DATE + "\n" + ("x-ms-version" + ":" + "2021-08-06") + "\n")
            + ("/" + "acct" + "/box/name" + ("\n" + ("blockid" + ":" + "YQ==") + ("\n" + ("comp" + ":" + "block"))))
  {
    ExampleOrder();
    TwoHeaders(l, ("x-ms-version", "2021-08-06"), ("X-Ms-Date", " " + DATE));
    TwoParameters(l, "acct", "/box/name", ("comp", "block"), ("BlockId", "YQ=="));
  }
}
