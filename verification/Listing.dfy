/** Listing by pages: each page continues behind the last name of the one before. */
module Listing {
  import opened Types
  import opened Names
  import opened Like

  datatype Page = Page(names: seq<string>, next: Option<string>)

  function Candidates(names: set<string>, prefix: string, marker: string): set<string> {
    set n | n in names && Selects(prefix, n) && Less(marker, n)
  }

  /** ORDER BY name LIMIT n. */
  function Query(names: set<string>, prefix: string, marker: string, limit: nat): seq<string> {
    var all := Sorted(Candidates(names, prefix, marker));
    all[..Min(limit, |all|)]
  }

  /** One page of at most `max` names; `limit` is what the query asks for, one more
      than `max` so that a further page shows. */
  function ListPage(names: set<string>, prefix: string, marker: string, max: nat, limit: nat): Page {
    var rows := Query(names, prefix, marker, limit);
    if |rows| > max then Page(rows[..max], if max == 0 then None else Some(rows[max - 1]))
    else Page(rows, None)
  }

  const U32_MODULUS: nat := 0x1_0000_0000

  /** Containers compute the limit in 32 bits, blobs in 64. */
  function ContainerLimit(max: nat): nat {
    (max + 1) % U32_MODULUS
  }

  function BlobLimit(max: nat): nat {
    max + 1
  }

  lemma CandidatesSorted(names: set<string>, prefix: string, marker: string)
    ensures var all := Sorted(Candidates(names, prefix, marker));
            && Ascending(all) && (forall n :: n in all <==> n in Candidates(names, prefix, marker))
            && (forall i | 0 <= i < |all| :: all[i] in Candidates(names, prefix, marker))
  {
    SortedIsSorted(Candidates(names, prefix, marker));
    var all := Sorted(Candidates(names, prefix, marker));
    assert forall i | 0 <= i < |all| :: all[i] in all;
  }

  /** An ascending list cut off behind its first elements: the rest comes later. */
  lemma CutList(all: seq<string>, n: nat)
    requires Ascending(all) && n <= |all|
    ensures Ascending(all[..n])
    ensures forall x | x in all :: x in all[..n] || (n > 0 ==> Less(all[n - 1], x))
  {
    forall x | x in all && x !in all[..n] && n > 0 ensures Less(all[n - 1], x) {
      var i :| 0 <= i < |all| && all[i] == x;
    }
  }

  /** A page lists candidates in ascending order, and whatever it leaves out comes
      after the marker it hands out. */
  ghost predicate Initial(page: Page, candidates: set<string>, marker: string, max: nat) {
    && Ascending(page.names) && |page.names| <= max
    && (forall n | n in page.names :: n in candidates)
    && (forall n | n in candidates :: n in page.names || (page.next.Some? && Less(page.next.value, n)))
    && (page.next.Some? ==>
          && page.names != [] && page.next.value == page.names[|page.names| - 1]
          && Less(marker, page.next.value))
  }

  lemma PageIsInitial(names: set<string>, prefix: string, marker: string, max: nat)
    requires max >= 1
    ensures Initial(ListPage(names, prefix, marker, max, max + 1), Candidates(names, prefix, marker), marker, max)
  {
    CandidatesSorted(names, prefix, marker);
    PageIsCut(names, prefix, marker, max);
    CutIsInitial(Sorted(Candidates(names, prefix, marker)), Candidates(names, prefix, marker), marker, max);
  }

  /** The first `max` names of an ascending list, and the last of them as the marker
      if there are more. */
  function PageOf(all: seq<string>, max: nat): Page
    requires max >= 1
  {
    if |all| > max then Page(all[..max], Some(all[max - 1])) else Page(all, None)
  }

  lemma CutIsInitial(all: seq<string>, candidates: set<string>, marker: string, max: nat)
    requires max >= 1 && Ascending(all)
    requires forall n :: n in all <==> n in candidates
    requires forall n | n in candidates :: Less(marker, n)
    ensures Initial(PageOf(all, max), candidates, marker, max)
  {
    if |all| > max {
      CutList(all, max);
      assert all[max - 1] in all;
    }
  }

  lemma PageIsCut(names: set<string>, prefix: string, marker: string, max: nat)
    requires max >= 1
    ensures ListPage(names, prefix, marker, max, max + 1) == PageOf(Sorted(Candidates(names, prefix, marker)), max)
  {
    var all := Sorted(Candidates(names, prefix, marker));
    if |all| > max {
      assert all[..max + 1][..max] == all[..max];
    } else {
      assert all[..|all|] == all;
    }
  }

  // ------------------------------------------------- scans of a changing table

  /** A client that asks for page after page; the i-th request finds the i-th table.
      The flag tells whether the scan came to its end. */
  function Scan(tables: seq<set<string>>, prefix: string, marker: string, max: nat): (seq<string>, bool)
    decreases |tables|
  {
    if tables == [] then ([], false)
    else
      var page := ListPage(tables[0], prefix, marker, max, BlobLimit(max));
      if page.next.None? then (page.names, true)
      else
        var (rest, finished) := Scan(tables[1..], prefix, page.next.value, max);
        (page.names + rest, finished)
  }

  /** Under arbitrary changes between the page requests, the names come in strictly
      ascending order over all pages, so none comes twice; and a name that matches
      and was there all the time is returned by a finished scan. */
  lemma {:induction false} ScanUnderChange(tables: seq<set<string>>, prefix: string, marker: string, max: nat)
    requires max >= 1
    ensures var (names, finished) := Scan(tables, prefix, marker, max);
            && Ascending(names)
            && (forall n | n in names :: Less(marker, n) && Selects(prefix, n) && exists t :: t in tables && n in t)
            && (finished ==> forall n | Selects(prefix, n) && Less(marker, n) && (forall t | t in tables :: n in t) ::
                  n in names)
    decreases |tables|
  {
    if tables == [] {
    } else {
      var page := ListPage(tables[0], prefix, marker, max, BlobLimit(max));
      PageIsInitial(tables[0], prefix, marker, max);
      assert tables[0] in tables;
      if page.next.Some? {
        var m := page.next.value;
        ScanUnderChange(tables[1..], prefix, m, max);
        var rest := Scan(tables[1..], prefix, m, max).0;
        assert forall t | t in tables[1..] :: t in tables;
        forall x, y | x in page.names && y in rest ensures Less(x, y) {
          UpToLast(page.names, x);
          if x != m { LessTransitive(x, m, y); }
        }
        forall y | y in rest ensures Less(marker, y) {
          LessTransitive(marker, m, y);
        }
        AscendingConcat(page.names, rest);
      }
    }
  }

  lemma UpToLast(names: seq<string>, x: string)
    requires Ascending(names) && x in names
    ensures x == names[|names| - 1] || Less(x, names[|names| - 1])
  {
    var i :| 0 <= i < |names| && names[i] == x;
  }

  // ------------------------------------------------- scans of a standing table

  /** The pages of a scan from the marker to the end of an unchanged table. */
  function Pages(names: set<string>, prefix: string, marker: string, max: nat): seq<seq<string>>
    requires max >= 1
    decreases |Candidates(names, prefix, marker)|
  {
    var page := ListPage(names, prefix, marker, max, max + 1);
    if page.next.None? then [page.names]
    else
      PageIsInitial(names, prefix, marker, max);
      FewerCandidates(names, prefix, marker, page.next.value, page.names[0]);
      [page.names] + Pages(names, prefix, page.next.value, max)
  }

  /** Only the last page of a scan can be empty. */
  lemma {:induction false} PagesBeforeLast(names: set<string>, prefix: string, marker: string, max: nat, j: nat)
    requires max >= 1 && j + 1 < |Pages(names, prefix, marker, max)|
    ensures Pages(names, prefix, marker, max)[j] != []
    decreases |Candidates(names, prefix, marker)|
  {
    var page := ListPage(names, prefix, marker, max, max + 1);
    PageIsInitial(names, prefix, marker, max);
    if j == 0 {
    } else {
      FewerCandidates(names, prefix, marker, page.next.value, page.names[0]);
      PagesBeforeLast(names, prefix, page.next.value, max, j - 1);
    }
  }

  /** Termination: behind a later marker there are fewer candidates. */
  lemma FewerCandidates(names: set<string>, prefix: string, marker: string, later: string, first: string)
    requires Less(marker, later) && first in Candidates(names, prefix, marker)
    requires first == later || Less(first, later)
    ensures |Candidates(names, prefix, later)| < |Candidates(names, prefix, marker)|
  {
    var big, small := Candidates(names, prefix, marker), Candidates(names, prefix, later);
    forall n | n in small ensures n in big {
      LessTransitive(marker, later, n);
    }
    if first in small {
      LessIrreflexive(later);
      if first != later { LessTransitive(first, later, first); LessIrreflexive(first); }
    }
    assert small < big;
    SmallerSet(small, big);
  }

  lemma SmallerSet(small: set<string>, big: set<string>)
    requires small < big
    ensures |small| < |big|
  {
    var x :| x in big && x !in small;
    assert small <= big - {x};
    SubsetSize(small, big - {x});
  }

  lemma {:induction false} SubsetSize(a: set<string>, b: set<string>)
    requires a <= b
    ensures |a| <= |b|
    decreases a
  {
    if a == {} {
    } else {
      var x :| x in a;
      SubsetSize(a - {x}, b - {x});
    }
  }

  function Flatten(pages: seq<seq<string>>): seq<string> {
    if pages == [] then [] else pages[0] + Flatten(pages[1..])
  }

  lemma PageThenRest(page: Page, candidates: set<string>, rest: seq<string>, later: set<string>, marker: string,
                     max: nat)
    requires Initial(page, candidates, marker, max) && page.next.Some?
    requires Ascending(rest) && forall x :: x in rest <==> x in later
    requires forall x :: x in later <==> x in candidates && Less(page.next.value, x)
    ensures Ascending(page.names + rest)
    ensures forall x :: x in page.names + rest <==> x in candidates
  {
    var m := page.next.value;
    forall x, y | x in page.names && y in rest ensures Less(x, y) {
      UpToLast(page.names, x);
      if x != m { LessTransitive(x, m, y); }
    }
    AscendingConcat(page.names, rest);
  }

  lemma LaterCandidates(names: set<string>, prefix: string, marker: string, m: string)
    requires Less(marker, m)
    ensures forall x :: x in Candidates(names, prefix, m) <==> x in Candidates(names, prefix, marker) && Less(m, x)
  {
    forall x | x in Candidates(names, prefix, m) ensures Less(marker, x) {
      LessTransitive(marker, m, x);
    }
  }

  /** Over an unchanged table all pages together are the sorted candidates. */
  lemma {:induction false} PagesAreComplete(names: set<string>, prefix: string, marker: string, max: nat)
    requires max >= 1
    ensures Flatten(Pages(names, prefix, marker, max)) == Sorted(Candidates(names, prefix, marker))
    decreases |Candidates(names, prefix, marker)|
  {
    var page := ListPage(names, prefix, marker, max, max + 1);
    var all := Sorted(Candidates(names, prefix, marker));
    PageIsInitial(names, prefix, marker, max);
    SortedIsSorted(Candidates(names, prefix, marker));
    if page.next.None? {
      AscendingUnique(page.names, all);
      assert Flatten([page.names]) == page.names + Flatten([]);
    } else {
      var m := page.next.value;
      FewerCandidates(names, prefix, marker, m, page.names[0]);
      PagesAreComplete(names, prefix, m, max);
      SortedIsSorted(Candidates(names, prefix, m));
      LaterCandidates(names, prefix, marker, m);
      var rest := Sorted(Candidates(names, prefix, m));
      PageThenRest(page, Candidates(names, prefix, marker), rest, Candidates(names, prefix, m), marker, max);
      AscendingUnique(page.names + rest, all);
      assert Pages(names, prefix, marker, max)[1..] == Pages(names, prefix, m, max);
    }
  }

  /** So they list each name that matches once, in order. */
  lemma PagesListMatches(names: set<string>, prefix: string, max: nat)
    requires max >= 1
    ensures var all := Flatten(Pages(names, prefix, "", max));
            Ascending(all) && forall n :: n in all <==> n in names && Selects(prefix, n) && n != ""
  {
    PagesAreComplete(names, prefix, "", max);
    SortedIsSorted(Candidates(names, prefix, ""));
  }

  lemma RowsMatch(names: set<string>, prefix: string, marker: string, limit: nat)
    ensures forall n | n in Query(names, prefix, marker, limit) ::
              n in names && Selects(prefix, n) && Less(marker, n)
  {
    var all := Sorted(Candidates(names, prefix, marker));
    SortedIsSorted(Candidates(names, prefix, marker));
    assert forall n | n in all[..Min(limit, |all|)] :: n in all;
  }

  // -------------------------------------------------- when pages are complete

  /** The first page already tells whether a scan can be complete: it shows a name
      if there is one. */
  predicate ShowsSomething(names: set<string>, prefix: string, marker: string, max: nat, limit: nat) {
    Candidates(names, prefix, marker) == {} || ListPage(names, prefix, marker, max, limit).names != []
  }

  /** Listing containers works exactly for limits from one up to, but not including,
      the greatest 32-bit number: with zero, and with that number, whose successor
      wraps around to a query for nothing, it answers with an empty last page
      however many containers there are. */
  lemma ContainerLimitsThatWork(names: set<string>, prefix: string, marker: string, max: nat)
    requires max < U32_MODULUS
    ensures 1 <= max < U32_MODULUS - 1 ==> ContainerLimit(max) == max + 1
    ensures ShowsSomething(names, prefix, marker, max, ContainerLimit(max))
       <==> Candidates(names, prefix, marker) == {} || 1 <= max < U32_MODULUS - 1
    ensures (max == 0 || max == U32_MODULUS - 1) ==>
              ListPage(names, prefix, marker, max, ContainerLimit(max)) == Page([], None)
  {
    CandidatesSorted(names, prefix, marker);
    var all := Sorted(Candidates(names, prefix, marker));
    SortedIsSorted(Candidates(names, prefix, marker));
    if max == U32_MODULUS - 1 {
      assert ContainerLimit(max) == 0;
    }
  }

  /** Listing blobs works exactly for limits of at least one. */
  lemma BlobLimitsThatWork(names: set<string>, prefix: string, marker: string, max: nat)
    ensures ShowsSomething(names, prefix, marker, max, BlobLimit(max))
       <==> Candidates(names, prefix, marker) == {} || max >= 1
  {
    SortedIsSorted(Candidates(names, prefix, marker));
  }
}
