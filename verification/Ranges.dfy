/** Range headers: parsing, the response to a GET, and how ranges tile a blob. */
module Ranges {
  import opened Types
  import opened Text
  import opened World
  import opened Refinement
  import opened BlobRead
  import opened FsBackend

  // ------------------------------------------------------------- numerals

  predicate IsDigit(c: char) {
    '0' <= c <= '9'
  }

  function DigitOf(c: char): nat
    requires IsDigit(c)
  {
    c as int - '0' as int
  }

  function Digit(d: nat): char
    requires d < 10
  {
    (d + '0' as int) as char
  }

  /** Digits into a 64-bit number, left to right; overflow is an error. */
  function ParseDigits(s: string): Option<nat> {
    if s == [] then Some(0)
    else
      var n := |s| - 1;
      match ParseDigits(s[..n])
      case None => None
      case Some(v) =>
        if IsDigit(s[n]) && v * 10 + DigitOf(s[n]) <= U64_MAX then Some(v * 10 + DigitOf(s[n])) else None
  }

  /** The library's parser of 64-bit numbers, which allows a leading plus sign. */
  function ParseU64(s: string): Option<nat> {
    var digits := if s != [] && s[0] == '+' then s[1..] else s;
    if digits == [] then None else ParseDigits(digits)
  }

  function Numeral(n: nat): (s: string)
    ensures s != [] && forall c | c in s :: IsDigit(c)
  {
    if n < 10 then [Digit(n)] else Numeral(n / 10) + [Digit(n % 10)]
  }

  lemma {:induction false} ParseDigitsOfNumeral(n: nat)
    ensures ParseDigits(Numeral(n)) == if n <= U64_MAX then Some(n) else None
    decreases n
  {
    var s := Numeral(n);
    var last := |s| - 1;
    if n < 10 {
      assert s[..last] == [];
    } else {
      assert s[..last] == Numeral(n / 10);
      ParseDigitsOfNumeral(n / 10);
      assert n == (n / 10) * 10 + n % 10;
    }
  }

  /** A printed number is read back exactly if it fits 64 bits. */
  lemma ParseNumeral(n: nat)
    ensures ParseU64(Numeral(n)) == if n <= U64_MAX then Some(n) else None
  {
    assert Numeral(n)[0] in Numeral(n);
    ParseDigitsOfNumeral(n);
  }

  /** Numerals are decimal: the digits are 0 to 9 in this order, and a further digit
      behind a numeral makes ten times the number and the digit. */
  lemma NumeralIsDecimal(n: nat, d: nat)
    requires d < 10
    ensures Numeral(d) == ["0123456789"[d]]
    ensures n > 0 ==> Numeral(n * 10 + d) == Numeral(n) + Numeral(d)
  {
    if n > 0 {
      assert (n * 10 + d) / 10 == n && (n * 10 + d) % 10 == d;
    }
  }

  predicate AllZeros(s: string) {
    forall c | c in s :: c == '0'
  }

  lemma {:induction false} DigitsOfZeros(zeros: string, n: nat)
    requires AllZeros(zeros)
    ensures ParseDigits(zeros) == Some(0)
    ensures ParseDigits(zeros + Numeral(n)) == ParseDigits(Numeral(n))
    decreases |zeros|, n
  {
    var s := zeros + Numeral(n);
    if zeros == [] {
      assert s == Numeral(n);
    } else {
      var last := |zeros| - 1;
      assert zeros[last] in zeros && zeros == zeros[..last] + [zeros[last]];
      assert forall c | c in zeros[..last] :: c in zeros;
      DigitsOfZeros(zeros[..last], 0);
      ZerosThenDigits(zeros, n);
    }
  }

  lemma {:induction false} ZerosThenDigits(zeros: string, n: nat)
    requires ParseDigits(zeros) == Some(0)
    ensures ParseDigits(zeros + Numeral(n)) == ParseDigits(Numeral(n))
    decreases n
  {
    var s := zeros + Numeral(n);
    var last := |s| - 1;
    if n < 10 {
      assert s[..last] == zeros && Numeral(n)[..0] == [];
    } else {
      ZerosThenDigits(zeros, n / 10);
      assert s[..last] == zeros + Numeral(n / 10) && s[last] == Digit(n % 10);
      assert Numeral(n)[..|Numeral(n)| - 1] == Numeral(n / 10);
    }
  }

  /** Leading zeros do not matter; apart from them a text of digits is a numeral. */
  lemma {:induction false} DigitsAreNumeral(s: string) returns (zeros: string)
    requires ParseDigits(s).Some? && s != []
    ensures AllZeros(zeros) && s == zeros + Numeral(ParseDigits(s).value)
    decreases |s|
  {
    var last := |s| - 1;
    var d := DigitOf(s[last]);
    assert s == s[..last] + [s[last]] && Digit(d) == s[last];
    if last == 0 {
      zeros := "";
      assert s == Numeral(d);
    } else {
      var v := ParseDigits(s[..last]).value;
      var before := DigitsAreNumeral(s[..last]);
      if v == 0 {
        zeros := s[..last];
        assert Numeral(0) == ['0'];
      } else {
        zeros := before;
        NumeralIsDecimal(v, d);
        assert Numeral(d) == [s[last]];
        assert zeros + Numeral(v * 10 + d) == zeros + Numeral(v) + [s[last]];
      }
    }
  }

  /** A text for a number: perhaps a plus sign, zeros, and its numeral. */
  ghost predicate Spells(s: string, n: nat) {
    exists plus, zeros :: SpelledAs(s, plus, zeros, n)
  }

  predicate SpelledAs(s: string, plus: string, zeros: string, n: nat) {
    plus in {"", "+"} && AllZeros(zeros) && s == plus + (zeros + Numeral(n))
  }

  /** A text is read as a number if and only if it spells that number and the number
      fits 64 bits. */
  lemma ParseU64Exactly(s: string, n: nat)
    ensures ParseU64(s) == Some(n) <==> n <= U64_MAX && Spells(s, n)
  {
    if ParseU64(s) == Some(n) {
      var plus := if s[0] == '+' then "+" else "";
      var digits := if s[0] == '+' then s[1..] else s;
      assert s == plus + digits;
      var zeros := DigitsAreNumeral(digits);
      assert SpelledAs(s, plus, zeros, n);
      ParsedFits(digits);
    }
    if n <= U64_MAX && Spells(s, n) {
      var plus, zeros :| SpelledAs(s, plus, zeros, n);
      SpelledIsParsed(plus, zeros, n);
    }
  }

  lemma ParsedFits(s: string)
    requires ParseDigits(s).Some?
    ensures ParseDigits(s).value <= U64_MAX
  {
  }

  lemma SpelledIsParsed(plus: string, zeros: string, n: nat)
    requires plus in {"", "+"} && AllZeros(zeros) && n <= U64_MAX
    ensures ParseU64(plus + (zeros + Numeral(n))) == Some(n)
  {
    var digits := zeros + Numeral(n);
    var s := plus + digits;
    assert digits[0] in zeros || digits[0] in Numeral(n);
    assert if plus == "" then s == digits else s[0] == '+' && s[1..] == digits;
    DigitsOfZeros(zeros, n);
    ParseDigitsOfNumeral(n);
  }

  // ---------------------------------------------------------- range headers

  /** `bytes=start-end` or `bytes=start-`; anything else is no range. */
  function ParseRange(value: string): Option<(nat, nat)> {
    if !("bytes=" <= value) then None else ParseSpan(value[6..])
  }

  function ParseSpan(rest: string): Option<(nat, nat)> {
    if ',' in rest then None
    else
      match IndexOf('-', rest)
      case None => None
      case Some(i) => ParseEnds(rest[..i], rest[i + 1..])
  }

  function ParseEnds(start: string, end: string): Option<(nat, nat)> {
    if start == "" then None
    else
      match ParseU64(start)
      case None => None
      case Some(a) =>
        if end == "" then Some((a, U64_MAX))
        else
          match ParseU64(end)
          case None => None
          case Some(b) => Some((a, b))
  }

  function EndText(end: Option<nat>): string {
    if end.Some? then Numeral(end.value) else ""
  }

  function PrintRange(start: nat, end: Option<nat>): string {
    "bytes=" + Numeral(start) + "-" + EndText(end)
  }

  /** A printed range is read back exactly if its numbers fit 64 bits, and otherwise
      not taken for a range at all. */
  lemma ParsePrintedRange(start: nat, end: Option<nat>)
    ensures ParseRange(PrintRange(start, end)) ==
              if start <= U64_MAX && (end.Some? ==> end.value <= U64_MAX)
              then Some((start, if end.Some? then end.value else U64_MAX)) else None
  {
    ParseRangeOf(Numeral(start), EndText(end));
    ParseNumeral(start);
    if end.Some? { ParseNumeral(end.value); }
  }

  predicate Bare(s: string) {
    Free(',', s) && Free('-', s)
  }

  lemma ParseRangeOf(start: string, end: string)
    requires Bare(start) && Bare(end)
    ensures ParseRange("bytes=" + start + "-" + end) == ParseEnds(start, end)
  {
    var rest := start + ['-'] + end;
    RangeText(start, end);
    CutUnit("bytes=", rest);
    NoComma(start, end);
    SplitAtFirst(start, '-', end);
    CutAt(start, '-', end);
  }

  lemma RangeText(start: string, end: string)
    ensures "bytes=" + start + "-" + end == "bytes=" + (start + ['-'] + end)
  {
  }

  lemma NoComma(start: string, end: string)
    requires Bare(start) && Bare(end)
    ensures ',' !in start + ['-'] + end && '-' !in start
  {
  }

  lemma CutUnit(unit: string, rest: string)
    ensures unit <= unit + rest && (unit + rest)[|unit|..] == rest
  {
  }

  lemma CutAt(a: string, c: char, b: string)
    ensures (a + [c] + b)[..|a|] == a && (a + [c] + b)[|a| + 1..] == b
  {
  }

  ghost predicate IsRange(value: string, start: string, end: string, a: nat, b: nat) {
    && value == "bytes=" + start + "-" + end
    && a <= U64_MAX && Spells(start, a)
    && b <= U64_MAX && (if end == "" then b == U64_MAX else Spells(end, b))
  }

  lemma SpelledChars(s: string, n: nat)
    requires Spells(s, n)
    ensures s != "" && Bare(s) && forall c | c in s :: IsDigit(c) || c == '+'
  {
    var plus, zeros :| SpelledAs(s, plus, zeros, n);
    assert forall c | c in s :: c in plus || c in zeros || c in Numeral(n);
  }

  lemma SpanParts(value: string) returns (start: string, end: string)
    requires ParseRange(value).Some?
    ensures value == "bytes=" + start + "-" + end && ParseRange(value) == ParseEnds(start, end)
  {
    var rest := value[6..];
    var i := IndexOf('-', rest).value;
    start, end := rest[..i], rest[i + 1..];
    assert rest == start + ['-'] + end;
    RangeText(start, end);
  }

  /** A header is a range from a to b if and only if it spells the two numbers, which fit
      64 bits, behind `bytes=` and with a dash between; without a second number the
      range goes on to the greatest one. */
  lemma ParseRangeExactly(value: string, a: nat, b: nat)
    ensures ParseRange(value) == Some((a, b)) <==> exists start, end :: IsRange(value, start, end, a, b)
  {
    if ParseRange(value) == Some((a, b)) {
      var start, end := SpanParts(value);
      ParseU64Exactly(start, a);
      ParseU64Exactly(end, b);
      SpelledChars(start, a);
      assert IsRange(value, start, end, a, b);
    }
    if start, end :| IsRange(value, start, end, a, b) {
      SpelledChars(start, a);
      if end != "" { SpelledChars(end, b); }
      ParseRangeOf(start, end);
      ParseU64Exactly(start, a);
      ParseU64Exactly(end, b);
    }
  }

  /** Several ranges, a suffix range and a range in another unit are no range. */
  lemma NotRanges(value: string)
    requires ',' in value || "bytes=-" <= value || !("bytes=" <= value)
    ensures ParseRange(value) == None
  {
    if ParseRange(value).Some? {
      var (a, b) := ParseRange(value).value;
      ParseRangeExactly(value, a, b);
      var start, end :| IsRange(value, start, end, a, b);
      NotSuch(value, start, end, a, b);
    }
  }

  lemma NotSuch(value: string, start: string, end: string, a: nat, b: nat)
    requires IsRange(value, start, end, a, b)
    ensures ',' !in value && "bytes=" <= value && !("bytes=-" <= value)
  {
    SpelledChars(start, a);
    if end != "" { SpelledChars(end, b); }
    assert forall c | c in value :: c in "bytes=" || c in start || c == '-' || c in end;
    assert value[6] == start[0] && start[0] in start;
  }

  // ------------------------------------------------------------ the response

  datatype Response = Response(status: nat, headers: map<string, string>, body: Bytes)

  /** The range header that counts: the vendor's takes precedence, even when it
      cannot be parsed. */
  function RequestedRange(vendor: Option<string>, standard: Option<string>): Option<(nat, nat)> {
    var chosen := if vendor.Some? then vendor else standard;
    if chosen.Some? then ParseRange(chosen.value) else None
  }

  /** Status and length headers for what the storage delivered. */
  method BlobGet(backend: Backend, k: Key, vendor: Option<string>, standard: Option<string>)
    returns (r: Result<Response>)
    requires backend.Valid()
    ensures r == Respond(backend.Now(), k, vendor, standard)
  {
    var payload := backend.GetBlob(k, RequestedRange(vendor, standard));
    if payload.Err? {
      return Err(payload.error);
    }
    var p := payload.value;
    var headers: map<string, string> := map[];
    headers := headers["content-length" := Numeral(p.row.length)];
    var status := 200;
    if p.range.Some? {
      var (start, end) := (p.range.value.start, p.range.value.end);
      headers := headers["content-range" := "bytes " + Numeral(start) + "-" + Numeral(end) + "/" + Numeral(p.totalLen)];
      headers := headers["content-length" := Numeral(end - start + 1)];
      status := 206;
    }
    r := Ok(Response(status, headers, p.body));
  }

  /** The response to a GET with these two range headers. */
  function Respond(w: World, k: Key, vendor: Option<string>, standard: Option<string>): Result<Response> {
    match GetBlob(w, k, RequestedRange(vendor, standard))
    case Err(e) => Err(e)
    case Ok(p) => Ok(Answer(p))
  }

  function Answer(p: Payload): Response
    requires p.range.Some? ==> p.range.value.start <= p.range.value.end
  {
    var whole: map<string, string> := map[]["content-length" := Numeral(p.row.length)];
    match p.range
    case None => Response(200, whole, p.body)
    case Some(r) =>
      Response(206, whole["content-range" := ContentRange(r, p.totalLen)]
                         ["content-length" := Numeral(r.end - r.start + 1)], p.body)
  }

  function ContentRange(r: ByteRange, total: nat): string {
    "bytes " + Numeral(r.start) + "-" + Numeral(r.end) + "/" + Numeral(total)
  }

  /** The Content-Length is the number of bytes delivered, and a partial answer
      delivers the bytes its Content-Range names. */
  predicate Honest(p: Payload, data: Bytes) {
    match p.range
    case None =>
      var r := Answer(p);
      r.status == 200 && r.body == data && r.headers["content-length"] == Numeral(|data|)
    case Some(range) =>
      && range.start <= range.end < |data|
      && var r := Answer(p);
         && r.status == 206 && r.body == data[range.start..range.end + 1]
         && r.headers["content-length"] == Numeral(|r.body|)
         && r.headers["content-range"]
            == "bytes " + Numeral(range.start) + "-" + Numeral(range.end) + "/" + Numeral(|data|)
  }

  /** Every answer to a GET of a blob whose row records its file's length is honest about
      the bytes of the file. */
  lemma AnswersAreHonest(w: World, k: Key, range: Option<(nat, nat)>)
    requires RecordsFile(w, k) && GetBlob(w, k, range).Ok?
    ensures Honest(GetBlob(w, k, range).value, w.disk.Data(BlobFile(k)))
  {
    AnswerToData(w, k, range, w.disk.Data(BlobFile(k)));
  }

  lemma AnswerToData(w: World, k: Key, range: Option<(nat, nat)>, data: Bytes)
    requires k in w.db.blobs && w.db.blobs[k].path == BlobFile(k) && w.disk.Holds(BlobFile(k))
    requires DataOf(w.disk, BlobFile(k)) == data && w.db.blobs[k].length == |data|
    requires GetBlob(w, k, range).Ok?
    ensures Honest(GetBlob(w, k, range).value, data)
  {
    GetFromData(w, k, range, data);
  }

  /** Every answer about a blob is honest if and only if the row tells the length of
      the file. */
  lemma HonestExactly(w: World, k: Key)
    requires k in w.db.blobs && w.db.blobs[k].path == BlobFile(k) && w.disk.Holds(BlobFile(k))
    ensures (forall range :: GetBlob(w, k, range).Ok? ==>
               Honest(GetBlob(w, k, range).value, DataOf(w.disk, BlobFile(k))))
       <==> w.db.blobs[k].length == |DataOf(w.disk, BlobFile(k))|
  {
    var data, total := DataOf(w.disk, BlobFile(k)), w.db.blobs[k].length;
    if total == |data| {
      forall range | GetBlob(w, k, range).Ok? ensures Honest(GetBlob(w, k, range).value, data) {
        AnswerToData(w, k, range, data);
      }
    } else {
      DishonestAnswer(w, k, data);
    }
  }

  /** Too short a row cuts the blob off, too long a one promises bytes that are not
      there. */
  lemma DishonestAnswer(w: World, k: Key, data: Bytes)
    requires k in w.db.blobs && w.db.blobs[k].path == BlobFile(k) && w.disk.Holds(BlobFile(k))
    requires w.disk.Data(BlobFile(k)) == data && w.db.blobs[k].length != |data|
    ensures exists range :: GetBlob(w, k, range).Ok? && !Honest(GetBlob(w, k, range).value, data)
  {
    var total := w.db.blobs[k].length;
    if total < |data| {
      assert GetBlob(w, k, None).Ok? && |GetBlob(w, k, None).value.body| == total;
      assert !Honest(GetBlob(w, k, None).value, data);
    } else {
      var all := Some((0, total - 1));
      assert GetBlob(w, k, all).Ok? && GetBlob(w, k, all).value.range == Some(ByteRange(0, total - 1));
      assert !Honest(GetBlob(w, k, all).value, data);
    }
  }

  // ------------------------------------------------- which header is answered

  /** The whole blob, or the bytes from a to b, as a response. */
  predicate IsWhole(r: Result<Response>, data: Bytes) {
    && r.Ok? && r.value.status == 200 && r.value.body == data
    && r.value.headers == map["content-length" := Numeral(|data|)]
  }

  predicate IsPart(r: Result<Response>, data: Bytes, a: nat, b: nat) {
    if a >= |data| || a > b then r == Err(InvalidRange)
    else
      var last := Min(b, |data| - 1);
      && r.Ok? && r.value.status == 206 && r.value.body == data[a..last + 1]
      && r.value.headers == map["content-length" := Numeral(last - a + 1),
                                "content-range" := "bytes " + Numeral(a) + "-" + Numeral(last) + "/" + Numeral(|data|)]
  }

  lemma RespondToRange(w: World, k: Key, vendor: Option<string>, standard: Option<string>, a: nat, b: nat)
    requires RecordsFile(w, k) && RequestedRange(vendor, standard) == Some((a, b))
    ensures IsPart(Respond(w, k, vendor, standard), w.disk.Data(BlobFile(k)), a, b)
  {
    var data := w.disk.Data(BlobFile(k));
    GetFromData(w, k, Some((a, b)), data);
    if a < |data| && a <= b {
      assert Min(b + 1, |data|) == Min(b, |data| - 1) + 1;
    }
  }

  lemma RespondToNone(w: World, k: Key, vendor: Option<string>, standard: Option<string>)
    requires RecordsFile(w, k) && RequestedRange(vendor, standard) == None
    ensures IsWhole(Respond(w, k, vendor, standard), w.disk.Data(BlobFile(k)))
  {
    GetFromData(w, k, None, w.disk.Data(BlobFile(k)));
  }

  /** A range in the vendor's header is answered whatever the standard header says: with
      the bytes from a up to b or the end of the blob, or InvalidRange. */
  lemma VendorRangeIsAnswered(w: World, k: Key, value: string, start: string, end: string, a: nat, b: nat,
                              standard: Option<string>)
    requires RecordsFile(w, k) && IsRange(value, start, end, a, b)
    ensures IsPart(Respond(w, k, Some(value), standard), w.disk.Data(BlobFile(k)), a, b)
  {
    ParseRangeExactly(value, a, b);
    RespondToRange(w, k, Some(value), standard, a, b);
  }

  /** Without the vendor's header a range in the standard one is answered alike. */
  lemma StandardRangeIsAnswered(w: World, k: Key, value: string, start: string, end: string, a: nat, b: nat)
    requires RecordsFile(w, k) && IsRange(value, start, end, a, b)
    ensures IsPart(Respond(w, k, None, Some(value)), w.disk.Data(BlobFile(k)), a, b)
  {
    ParseRangeExactly(value, a, b);
    RespondToRange(w, k, None, Some(value), a, b);
  }

  ghost predicate NoRange(value: string) {
    forall start, end, a, b :: !IsRange(value, start, end, a, b)
  }

  lemma UnreadableIsNone(value: string)
    requires NoRange(value)
    ensures ParseRange(value) == None
  {
    if ParseRange(value).Some? {
      ParseRangeExactly(value, ParseRange(value).value.0, ParseRange(value).value.1);
      assert false;
    }
  }

  /** An unreadable vendor header is answered with the whole blob, even when the standard
      header holds a range; so are an unreadable standard header and none at all. */
  lemma OtherwiseWholeBlob(w: World, k: Key, value: string, standard: Option<string>)
    requires RecordsFile(w, k) && NoRange(value)
    ensures IsWhole(Respond(w, k, Some(value), standard), w.disk.Data(BlobFile(k)))
    ensures IsWhole(Respond(w, k, None, Some(value)), w.disk.Data(BlobFile(k)))
    ensures IsWhole(Respond(w, k, None, None), w.disk.Data(BlobFile(k)))
  {
    UnreadableIsNone(value);
    RespondToNone(w, k, Some(value), standard);
    RespondToNone(w, k, None, Some(value));
    RespondToNone(w, k, None, None);
  }

  // ----------------------------------------------------------------- tiling

  /** The body of a request for the n bytes from `start` on, sent as a Range header. */
  function Tile(w: World, k: Key, start: nat, n: nat): Bytes
    requires n >= 1
  {
    match GetBlob(w, k, ParseRange(PrintRange(start, Some(start + n - 1))))
    case Ok(p) => p.body
    case Err(_) => []
  }

  /** The bodies of a client's first `count` requests for n bytes each. */
  function Tiles(w: World, k: Key, n: nat, count: nat): Bytes
    requires n >= 1
  {
    if count == 0 then [] else Tiles(w, k, n, count - 1) + Tile(w, k, (count - 1) * n, n)
  }

  lemma TileOfTrueRow(w: World, k: Key, start: nat, n: nat)
    requires k in w.db.blobs && w.db.blobs[k].path == BlobFile(k) && w.disk.Holds(BlobFile(k))
    requires w.db.blobs[k].length == |DataOf(w.disk, BlobFile(k))|
    requires n >= 1 && start + n - 1 <= U64_MAX
    ensures var data := DataOf(w.disk, BlobFile(k));
            Tile(w, k, start, n) == data[Min(start, |data|)..Min(start + n, |data|)]
  {
    ParsePrintedRange(start, Some(start + n - 1));
    GetFromTrueRow(w, k, Some((start, start + n - 1)));
    RangeReadsSlice(DataOf(w.disk, BlobFile(k)), Some((start, start + n - 1)));
  }

  lemma SlicesMeet(data: Bytes, a: nat, b: nat)
    requires a <= b
    ensures data[..Min(a, |data|)] + data[Min(a, |data|)..Min(b, |data|)] == data[..Min(b, |data|)]
  {
  }

  lemma {:induction false} TilesOfTrueRow(w: World, k: Key, n: nat, count: nat)
    requires k in w.db.blobs && w.db.blobs[k].path == BlobFile(k) && w.disk.Holds(BlobFile(k))
    requires w.db.blobs[k].length == |DataOf(w.disk, BlobFile(k))|
    requires n >= 1 && count * n <= U64_MAX + 1
    ensures var data := DataOf(w.disk, BlobFile(k));
            Tiles(w, k, n, count) == data[..Min(count * n, |data|)]
    decreases count
  {
    if count == 0 {
    } else {
      var start := (count - 1) * n;
      assert count * n == start + n;
      TilesOfTrueRow(w, k, n, count - 1);
      TileOfTrueRow(w, k, start, n);
      SlicesMeet(DataOf(w.disk, BlobFile(k)), start, start + n);
    }
  }

  /** Ranges tile a blob: the bodies of successive requests for n bytes each, sent as
      Range headers, add up to the blob from its beginning; enough of them to cover
      it add up to all of it. */
  lemma RangesTile(w: World, k: Key, n: nat, count: nat)
    requires RecordsFile(w, k) && n >= 1 && count * n <= U64_MAX + 1
    ensures var data := w.disk.Data(BlobFile(k));
            && Tiles(w, k, n, count) == data[..Min(count * n, |data|)]
            && (count * n >= |data| ==> Tiles(w, k, n, count) == data)
  {
    TilesOfTrueRow(w, k, n, count);
  }

  /** A request whose end does not fit 64 bits is answered with the whole blob. */
  lemma OverflowingTileIsWholeBlob(w: World, k: Key, start: nat, n: nat)
    requires RecordsFile(w, k) && n >= 1 && start + n - 1 > U64_MAX
    ensures Tile(w, k, start, n) == w.disk.Data(BlobFile(k))
  {
    ParsePrintedRange(start, Some(start + n - 1));
    GetFromTrueRow(w, k, None);
  }
}
