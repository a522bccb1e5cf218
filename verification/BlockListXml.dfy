/** The block list document: escaping, reading it as a stream of events, and that its
    order and contents come through. */
module BlockListXml {
  import opened Types
  import opened Text
  import opened Plans

  // -------------------------------------------------------------- escaping

  function EntityName(c: char): Option<string> {
    match c
    case '&' => Some("amp")
    case '<' => Some("lt")
    case '>' => Some("gt")
    case '"' => Some("quot")
    case '\'' => Some("apos")
    case _ => None
  }

  function EscapeChar(c: char): string {
    if EntityName(c).Some? then "&" + EntityName(c).value + ";" else [c]
  }

  function Escape(s: string): string {
    if s == [] then [] else EscapeChar(s[0]) + Escape(s[1..])
  }

  method XmlEscape(s: string) returns (out: string)
    ensures out == Escape(s)
  {
    out := "";
    for i := 0 to |s|
      invariant out == Escape(s[..i])
    {
      assert s[..i + 1] == s[..i] + [s[i]];
      EscapeAppend(s[..i], [s[i]]);
      assert Escape([s[i]]) == EscapeChar(s[i]) + Escape([s[i]][1..]);
      match s[i] {
        case '&' => out := out + ("&" + "amp" + ";");
        case '<' => out := out + ("&" + "lt" + ";");
        case '>' => out := out + ("&" + "gt" + ";");
        case '"' => out := out + ("&" + "quot" + ";");
        case '\'' => out := out + ("&" + "apos" + ";");
        case _ => out := out + [s[i]];
      }
    }
    assert s[..|s|] == s;
  }

  /** The five predefined entities of section 4.6 of XML 1.0; character references
      are left to the library. */
  function Entity(name: string, charRef: string -> Option<string>): Option<string> {
    if name == "amp" then Some("&")
    else if name == "lt" then Some("<")
    else if name == "gt" then Some(">")
    else if name == "quot" then Some("\"")
    else if name == "apos" then Some("'")
    else if name != "" && name[0] == '#' then charRef(name[1..])
    else None
  }

  /** Replaces every reference; an unknown or unfinished one is an error. */
  function Unescape(s: string, charRef: string -> Option<string>): Option<string>
    decreases |s|
  {
    if s == [] then Some([])
    else if s[0] != '&' then
      match Unescape(s[1..], charRef)
      case None => None
      case Some(rest) => Some([s[0]] + rest)
    else
      match IndexOf(';', s)
      case None => None
      case Some(i) =>
        if i == 0 then None
        else
          match Entity(s[1..i], charRef)
          case None => None
          case Some(text) =>
            match Unescape(s[i + 1..], charRef)
            case None => None
            case Some(rest) => Some(text + rest)
  }

  lemma {:induction false} EscapeAppend(a: string, b: string)
    ensures Escape(a + b) == Escape(a) + Escape(b)
  {
    if a == [] {
      assert a + b == b;
    } else {
      assert (a + b)[1..] == a[1..] + b;
      EscapeAppend(a[1..], b);
    }
  }

  function Prepend(text: string, rest: Option<string>): Option<string> {
    if rest.None? then None else Some(text + rest.value)
  }

  lemma UnescapeEntity(name: string, rest: string, text: string, charRef: string -> Option<string>)
    requires Free(';', name) && Entity(name, charRef) == Some(text)
    ensures Unescape("&" + name + ";" + rest, charRef)
         == Prepend(text, Unescape(rest, charRef))
  {
    EntityText(name, rest);
    var head := ['&'] + name;
    SplitAtFirst(head, ';', rest);
    CutEntity('&', name, ';', rest);
  }

  lemma EntityText(name: string, rest: string)
    ensures "&" + name + ";" + rest == ['&'] + name + [';'] + rest
  {
  }

  lemma CutEntity(first: char, name: string, last: char, rest: string)
    ensures var s := [first] + name + [last] + rest;
            s[0] == first && s[1..|name| + 1] == name && s[|name| + 2..] == rest
  {
  }

  lemma UnescapeChar(c: char, rest: string, charRef: string -> Option<string>)
    ensures Unescape(EscapeChar(c) + rest, charRef) == Prepend([c], Unescape(rest, charRef))
  {
    if EntityName(c).Some? {
      EntityOfName(c, charRef);
      UnescapeEntity(EntityName(c).value, rest, [c], charRef);
    } else {
      assert ([c] + rest)[1..] == rest;
    }
  }

  lemma EntityOfName(c: char, charRef: string -> Option<string>)
    requires EntityName(c).Some?
    ensures Free(';', EntityName(c).value) && Entity(EntityName(c).value, charRef) == Some([c])
  {
  }

  /** Unescaping undoes escaping, on every text. */
  lemma {:induction false} UnescapeEscape(s: string, charRef: string -> Option<string>)
    ensures Unescape(Escape(s), charRef) == Some(s)
    decreases |s|
  {
    if s == [] {
    } else {
      UnescapeEscape(s[1..], charRef);
      UnescapeChar(s[0], Escape(s[1..]), charRef);
      assert s == [s[0]] + s[1..];
    }
  }

  /** Escaped text contains no markup. */
  lemma {:induction false} EscapedHasNoMarkup(s: string)
    ensures Free('<', Escape(s)) && Free('>', Escape(s))
  {
    if s == [] {
    } else {
      EscapedCharHasNoMarkup(s[0]);
      EscapedHasNoMarkup(s[1..]);
      FreeAppend('<', EscapeChar(s[0]), Escape(s[1..]));
      FreeAppend('>', EscapeChar(s[0]), Escape(s[1..]));
    }
  }

  lemma EscapedCharHasNoMarkup(c: char)
    ensures Free('<', EscapeChar(c)) && Free('>', EscapeChar(c))
  {
  }

  lemma FreeAppend(c: char, a: string, b: string)
    requires Free(c, a) && Free(c, b)
    ensures Free(c, a + b)
  {
  }

  // -------------------------------------------------------------- trimming

  predicate IsSpace(c: char) {
    c == ' ' || c == '\t' || c == '\r' || c == '\n'
  }

  function TrimStart(s: string): string {
    if s == [] || !IsSpace(s[0]) then s else TrimStart(s[1..])
  }

  function TrimEnd(s: string): string {
    if s == [] || !IsSpace(s[|s| - 1]) then s else TrimEnd(s[..|s| - 1])
  }

  function Trim(s: string): string {
    TrimEnd(TrimStart(s))
  }

  predicate AllSpace(s: string) {
    forall i | 0 <= i < |s| :: IsSpace(s[i])
  }

  lemma {:induction false} TrimSpace(s: string)
    requires AllSpace(s)
    ensures Trim(s) == ""
  {
    if s == [] {
    } else {
      TrimSpace(s[1..]);
    }
  }

  lemma {:induction false} TrimStartEscape(s: string)
    ensures TrimStart(Escape(s)) == Escape(TrimStart(s))
  {
    if s == [] {
    } else {
      TrimStartEscape(s[1..]);
      if IsSpace(s[0]) {
        assert Escape(s)[1..] == Escape(s[1..]);
      }
    }
  }

  lemma EscapeLast(s: string)
    requires s != []
    ensures Escape(s) == Escape(s[..|s| - 1]) + EscapeChar(s[|s| - 1])
  {
    var n := |s| - 1;
    assert s == s[..n] + [s[n]];
    EscapeAppend(s[..n], [s[n]]);
    EscapeOne(s[n]);
  }

  lemma EscapeOne(c: char)
    ensures Escape([c]) == EscapeChar(c)
  {
    assert [c][1..] == [];
    assert EscapeChar(c) + [] == EscapeChar(c);
  }

  lemma EscapeCharEnds(c: char)
    ensures EscapeChar(c) != []
    ensures IsSpace(c) ==> EscapeChar(c) == [c]
    ensures !IsSpace(c) ==> !IsSpace(EscapeChar(c)[|EscapeChar(c)| - 1])
  {
  }

  lemma TrimEndStays(a: string, b: string)
    requires b != [] && !IsSpace(b[|b| - 1])
    ensures TrimEnd(a + b) == a + b
  {
  }

  lemma TrimEndDrops(a: string, c: char)
    requires IsSpace(c)
    ensures TrimEnd(a + [c]) == TrimEnd(a)
  {
    assert (a + [c])[..|a|] == a;
  }

  lemma {:induction false} TrimEndEscape(s: string)
    ensures TrimEnd(Escape(s)) == Escape(TrimEnd(s))
    decreases |s|
  {
    if s == [] {
    } else {
      var n := |s| - 1;
      EscapeLast(s);
      EscapeCharEnds(s[n]);
      if IsSpace(s[n]) {
        TrimEndEscape(s[..n]);
        TrimEndDrops(Escape(s[..n]), s[n]);
      } else {
        TrimEndStays(Escape(s[..n]), EscapeChar(s[n]));
      }
    }
  }

  /** Trimming and escaping commute: escaping neither makes nor hides white space. */
  lemma TrimEscape(s: string)
    ensures Trim(Escape(s)) == Escape(Trim(s))
    ensures Trim(Escape(s)) == "" <==> Trim(s) == ""
  {
    TrimStartEscape(s);
    TrimEndEscape(TrimStart(s));
  }

  // --------------------------------------------------------------- reading

  datatype Event = Start(name: string) | End(name: string) | Empty(name: string) | TextEvent(raw: string)
                 | Other | Eof | Malformed

  function FirstWord(s: string): string {
    if s == [] || IsSpace(s[0]) then [] else [s[0]] + FirstWord(s[1..])
  }

  function TextLength(s: string): (n: nat)
    ensures n <= |s|
    ensures s != [] && s[0] != '<' ==> n > 0
    ensures Free('<', s[..n]) && (n < |s| ==> s[n] == '<')
  {
    match IndexOf('<', s)
    case None => |s|
    case Some(i) => i
  }

  /** The event of a tag, and the tags that are open behind it: a closing tag must
      close the tag opened last. */
  function TagEvent(tag: string, open: seq<string>): (Event, seq<string>) {
    if tag == "" then (Malformed, open)
    else if tag[0] == '/' then
      var name := TrimEnd(tag[1..]);
      if open != [] && open[|open| - 1] == name then (End(name), open[..|open| - 1]) else (Malformed, open)
    else if tag[0] == '?' then (if |tag| > 1 && tag[|tag| - 1] == '?' then Other else Malformed, open)
    else if tag[0] == '!' then (Other, open)
    else if tag[|tag| - 1] == '/' then (Empty(FirstWord(tag)), open)
    else (Start(FirstWord(tag)), open + [FirstWord(tag)])
  }

  /** The events of a document read with trimmed text: blank text makes no event. */
  function Events(s: string, open: seq<string>): seq<Event>
    decreases |s|
  {
    if s == [] then [Eof]
    else if s[0] != '<' then
      var n := TextLength(s);
      var text := Trim(s[..n]);
      (if text == "" then [] else [TextEvent(text)]) + Events(s[n..], open)
    else
      match IndexOf('>', s)
      case None => [Malformed]
      case Some(i) =>
        var (event, open') := TagEvent(s[1..i], open);
        if event == Malformed then [Malformed] else [event] + Events(s[i + 1..], open')
  }

  function LocalName(name: string): string {
    match IndexOf(':', name)
    case None => name
    case Some(i) => name[i + 1..]
  }

  function KindOf(name: string): Option<BlockKind> {
    var local := LocalName(name);
    if local == "Committed" then Some(Committed)
    else if local == "Uncommitted" then Some(Uncommitted)
    else if local == "Latest" then Some(Latest)
    else None
  }

  /** What the event loop makes of the events: a text counts for the kind of the last
      opening tag, once. */
  function Consume(events: seq<Event>, kind: Option<BlockKind>, blocks: seq<BlockRef>,
                   charRef: string -> Option<string>): Result<seq<BlockRef>>
    decreases |events|
  {
    if events == [] then Finished(blocks)
    else
      match events[0]
      case Start(name) => Consume(events[1..], KindOf(name), blocks, charRef)
      case TextEvent(raw) =>
        if kind.None? then Consume(events[1..], None, blocks, charRef)
        else
          (match Unescape(raw, charRef)
           case None => Err(InvalidXmlDocument)
           case Some(id) => Consume(events[1..], None, blocks + [BlockRef(id, kind.value)], charRef))
      case Eof => Finished(blocks)
      case Malformed => Err(InvalidXmlDocument)
      case End(_) => Consume(events[1..], kind, blocks, charRef)
      case Empty(_) => Consume(events[1..], kind, blocks, charRef)
      case Other => Consume(events[1..], kind, blocks, charRef)
  }

  function Finished(blocks: seq<BlockRef>): Result<seq<BlockRef>> {
    if blocks == [] then Err(InvalidBlockList) else Ok(blocks)
  }

  method ParseBlockListRequest(body: string, charRef: string -> Option<string>) returns (r: Result<seq<BlockRef>>)
    ensures r == Consume(Events(body, []), None, [], charRef)
  {
    var events := Events(body, []);
    var blocks: seq<BlockRef> := [];
    var kind: Option<BlockKind> := None;
    var i := 0;
    assert events[0..] == events;
    while i < |events|
      invariant i <= |events|
      invariant Consume(events[i..], kind, blocks, charRef) == Consume(events, None, [], charRef)
    {
      assert events[i..][1..] == events[i + 1..];
      match events[i] {
        case Start(name) =>
          kind := KindOf(name);
        case TextEvent(raw) =>
          if kind.Some? {
            var text := Unescape(raw, charRef);
            if text.None? {
              return Err(InvalidXmlDocument);
            }
            blocks := blocks + [BlockRef(text.value, kind.value)];
            kind := None;
          }
        case Eof =>
          break;
        case Malformed =>
          return Err(InvalidXmlDocument);
        case _ =>
      }
      i := i + 1;
    }
    if blocks == [] {
      return Err(InvalidBlockList);
    }
    r := Ok(blocks);
  }

  // -------------------------------------------------------------- printing

  function KindName(kind: BlockKind): string {
    match kind
    case Committed => "Committed"
    case Uncommitted => "Uncommitted"
    case Latest => "Latest"
  }

  function Element(name: string, text: string): string {
    "<" + name + ">" + text + "</" + name + ">"
  }

  function PrintRef(ref: BlockRef): string {
    Element(KindName(ref.kind), Escape(ref.id))
  }

  function PrintRefs(refs: seq<BlockRef>, gap: string): string {
    if refs == [] then [] else gap + PrintRef(refs[0]) + PrintRefs(refs[1..], gap)
  }

  const ROOT: string := "BlockList"

  /** The documented form, with an XML declaration and with any white space between
      the elements. */
  function PrintDocument(declaration: string, refs: seq<BlockRef>, gap: string): string {
    "<" + declaration + ">" + (gap + ("<" + ROOT + ">" + (PrintRefs(refs, gap) + (gap + ("</" + ROOT + ">" + gap)))))
  }

  predicate IsDeclaration(declaration: string) {
    |declaration| > 1 && declaration[0] == '?' && declaration[|declaration| - 1] == '?' && Free('>', declaration)
  }

  // ------------------------------------------------------------ round trip

  lemma EventsOfGap(gap: string, rest: string, open: seq<string>)
    requires AllSpace(gap) && (rest == [] || rest[0] == '<')
    ensures Events(gap + rest, open) == Events(rest, open)
  {
    if gap == [] {
      assert gap + rest == rest;
    } else {
      TextUpTo(gap, rest);
      TrimSpace(gap);
    }
  }

  lemma TextUpTo(text: string, rest: string)
    requires Free('<', text) && (rest == [] || rest[0] == '<')
    ensures TextLength(text + rest) == |text|
    ensures (text + rest)[..|text|] == text && (text + rest)[|text|..] == rest
  {
    var s := text + rest;
    if rest != [] {
      assert rest == ['<'] + rest[1..];
      assert s == text + ['<'] + rest[1..];
      SplitAtFirst(text, '<', rest[1..]);
    } else {
      assert s == text;
    }
  }

  lemma EventsOfText(text: string, rest: string, open: seq<string>)
    requires Free('<', text) && rest != [] && rest[0] == '<'
    ensures Events(text + rest, open)
         == TextEvents(Trim(text)) + Events(rest, open)
  {
    TextUpTo(text, rest);
    if text == [] {
      assert text + rest == rest;
    } else {
      assert (text + rest)[0] == text[0] && text[0] in text;
    }
  }

  lemma TagEnds(tag: string, rest: string)
    requires Free('>', tag)
    ensures var s := "<" + tag + ">" + rest;
            IndexOf('>', s) == Some(|tag| + 1) && s[1..|tag| + 1] == tag && s[|tag| + 2..] == rest
  {
    var s := "<" + tag + ">" + rest;
    assert s == ("<" + tag) + ['>'] + rest;
    SplitAtFirst("<" + tag, '>', rest);
  }

  predicate IsName(name: string) {
    && name != [] && Free('>', name) && Free('/', name) && name[0] != '?' && name[0] != '!'
    && forall i | 0 <= i < |name| :: !IsSpace(name[i])
  }

  lemma {:induction false} FirstWordOfName(name: string)
    requires forall i | 0 <= i < |name| :: !IsSpace(name[i])
    ensures FirstWord(name) == name
  {
    if name == [] {
    } else {
      FirstWordOfName(name[1..]);
    }
  }

  lemma EventsOfTag(tag: string, rest: string, open: seq<string>, event: Event, open': seq<string>)
    requires Free('>', tag) && TagEvent(tag, open) == (event, open') && event != Malformed
    ensures Events("<" + tag + ">" + rest, open) == [event] + Events(rest, open')
  {
    TagEnds(tag, rest);
  }

  lemma OpeningTag(name: string, open: seq<string>)
    requires IsName(name)
    ensures TagEvent(name, open) == (Start(name), open + [name])
  {
    FirstWordOfName(name);
    assert name[0] in name && name[|name| - 1] in name;
  }

  lemma ClosingTag(name: string, open: seq<string>)
    requires IsName(name)
    ensures TagEvent(['/'] + name, open + [name]) == (End(name), open)
  {
    assert (['/'] + name)[1..] == name;
    assert (open + [name])[..|open|] == open;
  }

  lemma EventsOfOpening(name: string, rest: string, open: seq<string>)
    requires IsName(name)
    ensures Events("<" + name + ">" + rest, open) == [Start(name)] + Events(rest, open + [name])
  {
    OpeningTag(name, open);
    EventsOfTag(name, rest, open, Start(name), open + [name]);
  }

  lemma ClosingText(name: string, rest: string)
    ensures "</" + name + ">" + rest == "<" + (['/'] + name) + ">" + rest
  {
  }

  lemma EventsOfClosing(name: string, rest: string, open: seq<string>)
    requires IsName(name)
    ensures Events("</" + name + ">" + rest, open + [name]) == [End(name)] + Events(rest, open)
  {
    ClosingTag(name, open);
    ClosingText(name, rest);
    EventsOfTag(['/'] + name, rest, open + [name], End(name), open);
  }

  function TextEvents(text: string): seq<Event> {
    if text == "" then [] else [TextEvent(text)]
  }

  function ElementEvents(name: string, text: string): seq<Event> {
    [Start(name)] + TextEvents(text) + [End(name)]
  }

  function RefEvents(ref: BlockRef): seq<Event> {
    ElementEvents(KindName(ref.kind), Escape(Trim(ref.id)))
  }

  lemma ElementText(name: string, text: string, rest: string)
    ensures Element(name, text) + rest == "<" + name + ">" + (text + ("</" + name + ">" + rest))
  {
  }

  lemma EventsOfElement(name: string, text: string, rest: string, open: seq<string>)
    requires IsName(name) && Free('<', text)
    ensures Events(Element(name, text) + rest, open) == ElementEvents(name, Trim(text)) + Events(rest, open)
  {
    var closing := "</" + name + ">" + rest;
    ElementText(name, text, rest);
    EventsOfOpening(name, text + closing, open);
    assert closing[0] == '<';
    EventsOfText(text, closing, open + [name]);
    EventsOfClosing(name, rest, open);
    Assoc([Start(name)], TextEvents(Trim(text)), [End(name)] + Events(rest, open));
    Assoc([Start(name)] + TextEvents(Trim(text)), [End(name)], Events(rest, open));
  }

  lemma KindIsName(kind: BlockKind)
    ensures IsName(KindName(kind))
  {
  }

  lemma EventsOfRef(ref: BlockRef, rest: string, open: seq<string>)
    ensures Events(PrintRef(ref) + rest, open) == RefEvents(ref) + Events(rest, open)
  {
    KindIsName(ref.kind);
    EscapedHasNoMarkup(ref.id);
    TrimEscape(ref.id);
    EventsOfElement(KindName(ref.kind), Escape(ref.id), rest, open);
  }

  function RefsEvents(refs: seq<BlockRef>): seq<Event> {
    if refs == [] then [] else RefEvents(refs[0]) + RefsEvents(refs[1..])
  }

  lemma PrintRefStarts(ref: BlockRef, more: string)
    ensures PrintRef(ref) + more != [] && (PrintRef(ref) + more)[0] == '<'
  {
    assert PrintRef(ref)[0] == '<';
  }

  lemma PrintRefsCons(refs: seq<BlockRef>, gap: string, rest: string)
    requires refs != []
    ensures PrintRefs(refs, gap) + rest == gap + (PrintRef(refs[0]) + (PrintRefs(refs[1..], gap) + rest))
  {
    Assoc(gap + PrintRef(refs[0]), PrintRefs(refs[1..], gap), rest);
    Assoc(gap, PrintRef(refs[0]), PrintRefs(refs[1..], gap) + rest);
  }

  lemma {:induction false} EventsOfRefs(refs: seq<BlockRef>, gap: string, rest: string, open: seq<string>)
    requires AllSpace(gap)
    ensures Events(PrintRefs(refs, gap) + rest, open) == RefsEvents(refs) + Events(rest, open)
    decreases |refs|
  {
    if refs == [] {
      assert PrintRefs(refs, gap) + rest == rest;
    } else {
      var more := PrintRefs(refs[1..], gap) + rest;
      PrintRefsCons(refs, gap, rest);
      PrintRefStarts(refs[0], more);
      EventsOfGap(gap, PrintRef(refs[0]) + more, open);
      EventsOfRef(refs[0], more, open);
      EventsOfRefs(refs[1..], gap, rest, open);
      RefsEventsCons(refs, Events(rest, open));
    }
  }

  lemma RefsEventsCons(refs: seq<BlockRef>, more: seq<Event>)
    requires refs != []
    ensures RefsEvents(refs) + more == RefEvents(refs[0]) + (RefsEvents(refs[1..]) + more)
  {
    Assoc(RefEvents(refs[0]), RefsEvents(refs[1..]), more);
  }

  lemma EventsOfDeclaration(declaration: string, rest: string)
    requires IsDeclaration(declaration)
    ensures Events("<" + declaration + ">" + rest, []) == [Other] + Events(rest, [])
  {
    TagEnds(declaration, rest);
  }

  lemma RootIsName()
    ensures IsName(ROOT)
  {
  }

  lemma EventsOfEnd(gap: string)
    requires AllSpace(gap)
    ensures Events(gap + ("</" + ROOT + ">" + gap), [ROOT]) == [End(ROOT), Eof]
  {
    var end := "</" + ROOT + ">" + gap;
    assert end[0] == '<';
    EventsOfGap(gap, end, [ROOT]);
    RootIsName();
    EventsOfClosing(ROOT, gap, []);
    assert [] + [ROOT] == [ROOT];
    EventsOfGap(gap, "", []);
    assert gap + "" == gap;
  }

  lemma EventsOfRoot(body: string)
    ensures Events("<" + ROOT + ">" + body, []) == [Start(ROOT)] + Events(body, [ROOT])
  {
    RootIsName();
    EventsOfOpening(ROOT, body, []);
    assert [] + [ROOT] == [ROOT];
  }

  lemma EventsOfDocument(declaration: string, refs: seq<BlockRef>, gap: string)
    requires AllSpace(gap) && IsDeclaration(declaration)
    ensures Events(PrintDocument(declaration, refs, gap), [])
         == [Other] + ([Start(ROOT)] + (RefsEvents(refs) + [End(ROOT), Eof]))
  {
    var end := gap + ("</" + ROOT + ">" + gap);
    var body := PrintRefs(refs, gap) + end;
    var list := "<" + ROOT + ">" + body;
    assert list[0] == '<';
    EventsOfDeclaration(declaration, gap + list);
    EventsOfGap(gap, list, []);
    EventsOfRoot(body);
    EventsOfRefs(refs, gap, end, [ROOT]);
    EventsOfEnd(gap);
  }

  /** The references that come through: ids trimmed, blank ones dropped. */
  function Received(refs: seq<BlockRef>): seq<BlockRef> {
    if refs == [] then []
    else
      ReceivedOne(refs[0]) + Received(refs[1..])
  }

  lemma KindOfKindName(kind: BlockKind)
    ensures KindOf(KindName(kind)) == Some(kind)
  {
    KindHasNoColon(kind);
    KindOfLocal(KindName(kind), kind);
  }

  lemma KindOfLocal(name: string, kind: BlockKind)
    requires name == KindName(kind) && ':' !in name
    ensures KindOf(name) == Some(kind)
  {
    PlainLocalName(name);
    match kind
    case Committed =>
    case Uncommitted => assert |name| == 11;
    case Latest => assert |name| == 6;
  }

  lemma PlainLocalName(name: string)
    requires ':' !in name
    ensures LocalName(name) == name
  {
  }

  lemma KindHasNoColon(kind: BlockKind)
    ensures ':' !in KindName(kind)
  {
  }

  lemma ConsumeStart(name: string, more: seq<Event>, kind: Option<BlockKind>, blocks: seq<BlockRef>,
                     charRef: string -> Option<string>)
    ensures Consume([Start(name)] + more, kind, blocks, charRef) == Consume(more, KindOf(name), blocks, charRef)
  {
    assert ([Start(name)] + more)[1..] == more;
  }

  lemma ConsumeSkipped(e: Event, more: seq<Event>, kind: Option<BlockKind>, blocks: seq<BlockRef>,
                       charRef: string -> Option<string>)
    requires e.End? || e.Other?
    ensures Consume([e] + more, kind, blocks, charRef) == Consume(more, kind, blocks, charRef)
  {
    assert ([e] + more)[1..] == more;
  }

  lemma ConsumeId(raw: string, id: string, more: seq<Event>, kind: BlockKind, blocks: seq<BlockRef>,
                  charRef: string -> Option<string>)
    requires Unescape(raw, charRef) == Some(id)
    ensures Consume([TextEvent(raw)] + more, Some(kind), blocks, charRef)
         == Consume(more, None, blocks + [BlockRef(id, kind)], charRef)
  {
    assert ([TextEvent(raw)] + more)[1..] == more;
  }

  function ReceivedOne(ref: BlockRef): seq<BlockRef> {
    if Trim(ref.id) == "" then [] else [BlockRef(Trim(ref.id), ref.kind)]
  }

  /** The kind that is pending after a reference: a blank one leaves its kind behind. */
  function Pending(ref: BlockRef): Option<BlockKind> {
    if Trim(ref.id) == "" then Some(ref.kind) else None
  }

  lemma ConsumeBlank(name: string, more: seq<Event>, refKind: BlockKind, kind: Option<BlockKind>,
                     blocks: seq<BlockRef>, charRef: string -> Option<string>)
    requires KindOf(name) == Some(refKind)
    ensures Consume(ElementEvents(name, "") + more, kind, blocks, charRef)
         == Consume(more, Some(refKind), blocks, charRef)
  {
    BlankEvents(name, more);
    ConsumeStart(name, [End(name)] + more, kind, blocks, charRef);
    ConsumeSkipped(End(name), more, Some(refKind), blocks, charRef);
  }

  lemma BlankEvents(name: string, more: seq<Event>)
    ensures ElementEvents(name, "") + more == [Start(name)] + ([End(name)] + more)
  {
  }

  lemma ShownEvents(name: string, text: string, more: seq<Event>)
    requires text != ""
    ensures ElementEvents(name, text) + more == [Start(name)] + ([TextEvent(text)] + ([End(name)] + more))
  {
  }

  lemma ConsumeText(name: string, text: string, id: string, more: seq<Event>, refKind: BlockKind,
                    kind: Option<BlockKind>, blocks: seq<BlockRef>, charRef: string -> Option<string>)
    requires KindOf(name) == Some(refKind) && text != "" && Unescape(text, charRef) == Some(id)
    ensures Consume(ElementEvents(name, text) + more, kind, blocks, charRef)
         == Consume(more, None, blocks + [BlockRef(id, refKind)], charRef)
  {
    var tail := [End(name)] + more;
    ShownEvents(name, text, more);
    ConsumeStart(name, [TextEvent(text)] + tail, kind, blocks, charRef);
    ConsumeId(text, id, tail, refKind, blocks, charRef);
    ConsumeSkipped(End(name), more, None, blocks + [BlockRef(id, refKind)], charRef);
  }

  lemma ConsumeRef(ref: BlockRef, more: seq<Event>, kind: Option<BlockKind>, blocks: seq<BlockRef>,
                   charRef: string -> Option<string>)
    ensures Consume(RefEvents(ref) + more, kind, blocks, charRef)
         == Consume(more, Pending(ref), blocks + ReceivedOne(ref), charRef)
  {
    var name, id := KindName(ref.kind), Trim(ref.id);
    KindOfKindName(ref.kind);
    TrimEscape(ref.id);
    if id == "" {
      ConsumeBlank(name, more, ref.kind, kind, blocks, charRef);
      assert blocks + [] == blocks;
    } else {
      UnescapeEscape(id, charRef);
      ConsumeText(name, Escape(id), id, more, ref.kind, kind, blocks, charRef);
    }
  }

  function PendingAfter(refs: seq<BlockRef>, kind: Option<BlockKind>): Option<BlockKind> {
    if refs == [] then kind else PendingAfter(refs[1..], Pending(refs[0]))
  }

  lemma {:induction false} ConsumeRefs(refs: seq<BlockRef>, more: seq<Event>, kind: Option<BlockKind>,
                                       blocks: seq<BlockRef>, charRef: string -> Option<string>)
    ensures Consume(RefsEvents(refs) + more, kind, blocks, charRef)
         == Consume(more, PendingAfter(refs, kind), blocks + Received(refs), charRef)
    decreases |refs|
  {
    if refs == [] {
      assert RefsEvents(refs) + more == more && blocks + Received(refs) == blocks;
    } else {
      RefsEventsCons(refs, more);
      ConsumeRef(refs[0], RefsEvents(refs[1..]) + more, kind, blocks, charRef);
      ConsumeRefs(refs[1..], more, Pending(refs[0]), blocks + ReceivedOne(refs[0]), charRef);
      Assoc(blocks, ReceivedOne(refs[0]), Received(refs[1..]));
    }
  }

  function Parse(body: string, charRef: string -> Option<string>): Result<seq<BlockRef>> {
    Consume(Events(body, []), None, [], charRef)
  }

  lemma ConsumeHead(root: string, list: seq<Event>, charRef: string -> Option<string>)
    ensures Consume([Other] + ([Start(root)] + list), None, [], charRef) == Consume(list, KindOf(root), [], charRef)
  {
    ConsumeSkipped(Other, [Start(root)] + list, None, [], charRef);
    ConsumeStart(root, list, None, [], charRef);
  }

  lemma ConsumeEnd(root: string, kind: Option<BlockKind>, blocks: seq<BlockRef>, charRef: string -> Option<string>)
    ensures Consume([End(root), Eof], kind, blocks, charRef) == Finished(blocks)
  {
    assert [End(root), Eof] == [End(root)] + [Eof];
    ConsumeSkipped(End(root), [Eof], kind, blocks, charRef);
  }

  lemma ReadEvents(root: string, refs: seq<BlockRef>, charRef: string -> Option<string>)
    ensures Consume([Other] + ([Start(root)] + (RefsEvents(refs) + [End(root), Eof])), None, [], charRef)
         == Finished(Received(refs))
  {
    ConsumeHead(root, RefsEvents(refs) + [End(root), Eof], charRef);
    ConsumeRefs(refs, [End(root), Eof], KindOf(root), [], charRef);
    NoneBefore(Received(refs));
    ConsumeEnd(root, PendingAfter(refs, KindOf(root)), Received(refs), charRef);
  }

  lemma NoneBefore(blocks: seq<BlockRef>)
    ensures [] + blocks == blocks
  {
  }

  /** Reading a printed document gives back the kinds and the trimmed ids, in document
      order, without those whose id is blank; if none is left it is refused. */
  lemma ReadPrinted(declaration: string, refs: seq<BlockRef>, gap: string, charRef: string -> Option<string>)
    requires AllSpace(gap) && IsDeclaration(declaration)
    ensures Parse(PrintDocument(declaration, refs, gap), charRef) == Finished(Received(refs))
  {
    EventsOfDocument(declaration, refs, gap);
    ReadEvents(ROOT, refs, charRef);
  }

  predicate CleanIds(refs: seq<BlockRef>) {
    forall i | 0 <= i < |refs| :: refs[i].id != "" && Trim(refs[i].id) == refs[i].id
  }

  lemma {:induction false} ReceivedIsAll(refs: seq<BlockRef>)
    ensures |Received(refs)| <= |refs|
    ensures Received(refs) == refs <==> CleanIds(refs)
  {
    if refs == [] {
    } else {
      ReceivedIsAll(refs[1..]);
      assert refs == [refs[0]] + refs[1..];
      if Received(refs) == refs {
        assert Trim(refs[0].id) != "";
        assert Received(refs)[0] == refs[0] && Received(refs)[1..] == refs[1..];
        assert forall i | 1 <= i < |refs| :: refs[i] == refs[1..][i - 1];
      }
    }
  }

  /** The round trip: a printed list is read back exactly if it is not empty and no id
      is blank or has white space at its ends. */
  lemma RoundTripExactly(declaration: string, refs: seq<BlockRef>, gap: string,
                         charRef: string -> Option<string>)
    requires AllSpace(gap) && IsDeclaration(declaration)
    ensures Parse(PrintDocument(declaration, refs, gap), charRef) == Ok(refs) <==> refs != [] && CleanIds(refs)
  {
    ReadPrinted(declaration, refs, gap, charRef);
    ReceivedIsAll(refs);
  }
}
