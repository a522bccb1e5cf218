/** Block list documents that are refused, and the words, white space and escapes that
    reading goes by. */
module BlockListRefusals {
  import opened Types
  import opened Text
  import opened Plans
  import opened BlockListXml

  // ------------------------------------------------------ words and spaces

  /** The five characters that are escaped, and how; all others stay. */
  lemma EscapedSpecials()
    ensures EscapeChar('&') == "&amp;" && EscapeChar('<') == "&lt;" && EscapeChar('>') == "&gt;"
    ensures EscapeChar('"') == "&quot;" && EscapeChar('\'') == "&apos;"
    ensures forall c | c !in "&<>\"'" :: EscapeChar(c) == [c]
  {
    assert "&<>\"'" == ['&', '<', '>', '"', '\''];
  }

  predicate White(c: char) {
    c == ' ' || c == '\t' || c == '\r' || c == '\n'
  }

  predicate IsWhite(s: string) {
    forall i | 0 <= i < |s| :: White(s[i])
  }

  /** The text between white space at its ends, which itself has none there. */
  predicate Trimmed(s: string, before: string, text: string, after: string) {
    && s == before + text + after && IsWhite(before) && IsWhite(after)
    && (text != "" ==> !White(text[0]) && !White(text[|text| - 1]))
  }

  lemma WhiteAppend(a: string, b: string)
    requires IsWhite(a) && IsWhite(b)
    ensures IsWhite(a + b)
  {
  }

  lemma {:induction false} TrimStartExactly(s: string) returns (before: string)
    ensures s == before + TrimStart(s) && IsWhite(before)
    ensures TrimStart(s) != "" ==> !IsSpace(TrimStart(s)[0])
  {
    if s == [] || !IsSpace(s[0]) {
      before := "";
    } else {
      var tail := s[1..];
      var more := TrimStartExactly(tail);
      before := [s[0]] + more;
      WhiteAppend([s[0]], more);
      Assoc([s[0]], more, TrimStart(tail));
      assert s == [s[0]] + tail;
    }
  }

  lemma {:induction false} TrimEndExactly(s: string) returns (after: string)
    ensures s == TrimEnd(s) + after && IsWhite(after)
    ensures TrimEnd(s) != "" ==> !IsSpace(TrimEnd(s)[|TrimEnd(s)| - 1])
    ensures TrimEnd(s) != "" ==> TrimEnd(s)[0] == s[0]
    decreases |s|
  {
    if s == [] || !IsSpace(s[|s| - 1]) {
      after := "";
    } else {
      var n := |s| - 1;
      var front := s[..n];
      var more := TrimEndExactly(front);
      after := more + [s[n]];
      WhiteAppend(more, [s[n]]);
      Assoc(TrimEnd(front), more, [s[n]]);
      assert s == front + [s[n]];
    }
  }

  /** Trimming takes away spaces, tabs, carriage returns and line feeds at both ends, all of
      them and nothing else. */
  lemma TrimExactly(s: string) returns (before: string, after: string)
    ensures Trimmed(s, before, Trim(s), after)
  {
    before := TrimStartExactly(s);
    after := TrimEndExactly(TrimStart(s));
  }

  function KindWord(kind: BlockKind): string {
    match kind
    case Committed => "Committed"
    case Uncommitted => "Uncommitted"
    case Latest => "Latest"
  }

  /** An element asks for a kind of block if and only if its name is the word for it, with
      or without a namespace prefix. */
  lemma KindOfExactly(name: string, kind: BlockKind)
    ensures KindOf(name) == Some(kind) <==>
              name == KindWord(kind) || exists p :: Free(':', p) && name == p + ":" + KindWord(kind)
  {
    KindHasNoColon(kind);
    KindOfKindName(kind);
    KindsDiffer(LocalName(name), kind);
    if ':' in name {
      var i := IndexOf(':', name).value;
      assert name == name[..i] + ":" + name[i + 1..];
      if p :| Free(':', p) && name == p + ":" + KindWord(kind) {
        SplitAtFirst(p, ':', KindWord(kind));
        assert name[|p| + 1..] == KindWord(kind);
      }
    } else {
      forall p ensures name != p + ":" + KindWord(kind) {
        assert (p + ":" + KindWord(kind))[|p|] == ':';
      }
    }
  }

  lemma KindsDiffer(local: string, kind: BlockKind)
    ensures (local == "Committed" ==> (local == KindWord(kind) <==> kind == Committed))
    ensures (local == "Uncommitted" ==> (local == KindWord(kind) <==> kind == Uncommitted))
    ensures (local == "Latest" ==> (local == KindWord(kind) <==> kind == Latest))
  {
    assert |"Committed"| == 9 && |"Uncommitted"| == 11 && |"Latest"| == 6;
  }

  // ---------------------------------------------------- what unescaping refuses

  lemma PrependTwice(a: string, b: string, rest: Option<string>)
    ensures Prepend(a, Prepend(b, rest)) == Prepend(a + b, rest)
    ensures Prepend([], rest) == rest
  {
    if rest.Some? {
      Assoc(a, b, rest.value);
      assert [] + rest.value == rest.value;
    }
  }

  lemma {:induction false} UnescapeBehind(x: string, rest: string, charRef: string -> Option<string>)
    ensures Unescape(Escape(x) + rest, charRef) == Prepend(x, Unescape(rest, charRef))
    decreases |x|
  {
    if x == [] {
      assert Escape(x) + rest == rest;
      PrependTwice([], [], Unescape(rest, charRef));
    } else {
      Assoc(EscapeChar(x[0]), Escape(x[1..]), rest);
      UnescapeBehind(x[1..], rest, charRef);
      UnescapeChar(x[0], Escape(x[1..]) + rest, charRef);
      PrependTwice([x[0]], x[1..], Unescape(rest, charRef));
      assert x == [x[0]] + x[1..];
    }
  }

  /** A reference to an entity other than the five and no character reference is
      refused, wherever the first such one stands. */
  lemma UnknownEntity(x: string, name: string, rest: string, charRef: string -> Option<string>)
    requires name !in {"amp", "lt", "gt", "quot", "apos"} && Free(';', name) && !("#" <= name)
    ensures Unescape(Escape(x) + ("&" + name + ";" + rest), charRef) == None
  {
    UnescapeBehind(x, "&" + name + ";" + rest, charRef);
    EntityText(name, rest);
    SplitAtFirst(['&'] + name, ';', rest);
    CutEntity('&', name, ';', rest);
  }

  /** So is an ampersand that no semicolon follows. */
  lemma UnfinishedEntity(x: string, rest: string, charRef: string -> Option<string>)
    requires Free(';', rest)
    ensures Unescape(Escape(x) + ("&" + rest), charRef) == None
  {
    UnescapeBehind(x, "&" + rest, charRef);
    assert forall c | c in "&" + rest :: c == '&' || c in rest;
  }

  lemma {:induction false} WhiteIsText(s: string, charRef: string -> Option<string>)
    requires AllSpace(s)
    ensures Unescape(s, charRef).Some?
  {
    if s == [] {
    } else {
      WhiteIsText(s[1..], charRef);
    }
  }

  lemma {:induction false} TrimStartKeepsErrors(s: string, charRef: string -> Option<string>)
    ensures Unescape(TrimStart(s), charRef).None? <==> Unescape(s, charRef).None?
  {
    if s == [] || !IsSpace(s[0]) {
    } else {
      TrimStartKeepsErrors(s[1..], charRef);
    }
  }

  lemma IndexBeforeSpace(s: string, c: char)
    requires IsSpace(c)
    ensures IndexOf(';', s + [c]) == IndexOf(';', s)
  {
    if ';' in s {
      var i := IndexOf(';', s).value;
      assert s + [c] == s[..i] + [';'] + (s[i + 1..] + [c]);
      SplitAtFirst(s[..i], ';', s[i + 1..] + [c]);
    } else {
      assert ';' !in s + [c];
    }
  }

  lemma {:induction false} SpaceBehindKeepsErrors(s: string, c: char, charRef: string -> Option<string>)
    requires IsSpace(c)
    ensures Unescape(s + [c], charRef).None? <==> Unescape(s, charRef).None?
    decreases |s|
  {
    if s == [] {
      assert s + [c] == [c] && [c][1..] == [];
    } else if s[0] != '&' {
      assert (s + [c])[1..] == s[1..] + [c];
      SpaceBehindKeepsErrors(s[1..], c, charRef);
    } else {
      IndexBeforeSpace(s, c);
      if IndexOf(';', s).Some? {
        var i := IndexOf(';', s).value;
        assert (s + [c])[1..i] == s[1..i] && (s + [c])[i + 1..] == s[i + 1..] + [c];
        SpaceBehindKeepsErrors(s[i + 1..], c, charRef);
      }
    }
  }

  lemma {:induction false} TrimEndKeepsErrors(s: string, charRef: string -> Option<string>)
    ensures Unescape(TrimEnd(s), charRef).None? <==> Unescape(s, charRef).None?
    decreases |s|
  {
    if s == [] || !IsSpace(s[|s| - 1]) {
    } else {
      var n := |s| - 1;
      assert s == s[..n] + [s[n]];
      SpaceBehindKeepsErrors(s[..n], s[n], charRef);
      TrimEndKeepsErrors(s[..n], charRef);
    }
  }

  lemma TrimKeepsErrors(s: string, charRef: string -> Option<string>)
    ensures Unescape(Trim(s), charRef).None? <==> Unescape(s, charRef).None?
  {
    TrimStartKeepsErrors(s, charRef);
    TrimEndKeepsErrors(TrimStart(s), charRef);
  }

  // ------------------------------------------------------- refused documents

  /** A document that begins like a printed one, with these references, and goes on with
      the given text. */
  function Begun(declaration: string, refs: seq<BlockRef>, gap: string, rest: string): string {
    "<" + declaration + ">" + (gap + ("<" + ROOT + ">" + (PrintRefs(refs, gap) + (gap + rest))))
  }

  lemma ReadBegun(declaration: string, refs: seq<BlockRef>, gap: string, rest: string,
                  charRef: string -> Option<string>)
    requires AllSpace(gap) && IsDeclaration(declaration) && "<" <= rest
    ensures Parse(Begun(declaration, refs, gap, rest), charRef)
         == Consume(Events(rest, [ROOT]), PendingAfter(refs, KindOf(ROOT)), Received(refs), charRef)
  {
    var body := PrintRefs(refs, gap) + (gap + rest);
    var list := "<" + ROOT + ">" + body;
    assert list[0] == '<';
    EventsOfDeclaration(declaration, gap + list);
    EventsOfGap(gap, list, []);
    EventsOfRoot(body);
    EventsOfRefs(refs, gap, gap + rest, [ROOT]);
    EventsOfGap(gap, rest, [ROOT]);
    ConsumeHead(ROOT, RefsEvents(refs) + Events(rest, [ROOT]), charRef);
    ConsumeRefs(refs, Events(rest, [ROOT]), KindOf(ROOT), [], charRef);
    NoneBefore(Received(refs));
  }

  lemma ConsumeMalformed(kind: Option<BlockKind>, blocks: seq<BlockRef>, charRef: string -> Option<string>)
    ensures Consume([Malformed], kind, blocks, charRef) == Err(InvalidXmlDocument)
  {
  }

  lemma MalformedIsRefused(declaration: string, refs: seq<BlockRef>, gap: string, rest: string,
                           charRef: string -> Option<string>)
    requires AllSpace(gap) && IsDeclaration(declaration) && "<" <= rest && Events(rest, [ROOT]) == [Malformed]
    ensures Parse(Begun(declaration, refs, gap, rest), charRef) == Err(InvalidXmlDocument)
  {
    ReadBegun(declaration, refs, gap, rest, charRef);
    ConsumeMalformed(PendingAfter(refs, KindOf(ROOT)), Received(refs), charRef);
  }

  lemma WrongClosingText(name: string, more: string)
    ensures "</" + name + ">" + more == "<" + (['/'] + name) + ">" + more
  {
  }

  lemma EventsOfWrongClosing(name: string, more: string, open: seq<string>)
    requires Free('>', name) && (open == [] || open[|open| - 1] != TrimEnd(name))
    ensures Events("</" + name + ">" + more, open) == [Malformed]
  {
    WrongClosingText(name, more);
    TagEnds(['/'] + name, more);
    assert (['/'] + name)[1..] == name;
  }

  /** A closing tag that does not close the list is refused. */
  lemma WrongClosingTag(declaration: string, refs: seq<BlockRef>, gap: string, name: string, more: string,
                        charRef: string -> Option<string>)
    requires AllSpace(gap) && IsDeclaration(declaration) && Free('>', name) && TrimEnd(name) != "BlockList"
    ensures Parse(Begun(declaration, refs, gap, "</" + name + ">" + more), charRef) == Err(InvalidXmlDocument)
  {
    var rest := "</" + name + ">" + more;
    EventsOfWrongClosing(name, more, [ROOT]);
    assert rest[0] == '<';
    MalformedIsRefused(declaration, refs, gap, rest, charRef);
  }

  lemma UnclosedText(name: string, text: string, end: string, more: string)
    ensures "<" + name + ">" + text + "</" + end + ">" + more
         == "<" + name + ">" + (text + ("</" + end + ">" + more))
  {
  }

  lemma EventsOfUnclosed(kind: BlockKind, id: string, end: string, more: string)
    requires Free('>', end) && TrimEnd(end) != KindName(kind)
    ensures Events("<" + KindName(kind) + ">" + Escape(id) + "</" + end + ">" + more, [ROOT])
         == [Start(KindName(kind))] + (TextEvents(Escape(Trim(id))) + [Malformed])
  {
    var closing := "</" + end + ">" + more;
    KindIsName(kind);
    UnclosedText(KindName(kind), Escape(id), end, more);
    EventsOfOpening(KindName(kind), Escape(id) + closing, [ROOT]);
    EscapedHasNoMarkup(id);
    assert closing[0] == '<';
    EventsOfText(Escape(id), closing, [ROOT] + [KindName(kind)]);
    TrimEscape(id);
    EventsOfWrongClosing(end, more, [ROOT] + [KindName(kind)]);
  }

  lemma ConsumeUnclosed(kind: BlockKind, id: string, pending: Option<BlockKind>, blocks: seq<BlockRef>,
                        charRef: string -> Option<string>)
    ensures Consume([Start(KindName(kind))] + (TextEvents(Escape(Trim(id))) + [Malformed]), pending, blocks, charRef)
         == Err(InvalidXmlDocument)
  {
    var text := Escape(Trim(id));
    KindOfKindName(kind);
    ConsumeStart(KindName(kind), TextEvents(text) + [Malformed], pending, blocks, charRef);
    if text == "" {
      assert TextEvents(text) + [Malformed] == [Malformed];
      ConsumeMalformed(Some(kind), blocks, charRef);
    } else {
      UnescapeEscape(Trim(id), charRef);
      ConsumeId(text, Trim(id), [Malformed], kind, blocks, charRef);
      ConsumeMalformed(None, blocks + [BlockRef(Trim(id), kind)], charRef);
    }
  }

  /** A reference whose element is closed by another name is refused. */
  lemma WrongElementEnd(declaration: string, refs: seq<BlockRef>, gap: string, kind: BlockKind, id: string,
                        end: string, more: string, charRef: string -> Option<string>)
    requires AllSpace(gap) && IsDeclaration(declaration) && Free('>', end) && TrimEnd(end) != KindName(kind)
    ensures Parse(Begun(declaration, refs, gap, "<" + KindName(kind) + ">" + Escape(id) + "</" + end + ">" + more),
                  charRef)
         == Err(InvalidXmlDocument)
  {
    var rest := "<" + KindName(kind) + ">" + Escape(id) + "</" + end + ">" + more;
    assert rest[0] == '<';
    ReadBegun(declaration, refs, gap, rest, charRef);
    EventsOfUnclosed(kind, id, end, more);
    ConsumeUnclosed(kind, id, PendingAfter(refs, KindOf(ROOT)), Received(refs), charRef);
  }

  /** A document that ends within a tag is refused. */
  lemma UnfinishedTag(declaration: string, refs: seq<BlockRef>, gap: string, tag: string,
                      charRef: string -> Option<string>)
    requires AllSpace(gap) && IsDeclaration(declaration) && Free('>', tag)
    ensures Parse(Begun(declaration, refs, gap, "<" + tag), charRef) == Err(InvalidXmlDocument)
  {
    EventsOfUnfinished(tag, [ROOT]);
    MalformedIsRefused(declaration, refs, gap, "<" + tag, charRef);
  }

  lemma EventsOfUnfinished(tag: string, open: seq<string>)
    requires Free('>', tag)
    ensures Events("<" + tag, open) == [Malformed]
  {
    assert forall c | c in "<" + tag :: c == '<' || c in tag;
  }

  lemma ConsumeBadText(name: string, raw: string, more: seq<Event>, kind: BlockKind, pending: Option<BlockKind>,
                       blocks: seq<BlockRef>, charRef: string -> Option<string>)
    requires KindOf(name) == Some(kind) && raw != "" && Unescape(raw, charRef).None?
    ensures Consume(ElementEvents(name, raw) + more, pending, blocks, charRef) == Err(InvalidXmlDocument)
  {
    var tail := [End(name)] + more;
    ShownEvents(name, raw, more);
    ConsumeStart(name, [TextEvent(raw)] + tail, pending, blocks, charRef);
  }

  /** A reference whose text cannot be unescaped is refused, with all of the document. */
  lemma BadTextIsRefused(declaration: string, refs: seq<BlockRef>, gap: string, kind: BlockKind, raw: string,
                         more: string, charRef: string -> Option<string>)
    requires AllSpace(gap) && IsDeclaration(declaration) && Free('<', raw) && Unescape(raw, charRef) == None
    ensures Parse(Begun(declaration, refs, gap, Element(KindName(kind), raw) + more), charRef)
         == Err(InvalidXmlDocument)
  {
    var name, rest := KindName(kind), Element(KindName(kind), raw) + more;
    assert rest[0] == '<';
    ReadBegun(declaration, refs, gap, rest, charRef);
    KindIsName(kind);
    KindOfKindName(kind);
    EventsOfElement(name, raw, more, [ROOT]);
    TrimKeepsErrors(raw, charRef);
    ConsumeBadText(name, Trim(raw), Events(more, [ROOT]), kind, PendingAfter(refs, KindOf(ROOT)), Received(refs),
                   charRef);
  }

  /** A list without any id that is not blank is refused as a list, not as a document. */
  lemma BlankListIsRefused(declaration: string, refs: seq<BlockRef>, gap: string, charRef: string -> Option<string>)
    requires AllSpace(gap) && IsDeclaration(declaration) && forall i | 0 <= i < |refs| :: Trim(refs[i].id) == ""
    ensures Parse(PrintDocument(declaration, refs, gap), charRef) == Err(InvalidBlockList)
  {
    ReadPrinted(declaration, refs, gap, charRef);
    NoneReceived(refs);
  }

  lemma {:induction false} NoneReceived(refs: seq<BlockRef>)
    requires forall i | 0 <= i < |refs| :: Trim(refs[i].id) == ""
    ensures Received(refs) == []
  {
    if refs == [] {
    } else {
      NoneReceived(refs[1..]);
    }
  }

  // ------------------------------------------------------- what is passed over

  lemma ConsumeOther(name: string, text: string, pending: Option<BlockKind>, blocks: seq<BlockRef>,
                     charRef: string -> Option<string>)
    requires KindOf(name) == None
    ensures Consume(ElementEvents(name, text) + [End(ROOT), Eof], pending, blocks, charRef) == Finished(blocks)
  {
    var end := [End(ROOT), Eof];
    if text == "" {
      BlankEvents(name, end);
      ConsumeStart(name, [End(name)] + end, pending, blocks, charRef);
    } else {
      ShownEvents(name, text, end);
      ConsumeStart(name, [TextEvent(text)] + ([End(name)] + end), pending, blocks, charRef);
      assert ([TextEvent(text)] + ([End(name)] + end))[1..] == [End(name)] + end;
    }
    ConsumeSkipped(End(name), end, None, blocks, charRef);
    ConsumeEnd(ROOT, None, blocks, charRef);
  }

  /** An element with another name is passed over with its text. */
  lemma OtherElementIsSkipped(declaration: string, refs: seq<BlockRef>, gap: string, name: string, text: string,
                              charRef: string -> Option<string>)
    requires AllSpace(gap) && IsDeclaration(declaration)
    requires IsName(name) && KindOf(name) == None && Free('<', text)
    ensures Parse(Begun(declaration, refs, gap, Element(name, text) + (gap + ("</" + ROOT + ">" + gap))), charRef)
         == if Received(refs) == [] then Err(InvalidBlockList) else Ok(Received(refs))
  {
    var end := gap + ("</" + ROOT + ">" + gap);
    var rest := Element(name, text) + end;
    assert rest[0] == '<';
    ReadBegun(declaration, refs, gap, rest, charRef);
    EventsOfElement(name, text, end, [ROOT]);
    EventsOfEnd(gap);
    ConsumeOther(name, Trim(text), PendingAfter(refs, KindOf(ROOT)), Received(refs), charRef);
  }

  lemma EventsOfEmpty(name: string, more: string, open: seq<string>)
    requires IsName(name)
    ensures Events("<" + (name + "/") + ">" + more, open) == [Empty(FirstWord(name + "/"))] + Events(more, open)
  {
    var tag := name + "/";
    assert tag[0] == name[0] && name[0] in name && tag[|tag| - 1] == '/';
    assert Free('>', tag) by {
      assert forall c | c in tag :: c in name || c == '/';
    }
    EventsOfTag(tag, more, open, Empty(FirstWord(tag)), open);
  }

  lemma ConsumeEmpty(name: string, more: seq<Event>, kind: Option<BlockKind>, blocks: seq<BlockRef>,
                     charRef: string -> Option<string>)
    ensures Consume([Empty(name)] + more, kind, blocks, charRef) == Consume(more, kind, blocks, charRef)
  {
    assert ([Empty(name)] + more)[1..] == more;
  }

  /** So is an empty element, whatever its name. */
  lemma EmptyElementIsSkipped(declaration: string, refs: seq<BlockRef>, gap: string, name: string,
                              charRef: string -> Option<string>)
    requires AllSpace(gap) && IsDeclaration(declaration) && IsName(name)
    ensures Parse(Begun(declaration, refs, gap, "<" + (name + "/") + ">" + (gap + ("</" + ROOT + ">" + gap))), charRef)
         == if Received(refs) == [] then Err(InvalidBlockList) else Ok(Received(refs))
  {
    var end := gap + ("</" + ROOT + ">" + gap);
    var rest := "<" + (name + "/") + ">" + end;
    var pending := PendingAfter(refs, KindOf(ROOT));
    assert rest[0] == '<';
    ReadBegun(declaration, refs, gap, rest, charRef);
    EventsOfEmpty(name, end, [ROOT]);
    EventsOfEnd(gap);
    ConsumeEmpty(FirstWord(name + "/"), [End(ROOT), Eof], pending, Received(refs), charRef);
    ConsumeEnd(ROOT, pending, Received(refs), charRef);
  }
}
