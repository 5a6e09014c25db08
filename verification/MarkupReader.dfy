// A reader of library markup, and what it finds in what the library renders: every book under
// its own identifier and source, with its own text, in the order it was packed.

module MarkupReader {
  import opened Results
  import opened Models
  import opened Collections
  import opened Markup
  import opened TextBudget
  import opened Packing

  // The text up to the first c, and the text behind it.
  function Before(text: string, c: char): string {
    if text == "" || text[0] == c then "" else [text[0]] + Before(text[1..], c)
  }

  function Behind(text: string, c: char): (rest: string)
    ensures |rest| <= |text|
    ensures c in text ==> |rest| < |text|
  {
    if text == "" then "" else if text[0] == c then text[1..] else Behind(text[1..], c)
  }

  lemma {:induction false} SplitAt(head: string, c: char, rest: string)
    requires c !in head
    ensures Before(head + [c] + rest, c) == head && Behind(head + [c] + rest, c) == rest
  {
    var text := head + [c] + rest;
    if head == "" {
      assert text == [c] + rest;
    } else {
      SplitAt(head[1..], c, rest);
      assert text[0] == head[0] && text[1..] == head[1..] + [c] + rest;
    }
  }

  // The value that a tag gives to an attribute.
  function Attribute(tag: string, name: string): Option<string>
    decreases |tag|
  {
    if '"' !in tag || '"' !in Behind(tag, '"') then None
    else
      var heading, rest := Before(tag, '"'), Behind(tag, '"');
      if Closes(heading, Heading(name)) then Some(Unescape(Before(rest, '"')))
      else Attribute(Behind(rest, '"'), name)
  }

  // What stands before an attribute's value.
  function Heading(name: string): string {
    " " + name + "="
  }

  predicate Closes(text: string, end: string) {
    |end| <= |text| && text[|text| - |end|..] == end
  }

  lemma FirstAttribute(heading: string, value: string, rest: string, name: string)
    requires '"' !in heading && '"' !in value
    ensures Attribute(heading + "\"" + value + "\"" + rest, name)
         == if Closes(heading, Heading(name)) then Some(Unescape(value)) else Attribute(rest, name)
  {
    hide Unescape, Closes, Heading;
    var tag := heading + "\"" + value + "\"" + rest;
    var behind := value + ['"'] + rest;
    assert tag == heading + ['"'] + behind;
    SplitAt(heading, '"', behind);
    SplitAt(value, '"', rest);
    assert tag[|heading|] == '"' && behind[|value|] == '"';
  }

  // ---- Books ----

  // An element's tag, without its closing bracket, and its text.
  datatype Element = Element(tag: string, body: string)

  function ReadBooks(text: string): seq<Element>
    decreases |text|
  {
    if '>' !in text then []
    else
      var rest := Behind(text, '>');
      [Element(Before(text, '>'), Unescape(Before(rest, '<')))] + ReadBooks(Behind(Behind(rest, '<'), '>'))
  }

  // Free of the characters that markup gives a meaning.
  predicate Plain(text: string) {
    forall c :: c in text ==> c !in "<>&\""
  }

  lemma {:induction false} PlainIsItself(text: string)
    requires Plain(text)
    ensures Unescape(text) == text
  {
    if text != "" {
      PlainIsItself(text[1..]);
      assert text[0] in text && Entity(text) == (text[0], 1);
    }
  }

  // A book's tag.
  function Tag(style: Style, hit: Hit): string {
    match style
    case Desk =>
      "<library-book id=" + "\"" + EscapeAttribute(hit.record.id) + "\"" + " source=" + "\""
      + EscapeAttribute(hit.record.source) + "\"" + " relevance=" + "\"" + hit.relevance + "\""
    case Transport =>
      "<library-book id=" + "\"" + EscapeAttribute(BoundedString(hit.record.id, hit.idDigest)) + "\"" + " r=" + "\""
      + hit.relevance + "\""
  }

  lemma DeskOpening(hit: Hit)
    ensures BookOpening(hit.record.id, hit.record.source, hit.relevance) == Tag(Desk, hit) + ">\n"
  {
    hide EscapeAttribute;
    var id, source := EscapeAttribute(hit.record.id), EscapeAttribute(hit.record.source);
    assert "\" source=\"" == "\"" + " source=" + "\"" && "\" relevance=\"" == "\"" + " relevance=" + "\"";
    assert "<library-book id=\"" == "<library-book id=" + "\"" && "\">\n" == "\"" + ">\n";
  }

  lemma Closing(tag: string, body: string)
    ensures tag + ">\n" + body + "\n</library-book>"
         == tag + ['>'] + ("\n" + body + "\n") + ['<'] + "/library-book" + ['>']
  {
    assert ">\n" == ['>'] + "\n" && "\n</library-book>" == "\n" + ['<'] + "/library-book" + ['>'];
  }

  lemma TransportOpening(hit: Hit, text: string)
    ensures FormatTransportBook(BoundedString(hit.record.id, hit.idDigest), hit.relevance, text)
         == Tag(Transport, hit) + ">\n" + EscapeText(text) + "\n</library-book>"
  {
    hide EscapeText, EscapeAttribute, BoundedString;
    assert "<library-book id=\"" == "<library-book id=" + "\"" && "\" r=\"" == "\"" + " r=" + "\"";
    assert "\">\n" == "\"" + ">\n";
  }

  lemma BookIsTagAndText(style: Style, hit: Hit, text: string)
    ensures Book(style, hit, text)
         == Tag(style, hit) + ['>'] + ("\n" + EscapeText(text) + "\n") + ['<'] + "/library-book" + ['>']
  {
    hide EscapeText, Tag, BookOpening, FormatTransportBook, BoundedString;
    DeskOpening(hit);
    TransportOpening(hit, text);
    Closing(Tag(style, hit), EscapeText(text));
  }

  lemma TagHasNoBrackets(style: Style, hit: Hit)
    requires Plain(hit.relevance)
    ensures '>' !in Tag(style, hit)
  {
    hide EscapeAttribute, BoundedString;
  }

  lemma FramedText(text: string)
    ensures "\n" + EscapeText(text) + "\n" == EscapeText("\n" + text + "\n")
    ensures Unescape("\n" + EscapeText(text) + "\n") == "\n" + Sanitized(text) + "\n"
  {
    EscapeTextConcat("\n", text);
    EscapeTextConcat("\n" + text, "\n");
    assert EscapeText("\n") == "\n";
    TextRoundTrip("\n" + text + "\n");
    assert Sanitized("\n" + text + "\n") == "\n" + Sanitized(text) + "\n";
  }

  // One book is read whole, whatever stands behind it.
  lemma OneBook(style: Style, hit: Hit, text: string, lead: string, tail: string)
    requires Plain(hit.relevance) && Plain(lead)
    ensures ReadBooks(lead + Book(style, hit, text) + tail)
         == [Element(lead + Tag(style, hit), "\n" + Sanitized(text) + "\n")] + ReadBooks(tail)
  {
    hide Tag, Book, EscapeText, Unescape, Sanitized;
    var tag, framed := lead + Tag(style, hit), "\n" + EscapeText(text) + "\n";
    var close := "/library-book";
    var behindText := close + ['>'] + tail;
    var behindTag := framed + ['<'] + behindText;
    var whole := lead + Book(style, hit, text) + tail;
    BookIsTagAndText(style, hit, text);
    TagHasNoBrackets(style, hit);
    assert whole == tag + ['>'] + behindTag;
    SplitAt(tag, '>', behindTag);
    SplitAt(framed, '<', behindText);
    SplitAt(close, '>', tail);
    FramedText(text);
    assert whole[|tag|] == '>';
  }

  // ---- What is read in a tag ----

  lemma EscapedHasNoQuotes(text: string)
    ensures '"' !in EscapeAttribute(text)
  {
  }

  // A book is read under its own identifier, and on the desk under its own source.
  ghost predicate Describes(style: Style, hit: Hit, tag: string) {
    match style
    case Desk =>
      && Attribute(tag, "id") == Some(Sanitized(hit.record.id))
      && Attribute(tag, "source") == Some(Sanitized(hit.record.source))
      && Attribute(tag, "relevance") == Some(hit.relevance)
    case Transport =>
      && Attribute(tag, "id") == Some(Sanitized(BoundedString(hit.record.id, hit.idDigest)))
      && Attribute(tag, "r") == Some(hit.relevance)
  }

  lemma TagDescribes(style: Style, hit: Hit, lead: string)
    requires Plain(hit.relevance) && Plain(lead)
    ensures Describes(style, hit, lead + Tag(style, hit))
  {
    match style
    case Desk =>
      ThreeAttributes(lead, EscapeAttribute(hit.record.id), EscapeAttribute(hit.record.source), hit.relevance);
      EscapedHasNoQuotes(hit.record.id);
      EscapedHasNoQuotes(hit.record.source);
      AttributeRoundTrip(hit.record.id);
      AttributeRoundTrip(hit.record.source);
      PlainIsItself(hit.relevance);
    case Transport =>
      var id := BoundedString(hit.record.id, hit.idDigest);
      TwoAttributes(lead, EscapeAttribute(id), hit.relevance);
      EscapedHasNoQuotes(id);
      AttributeRoundTrip(id);
      PlainIsItself(hit.relevance);
  }

  // Each name closes its own heading and none of the others.
  lemma Headings()
    ensures Heading("id") == " id=" && Heading("source") == " source=" && Heading("relevance") == " relevance="
    ensures Heading("r") == " r="
  {
  }

  lemma OwnHeading(lead: string)
    ensures Closes(lead + "<library-book id=", Heading("id")) && Closes(" source=", Heading("source"))
    ensures Closes(" relevance=", Heading("relevance")) && Closes(" r=", Heading("r"))
  {
    Headings();
    var first := lead + "<library-book id=";
    assert first[|first| - 4..] == " id=";
  }

  lemma OtherHeadings(lead: string)
    ensures !Closes(lead + "<library-book id=", Heading("source")) && !Closes(" source=", Heading("relevance"))
    ensures !Closes(lead + "<library-book id=", Heading("relevance"))
    ensures !Closes(lead + "<library-book id=", Heading("r"))
  {
    Headings();
    var first := lead + "<library-book id=";
    assert first[|first| - 2] == 'd';
    assert first[|first| - 8..][6] == 'd' && " source="[6] == 'e';
    assert first[|first| - 11..][9] == 'd' && " relevance="[9] == 'e';
    assert first[|first| - 3..][1] == 'd' && " r="[1] == 'r';
  }

  lemma NoQuotes(lead: string)
    requires Plain(lead)
    ensures '"' !in lead + "<library-book id="
  {
  }

  lemma ThreeAttributes(lead: string, id: string, source: string, relevance: string)
    requires Plain(lead) && Plain(relevance) && '"' !in id && '"' !in source
    ensures var tag := lead + ("<library-book id=" + "\"" + id + "\"" + " source=" + "\"" + source + "\""
                               + " relevance=" + "\"" + relevance + "\"");
            && Attribute(tag, "id") == Some(Unescape(id)) && Attribute(tag, "source") == Some(Unescape(source))
            && Attribute(tag, "relevance") == Some(Unescape(relevance))
  {
    hide Unescape, Attribute, Closes, Heading;
    NoQuotes(lead);
    var third := " relevance=" + "\"" + relevance + "\"" + "";
    var second := " source=" + "\"" + source + "\"" + third;
    Regroup(lead, id, source, relevance);
    OwnHeading(lead);
    OtherHeadings(lead);
    FirstAttribute(lead + "<library-book id=", id, second, "id");
    FirstAttribute(lead + "<library-book id=", id, second, "source");
    FirstAttribute(lead + "<library-book id=", id, second, "relevance");
    FirstAttribute(" source=", source, third, "source");
    FirstAttribute(" source=", source, third, "relevance");
    FirstAttribute(" relevance=", relevance, "", "relevance");
  }

  lemma Regroup(lead: string, id: string, source: string, relevance: string)
    ensures lead + ("<library-book id=" + "\"" + id + "\"" + " source=" + "\"" + source + "\""
                    + " relevance=" + "\"" + relevance + "\"")
         == lead + "<library-book id=" + "\"" + id + "\""
            + (" source=" + "\"" + source + "\"" + (" relevance=" + "\"" + relevance + "\"" + ""))
  {
  }

  lemma TwoAttributes(lead: string, id: string, relevance: string)
    requires Plain(lead) && Plain(relevance) && '"' !in id
    ensures var tag := lead + ("<library-book id=" + "\"" + id + "\"" + " r=" + "\"" + relevance + "\"");
            Attribute(tag, "id") == Some(Unescape(id)) && Attribute(tag, "r") == Some(Unescape(relevance))
  {
    hide Unescape, Attribute, Closes, Heading;
    NoQuotes(lead);
    var second := " r=" + "\"" + relevance + "\"" + "";
    assert lead + ("<library-book id=" + "\"" + id + "\"" + " r=" + "\"" + relevance + "\"")
        == lead + "<library-book id=" + "\"" + id + "\"" + second;
    OwnHeading(lead);
    OtherHeadings(lead);
    FirstAttribute(lead + "<library-book id=", id, second, "id");
    FirstAttribute(lead + "<library-book id=", id, second, "r");
    FirstAttribute(" r=", relevance, "", "r");
  }

  // ---- What is read in a whole rendering ----

  // The books one after the other, each of them read as it was rendered.
  lemma {:induction false} BooksReadBack(style: Style, hits: seq<Hit>, texts: seq<string>, sections: seq<string>,
                                         lead: string)
    requires |hits| == |texts| == |sections| && Plain(lead)
    requires forall i :: 0 <= i < |hits| ==> sections[i] == Book(style, hits[i], texts[i]) && Plain(hits[i].relevance)
    ensures var read := ReadBooks(lead + Join(sections));
            && |read| == |hits|
            && forall i :: 0 <= i < |hits| ==>
                 Describes(style, hits[i], read[i].tag) && read[i].body == "\n" + Sanitized(texts[i]) + "\n"
    decreases |hits|
  {
    hide Describes, Tag, Book, Sanitized;
    if hits == [] {
      assert lead + "" == lead && '>' !in lead;
    } else {
      var tail := if |sections| == 1 then "" else "\n\n" + Join(sections[1..]);
      assert lead + Join(sections) == lead + sections[0] + tail;
      OneBook(style, hits[0], texts[0], lead, tail);
      TagDescribes(style, hits[0], lead);
      if |sections| > 1 {
        BooksReadBack(style, hits[1..], texts[1..], sections[1..], "\n\n");
      }
    }
  }

  // Reading a desk, or what transport packs, gives exactly the hits that are shown, in their
  // order, each with its whole text, or the last with the cut of its text and the marker.
  lemma RenderingReadsBack(style: Style, ordered: seq<Hit>, packed: Packed)
    requires packed.Shown() <= |ordered| && forall h :: h in ordered ==> Plain(h.relevance)
    ensures var read := ReadBooks(Join(Rendered(style, ordered, packed)));
            && |read| == packed.Shown()
            && (forall i :: 0 <= i < packed.Shown() ==> Describes(style, ordered[i], read[i].tag))
            && (forall i :: 0 <= i < packed.whole ==> read[i].body == "\n" + Sanitized(ordered[i].record.text) + "\n")
            && (packed.cut.Some? ==>
                  var text := ordered[packed.whole].record.text;
                  read[packed.whole].body
                  == "\n" + Sanitized(text[..Min(packed.cut.value, |text|)] + Marker(style)) + "\n")
  {
    hide Book, Sanitized, Describes, ReadBooks, Join, Plain;
    var hits := ordered[..packed.Shown()];
    var texts := seq(|hits|, i requires 0 <= i < |hits| =>
      if i < packed.whole then hits[i].record.text
      else hits[i].record.text[..Min(packed.cut.value, |hits[i].record.text|)] + Marker(style));
    var sections := Rendered(style, ordered, packed);
    assert "" + Join(sections) == Join(sections);
    assert Plain("") by { NothingIsPlain(); }
    SectionsAre(style, ordered, packed, texts);
    hide Rendered, Marker;
    assert forall i :: 0 <= i < |hits| ==> hits[i] in ordered;
    BooksReadBack(style, hits, texts, sections, "");
  }

  lemma SectionsAre(style: Style, ordered: seq<Hit>, packed: Packed, texts: seq<string>)
    requires packed.Shown() <= |ordered| && |texts| == packed.Shown()
    requires forall i :: 0 <= i < |texts| ==>
               var text := ordered[i].record.text;
               texts[i] == if i < packed.whole then text
                           else text[..Min(packed.cut.value, |text|)] + Marker(style)
    ensures |Rendered(style, ordered, packed)| == |texts|
    ensures forall i :: 0 <= i < |texts| ==> Rendered(style, ordered, packed)[i] == Book(style, ordered[i], texts[i])
  {
    hide Book, Marker, Prefix;
    if packed.cut.Some? {
      PrefixIs(ordered[packed.whole].record.text, packed.cut.value);
    }
  }

  lemma PrefixIs(text: string, n: nat)
    ensures Prefix(text, n) == text[..Min(n, |text|)]
  {
  }

  lemma NothingIsPlain()
    ensures Plain("")
  {
  }

  // ---- The wrapper ----

  lemma WrapperHeadings()
    ensures Heading("session") == " session=" && Heading("mode") == " mode="
    ensures Heading("refreshed_at") == " refreshed_at="
  {
  }

  lemma WrapperOwn()
    ensures Closes(" session=", Heading("session")) && Closes(" mode=", Heading("mode"))
    ensures Closes(" refreshed_at=", Heading("refreshed_at"))
  {
    WrapperHeadings();
  }

  // None of the names closes a heading before its own.
  lemma WrapperOthers(name: string)
    requires name in {"session", "mode", "refreshed_at"}
    ensures !Closes("<library-context replacement=", Heading(name)) && !Closes(" trust=", Heading(name))
    ensures name != "session" ==> !Closes(" session=", Heading(name))
    ensures name == "refreshed_at" ==> !Closes(" mode=", Heading(name))
  {
    WrapperHeadings();
    var first := "<library-context replacement=";
    assert |first| == 29 && first[27] == 't' && first[26] == 'n' && " trust="[5] == 't' && " trust="[4] == 's';
    assert first[29 - 9..][7] == first[27] && " session="[7] == 'n';
    assert first[29 - 6..][4] == first[27] && " mode="[4] == 'e';
    assert first[29 - 14..][11] == first[26] && " refreshed_at="[11] == 'a';
    assert " trust="[1..][4] == 't' && " session="[3..][4] == 'n';
  }

  // The wrapper is read under the session, the mode and the time it was made for, and holds the
  // books as they are.
  lemma WrapperReadsBack(books: string, sessionId: string, refreshedAt: string, mode: string)
    requires Plain(refreshedAt)
    ensures var text := FormatLibraryContext(books, sessionId, refreshedAt, mode);
            var tag := Before(text, '>');
            && Attribute(tag, "session") == Some(Sanitized(sessionId))
            && Attribute(tag, "mode") == Some(Sanitized(mode))
            && Attribute(tag, "refreshed_at") == Some(refreshedAt)
            && |books| + 19 <= |text| && text[|text| - 19 - |books|..|text| - 19] == books
  {
    hide Unescape, Attribute, EscapeAttribute, EscapeText, Before, Sanitized;
    var session, m := EscapeAttribute(sessionId), EscapeAttribute(mode);
    EscapedHasNoQuotes(sessionId);
    EscapedHasNoQuotes(mode);
    AttributeRoundTrip(sessionId);
    AttributeRoundTrip(mode);
    PlainIsItself(refreshedAt);
    WrapperTag(session, m, refreshedAt);
    WrapperIsTagAndRest(books, sessionId, refreshedAt, mode);
    assert |"\n</library-context>"| == 19;
  }

  function ContextTag(session: string, mode: string, refreshedAt: string): string {
    "<library-context replacement=" + "\"" + "true" + "\""
    + (" trust=" + "\"" + CONTEXT_TRUST + "\""
       + (" session=" + "\"" + session + "\""
          + (" mode=" + "\"" + mode + "\"" + (" refreshed_at=" + "\"" + refreshedAt + "\"" + ""))))
  }

  lemma SkipTrust(rest: string, name: string)
    requires name in {"session", "mode", "refreshed_at"}
    ensures Attribute("<library-context replacement=" + "\"" + "true" + "\""
                      + (" trust=" + "\"" + CONTEXT_TRUST + "\"" + rest), name)
         == Attribute(rest, name)
  {
    hide Unescape, Attribute, Closes, Heading;
    WrapperOthers(name);
    FirstAttribute("<library-context replacement=", "true",
                   " trust=" + "\"" + CONTEXT_TRUST + "\"" + rest, name);
    FirstAttribute(" trust=", CONTEXT_TRUST, rest, name);
  }

  lemma WrapperTag(session: string, mode: string, refreshedAt: string)
    requires Plain(refreshedAt) && '"' !in session && '"' !in mode
    ensures var tag := ContextTag(session, mode, refreshedAt);
            && Attribute(tag, "session") == Some(Unescape(session)) && Attribute(tag, "mode") == Some(Unescape(mode))
            && Attribute(tag, "refreshed_at") == Some(Unescape(refreshedAt))
  {
    hide Unescape, Attribute, Closes, Heading;
    var fifth := " refreshed_at=" + "\"" + refreshedAt + "\"" + "";
    var fourth := " mode=" + "\"" + mode + "\"" + fifth;
    var third := " session=" + "\"" + session + "\"" + fourth;
    WrapperOwn();
    SkipTrust(third, "session");
    SkipTrust(third, "mode");
    SkipTrust(third, "refreshed_at");
    WrapperOthers("mode");
    WrapperOthers("refreshed_at");
    FirstAttribute(" session=", session, fourth, "session");
    FirstAttribute(" session=", session, fourth, "mode");
    FirstAttribute(" session=", session, fourth, "refreshed_at");
    FirstAttribute(" mode=", mode, fifth, "mode");
    FirstAttribute(" mode=", mode, fifth, "refreshed_at");
    FirstAttribute(" refreshed_at=", refreshedAt, "", "refreshed_at");
  }

  lemma WrapperOpening(session: string, mode: string, refreshedAt: string)
    ensures "<library-context replacement=\"" + "true" + "\" trust=\"" + CONTEXT_TRUST + "\" session=\"" + session
            + "\" mode=\"" + mode + "\" refreshed_at=\"" + refreshedAt + "\">\n"
         == ContextTag(session, mode, refreshedAt) + ['>'] + "\n"
  {
    WrapperLiterals();
    RegroupWrapper("<library-context replacement=", "true", " trust=", CONTEXT_TRUST, " session=", session, " mode=",
                   mode, " refreshed_at=", refreshedAt, "\"", ['>'], "\n");
  }

  lemma WrapperLiterals()
    ensures "<library-context replacement=\"" == "<library-context replacement=" + "\""
    ensures "\" trust=\"" == "\"" + " trust=" + "\"" && "\" session=\"" == "\"" + " session=" + "\""
    ensures "\" mode=\"" == "\"" + " mode=" + "\"" && "\" refreshed_at=\"" == "\"" + " refreshed_at=" + "\""
    ensures "\">\n" == "\"" + ['>'] + "\n"
  {
  }

  lemma RegroupWrapper(a: string, replacement: string, b: string, trust: string, c: string, session: string, d: string,
                       mode: string, e: string, at: string, q: string, g: string, n: string)
    ensures (a + q) + replacement + (q + b + q) + trust + (q + c + q) + session + (q + d + q) + mode + (q + e + q) + at
            + (q + g + n)
         == a + q + replacement + q
            + (b + q + trust + q + (c + q + session + q + (d + q + mode + q + (e + q + at + q + "")))) + g + n
  {
  }

  lemma ContextTagHasNoBrackets(session: string, mode: string, refreshedAt: string)
    requires Plain(refreshedAt) && '>' !in session && '>' !in mode
    ensures '>' !in ContextTag(session, mode, refreshedAt)
  {
  }

  lemma EscapedHasNoBrackets(text: string)
    ensures '>' !in EscapeAttribute(text)
  {
  }

  lemma WrapperIsTagAndRest(books: string, sessionId: string, refreshedAt: string, mode: string)
    requires Plain(refreshedAt)
    ensures var text := FormatLibraryContext(books, sessionId, refreshedAt, mode);
            Before(text, '>') == ContextTag(EscapeAttribute(sessionId), EscapeAttribute(mode), refreshedAt)
  {
    hide EscapeText, EscapeAttribute, Before, ContextTag, Plain;
    var session, m := EscapeAttribute(sessionId), EscapeAttribute(mode);
    var notice := "<trust-notice>" + EscapeText(LIBRARY_TRUST_NOTICE) + "</trust-notice>\n";
    EscapedHasNoBrackets(sessionId);
    EscapedHasNoBrackets(mode);
    ContextTagHasNoBrackets(session, m, refreshedAt);
    WrapperOpening(session, m, refreshedAt);
    Regrouped(ContextTag(session, m, refreshedAt), "\n", notice, books, "\n</library-context>");
    SplitAt(ContextTag(session, m, refreshedAt), '>', "\n" + notice + books + "\n</library-context>");
  }

  lemma Regrouped(tag: string, a: string, b: string, c: string, d: string)
    ensures tag + ['>'] + (a + b + c + d) == tag + ['>'] + a + b + c + d
    ensures forall x: string, y: string, z: string :: tag + ['>'] + a + (x + y + z) == tag + ['>'] + a + x + y + z
  {
  }
}
