/** What both bodies of an email say, whatever strings it is made of: the HTML is the template, well nested, and
    reads back as the blocks' strings and links in order; the text has every one of them. */
module EmailLayoutProofs {
  import opened Wrappers
  import opened EmailLayout

  // ----- pieces, put together -----

  function ShownIn(pieces: seq<Piece>): seq<string> {
    if pieces == [] then []
    else
      (if pieces[0].Chars? && pieces[0].written != [] then [Unescape(pieces[0].written)] else []) + ShownIn(pieces[1..])
  }

  function LinksIn(pieces: seq<Piece>): seq<string> {
    if pieces == [] then []
    else
      (if !pieces[0].Chars? && LeadsTo(Inner(pieces[0])).Some? then [LeadsTo(Inner(pieces[0])).value] else [])
      + LinksIn(pieces[1..])
  }

  lemma {:induction false} TokensSayTheSame(pieces: seq<Piece>)
    ensures Shown(AsTokens(pieces)) == ShownIn(pieces) && Links(AsTokens(pieces)) == LinksIn(pieces)
  {
    if pieces != [] {
      TokensSayTheSame(pieces[1..]);
      var rest := AsTokens(pieces[1..]);
      if pieces[0].Chars? && pieces[0].written == [] {
        assert AsTokens(pieces) == rest;
      } else {
        assert AsTokens(pieces)[1..] == rest;
      }
    }
  }

  /** The pieces are scanned as they are, every element in them is closed in them, and this is what they show and
      where they lead. */
  predicate Says(pieces: seq<Piece>, words: seq<string>, links: seq<string>) {
    Fit(pieces) && Nest(pieces, []) == Some([]) && ShownIn(pieces) == words && LinksIn(pieces) == links
  }

  predicate StartsWithText(pieces: seq<Piece>) {
    pieces != [] && pieces[0].Chars?
  }

  predicate EndsWithText(pieces: seq<Piece>) {
    pieces != [] && pieces[|pieces| - 1].Chars?
  }

  lemma {:induction false} FitJoin(a: seq<Piece>, b: seq<Piece>)
    requires Fit(a) && Fit(b) && !(EndsWithText(a) && StartsWithText(b))
    ensures Fit(a + b)
  {
    if a == [] {
      assert a + b == b;
    } else {
      assert (a + b)[1..] == a[1..] + b;
      FitJoin(a[1..], b);
    }
  }

  lemma {:induction false} NestJoin(a: seq<Piece>, b: seq<Piece>, within: seq<Tag>)
    requires Nest(a, within).Some?
    ensures Nest(a + b, within) == Nest(b, Nest(a, within).value)
  {
    if a == [] {
      assert a + b == b;
    } else {
      assert (a + b)[1..] == a[1..] + b;
      match a[0] {
        case Open(tag, _) => NestJoin(a[1..], b, if tag == Meta then within else within + [tag]);
        case Close(tag) => NestJoin(a[1..], b, within[..|within| - 1]);
        case _ => NestJoin(a[1..], b, within);
      }
    }
  }

  /** What nests does so within whatever is open already. */
  lemma {:induction false} NestWithin(pieces: seq<Piece>, outer: seq<Tag>, within: seq<Tag>)
    requires Nest(pieces, within).Some?
    ensures Nest(pieces, outer + within) == Some(outer + Nest(pieces, within).value)
  {
    if pieces != [] {
      match pieces[0] {
        case Open(tag, _) =>
          assert outer + within + [tag] == outer + (within + [tag]);
          NestWithin(pieces[1..], outer, if tag == Meta then within else within + [tag]);
        case Close(tag) =>
          assert (outer + within)[..|outer + within| - 1] == outer + within[..|within| - 1];
          NestWithin(pieces[1..], outer, within[..|within| - 1]);
        case _ => NestWithin(pieces[1..], outer, within);
      }
    }
  }

  lemma {:induction false} ShownJoin(a: seq<Piece>, b: seq<Piece>)
    ensures ShownIn(a + b) == ShownIn(a) + ShownIn(b)
  {
    if a == [] {
      assert a + b == b;
    } else {
      assert (a + b)[1..] == a[1..] + b;
      ShownJoin(a[1..], b);
    }
  }

  lemma {:induction false} LinksJoin(a: seq<Piece>, b: seq<Piece>)
    ensures LinksIn(a + b) == LinksIn(a) + LinksIn(b)
  {
    if a == [] {
      assert a + b == b;
    } else {
      assert (a + b)[1..] == a[1..] + b;
      LinksJoin(a[1..], b);
    }
  }

  lemma {:induction false} SaidJoin(a: seq<Piece>, b: seq<Piece>)
    ensures ShownIn(a + b) == ShownIn(a) + ShownIn(b) && LinksIn(a + b) == LinksIn(a) + LinksIn(b)
  {
    ShownJoin(a, b);
    LinksJoin(a, b);
  }

  lemma {:induction false} SaysJoin(a: seq<Piece>, aWords: seq<string>, aLinks: seq<string>,
                                    b: seq<Piece>, bWords: seq<string>, bLinks: seq<string>)
    requires Says(a, aWords, aLinks) && Says(b, bWords, bLinks) && !(EndsWithText(a) && StartsWithText(b))
    ensures Says(a + b, aWords + bWords, aLinks + bLinks)
  {
    FitJoin(a, b);
    NestJoin(a, b, []);
    SaidJoin(a, b);
  }

  function Around(tag: Tag, attrs: seq<Attr>, inner: seq<Piece>): seq<Piece> {
    [Open(tag, attrs)] + inner + [Close(tag)]
  }

  lemma {:induction false} AroundFits(tag: Tag, attrs: seq<Attr>, inner: seq<Piece>)
    requires Sane(attrs) && Fit(inner)
    ensures Fit(Around(tag, attrs, inner)) && !StartsWithText(Around(tag, attrs, inner)) && !EndsWithText(Around(tag, attrs, inner))
  {
    assert [Open(tag, attrs)][1..] == [] && [Close(tag)][1..] == [];
    FitJoin([Open(tag, attrs)], inner);
    FitJoin([Open(tag, attrs)] + inner, [Close(tag)]);
  }

  lemma {:induction false} AroundNests(tag: Tag, attrs: seq<Attr>, inner: seq<Piece>)
    requires tag != Meta && Nest(inner, []) == Some([])
    ensures Nest(Around(tag, attrs, inner), []) == Some([])
  {
    assert [Open(tag, attrs)][1..] == [] && [Close(tag)][1..] == [];
    assert [] + [tag] == [tag] && [tag] + [] == [tag] && [tag][..0] == [];
    NestWithin(inner, [tag], []);
    NestJoin([Open(tag, attrs)], inner, []);
    NestJoin([Open(tag, attrs)] + inner, [Close(tag)], []);
  }

  lemma {:induction false} NoLink(piece: Piece)
    requires !piece.Chars? && (piece.Open? ==> piece.tag != A)
    ensures LeadsTo(Inner(piece)).None?
  {
    assert Inner(piece)[0] != 'a';
  }

  /** An element says what is in it, after where its own tag leads. */
  lemma {:induction false} AroundSays(tag: Tag, attrs: seq<Attr>, inner: seq<Piece>)
    ensures ShownIn(Around(tag, attrs, inner)) == ShownIn(inner)
    ensures LinksIn(Around(tag, attrs, inner)) == LinksIn([Open(tag, attrs)]) + LinksIn(inner)
  {
    NoLink(Close(tag));
    TagSays(Open(tag, attrs));
    TagSays(Close(tag));
    SaidJoin([Open(tag, attrs)], inner);
    SaidJoin([Open(tag, attrs)] + inner, [Close(tag)]);
    assert [] + ShownIn(inner) + [] == ShownIn(inner);
    assert LinksIn([Open(tag, attrs)]) + LinksIn(inner) + [] == LinksIn([Open(tag, attrs)]) + LinksIn(inner);
  }

  /** An element that is no link says what is in it. */
  lemma {:induction false} SaysAround(tag: Tag, attrs: seq<Attr>, inner: seq<Piece>, words: seq<string>, links: seq<string>)
    requires tag != Meta && tag != A && Sane(attrs) && Says(inner, words, links)
    ensures Says(Around(tag, attrs, inner), words, links)
    ensures !StartsWithText(Around(tag, attrs, inner)) && !EndsWithText(Around(tag, attrs, inner))
  {
    AroundFits(tag, attrs, inner);
    AroundNests(tag, attrs, inner);
    NoLink(Open(tag, attrs));
    TagSays(Open(tag, attrs));
    AroundSays(tag, attrs, inner);
    assert [] + links == links;
  }

  lemma {:induction false} TagSays(piece: Piece)
    requires !piece.Chars?
    ensures ShownIn([piece]) == []
    ensures LinksIn([piece]) == if LeadsTo(Inner(piece)).Some? then [LeadsTo(Inner(piece)).value] else []
  {
    assert [piece][1..] == [];
  }

  lemma {:induction false} QuoteEnds(value: string, rest: string)
    requires '"' !in value
    ensures UpToQuote(value + "\"" + rest) == |value|
  {
    var s := value + "\"" + rest;
    if value != [] {
      assert s[1..] == value[1..] + "\"" + rest;
      QuoteEnds(value[1..], rest);
    }
  }

  lemma {:induction false} ValueIsRead(start: string, value: string, rest: string)
    requires '"' !in value
    ensures var inner := start + value + "\"" + rest;
            start <= inner && inner[|start|..][..UpToQuote(inner[|start|..])] == value
  {
    var inner := start + value + "\"" + rest;
    assert inner[|start|..] == value + "\"" + rest;
    QuoteEnds(value, rest);
  }

  lemma {:induction false} HrefReadsBack(url: string, rest: string)
    ensures LeadsTo("a href=\"" + Escape(url) + "\"" + rest) == Some(url)
  {
    EscapedIsPlain(url);
    EscapingReadsBack(url);
    ValueIsRead("a href=\"", Escape(url), rest);
  }

  lemma {:induction false} Glued(a: string, b: string, c: string, d: string, e: string, f: string, g: string)
    ensures a + (b + c + d + e + f + g) == (a + b + c + d) + e + f + g
  {
  }

  lemma {:induction false} AnchorInner(url: string, style: string)
    ensures Inner(Open(A, [Attr("href", Escape(url)), Attr("style", style)]))
            == "a href=\"" + Escape(url) + "\"" + WriteAttrs([Attr("style", style)])
  {
    var attrs := [Attr("href", Escape(url)), Attr("style", style)];
    var rest := WriteAttrs([Attr("style", style)]);
    assert attrs[1..] == [Attr("style", style)];
    assert WriteAttrs(attrs) == " " + "href" + "=\"" + Escape(url) + "\"" + rest;
    Glued("a", " ", "href", "=\"", Escape(url), "\"", rest);
    assert "a" + " " + "href" + "=\"" == "a href=\"";
  }

  lemma {:induction false} AnchorIsSane(url: string, look: Look, part: Fixed)
    requires Quotable(look)
    ensures Sane(Anchor(url, look, part).attrs)
  {
    EscapedIsPlain(url);
    assert '"' !in "href" && '>' !in "href";
    StyleIsSane(look, part);
    assert StyleAttr(look, part)[0] == Attr("style", look(part));
  }

  lemma {:induction false} AnchorLeads(url: string, look: Look, part: Fixed)
    requires Quotable(look)
    ensures Sane(Anchor(url, look, part).attrs) && LinksIn([Anchor(url, look, part)]) == [url]
  {
    AnchorIsSane(url, look, part);
    AnchorInner(url, look(part));
    HrefReadsBack(url, WriteAttrs([Attr("style", look(part))]));
    TagSays(Anchor(url, look, part));
  }

  /** A link says what is in it, and leads to its address, whatever characters that has. */
  lemma {:induction false} SaysLink(url: string, look: Look, part: Fixed, inner: seq<Piece>, words: seq<string>)
    requires Quotable(look) && Says(inner, words, [])
    ensures Rows(LinkTo(url, look, part, inner), words, [url])
  {
    var attrs := Anchor(url, look, part).attrs;
    AnchorLeads(url, look, part);
    AroundFits(A, attrs, inner);
    AroundNests(A, attrs, inner);
    AroundSays(A, attrs, inner);
    assert [url] + [] == [url];
  }

  lemma {:induction false} SaysText(s: string)
    ensures Says([Said(s)], NonEmpty(s), [])
  {
    EscapedIsPlain(s);
    EscapingReadsBack(s);
    assert [Said(s)][1..] == [];
  }

  lemma {:induction false} PlainEscapes(s: string)
    requires forall i :: 0 <= i < |s| ==> EscapeChar(s[i]) == [s[i]]
    ensures Escape(s) == s
  {
    if s != [] {
      PlainEscapes(s[1..]);
    }
  }

  /** The template's own words are written as they are. */
  lemma {:induction false} SaysPlain(s: string)
    requires s != [] && forall i :: 0 <= i < |s| ==> EscapeChar(s[i]) == [s[i]]
    ensures Says([Chars(s)], [s], [])
  {
    PlainEscapes(s);
    SaysText(s);
  }

  lemma {:induction false} SaysNothing(attrs: seq<Attr>)
    requires Sane(attrs)
    ensures Says([], [], []) && Says([Doctype], [], []) && Says([Open(Meta, attrs)], [], [])
  {
    assert [Doctype][1..] == [] && [Open(Meta, attrs)][1..] == [];
    NoLink(Doctype);
    NoLink(Open(Meta, attrs));
  }

  function StyleAttr(look: Look, part: Fixed): seq<Attr> {
    [Attr("style", look(part))]
  }

  function WideAttrs(look: Look, part: Fixed): seq<Attr> {
    WIDE + StyleAttr(look, part)
  }

  lemma {:induction false} FixedAreSane(look: Look, part: Fixed)
    requires Quotable(look)
    ensures Sane([]) && Sane(StyleAttr(look, part)) && Sane(BARE) && Sane(WideAttrs(look, part))
  {
    BareIsSane();
    StyleIsSane(look, part);
    WideIsSane();
    SaneJoin(WIDE, StyleAttr(look, part));
  }

  lemma {:induction false} StyleIsSane(look: Look, part: Fixed)
    requires Quotable(look)
    ensures Sane(StyleAttr(look, part))
  {
  }

  lemma {:induction false} WideIsSane()
    ensures Sane(WIDE)
  {
    RoleIsSane();
    WidthIsSane();
    BareIsSane();
    SaneJoin([Attr("role", "presentation")], [Attr("width", "100%")]);
    SaneJoin([Attr("role", "presentation")] + [Attr("width", "100%")], BARE[1..]);
    assert WIDE == [Attr("role", "presentation")] + [Attr("width", "100%")] + BARE[1..];
  }

  lemma {:induction false} SaneJoin(a: seq<Attr>, b: seq<Attr>)
    requires Sane(a) && Sane(b)
    ensures Sane(a + b)
  {
  }

  lemma {:induction false} RoleIsSane()
    ensures Sane([Attr("role", "presentation")])
  {
  }

  lemma {:induction false} PaddingIsSane()
    ensures Sane([Attr("cellpadding", "0")])
  {
  }

  lemma {:induction false} SpacingIsSane()
    ensures Sane([Attr("cellspacing", "0")])
  {
  }

  lemma {:induction false} BorderIsSane()
    ensures Sane([Attr("border", "0")])
  {
  }

  lemma {:induction false} WidthIsSane()
    ensures Sane([Attr("width", "100%")])
  {
  }

  lemma {:induction false} BareIsSane()
    ensures Sane(BARE) && Sane(BARE[1..])
  {
    RoleIsSane();
    PaddingIsSane();
    SpacingIsSane();
    BorderIsSane();
    SaneJoin([Attr("cellpadding", "0")], [Attr("cellspacing", "0")]);
    SaneJoin([Attr("cellpadding", "0")] + [Attr("cellspacing", "0")], [Attr("border", "0")]);
    assert BARE[1..] == [Attr("cellpadding", "0")] + [Attr("cellspacing", "0")] + [Attr("border", "0")];
    SaneJoin([Attr("role", "presentation")], BARE[1..]);
    assert BARE == [Attr("role", "presentation")] + BARE[1..];
  }

  /** Rows that stand between any others. */
  predicate Rows(pieces: seq<Piece>, words: seq<string>, links: seq<string>) {
    Says(pieces, words, links) && !StartsWithText(pieces) && !EndsWithText(pieces)
  }

  lemma {:induction false} EdgesJoin(a: seq<Piece>, b: seq<Piece>)
    requires !StartsWithText(a) && !StartsWithText(b) && !EndsWithText(a) && !EndsWithText(b)
    ensures !StartsWithText(a + b) && !EndsWithText(a + b)
  {
    if b == [] {
      assert a + b == a;
    } else {
      assert (a + b)[|a + b| - 1] == b[|b| - 1];
    }
    if a == [] {
      assert a + b == b;
    }
  }

  lemma {:induction false} RowsJoin(a: seq<Piece>, aWords: seq<string>, aLinks: seq<string>,
                                    b: seq<Piece>, bWords: seq<string>, bLinks: seq<string>)
    requires Rows(a, aWords, aLinks) && Rows(b, bWords, bLinks)
    ensures Rows(a + b, aWords + bWords, aLinks + bLinks)
  {
    EdgesJoin(a, b);
    SaysJoin(a, aWords, aLinks, b, bWords, bLinks);
  }

  lemma {:induction false} SaysStyled(tag: Tag, look: Look, part: Fixed, inner: seq<Piece>, words: seq<string>, links: seq<string>)
    requires Quotable(look) && tag != Meta && tag != A && Says(inner, words, links)
    ensures Rows(Around(tag, StyleAttr(look, part), inner), words, links)
  {
    FixedAreSane(look, part);
    SaysAround(tag, StyleAttr(look, part), inner, words, links);
  }

  function Cell(look: Look, part: Fixed, inner: seq<Piece>): seq<Piece> {
    Around(Tr, [], Around(Td, StyleAttr(look, part), inner))
  }

  lemma {:induction false} SaysCell(look: Look, part: Fixed, inner: seq<Piece>, words: seq<string>, links: seq<string>)
    requires Quotable(look) && Says(inner, words, links)
    ensures Rows(Cell(look, part, inner), words, links)
  {
    FixedAreSane(look, part);
    SaysStyled(Td, look, part, inner, words, links);
    SaysAround(Tr, [], Around(Td, StyleAttr(look, part), inner), words, links);
  }

  lemma {:induction false} SaysTables(look: Look, part: Fixed, inner: seq<Piece>, words: seq<string>, links: seq<string>)
    requires Quotable(look) && Says(inner, words, links)
    ensures Rows(Around(Table, BARE, inner), words, links) && Rows(Around(Table, WideAttrs(look, part), inner), words, links)
  {
    FixedAreSane(look, part);
    SaysAround(Table, BARE, inner, words, links);
    SaysAround(Table, WideAttrs(look, part), inner, words, links);
  }

  function LinkTo(url: string, look: Look, part: Fixed, inner: seq<Piece>): seq<Piece> {
    Around(A, Anchor(url, look, part).attrs, inner)
  }

  // ----- the blocks -----

  /** What a block says in the HTML: its strings, and the template's own words for a link. */
  function BlockWords(block: Block): seq<string> {
    match block
    case Paragraph(text) => NonEmpty(text)
    case Button(caption, url) => NonEmpty(caption) + (["Or open this link: "] + NonEmpty(url))
    case Entry(title, detail, link) =>
      NonEmpty(title) + NonEmpty(detail) + (if link.Some? && link.value != [] then ["Open in WhaleWatch"] else [])
  }

  /** And where it leads: a button twice, drawn and written out. */
  function BlockLinks(block: Block): seq<string> {
    match block
    case Paragraph(_) => []
    case Button(_, url) => [url] + [url]
    case Entry(_, _, link) => if link.Some? then NonEmpty(link.value) else []
  }

  function ButtonDrawn(caption: string, url: string, look: Look): seq<Piece> {
    Around(Table, BARE, Cell(look, ButtonBoxStyle, LinkTo(url, look, ButtonLinkStyle, [Said(caption)])))
  }

  function ButtonNote(url: string, look: Look): seq<Piece> {
    Around(Div, StyleAttr(look, ButtonNoteStyle), [Chars("Or open this link: ")] + LinkTo(url, look, NoteLinkStyle, [Said(url)]))
  }

  lemma {:induction false} ButtonIsNested(caption: string, url: string, look: Look)
    ensures ButtonPieces(caption, url, look) == Cell(look, ButtonRowStyle, ButtonDrawn(caption, url, look) + ButtonNote(url, look))
  {
  }

  lemma {:induction false} ButtonDrawnSays(caption: string, url: string, look: Look)
    requires Quotable(look)
    ensures Rows(ButtonDrawn(caption, url, look), NonEmpty(caption), [url])
  {
    var words, link := NonEmpty(caption), LinkTo(url, look, ButtonLinkStyle, [Said(caption)]);
    SaysText(caption);
    SaysLink(url, look, ButtonLinkStyle, [Said(caption)], words);
    SaysCell(look, ButtonBoxStyle, link, words, [url]);
    SaysTables(look, CardStyle, Cell(look, ButtonBoxStyle, link), words, [url]);
  }

  lemma {:induction false} TextThenLink(text: seq<Piece>, word: string, link: seq<Piece>, words: seq<string>, url: string)
    requires Says(text, [word], []) && Rows(link, words, [url])
    ensures Says(text + link, [word] + words, [url])
  {
    SaysJoin(text, [word], [], link, words, [url]);
    assert [] + [url] == [url];
  }

  lemma {:induction false} ButtonNoteSays(url: string, look: Look)
    requires Quotable(look)
    ensures Rows(ButtonNote(url, look), ["Or open this link: "] + NonEmpty(url), [url])
  {
    var words, link := NonEmpty(url), LinkTo(url, look, NoteLinkStyle, [Said(url)]);
    SaysText(url);
    OpenLinkIsSaid();
    SaysLink(url, look, NoteLinkStyle, [Said(url)], words);
    TextThenLink([Chars("Or open this link: ")], "Or open this link: ", link, words, url);
    SaysStyled(Div, look, ButtonNoteStyle, [Chars("Or open this link: ")] + link, ["Or open this link: "] + words, [url]);
  }

  lemma {:induction false} OpenLinkIsSaid()
    ensures Says([Chars("Or open this link: ")], ["Or open this link: "], [])
  {
    SaysPlain("Or open this link: ");
  }

  lemma {:induction false} OpenInIsSaid()
    ensures Says([Chars("Open in WhaleWatch")], ["Open in WhaleWatch"], [])
  {
    SaysPlain("Open in WhaleWatch");
  }

  lemma {:induction false} BrandIsSaid()
    ensures Says([Chars("WhaleWatch")], ["WhaleWatch"], [])
  {
    SaysPlain("WhaleWatch");
  }

  lemma {:induction false} ButtonSays(caption: string, url: string, look: Look)
    requires Quotable(look)
    ensures Rows(ButtonPieces(caption, url, look), BlockWords(Button(caption, url)), BlockLinks(Button(caption, url)))
  {
    var drawn, note := ButtonDrawn(caption, url, look), ButtonNote(url, look);
    var words, more := NonEmpty(caption), ["Or open this link: "] + NonEmpty(url);
    ButtonDrawnSays(caption, url, look);
    ButtonNoteSays(url, look);
    RowsJoin(drawn, words, [url], note, more, [url]);
    SaysCell(look, ButtonRowStyle, drawn + note, words + more, [url] + [url]);
    ButtonIsNested(caption, url, look);
  }

  lemma {:induction false} ParagraphSays(text: string, look: Look)
    requires Quotable(look)
    ensures Rows(ParagraphPieces(text, look), NonEmpty(text), [])
  {
    SaysText(text);
    SaysCell(look, ParagraphStyle, [Said(text)], NonEmpty(text), []);
    assert ParagraphPieces(text, look) == Cell(look, ParagraphStyle, [Said(text)]);
  }

  lemma {:induction false} NoRows()
    ensures Rows([], [], [])
  {
    SaysNothing([]);
  }

  lemma {:induction false} EntryTextIsNested(detail: string, look: Look)
    requires detail != []
    ensures EntryTextPieces(detail, look) == Around(Div, StyleAttr(look, EntryTextStyle), [Said(detail)])
  {
  }

  lemma {:induction false} EntryTextSays(detail: string, look: Look)
    requires Quotable(look)
    ensures Rows(EntryTextPieces(detail, look), NonEmpty(detail), [])
  {
    if detail == [] {
      NoRows();
    } else {
      SaysText(detail);
      SaysStyled(Div, look, EntryTextStyle, [Said(detail)], NonEmpty(detail), []);
      EntryTextIsNested(detail, look);
    }
  }

  function LinkWord(link: Option<string>): seq<string> {
    if link.Some? && link.value != [] then ["Open in WhaleWatch"] else []
  }

  lemma {:induction false} EntryLinkSays(link: Option<string>, look: Look)
    requires Quotable(look)
    ensures Rows(EntryLinkPieces(link, look), LinkWord(link), BlockLinks(Entry([], [], link)))
  {
    if link.None? || link.value == [] {
      NoRows();
    } else {
      EntryLinkedSays(link.value, look);
    }
  }

  lemma {:induction false} EntryLinkIsNested(url: string, look: Look)
    requires url != []
    ensures EntryLinkPieces(Some(url), look)
            == Around(Div, StyleAttr(look, EntryLinkRowStyle), LinkTo(url, look, EntryLinkStyle, [Chars("Open in WhaleWatch")]))
  {
  }

  lemma {:induction false} EntryLinkedSays(url: string, look: Look)
    requires Quotable(look) && url != []
    ensures Rows(EntryLinkPieces(Some(url), look), ["Open in WhaleWatch"], [url])
  {
    var a := LinkTo(url, look, EntryLinkStyle, [Chars("Open in WhaleWatch")]);
    OpenInIsSaid();
    SaysLink(url, look, EntryLinkStyle, [Chars("Open in WhaleWatch")], ["Open in WhaleWatch"]);
    SaysStyled(Div, look, EntryLinkRowStyle, a, ["Open in WhaleWatch"], [url]);
    EntryLinkIsNested(url, look);
  }

  function EntryTitle(title: string, look: Look): seq<Piece> {
    Around(Div, StyleAttr(look, EntryTitleStyle), [Said(title)])
  }

  lemma {:induction false} EntryIsNested(title: string, detail: string, link: Option<string>, look: Look)
    ensures EntryPieces(title, detail, link, look)
            == Cell(look, EntryStyle, EntryTitle(title, look) + EntryTextPieces(detail, look) + EntryLinkPieces(link, look))
  {
  }

  lemma {:induction false} RowsJoinThree(a: seq<Piece>, aWords: seq<string>, b: seq<Piece>, bWords: seq<string>,
                                         c: seq<Piece>, cWords: seq<string>, links: seq<string>)
    requires Rows(a, aWords, []) && Rows(b, bWords, []) && Rows(c, cWords, links)
    ensures Rows(a + b + c, aWords + bWords + cWords, links)
  {
    RowsJoin(a, aWords, [], b, bWords, []);
    RowsJoin(a + b, aWords + bWords, [] + [], c, cWords, links);
    assert [] + [] + links == links;
  }

  lemma {:induction false} EntrySays(title: string, detail: string, link: Option<string>, look: Look)
    requires Quotable(look)
    ensures var entry := Entry(title, detail, link);
            Rows(EntryPieces(title, detail, link, look), BlockWords(entry), BlockLinks(entry))
  {
    var bold, text, open := EntryTitle(title, look), EntryTextPieces(detail, look), EntryLinkPieces(link, look);
    var words, more, word, to := NonEmpty(title), NonEmpty(detail), LinkWord(link), BlockLinks(Entry([], [], link));
    SaysText(title);
    SaysStyled(Div, look, EntryTitleStyle, [Said(title)], words, []);
    EntryTextSays(detail, look);
    EntryLinkSays(link, look);
    RowsJoinThree(bold, words, text, more, open, word, to);
    SaysCell(look, EntryStyle, bold + text + open, words + more + word, to);
    EntryIsNested(title, detail, link, look);
  }

  /** A block's rows say what the block says. */
  lemma {:induction false} BlockSays(block: Block, look: Look)
    requires Quotable(look)
    ensures Rows(BlockPieces(block, look), BlockWords(block), BlockLinks(block))
  {
    match block {
      case Paragraph(text) => ParagraphSays(text, look);
      case Button(caption, url) => ButtonSays(caption, url, look);
      case Entry(title, detail, link) => EntrySays(title, detail, link, look);
    }
  }

  function FooterWords(line: FooterLine): seq<string> {
    match line
    case Plain(text) => NonEmpty(text)
    case Link(caption, _) => NonEmpty(caption)
  }

  function FooterLinks(line: FooterLine): seq<string> {
    if line.Link? then [line.url] else []
  }

  lemma {:induction false} FooterTextIsNested(text: string, look: Look)
    ensures FooterPieces(Plain(text), look) == Cell(look, FooterRowStyle, [Said(text)])
  {
  }

  lemma {:induction false} FooterSays(line: FooterLine, look: Look)
    requires Quotable(look)
    ensures Rows(FooterPieces(line, look), FooterWords(line), FooterLinks(line))
  {
    match line {
      case Plain(text) =>
        SaysText(text);
        SaysCell(look, FooterRowStyle, [Said(text)], NonEmpty(text), []);
        FooterTextIsNested(text, look);
      case Link(caption, url) =>
        FooterLinkSays(caption, url, look);
    }
  }

  lemma {:induction false} FooterLinkIsNested(caption: string, url: string, look: Look)
    ensures FooterPieces(Link(caption, url), look) == Cell(look, FooterRowStyle, LinkTo(url, look, FooterLinkStyle, [Said(caption)]))
  {
  }

  lemma {:induction false} FooterLinkSays(caption: string, url: string, look: Look)
    requires Quotable(look)
    ensures Rows(FooterPieces(Link(caption, url), look), NonEmpty(caption), [url])
  {
    var words, link := NonEmpty(caption), LinkTo(url, look, FooterLinkStyle, [Said(caption)]);
    SaysText(caption);
    SaysLink(url, look, FooterLinkStyle, [Said(caption)], words);
    SaysCell(look, FooterRowStyle, link, words, [url]);
    FooterLinkIsNested(caption, url, look);
  }

  // ----- all of it -----

  function AllWords(blocks: seq<Block>): seq<string> {
    if blocks == [] then [] else BlockWords(blocks[0]) + AllWords(blocks[1..])
  }

  function AllLinks(blocks: seq<Block>): seq<string> {
    if blocks == [] then [] else BlockLinks(blocks[0]) + AllLinks(blocks[1..])
  }

  function AllFooterWords(footer: seq<FooterLine>): seq<string> {
    if footer == [] then [] else FooterWords(footer[0]) + AllFooterWords(footer[1..])
  }

  function AllFooterLinks(footer: seq<FooterLine>): seq<string> {
    if footer == [] then [] else FooterLinks(footer[0]) + AllFooterLinks(footer[1..])
  }

  lemma {:induction false} BlocksSay(blocks: seq<Block>, look: Look)
    requires Quotable(look)
    ensures Rows(AllBlocks(blocks, look), AllWords(blocks), AllLinks(blocks))
  {
    if blocks == [] {
      NoRows();
    } else {
      BlockSays(blocks[0], look);
      BlocksSay(blocks[1..], look);
      RowsJoin(BlockPieces(blocks[0], look), BlockWords(blocks[0]), BlockLinks(blocks[0]),
               AllBlocks(blocks[1..], look), AllWords(blocks[1..]), AllLinks(blocks[1..]));
    }
  }

  lemma {:induction false} FootersSay(footer: seq<FooterLine>, look: Look)
    requires Quotable(look)
    ensures Rows(AllFooter(footer, look), AllFooterWords(footer), AllFooterLinks(footer))
  {
    if footer == [] {
      NoRows();
    } else {
      FooterSays(footer[0], look);
      FootersSay(footer[1..], look);
      RowsJoin(FooterPieces(footer[0], look), FooterWords(footer[0]), FooterLinks(footer[0]),
               AllFooter(footer[1..], look), AllFooterWords(footer[1..]), AllFooterLinks(footer[1..]));
    }
  }

  function Brand(look: Look): seq<Piece> {
    Cell(look, BrandStyle, [Chars("WhaleWatch")])
  }

  lemma {:induction false} CardIsNested(rows: seq<Piece>, look: Look)
    ensures CardStart(look) + rows + CardEnd(look)
            == Around(Table, WideAttrs(look, CardStyle), Brand(look) + rows + Cell(look, GapStyle, []))
  {
  }

  lemma {:induction false} RowsThenGap(a: seq<Piece>, words: seq<string>, links: seq<string>, gap: seq<Piece>)
    requires Rows(a, words, links) && Rows(gap, [], [])
    ensures Rows(a + gap, words, links)
  {
    RowsJoin(a, words, links, gap, [], []);
    assert words + [] == words && links + [] == links;
  }

  lemma {:induction false} BetweenRows(a: seq<Piece>, aWords: seq<string>, b: seq<Piece>, bWords: seq<string>, links: seq<string>, gap: seq<Piece>)
    requires Rows(a, aWords, []) && Rows(b, bWords, links) && Rows(gap, [], [])
    ensures Rows(a + b + gap, aWords + bWords, links)
  {
    RowsJoin(a, aWords, [], b, bWords, links);
    assert [] + links == links;
    RowsThenGap(a + b, aWords + bWords, links, gap);
  }

  function Card(blocks: seq<Block>, look: Look): seq<Piece> {
    CardStart(look) + AllBlocks(blocks, look) + CardEnd(look)
  }

  lemma {:induction false} CardSays(blocks: seq<Block>, look: Look)
    requires Quotable(look)
    ensures Rows(Card(blocks, look), ["WhaleWatch"] + AllWords(blocks), AllLinks(blocks))
  {
    var rows, words, links := AllBlocks(blocks, look), AllWords(blocks), AllLinks(blocks);
    NoRows();
    BrandIsSaid();
    SaysCell(look, BrandStyle, [Chars("WhaleWatch")], ["WhaleWatch"], []);
    SaysCell(look, GapStyle, [], [], []);
    BlocksSay(blocks, look);
    BetweenRows(Brand(look), ["WhaleWatch"], rows, words, links, Cell(look, GapStyle, []));
    SaysTables(look, CardStyle, Brand(look) + rows + Cell(look, GapStyle, []), ["WhaleWatch"] + words, links);
    CardIsNested(rows, look);
  }

  function Foot(footer: seq<FooterLine>, look: Look): seq<Piece> {
    FootStart(look) + AllFooter(footer, look) + [Close(Table)]
  }

  lemma {:induction false} FootIsNested(rows: seq<Piece>, look: Look)
    ensures FootStart(look) + rows + [Close(Table)]
            == Around(Table, WideAttrs(look, FootStyle), Cell(look, FootGapStyle, []) + rows)
  {
  }

  lemma {:induction false} FootSays(footer: seq<FooterLine>, look: Look)
    requires Quotable(look)
    ensures Rows(Foot(footer, look), AllFooterWords(footer), AllFooterLinks(footer))
  {
    var rows, words, links := AllFooter(footer, look), AllFooterWords(footer), AllFooterLinks(footer);
    NoRows();
    SaysCell(look, FootGapStyle, [], [], []);
    FootersSay(footer, look);
    RowsJoin(Cell(look, FootGapStyle, []), [], [], rows, words, links);
    assert [] + words == words && [] + links == links;
    SaysTables(look, FootStyle, Cell(look, FootGapStyle, []) + rows, words, links);
    FootIsNested(rows, look);
  }

  lemma {:induction false} MetaSays(attrs: seq<Attr>)
    requires Sane(attrs)
    ensures Rows([Open(Meta, attrs)], [], [])
  {
    SaysNothing(attrs);
  }

  lemma {:induction false} CharsetIsSane()
    ensures Sane([Attr("charset", "utf-8")])
  {
  }

  lemma {:induction false} ViewportIsSane(look: Look)
    requires Quotable(look)
    ensures Sane([Attr("name", "viewport"), Attr("content", look(Viewport))])
  {
    assert '"' !in "name" && '>' !in "name";
    assert '"' !in "content" && '>' !in "content";
    assert '"' !in "viewport";
  }

  lemma {:induction false} SchemeIsSane()
    ensures Sane([Attr("name", "color-scheme"), Attr("content", "light")])
  {
    assert '"' !in "name" && '>' !in "name";
    assert '"' !in "content" && '>' !in "content";
    assert '"' !in "color-scheme";
    assert '"' !in "light";
  }

  lemma {:induction false} LangIsSane()
    ensures Sane([Attr("lang", "en")])
  {
  }

  lemma {:induction false} AlignIsSane(look: Look)
    requires Quotable(look)
    ensures Sane([Attr("align", "center"), Attr("style", look(MarginStyle))])
  {
    assert '"' !in "align" && '>' !in "align";
    assert '"' !in "center";
    StyleIsSane(look, MarginStyle);
    assert StyleAttr(look, MarginStyle)[0] == Attr("style", look(MarginStyle));
  }

  function Metas(look: Look): seq<Piece> {
    [Open(Meta, [Attr("charset", "utf-8")])]
    + [Open(Meta, [Attr("name", "viewport"), Attr("content", look(Viewport))])]
    + [Open(Meta, [Attr("name", "color-scheme"), Attr("content", "light")])]
  }

  lemma {:induction false} MetasSay(look: Look)
    requires Quotable(look)
    ensures Rows(Metas(look), [], [])
  {
    CharsetIsSane();
    ViewportIsSane(look);
    SchemeIsSane();
    var first, second := [Open(Meta, [Attr("charset", "utf-8")])], [Open(Meta, [Attr("name", "viewport"), Attr("content", look(Viewport))])];
    var third := [Open(Meta, [Attr("name", "color-scheme"), Attr("content", "light")])];
    MetaSays([Attr("charset", "utf-8")]);
    MetaSays([Attr("name", "viewport"), Attr("content", look(Viewport))]);
    MetaSays([Attr("name", "color-scheme"), Attr("content", "light")]);
    RowsThenGap(first, [], [], second);
    RowsThenGap(first + second, [], [], third);
  }

  function TitleOf(subject: string): seq<Piece> {
    Around(Title, [], [Said(subject)])
  }

  function HeadOf(subject: string, look: Look): seq<Piece> {
    Around(Head, [], Metas(look) + TitleOf(subject))
  }

  lemma {:induction false} HeadSays(subject: string, look: Look)
    requires Quotable(look)
    ensures Rows(HeadOf(subject, look), NonEmpty(subject), [])
  {
    var words := NonEmpty(subject);
    SaysText(subject);
    SaysAround(Title, [], [Said(subject)], words, []);
    MetasSay(look);
    RowsJoin(Metas(look), [], [], TitleOf(subject), words, []);
    assert [] + words == words;
    SaysAround(Head, [], Metas(look) + TitleOf(subject), words, []);
  }

  function Hidden(preheader: string, look: Look): seq<Piece> {
    Around(Div, StyleAttr(look, HiddenStyle), [Said(preheader)])
  }

  function Margin(look: Look): seq<Attr> {
    [Attr("align", "center"), Attr("style", look(MarginStyle))]
  }

  function Sheet(inner: seq<Piece>, look: Look): seq<Piece> {
    Around(Table, WideAttrs(look, SheetStyle), Around(Tr, [], Around(Td, Margin(look), inner)))
  }

  function Page(subject: string, preheader: string, inner: seq<Piece>, look: Look): seq<Piece> {
    [Doctype] + Around(Html, [Attr("lang", "en")],
                       HeadOf(subject, look) + Around(Body, StyleAttr(look, PageStyle), Hidden(preheader, look) + Sheet(inner, look)))
  }

  lemma {:induction false} SheetSays(inner: seq<Piece>, words: seq<string>, links: seq<string>, look: Look)
    requires Quotable(look) && Says(inner, words, links)
    ensures Rows(Sheet(inner, look), words, links)
  {
    AlignIsSane(look);
    SaysAround(Td, Margin(look), inner, words, links);
    SaysAround(Tr, [], Around(Td, Margin(look), inner), words, links);
    SaysTables(look, SheetStyle, Around(Tr, [], Around(Td, Margin(look), inner)), words, links);
  }

  lemma {:induction false} RowsAfter(a: seq<Piece>, aWords: seq<string>, b: seq<Piece>, bWords: seq<string>, links: seq<string>)
    requires Rows(a, aWords, []) && Rows(b, bWords, links)
    ensures Rows(a + b, aWords + bWords, links)
  {
    RowsJoin(a, aWords, [], b, bWords, links);
    assert [] + links == links;
  }

  lemma {:induction false} PageSays(subject: string, preheader: string, inner: seq<Piece>, words: seq<string>, links: seq<string>, look: Look)
    requires Quotable(look) && Says(inner, words, links)
    ensures Rows(Page(subject, preheader, inner, look), NonEmpty(subject) + (NonEmpty(preheader) + words), links)
  {
    var hidden, sheet := Hidden(preheader, look), Sheet(inner, look);
    var body := Around(Body, StyleAttr(look, PageStyle), hidden + sheet);
    var inBody, all := NonEmpty(preheader) + words, NonEmpty(subject) + (NonEmpty(preheader) + words);
    SaysText(preheader);
    SaysStyled(Div, look, HiddenStyle, [Said(preheader)], NonEmpty(preheader), []);
    SheetSays(inner, words, links, look);
    RowsAfter(hidden, NonEmpty(preheader), sheet, words, links);
    SaysStyled(Body, look, PageStyle, hidden + sheet, inBody, links);
    HeadSays(subject, look);
    RowsAfter(HeadOf(subject, look), NonEmpty(subject), body, inBody, links);
    HtmlSays(HeadOf(subject, look) + body, all, links);
  }

  lemma {:induction false} HtmlSays(inner: seq<Piece>, words: seq<string>, links: seq<string>)
    requires Says(inner, words, links)
    ensures Rows([Doctype] + Around(Html, [Attr("lang", "en")], inner), words, links)
  {
    LangIsSane();
    SaysAround(Html, [Attr("lang", "en")], inner, words, links);
    SaysNothing([]);
    RowsAfter([Doctype], [], Around(Html, [Attr("lang", "en")], inner), words, links);
    assert [] + words == words;
  }

  /** An end taken in: what is between an opening and a closing. */
  lemma {:induction false} Peel(before: seq<Piece>, open: seq<Piece>, inner: seq<Piece>, close: seq<Piece>, after: seq<Piece>)
    ensures before + open + inner + (close + after) == before + (open + inner + close) + after
  {
  }

  lemma {:induction false} BottomIs()
    ensures BOTTOM == [Close(Td)] + ([Close(Tr)] + ([Close(Table)] + ([Close(Body)] + ([Close(Html)] + []))))
  {
  }

  lemma {:induction false} TopIs(preheader: string, look: Look)
    ensures TopPieces(preheader, look)
            == [Open(Body, StyleAttr(look, PageStyle))] + Hidden(preheader, look)
               + [Open(Table, WideAttrs(look, SheetStyle))] + [Open(Tr, [])] + [Open(Td, Margin(look))]
  {
  }

  lemma {:induction false} HeadIs(subject: string, look: Look)
    ensures HeadPieces(subject, look) == [Doctype] + [Open(Html, [Attr("lang", "en")])] + HeadOf(subject, look)
  {
  }

  lemma {:induction false} Prefixes(doctype: seq<Piece>, html: seq<Piece>, head: seq<Piece>, body: seq<Piece>, hidden: seq<Piece>,
                                    table: seq<Piece>, tr: seq<Piece>, td: seq<Piece>, inner: seq<Piece>, foot: seq<Piece>, bottom: seq<Piece>)
    ensures doctype + html + head + (body + hidden + table + tr + td) + inner + foot + bottom
            == doctype + html + head + body + hidden + table + tr + td + (inner + foot) + bottom
  {
  }

  lemma {:induction false} PageIsNested(subject: string, preheader: string, blocks: seq<Block>, footer: seq<FooterLine>, look: Look)
    ensures Pieces(subject, blocks, footer, preheader, look) == Page(subject, preheader, Card(blocks, look) + Foot(footer, look), look)
  {
    var doctype, html, head := [Doctype], [Open(Html, [Attr("lang", "en")])], HeadOf(subject, look);
    var body, hidden := [Open(Body, StyleAttr(look, PageStyle))], Hidden(preheader, look);
    var table, tr, td := [Open(Table, WideAttrs(look, SheetStyle))], [Open(Tr, [])], [Open(Td, Margin(look))];
    var card, foot := Card(blocks, look), Foot(footer, look);
    var endTable := [Close(Table)] + ([Close(Body)] + ([Close(Html)] + []));
    HeadIs(subject, look);
    TopIs(preheader, look);
    BottomIs();
    Prefixes(doctype, html, head, body, hidden, table, tr, td, card, foot, BOTTOM);
    var before := doctype + html + head + body + hidden + table;
    var cell := td + (card + foot) + [Close(Td)];
    Peel(before + tr, td, card + foot, [Close(Td)], [Close(Tr)] + endTable);
    Peel(before, tr, cell, [Close(Tr)], endTable);
    NestOut(doctype, html, head, body, hidden, table, tr + cell + [Close(Tr)]);
  }

  lemma {:induction false} NestOut(doctype: seq<Piece>, html: seq<Piece>, head: seq<Piece>, body: seq<Piece>, hidden: seq<Piece>,
                                   table: seq<Piece>, row: seq<Piece>)
    ensures doctype + html + head + body + hidden + table + row + ([Close(Table)] + ([Close(Body)] + ([Close(Html)] + [])))
            == doctype + (html + (head + (body + (hidden + (table + row + [Close(Table)])) + [Close(Body)])) + [Close(Html)])
  {
  }

  /** For every subject, block, footer line and preheader, whatever characters they hold: the HTML is scanned as the
      template's tags, well nested, around the message's own strings, read back whole, in order, and the
      template's few words; and its links lead, in order, where the message's do. */
  lemma {:induction false} HtmlReadsBack(subject: string, blocks: seq<Block>, footer: seq<FooterLine>, preheader: string, look: Look)
    requires Quotable(look)
    ensures var pieces, tokens := Pieces(subject, blocks, footer, preheader, look), Tokens(HtmlBody(subject, blocks, footer, preheader, look));
            && tokens == AsTokens(pieces)
            && Nest(pieces, []) == Some([])
            && Shown(tokens) == NonEmpty(subject) + (NonEmpty(preheader) + (["WhaleWatch"] + AllWords(blocks) + AllFooterWords(footer)))
            && Links(tokens) == AllLinks(blocks) + AllFooterLinks(footer)
  {
    var pieces := Pieces(subject, blocks, footer, preheader, look);
    CardSays(blocks, look);
    FootSays(footer, look);
    RowsJoin(Card(blocks, look), ["WhaleWatch"] + AllWords(blocks), AllLinks(blocks),
             Foot(footer, look), AllFooterWords(footer), AllFooterLinks(footer));
    PageSays(subject, preheader, Card(blocks, look) + Foot(footer, look),
             ["WhaleWatch"] + AllWords(blocks) + AllFooterWords(footer), AllLinks(blocks) + AllFooterLinks(footer), look);
    PageIsNested(subject, preheader, blocks, footer, look);
    ScannedAsWritten(pieces);
    TokensSayTheSame(pieces);
  }

  // ----- the text body has it all -----

  ghost predicate Has(whole: string, part: string) {
    exists before: string, after: string :: whole == before + part + after
  }

  lemma {:induction false} HasWithin(before: string, whole: string, after: string, part: string)
    requires Has(whole, part)
    ensures Has(before + whole + after, part)
  {
    var b, a :| whole == b + part + a;
    assert before + whole + after == (before + b) + part + (a + after);
  }

  lemma {:induction false} HasItself(part: string)
    ensures Has(part, part)
  {
    assert part == [] + part + [];
  }

  lemma {:induction false} GlueHas(parts: seq<string>, between: string, i: nat, part: string)
    requires i < |parts| && Has(parts[i], part)
    ensures Has(Glue(parts, between), part)
  {
    if |parts| > 1 {
      var rest := Glue(parts[1..], between);
      if i == 0 {
        HasWithin([], parts[0], between + rest, part);
        assert [] + parts[0] + (between + rest) == Glue(parts, between);
      } else {
        GlueHas(parts[1..], between, i - 1, part);
        HasWithin(parts[0] + between, rest, [], part);
        assert parts[0] + between + rest + [] == Glue(parts, between);
      }
    }
  }

  /** The strings of a block, and of a footer line. */
  function Strings(block: Block): set<string> {
    match block
    case Paragraph(text) => {text}
    case Button(caption, url) => {caption, url}
    case Entry(title, detail, link) => {title, detail} + (if link.Some? then {link.value} else {})
  }

  function FooterStrings(line: FooterLine): set<string> {
    match line
    case Plain(text) => {text}
    case Link(caption, url) => {caption, url}
  }

  lemma {:induction false} HasNothing(whole: string)
    ensures Has(whole, [])
  {
    assert whole == whole + [] + [];
  }

  lemma {:induction false} PairHas(caption: string, url: string)
    ensures Has(caption + ": " + url, caption) && Has(caption + ": " + url, url)
  {
    HasItself(caption);
    HasItself(url);
    HasWithin([], caption, ": " + url, caption);
    HasWithin(caption + ": ", url, [], url);
    assert [] + caption + (": " + url) == caption + ": " + url;
    assert caption + ": " + url + [] == caption + ": " + url;
  }

  lemma {:induction false} BlockTextHas(block: Block, part: string)
    requires part in Strings(block)
    ensures Has(TextOf(block), part)
  {
    HasItself(part);
    match block {
      case Paragraph(_) =>
      case Button(caption, url) => PairHas(caption, url);
      case Entry(title, detail, link) =>
        if part == [] {
          HasNothing(TextOf(block));
        } else {
          var lines := NonEmpty(title) + NonEmpty(detail) + (if link.Some? then NonEmpty(link.value) else []);
          assert part in lines;
          var i: nat :| i < |lines| && lines[i] == part;
          GlueHas(lines, "\n", i, part);
        }
    }
  }

  lemma {:induction false} TextsAre(blocks: seq<Block>, i: nat)
    requires i < |blocks|
    ensures i < |TextsOf(blocks)| && TextsOf(blocks)[i] == TextOf(blocks[i])
  {
    if i > 0 {
      TextsAre(blocks[1..], i - 1);
    }
  }

  lemma {:induction false} FooterTextsAre(footer: seq<FooterLine>, i: nat)
    requires i < |footer|
    ensures i < |FooterTexts(footer)| && FooterTexts(footer)[i] == FooterText(footer[i])
  {
    if i > 0 {
      FooterTextsAre(footer[1..], i - 1);
    }
  }

  /** Every string and every link of every block is in the text body, whole. */
  lemma {:induction false} TextHasEveryString(blocks: seq<Block>, footer: seq<FooterLine>, i: nat, part: string)
    requires i < |blocks| && part in Strings(blocks[i])
    ensures Has(TextBody(blocks, footer), part)
  {
    var body, rest := Glue(TextsOf(blocks), "\n\n"), "\n\n--\n" + Glue(FooterTexts(footer), "\n") + "\n";
    TextsAre(blocks, i);
    BlockTextHas(blocks[i], part);
    GlueHas(TextsOf(blocks), "\n\n", i, part);
    HasWithin([], body, rest, part);
    assert [] + body + rest == TextBody(blocks, footer);
  }

  lemma {:induction false} TextHasEveryFooterString(blocks: seq<Block>, footer: seq<FooterLine>, i: nat, part: string)
    requires i < |footer| && part in FooterStrings(footer[i])
    ensures Has(TextBody(blocks, footer), part)
  {
    var lines := Glue(FooterTexts(footer), "\n");
    FooterTextsAre(footer, i);
    HasItself(part);
    if footer[i].Link? {
      PairHas(footer[i].caption, footer[i].url);
    }
    GlueHas(FooterTexts(footer), "\n", i, part);
    HasWithin(Glue(TextsOf(blocks), "\n\n") + "\n\n--\n", lines, "\n", part);
  }

  /** So a reader of the text alone misses nothing: whatever the HTML shows of a block, but for the template's two
      phrases, and wherever it leads, the text has. */
  lemma {:induction false} TextSaysWhatHtmlDoes(blocks: seq<Block>, footer: seq<FooterLine>, i: nat, said: string)
    requires i < |blocks| && (said in BlockWords(blocks[i]) || said in BlockLinks(blocks[i]))
    requires said != "Or open this link: " && said != "Open in WhaleWatch"
    ensures Has(TextBody(blocks, footer), said)
  {
    SaidIsAString(blocks[i], said);
    TextHasEveryString(blocks, footer, i, said);
  }

  lemma {:induction false} SaidIsAString(block: Block, said: string)
    requires said in BlockWords(block) || said in BlockLinks(block)
    requires said != "Or open this link: " && said != "Open in WhaleWatch"
    ensures said in Strings(block)
  {
  }

  // ----- the text, line by line -----

  /** A block's lines: a paragraph's one, a button's with its address, and those an entry has. */
  function BlockLines(block: Block): (lines: seq<string>)
    ensures lines != []
  {
    match block
    case Paragraph(text) => [text]
    case Button(caption, url) => [caption + ": " + url]
    case Entry(title, detail, link) =>
      var lines := NonEmpty(title) + NonEmpty(detail) + (if link.Some? then NonEmpty(link.value) else []);
      if lines == [] then [""] else lines
  }

  /** The blocks' lines, an empty one between two. */
  function BodyLines(blocks: seq<Block>): (lines: seq<string>)
    ensures lines != []
  {
    if blocks == [] then [""]
    else if |blocks| == 1 then BlockLines(blocks[0])
    else BlockLines(blocks[0]) + [""] + BodyLines(blocks[1..])
  }

  function FooterLines(footer: seq<FooterLine>): (lines: seq<string>)
    ensures lines != []
  {
    if footer == [] then [""]
    else
      var line := match footer[0] case Plain(text) => text case Link(caption, url) => caption + ": " + url;
      if |footer| == 1 then [line] else [line] + FooterLines(footer[1..])
  }

  lemma {:induction false} GlueJoins(a: seq<string>, b: seq<string>, between: string)
    requires a != [] && b != []
    ensures Glue(a + b, between) == Glue(a, between) + between + Glue(b, between)
  {
    if |a| == 1 {
      assert (a + b)[1..] == b;
    } else {
      assert (a + b)[1..] == a[1..] + b;
      GlueJoins(a[1..], b, between);
      Regrouped(a[0] + between, Glue(a[1..], between), between + Glue(b, between));
      Regrouped(Glue(a[1..], between), between, Glue(b, between));
      Regrouped(a[0] + between + Glue(a[1..], between), between, Glue(b, between));
    }
  }

  lemma {:induction false} Regrouped(x: string, y: string, z: string)
    ensures x + y + z == x + (y + z)
  {
  }

  lemma {:induction false} BlockIsLines(block: Block)
    ensures Glue(BlockLines(block), "\n") == TextOf(block)
  {
  }

  lemma {:induction false} AnEmptyLine(a: seq<string>, b: seq<string>)
    requires a != [] && b != []
    ensures Glue(a + [""] + b, "\n") == Glue(a, "\n") + "\n\n" + Glue(b, "\n")
  {
    GlueJoins(a + [""], b, "\n");
    GlueJoins(a, [""], "\n");
    assert Glue(a, "\n") + "\n" + "" == Glue(a, "\n") + "\n";
    assert Glue(a, "\n") + "\n" + "\n" == Glue(a, "\n") + "\n\n";
  }

  lemma {:induction false} BodyIsLines(blocks: seq<Block>)
    ensures Glue(BodyLines(blocks), "\n") == Glue(TextsOf(blocks), "\n\n")
  {
    if blocks != [] {
      BlockIsLines(blocks[0]);
      if |blocks| == 1 {
        assert TextsOf(blocks) == [TextOf(blocks[0])] + TextsOf(blocks[1..]);
        assert TextsOf(blocks[1..]) == [];
      } else {
        BodyIsLines(blocks[1..]);
        AnEmptyLine(BlockLines(blocks[0]), BodyLines(blocks[1..]));
        assert TextsOf(blocks)[1..] == TextsOf(blocks[1..]);
      }
    }
  }

  lemma {:induction false} FooterIsLines(footer: seq<FooterLine>)
    ensures Glue(FooterLines(footer), "\n") == Glue(FooterTexts(footer), "\n")
  {
    if footer != [] {
      assert FooterTexts(footer)[1..] == FooterTexts(footer[1..]);
      if |footer| > 1 {
        FooterIsLines(footer[1..]);
        assert FooterLines(footer)[1..] == FooterLines(footer[1..]);
      } else {
        assert FooterTexts(footer[1..]) == [];
      }
    }
  }

  /** The text body, line by line: the blocks' lines, an empty one between two blocks; then an empty line, two dashes,
      the footer's lines and the end of the last. */
  lemma {:induction false} TextIsLines(blocks: seq<Block>, footer: seq<FooterLine>)
    ensures TextBody(blocks, footer) == Glue(BodyLines(blocks) + [""] + ["--"] + FooterLines(footer) + [""], "\n")
  {
    var body, foot := BodyLines(blocks), FooterLines(footer);
    BodyIsLines(blocks);
    FooterIsLines(footer);
    AnEmptyLine(body, ["--"]);
    GlueJoins(body + [""] + ["--"], foot, "\n");
    GlueJoins(body + [""] + ["--"] + foot, [""], "\n");
    DashesAndEnd(Glue(body, "\n"), Glue(foot, "\n"));
  }

  lemma {:induction false} DashesAndEnd(body: string, foot: string)
    ensures body + "\n\n" + "--" + "\n" + foot + "\n" + "" == body + "\n\n--\n" + foot + "\n"
  {
    assert "\n\n" + "--" + "\n" == "\n\n--\n";
    assert body + "\n\n" + "--" + "\n" == body + "\n\n--\n";
  }
}
