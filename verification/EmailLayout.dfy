/** One email, two bodies (app/accounts/email_layout.py): the HTML, read back by a scanner of tags and text, is the
    template's and says the blocks' strings; the text says all of it. */
module EmailLayout {
  import opened Wrappers

  datatype Block =
    | Paragraph(text: string)
    | Button(caption: string, url: string)
    | Entry(title: string, detail: string, link: Option<string>)

  datatype FooterLine = Plain(text: string) | Link(caption: string, url: string)

  // ----- escaping -----

  /** html.escape, one character at a time: & first, so no character of an entity is escaped again. */
  function EscapeChar(c: char): string {
    if c == '&' then "&amp;"
    else if c == '<' then "&lt;"
    else if c == '>' then "&gt;"
    else if c == '"' then "&quot;"
    else if c == '\'' then "&#x27;"
    else [c]
  }

  function Escape(s: string): string {
    if s == [] then [] else EscapeChar(s[0]) + Escape(s[1..])
  }

  /** What a reader of HTML makes of the five entities. */
  function Unescape(s: string): string {
    if s == [] then []
    else if "&amp;" <= s then "&" + Unescape(s[5..])
    else if "&lt;" <= s then "<" + Unescape(s[4..])
    else if "&gt;" <= s then ">" + Unescape(s[4..])
    else if "&quot;" <= s then "\"" + Unescape(s[6..])
    else if "&#x27;" <= s then "'" + Unescape(s[6..])
    else [s[0]] + Unescape(s[1..])
  }

  lemma {:induction false} Differs(start: string, s: string, i: nat)
    requires i < |start| && i < |s| && start[i] != s[i]
    ensures !(start <= s)
  {
  }

  lemma {:induction false} CharReadsBack(c: char, rest: string)
    ensures Unescape(EscapeChar(c) + rest) == [c] + Unescape(rest)
  {
    var s := EscapeChar(c) + rest;
    assert s[|EscapeChar(c)|..] == rest;
    if c == '&' {
      assert "&amp;" <= s;
    } else if c == '<' {
      Differs("&amp;", s, 1);
      assert "&lt;" <= s;
    } else if c == '>' {
      Differs("&amp;", s, 1);
      Differs("&lt;", s, 1);
      assert "&gt;" <= s;
    } else if c == '"' {
      Differs("&amp;", s, 1);
      Differs("&lt;", s, 1);
      Differs("&gt;", s, 1);
      assert "&quot;" <= s;
    } else if c == '\'' {
      Differs("&amp;", s, 1);
      Differs("&lt;", s, 1);
      Differs("&gt;", s, 1);
      Differs("&quot;", s, 1);
      assert "&#x27;" <= s;
    } else {
      Differs("&amp;", s, 0);
      Differs("&lt;", s, 0);
      Differs("&gt;", s, 0);
      Differs("&quot;", s, 0);
      Differs("&#x27;", s, 0);
    }
  }

  /** Whatever a string is, it is read back from its escaping as it was. */
  lemma {:induction false} EscapingReadsBack(s: string)
    ensures Unescape(Escape(s)) == s
  {
    if s != [] {
      CharReadsBack(s[0], Escape(s[1..]));
      EscapingReadsBack(s[1..]);
    }
  }

  lemma {:induction false} CharIsPlain(c: char)
    ensures '<' !in EscapeChar(c) && '>' !in EscapeChar(c) && '"' !in EscapeChar(c) && EscapeChar(c) != []
  {
  }

  /** And nothing in it can begin or end a tag, or end an attribute. */
  lemma {:induction false} EscapedIsPlain(s: string)
    ensures '<' !in Escape(s) && '>' !in Escape(s) && '"' !in Escape(s) && (Escape(s) == [] <==> s == [])
  {
    if s != [] {
      CharIsPlain(s[0]);
      EscapedIsPlain(s[1..]);
    }
  }

  // ----- the template -----

  /** An attribute, its value as written between the quotes. */
  datatype Attr = Attr(name: string, value: string)

  /** What the template is written of. */
  datatype Piece = Doctype | Open(tag: Tag, attrs: seq<Attr>) | Close(tag: Tag) | Chars(written: string)

  datatype Tag = Html | Head | Meta | Title | Body | Div | Table | Tr | Td | A

  function Name(tag: Tag): string {
    match tag
    case Html => "html"
    case Head => "head"
    case Meta => "meta"
    case Title => "title"
    case Body => "body"
    case Div => "div"
    case Table => "table"
    case Tr => "tr"
    case Td => "td"
    case A => "a"
  }

  /** The attribute values the template fixes: its styles, and its meta tags' contents. */
  datatype Fixed =
    | Viewport | PageStyle | HiddenStyle | SheetStyle | MarginStyle | CardStyle | BrandStyle | GapStyle | FootStyle | FootGapStyle
    | ParagraphStyle | ButtonRowStyle | ButtonBoxStyle | ButtonLinkStyle | ButtonNoteStyle | NoteLinkStyle
    | EntryStyle | EntryTitleStyle | EntryTextStyle | EntryLinkRowStyle | EntryLinkStyle | FooterRowStyle | FooterLinkStyle

  type Look = Fixed -> string

  /** The styles quote font names in single quotes, never double. */
  ghost predicate Quotable(look: Look) {
    forall part :: '"' !in look(part)
  }

  function Styled(tag: Tag, look: Look, part: Fixed): Piece {
    Open(tag, [Attr("style", look(part))])
  }

  function Said(s: string): Piece {
    Chars(Escape(s))
  }

  function Anchor(url: string, look: Look, part: Fixed): Piece {
    Open(A, [Attr("href", Escape(url)), Attr("style", look(part))])
  }

  function ParagraphPieces(text: string, look: Look): seq<Piece> {
    [Open(Tr, []), Styled(Td, look, ParagraphStyle), Said(text), Close(Td), Close(Tr)]
  }

  const BARE: seq<Attr> := [Attr("role", "presentation"), Attr("cellpadding", "0"), Attr("cellspacing", "0"), Attr("border", "0")]

  const WIDE: seq<Attr> := [Attr("role", "presentation"), Attr("width", "100%"), Attr("cellpadding", "0"), Attr("cellspacing", "0"), Attr("border", "0")]

  function ButtonPieces(caption: string, url: string, look: Look): seq<Piece> {
    [Open(Tr, []), Styled(Td, look, ButtonRowStyle),
     Open(Table, BARE), Open(Tr, []), Styled(Td, look, ButtonBoxStyle),
     Anchor(url, look, ButtonLinkStyle), Said(caption), Close(A), Close(Td), Close(Tr), Close(Table)]
    + [Styled(Div, look, ButtonNoteStyle), Chars("Or open this link: "), Anchor(url, look, NoteLinkStyle), Said(url), Close(A),
       Close(Div), Close(Td), Close(Tr)]
  }

  function EntryTextPieces(detail: string, look: Look): seq<Piece> {
    if detail == [] then [] else [Styled(Div, look, EntryTextStyle), Said(detail), Close(Div)]
  }

  function EntryLinkPieces(link: Option<string>, look: Look): seq<Piece> {
    if link.None? || link.value == [] then []
    else
      [Styled(Div, look, EntryLinkRowStyle), Anchor(link.value, look, EntryLinkStyle), Chars("Open in WhaleWatch"), Close(A),
       Close(Div)]
  }

  function EntryPieces(title: string, detail: string, link: Option<string>, look: Look): seq<Piece> {
    [Open(Tr, []), Styled(Td, look, EntryStyle), Styled(Div, look, EntryTitleStyle), Said(title), Close(Div)]
    + EntryTextPieces(detail, look) + EntryLinkPieces(link, look) + [Close(Td), Close(Tr)]
  }

  function BlockPieces(block: Block, look: Look): seq<Piece> {
    match block
    case Paragraph(text) => ParagraphPieces(text, look)
    case Button(caption, url) => ButtonPieces(caption, url, look)
    case Entry(title, detail, link) => EntryPieces(title, detail, link, look)
  }

  function FooterPieces(line: FooterLine, look: Look): seq<Piece> {
    [Open(Tr, []), Styled(Td, look, FooterRowStyle)]
    + (match line
       case Plain(text) => [Said(text)]
       case Link(caption, url) => [Anchor(url, look, FooterLinkStyle), Said(caption), Close(A)])
    + [Close(Td), Close(Tr)]
  }

  function AllBlocks(blocks: seq<Block>, look: Look): seq<Piece> {
    if blocks == [] then [] else BlockPieces(blocks[0], look) + AllBlocks(blocks[1..], look)
  }

  function AllFooter(footer: seq<FooterLine>, look: Look): seq<Piece> {
    if footer == [] then [] else FooterPieces(footer[0], look) + AllFooter(footer[1..], look)
  }

  function HeadPieces(subject: string, look: Look): seq<Piece> {
    [Doctype, Open(Html, [Attr("lang", "en")]), Open(Head, []), Open(Meta, [Attr("charset", "utf-8")]),
     Open(Meta, [Attr("name", "viewport"), Attr("content", look(Viewport))]),
     Open(Meta, [Attr("name", "color-scheme"), Attr("content", "light")]),
     Open(Title, []), Said(subject), Close(Title), Close(Head)]
  }

  function TopPieces(preheader: string, look: Look): seq<Piece> {
    [Styled(Body, look, PageStyle), Styled(Div, look, HiddenStyle), Said(preheader), Close(Div),
     Open(Table, WIDE + [Attr("style", look(SheetStyle))]), Open(Tr, []),
     Open(Td, [Attr("align", "center"), Attr("style", look(MarginStyle))])]
  }

  function CardStart(look: Look): seq<Piece> {
    [Open(Table, WIDE + [Attr("style", look(CardStyle))]),
     Open(Tr, []), Styled(Td, look, BrandStyle), Chars("WhaleWatch"), Close(Td), Close(Tr)]
  }

  function CardEnd(look: Look): seq<Piece> {
    [Open(Tr, []), Styled(Td, look, GapStyle), Close(Td), Close(Tr), Close(Table)]
  }

  function FootStart(look: Look): seq<Piece> {
    [Open(Table, WIDE + [Attr("style", look(FootStyle))]), Open(Tr, []), Styled(Td, look, FootGapStyle), Close(Td), Close(Tr)]
  }

  const BOTTOM: seq<Piece> := [Close(Td), Close(Tr), Close(Table), Close(Body), Close(Html)]

  /** html_body, in pieces. */
  function Pieces(subject: string, blocks: seq<Block>, footer: seq<FooterLine>, preheader: string, look: Look): seq<Piece> {
    HeadPieces(subject, look) + TopPieces(preheader, look)
    + (CardStart(look) + AllBlocks(blocks, look) + CardEnd(look))
    + (FootStart(look) + AllFooter(footer, look) + [Close(Table)]) + BOTTOM
  }

  function WriteAttrs(attrs: seq<Attr>): string {
    if attrs == [] then [] else " " + attrs[0].name + "=\"" + attrs[0].value + "\"" + WriteAttrs(attrs[1..])
  }

  /** What is between a tag's angle brackets. */
  function Inner(piece: Piece): string
    requires !piece.Chars?
  {
    match piece
    case Doctype => "!DOCTYPE html"
    case Open(tag, attrs) => Name(tag) + WriteAttrs(attrs)
    case Close(tag) => "/" + Name(tag)
  }

  function Write(piece: Piece): string {
    if piece.Chars? then piece.written else "<" + Inner(piece) + ">"
  }

  function WriteAll(pieces: seq<Piece>): string {
    if pieces == [] then [] else Write(pieces[0]) + WriteAll(pieces[1..])
  }

  function HtmlBody(subject: string, blocks: seq<Block>, footer: seq<FooterLine>, preheader: string, look: Look): string {
    WriteAll(Pieces(subject, blocks, footer, preheader, look))
  }

  // ----- a scanner of HTML -----

  /** What is between angle brackets, or a stretch of text as written. */
  datatype Token = Markup(inner: string) | Text(written: string)

  /** How much of the text there is before the closing bracket: one in a quoted value does not close. */
  function TagLength(s: string, quoted: bool): (n: nat)
    ensures n <= |s|
  {
    if s == [] || (s[0] == '>' && !quoted) then 0
    else 1 + TagLength(s[1..], if s[0] == '"' then !quoted else quoted)
  }

  function TextLength(s: string): (n: nat)
    ensures n <= |s|
  {
    if s == [] || s[0] == '<' then 0 else 1 + TextLength(s[1..])
  }

  function Tokens(s: string): seq<Token>
    decreases |s|
  {
    if s == [] then []
    else if s[0] == '<' then
      var n := TagLength(s[1..], false);
      [Markup(s[1..1 + n])] + Tokens(if 2 + n <= |s| then s[2 + n..] else [])
    else
      var n := TextLength(s);
      [Text(s[..n])] + Tokens(s[n..])
  }

  /** Within a tag: whether a stretch leaves the scanner in quotes, and whether it leaves it in the tag at all. */
  function QuotedAfter(s: string, quoted: bool): bool {
    if s == [] then quoted else QuotedAfter(s[1..], if s[0] == '"' then !quoted else quoted)
  }

  predicate StaysIn(s: string, quoted: bool) {
    s == [] || (!(s[0] == '>' && !quoted) && StaysIn(s[1..], if s[0] == '"' then !quoted else quoted))
  }

  lemma {:induction false} StaysOn(a: string, b: string, quoted: bool)
    ensures StaysIn(a + b, quoted) <==> StaysIn(a, quoted) && StaysIn(b, QuotedAfter(a, quoted))
    ensures QuotedAfter(a + b, quoted) == QuotedAfter(b, QuotedAfter(a, quoted))
  {
    if a == [] {
      assert a + b == b;
    } else {
      assert (a + b)[1..] == a[1..] + b;
      StaysOn(a[1..], b, if a[0] == '"' then !quoted else quoted);
    }
  }

  lemma {:induction false} UnquotedStays(s: string, quoted: bool)
    requires '"' !in s && (quoted || '>' !in s)
    ensures StaysIn(s, quoted) && QuotedAfter(s, quoted) == quoted
  {
    if s != [] {
      UnquotedStays(s[1..], quoted);
    }
  }

  predicate Sane(attrs: seq<Attr>) {
    forall i :: 0 <= i < |attrs| ==> '"' !in attrs[i].value && '"' !in attrs[i].name && '>' !in attrs[i].name
  }

  lemma {:induction false} QuoteTurns(quoted: bool)
    ensures StaysIn("\"", quoted) && QuotedAfter("\"", quoted) == !quoted
  {
    assert "\""[1..] == "";
  }

  lemma {:induction false} AttrStays(name: string, value: string)
    requires '"' !in value && '"' !in name && '>' !in name
    ensures var attr := (" " + name + "=") + "\"" + value + "\"";
            StaysIn(attr, false) && !QuotedAfter(attr, false)
  {
    var before := " " + name + "=";
    UnquotedStays(before, false);
    UnquotedStays(value, true);
    QuoteTurns(false);
    QuoteTurns(true);
    StaysOn(before, "\"", false);
    StaysOn(before + "\"", value, false);
    StaysOn(before + "\"" + value, "\"", false);
  }

  lemma {:induction false} AttrsStay(attrs: seq<Attr>)
    requires Sane(attrs)
    ensures StaysIn(WriteAttrs(attrs), false) && !QuotedAfter(WriteAttrs(attrs), false)
  {
    if attrs != [] {
      var attr, rest := (" " + attrs[0].name + "=") + "\"" + attrs[0].value + "\"", WriteAttrs(attrs[1..]);
      AttrStays(attrs[0].name, attrs[0].value);
      AttrsStay(attrs[1..]);
      StaysOn(attr, rest, false);
      AttrGlued(" " + attrs[0].name, attrs[0].value, rest);
    }
  }

  lemma {:induction false} AttrGlued(before: string, value: string, rest: string)
    ensures before + "=\"" + value + "\"" + rest == (before + "=") + "\"" + value + "\"" + rest
  {
    assert "=\"" == "=" + "\"";
    assert before + "=\"" == before + "=" + "\"";
  }

  predicate SanePiece(piece: Piece) {
    (piece.Open? ==> Sane(piece.attrs)) && (piece.Chars? ==> '<' !in piece.written)
  }

  lemma {:induction false} NamesArePlain(tag: Tag)
    ensures '"' !in Name(tag) && '>' !in Name(tag)
  {
  }

  lemma {:induction false} InnerStays(piece: Piece)
    requires SanePiece(piece) && !piece.Chars?
    ensures StaysIn(Inner(piece), false) && !QuotedAfter(Inner(piece), false)
  {
    match piece {
      case Doctype => UnquotedStays("!DOCTYPE html", false);
      case Open(tag, attrs) =>
        NamesArePlain(tag);
        UnquotedStays(Name(tag), false);
        AttrsStay(attrs);
        StaysOn(Name(tag), WriteAttrs(attrs), false);
      case Close(tag) =>
        NamesArePlain(tag);
        UnquotedStays("/" + Name(tag), false);
    }
  }

  lemma {:induction false} TagEnds(inner: string, rest: string, quoted: bool)
    requires StaysIn(inner, quoted) && !QuotedAfter(inner, quoted)
    ensures TagLength(inner + ">" + rest, quoted) == |inner|
  {
    var s := inner + ">" + rest;
    if inner != [] {
      assert s[1..] == inner[1..] + ">" + rest;
      TagEnds(inner[1..], rest, if inner[0] == '"' then !quoted else quoted);
    } else {
      assert s[0] == '>';
    }
  }

  lemma {:induction false} MarkupIsOneToken(inner: string, rest: string)
    requires TagLength(inner + ">" + rest, false) == |inner|
    ensures Tokens("<" + inner + ">" + rest) == [Markup(inner)] + Tokens(rest)
  {
    var s := "<" + inner + ">" + rest;
    var after := s[1..];
    assert after == inner + ">" + rest;
    assert s[1..1 + |inner|] == inner;
    assert s[2 + |inner|..] == rest;
  }

  lemma {:induction false} TagIsOneToken(piece: Piece, rest: string)
    requires SanePiece(piece) && !piece.Chars?
    ensures Tokens(Write(piece) + rest) == [Markup(Inner(piece))] + Tokens(rest)
  {
    var inner := Inner(piece);
    InnerStays(piece);
    TagEnds(inner, rest, false);
    MarkupIsOneToken(inner, rest);
  }

  lemma {:induction false} TextEnds(text: string, rest: string)
    requires '<' !in text && (rest == [] || rest[0] == '<')
    ensures TextLength(text + rest) == |text|
  {
    if text == [] {
      assert text + rest == rest;
    } else {
      assert (text + rest)[1..] == text[1..] + rest;
      TextEnds(text[1..], rest);
    }
  }

  lemma {:induction false} TextIsOneToken(text: string, rest: string)
    requires '<' !in text && (rest == [] || rest[0] == '<')
    ensures Tokens(text + rest) == (if text == [] then [] else [Text(text)]) + Tokens(rest)
  {
    TextEnds(text, rest);
    if text == [] {
      assert text + rest == rest;
    } else {
      assert (text + rest)[..|text|] == text && (text + rest)[|text|..] == rest;
    }
  }

  /** The pieces as tokens: text that is empty is none. */
  function AsTokens(pieces: seq<Piece>): seq<Token> {
    if pieces == [] then []
    else
      (if !pieces[0].Chars? then [Markup(Inner(pieces[0]))]
       else if pieces[0].written == [] then []
       else [Text(pieces[0].written)])
      + AsTokens(pieces[1..])
  }

  /** Pieces whose attributes stay in their quotes and whose text begins no tag; and text stands between tags,
      never next to text. */
  predicate Fit(pieces: seq<Piece>) {
    pieces == [] ||
    (&& SanePiece(pieces[0])
     && (|pieces| > 1 && pieces[0].Chars? ==> !pieces[1].Chars?)
     && Fit(pieces[1..]))
  }

  /** What is written in pieces is scanned as those pieces: no string in them makes a tag, or unmakes one. */
  lemma {:induction false} ScannedAsWritten(pieces: seq<Piece>)
    requires Fit(pieces)
    ensures Tokens(WriteAll(pieces)) == AsTokens(pieces)
  {
    if pieces != [] {
      var rest := WriteAll(pieces[1..]);
      ScannedAsWritten(pieces[1..]);
      if pieces[0].Chars? {
        if |pieces| > 1 {
          assert Write(pieces[1])[0] == '<';
          assert rest[0] == '<';
        }
        TextIsOneToken(pieces[0].written, rest);
      } else {
        TagIsOneToken(pieces[0], rest);
      }
    }
  }

  // ----- what a reader of the tokens is shown -----

  /** The elements open after the pieces, or nothing when one is closed that is not the innermost. A meta element
      has no end tag. */
  function Nest(pieces: seq<Piece>, within: seq<Tag>): Option<seq<Tag>> {
    if pieces == [] then Some(within)
    else
      match pieces[0]
      case Open(tag, _) => Nest(pieces[1..], if tag == Meta then within else within + [tag])
      case Close(tag) =>
        if within != [] && within[|within| - 1] == tag then Nest(pieces[1..], within[..|within| - 1]) else None
      case _ => Nest(pieces[1..], within)
  }

  /** The text, read back, in order. */
  function Shown(tokens: seq<Token>): seq<string> {
    if tokens == [] then []
    else (if tokens[0].Text? then [Unescape(tokens[0].written)] else []) + Shown(tokens[1..])
  }

  function UpToQuote(s: string): (n: nat)
    ensures n <= |s|
  {
    if s == [] || s[0] == '"' then 0 else 1 + UpToQuote(s[1..])
  }

  /** Where a link's tag leads, as its attribute is read back. */
  function LeadsTo(inner: string): Option<string> {
    if "a href=\"" <= inner then Some(Unescape(inner[8..][..UpToQuote(inner[8..])])) else None
  }

  /** Where the links lead, in order. */
  function Links(tokens: seq<Token>): seq<string> {
    if tokens == [] then []
    else
      (if tokens[0].Markup? && LeadsTo(tokens[0].inner).Some? then [LeadsTo(tokens[0].inner).value] else [])
      + Links(tokens[1..])
  }

  // ----- the text body -----

  function Glue(parts: seq<string>, between: string): string {
    if parts == [] then []
    else if |parts| == 1 then parts[0]
    else parts[0] + between + Glue(parts[1..], between)
  }

  function NonEmpty(s: string): seq<string> {
    if s == [] then [] else [s]
  }

  function TextOf(block: Block): string {
    match block
    case Paragraph(text) => text
    case Button(caption, url) => caption + ": " + url
    case Entry(title, detail, link) =>
      Glue(NonEmpty(title) + NonEmpty(detail) + (if link.Some? then NonEmpty(link.value) else []), "\n")
  }

  function FooterText(line: FooterLine): string {
    match line
    case Plain(text) => text
    case Link(caption, url) => caption + ": " + url
  }

  function TextsOf(blocks: seq<Block>): seq<string> {
    if blocks == [] then [] else [TextOf(blocks[0])] + TextsOf(blocks[1..])
  }

  function FooterTexts(footer: seq<FooterLine>): seq<string> {
    if footer == [] then [] else [FooterText(footer[0])] + FooterTexts(footer[1..])
  }

  function TextBody(blocks: seq<Block>, footer: seq<FooterLine>): string {
    Glue(TextsOf(blocks), "\n\n") + "\n\n--\n" + Glue(FooterTexts(footer), "\n") + "\n"
  }
}
