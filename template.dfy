/** The page template of the PDF service and the chain of `replace` calls that
    fills its placeholders (backend/services/pdfService.js, `generateHTML` and
    `getDefaultTemplate`). */
module Template {
  import opened JsString

  /** `{{NAME}}`, the placeholder a template carries for a value. */
  function Token(name: string): string {
    "{{" + name + "}}"
  }

  /** A template seen as literal text between named placeholders. */
  datatype Piece = Text(text: string) | Slot(name: string)

  function PieceText(p: Piece): string {
    match p
    case Text(s) => s
    case Slot(n) => Token(n)
  }

  function Render(ps: seq<Piece>): string
    decreases |ps|
  {
    if ps == [] then [] else PieceText(ps[0]) + Render(ps[1..])
  }

  /** A placeholder name: non-empty and without braces. */
  predicate Bare(name: string) {
    name != [] && '{' !in name && '}' !in name
  }

  /** A piece inside which no `{{name}}` can start, whatever follows it: text
      without '{', or the placeholder of another name. */
  predicate Inert(p: Piece, name: string) {
    match p
    case Text(s) => '{' !in s
    case Slot(m) => m != name && Bare(m)
  }

  predicate AllInert(ps: seq<Piece>, name: string) {
    forall j :: 0 <= j < |ps| ==> Inert(ps[j], name)
  }

  /** The `{{...}}` filling of a template, in the order `generateHTML` applies
      it: each placeholder is replaced at its first occurrence only, and the
      inserted text is read as a replacement template (its `$` patterns apply). */
  datatype Values = Values(title: string, content: string, author: string, date: string, styles: string)

  function Fill(template: string, v: Values): (r: string)
    ensures '{' !in template ==> r == template
  {
    PlainAbsent(template, "TITLE", v.title);
    PlainAbsent(template, "CONTENT", v.content);
    PlainAbsent(template, "AUTHOR", v.author);
    PlainAbsent(template, "DATE", v.date);
    PlainAbsent(template, "STYLES", v.styles);
    var withTitle := ReplaceFirst(template, Token("TITLE"), v.title);
    var withContent := ReplaceFirst(withTitle, Token("CONTENT"), v.content);
    var withAuthor := ReplaceFirst(withContent, Token("AUTHOR"), v.author);
    var withDate := ReplaceFirst(withAuthor, Token("DATE"), v.date);
    ReplaceFirst(withDate, Token("STYLES"), v.styles)
  }

  // ---------------------------------------------------------------------------
  // Replacing a placeholder in a rendered template

  /** Two different strings of one length differ at some position. */
  lemma Differ(a: string, b: string) returns (j: nat)
    requires |a| == |b| && a != b
    ensures j < |a| && a[j] != b[j]
  {
    j :| j < |a| && a[j] != b[j];
  }

  /** No occurrence of `{{name}}` starts inside an inert piece: some character
      of the placeholder disagrees with what the piece has there. */
  lemma InertPiece(p: Piece, name: string, y: string, i: nat)
    requires Inert(p, name) && Bare(name) && i < |PieceText(p)|
    ensures !OccursAt(PieceText(p) + y, Token(name), i)
  {
    var s := PieceText(p) + y;
    var k: nat;
    match p {
      case Text(t) =>
        assert t[i] in t;
        assert s[i] == t[i];
        k := 0;
      case Slot(m) =>
        k := SlotMismatch(m, name, y, i);
    }
    Mismatch(s, Token(name), i, k);
  }

  /** A text differs from a pattern at some offset from `i` on. */
  lemma Mismatch(s: string, pat: string, i: nat, k: nat)
    requires k < |pat| && i + k < |s| && s[i + k] != pat[k]
    ensures !OccursAt(s, pat, i)
  {
    if i + |pat| <= |s| {
      assert s[i..i + |pat|][k] == s[i + k];
    }
  }

  /** Where `{{name}}` would have to disagree with another placeholder. */
  lemma SlotMismatch(m: string, name: string, y: string, i: nat) returns (k: nat)
    requires m != name && Bare(m) && Bare(name) && i < |Token(m)|
    ensures k < |Token(name)| && i + k < |Token(m) + y| && (Token(m) + y)[i + k] != Token(name)[k]
  {
    var s := Token(m) + y;
    var pat := Token(name);
    var tm := Token(m);
    assert pat[0] == '{' && pat[1] == '{' && pat[2 + |name|] == '}';
    assert forall k :: 0 <= k < |tm| ==> s[k] == tm[k];
    assert forall k :: 2 <= k < 2 + |m| ==> tm[k] == m[k - 2];
    assert tm[2 + |m|] == '}' && tm[3 + |m|] == '}';
    if i == 1 {
      assert m[0] in m;
      assert s[2] == m[0];
      k := 1;
    } else if i >= 2 {
      if i - 2 < |m| {
        assert m[i - 2] in m;
        assert s[i] == m[i - 2];
      }
      k := 0;
    } else if |name| < |m| {
      assert m[|name|] in m;
      assert s[2 + |name|] == m[|name|];
      k := 2 + |name|;
    } else if |name| > |m| {
      assert name[|m|] in name;
      assert pat[2 + |m|] == name[|m|];
      k := 2 + |m|;
    } else {
      var j := Differ(m, name);
      assert s[2 + j] == m[j];
      assert pat[2 + j] == name[j];
      k := 2 + j;
    }
  }

  /** No occurrence of `{{name}}` starts inside text rendered from inert pieces. */
  lemma {:induction false} InertPrefix(ps: seq<Piece>, name: string, y: string)
    requires AllInert(ps, name) && Bare(name)
    ensures forall i :: 0 <= i < |Render(ps)| ==> !OccursAt(Render(ps) + y, Token(name), i)
    decreases |ps|
  {
    if ps != [] {
      var head := PieceText(ps[0]);
      var rest := Render(ps[1..]);
      assert AllInert(ps[1..], name) by {
        forall j | 0 <= j < |ps[1..]| ensures Inert(ps[1..][j], name) {
          assert ps[1..][j] == ps[j + 1];
        }
      }
      InertPrefix(ps[1..], name, y);
      assert Render(ps) + y == head + (rest + y);
      forall i | 0 <= i < |Render(ps)|
        ensures !OccursAt(Render(ps) + y, Token(name), i)
      {
        if i < |head| {
          InertPiece(ps[0], name, rest + y, i);
        } else {
          OccursAfterPrefix(head, rest + y, Token(name), i - |head|);
          assert (rest + y) == rest + y;
        }
      }
    }
  }

  lemma {:induction false} RenderAppend(a: seq<Piece>, b: seq<Piece>)
    ensures Render(a + b) == Render(a) + Render(b)
    decreases |a|
  {
    if a != [] {
      assert (a + b)[1..] == a[1..] + b;
      RenderAppend(a[1..], b);
    } else {
      assert a + b == b;
    }
  }

  /** The text of a template around its k-th piece. */
  lemma RenderSplit(ps: seq<Piece>, k: nat)
    requires k < |ps|
    ensures Render(ps) == Render(ps[..k]) + (PieceText(ps[k]) + Render(ps[k + 1..]))
  {
    var tail := ps[k..];
    assert ps == ps[..k] + tail;
    RenderAppend(ps[..k], tail);
    assert tail[0] == ps[k] && tail[1..] == ps[k + 1..];
  }

  /** A placeholder that nothing in front of it can match is replaced where it is. */
  lemma ReplaceTokenAfter(x: string, name: string, z: string, v: string)
    requires '$' !in v
    requires forall i :: 0 <= i < |x| ==> !OccursAt(x + (Token(name) + z), Token(name), i)
    ensures ReplaceFirst(x + (Token(name) + z), Token(name), v) == x + (v + z)
  {
    ReplaceFirstAfter(x, Token(name) + z, Token(name), v);
    ReplaceFirstAtStart(Token(name), z, v);
  }

  /** The first `{{name}}` of a template whose earlier pieces are inert is its
      k-th piece, and that is where a value without '$' lands: the outcome is
      the template `qs` with `v` as its k-th piece. */
  lemma ReplaceSlot(ps: seq<Piece>, k: nat, name: string, v: string, qs: seq<Piece>)
    requires k < |ps| && ps[k] == Slot(name) && Bare(name) && '$' !in v
    requires forall j :: 0 <= j < k ==> Inert(ps[j], name)
    requires |qs| == |ps| && qs[k] == Text(v)
    requires forall j :: 0 <= j < |ps| && j != k ==> qs[j] == ps[j]
    ensures ReplaceFirst(Render(ps), Token(name), v) == Render(qs)
  {
    assert qs[..k] == ps[..k] && qs[k + 1..] == ps[k + 1..];
    assert AllInert(ps[..k], name) by {
      forall j | 0 <= j < k ensures Inert(ps[..k][j], name) {
      }
    }
    var x := Render(ps[..k]);
    var z := Render(ps[k + 1..]);
    RenderSplit(ps, k);
    RenderSplit(qs, k);
    InertPrefix(ps[..k], name, Token(name) + z);
    ReplaceTokenAfter(x, name, z, v);
  }

  /** A template without `{{name}}` is left as it is by its `replace`. */
  lemma ReplaceAbsent(ps: seq<Piece>, name: string, v: string)
    requires AllInert(ps, name) && Bare(name)
    ensures ReplaceFirst(Render(ps), Token(name), v) == Render(ps)
  {
    var s := Render(ps);
    InertPrefix(ps, name, []);
    assert s + [] == s;
    assert IndexOf(s, Token(name)).None?;
  }

  // ---------------------------------------------------------------------------
  // The built-in template (`getDefaultTemplate`)

  const Doctype := "\n<!DOCTYPE html>\n"
  const HtmlOpen := "<html lang=\"en\">\n<head>\n"
  const Charset := "    <meta charset=\"UTF-8\">\n"
  const ViewportName := "    <meta name=\"viewport\" "
  const ViewportWidth := "content=\"width=device-width, "
  const ViewportScale := "initial-scale=1.0\">\n    <title>"
  const TitleClose := "</title>\n    "
  const BodyOpen := "\n</head>\n<body>\n    <header>\n"
  const HeadingOpen := "        <h1>"
  const HeadingClose := "</h1>\n"
  const InfoOpen := "        <div class=\"document-info\">\n"
  const AuthorLabel := "            <p><strong>Author:</strong> "
  const ParagraphClose := "</p>\n"
  const DateLabel := "            <p><strong>Date:</strong> "
  const InfoClose := "</p>\n        </div>\n"
  const HeaderClose := "        <hr>\n    </header>\n"
  const MainOpen := "    \n    <main>\n        "
  const Footer := "\n    </main>\n    \n    <footer>\n        <hr>\n" +
    "        <p style=\"text-align: center; color: #666; font-size: 10pt;\">\n" +
    "            Made by Hexadigitall - hexadigitall.com\n        </p>\n" +
    "    </footer>\n</body>\n</html>\n    "

  const Head := Doctype + HtmlOpen + Charset + ViewportName + ViewportWidth + ViewportScale
  const Heading := BodyOpen + HeadingOpen
  const Author := HeadingClose + InfoOpen + AuthorLabel
  const Date := ParagraphClose + DateLabel
  const Main := InfoClose + HeaderClose + MainOpen

  /** The built-in template: the title twice (in `<title>` and in `<h1>`), then
      the styles, author, date and content placeholders. */
  const DefaultPieces: seq<Piece> := [
    Text(Head), Slot("TITLE"), Text(TitleClose), Slot("STYLES"),
    Text(Heading), Slot("TITLE"), Text(Author), Slot("AUTHOR"),
    Text(Date), Slot("DATE"), Text(Main), Slot("CONTENT"), Text(Footer)]

  function DefaultTemplate(): string {
    Render(DefaultPieces)
  }

  lemma DoctypePlain() ensures '{' !in Doctype {}
  lemma HtmlOpenPlain() ensures '{' !in HtmlOpen {}
  lemma CharsetPlain() ensures '{' !in Charset {}
  lemma ViewportNamePlain() ensures '{' !in ViewportName {}
  lemma ViewportWidthPlain() ensures '{' !in ViewportWidth {}
  lemma ViewportScalePlain() ensures '{' !in ViewportScale {}
  lemma TitleClosePlain() ensures '{' !in TitleClose {}
  lemma BodyOpenPlain() ensures '{' !in BodyOpen {}
  lemma HeadingOpenPlain() ensures '{' !in HeadingOpen {}
  lemma HeadingClosePlain() ensures '{' !in HeadingClose {}
  lemma InfoOpenPlain() ensures '{' !in InfoOpen {}
  lemma AuthorLabelPlain() ensures '{' !in AuthorLabel {}
  lemma ParagraphClosePlain() ensures '{' !in ParagraphClose {}
  lemma DateLabelPlain() ensures '{' !in DateLabel {}
  lemma InfoClosePlain() ensures '{' !in InfoClose {}
  lemma HeaderClosePlain() ensures '{' !in HeaderClose {}
  lemma MainOpenPlain() ensures '{' !in MainOpen {}

  /** The literal text in front of the content placeholder holds no '{'. */
  lemma SegmentsPlain()
    ensures '{' !in Head && '{' !in TitleClose && '{' !in Heading
    ensures '{' !in Author && '{' !in Date && '{' !in Main
  {
    DoctypePlain(); HtmlOpenPlain(); CharsetPlain();
    ViewportNamePlain(); ViewportWidthPlain(); ViewportScalePlain();
    TitleClosePlain(); BodyOpenPlain(); HeadingOpenPlain();
    HeadingClosePlain(); InfoOpenPlain(); AuthorLabelPlain();
    ParagraphClosePlain(); DateLabelPlain();
    InfoClosePlain(); HeaderClosePlain(); MainOpenPlain();
  }

  /** The built-in template with what stands in the places of its title (the
      first one), styles, author, date and content placeholders. */
  function Layout(title: Piece, styles: Piece, author: Piece, date: Piece, content: Piece): seq<Piece> {
    [Text(Head), title, Text(TitleClose), styles, Text(Heading), Slot("TITLE"),
     Text(Author), author, Text(Date), date, Text(Main), content, Text(Footer)]
  }

  /** No value holds a `$` pattern. */
  predicate Literal(v: Values) {
    '$' !in v.title && '$' !in v.content && '$' !in v.author && '$' !in v.date && '$' !in v.styles
  }

  lemma DefaultLayout()
    ensures DefaultPieces == Layout(Slot("TITLE"), Slot("STYLES"), Slot("AUTHOR"), Slot("DATE"), Slot("CONTENT"))
  {
  }

  lemma FillTitle(v: Values)
    requires '$' !in v.title
    ensures ReplaceFirst(DefaultTemplate(), Token("TITLE"), v.title) ==
      Render(Layout(Text(v.title), Slot("STYLES"), Slot("AUTHOR"), Slot("DATE"), Slot("CONTENT")))
  {
    SegmentsPlain();
    DefaultLayout();
    ReplaceSlot(DefaultPieces, 1, "TITLE", v.title,
      Layout(Text(v.title), Slot("STYLES"), Slot("AUTHOR"), Slot("DATE"), Slot("CONTENT")));
  }

  lemma ContentInert(title: string)
    requires '{' !in title
    ensures forall j :: 0 <= j < 11 ==>
      Inert(Layout(Text(title), Slot("STYLES"), Slot("AUTHOR"), Slot("DATE"), Slot("CONTENT"))[j], "CONTENT")
  {
    SegmentsPlain();
  }

  lemma AuthorInert(title: string, content: string)
    requires '{' !in title
    ensures forall j :: 0 <= j < 7 ==>
      Inert(Layout(Text(title), Slot("STYLES"), Slot("AUTHOR"), Slot("DATE"), Text(content))[j], "AUTHOR")
  {
    SegmentsPlain();
  }

  lemma FillContent(v: Values)
    requires '$' !in v.content && '{' !in v.title
    ensures ReplaceFirst(Render(Layout(Text(v.title), Slot("STYLES"), Slot("AUTHOR"), Slot("DATE"), Slot("CONTENT"))), Token("CONTENT"), v.content) ==
      Render(Layout(Text(v.title), Slot("STYLES"), Slot("AUTHOR"), Slot("DATE"), Text(v.content)))
  {
    ContentInert(v.title);
    var ps := Layout(Text(v.title), Slot("STYLES"), Slot("AUTHOR"), Slot("DATE"), Slot("CONTENT"));
    ReplaceSlot(ps, 11, "CONTENT", v.content,
      Layout(Text(v.title), Slot("STYLES"), Slot("AUTHOR"), Slot("DATE"), Text(v.content)));
  }

  lemma FillAuthor(v: Values)
    requires '$' !in v.author && '{' !in v.title
    ensures ReplaceFirst(Render(Layout(Text(v.title), Slot("STYLES"), Slot("AUTHOR"), Slot("DATE"), Text(v.content))), Token("AUTHOR"), v.author) ==
      Render(Layout(Text(v.title), Slot("STYLES"), Text(v.author), Slot("DATE"), Text(v.content)))
  {
    AuthorInert(v.title, v.content);
    var ps := Layout(Text(v.title), Slot("STYLES"), Slot("AUTHOR"), Slot("DATE"), Text(v.content));
    ReplaceSlot(ps, 7, "AUTHOR", v.author,
      Layout(Text(v.title), Slot("STYLES"), Text(v.author), Slot("DATE"), Text(v.content)));
  }

  lemma FillDate(v: Values)
    requires '$' !in v.date && '{' !in v.title && '{' !in v.author
    ensures ReplaceFirst(Render(Layout(Text(v.title), Slot("STYLES"), Text(v.author), Slot("DATE"), Text(v.content))), Token("DATE"), v.date) ==
      Render(Layout(Text(v.title), Slot("STYLES"), Text(v.author), Text(v.date), Text(v.content)))
  {
    SegmentsPlain();
    var ps := Layout(Text(v.title), Slot("STYLES"), Text(v.author), Slot("DATE"), Text(v.content));
    ReplaceSlot(ps, 9, "DATE", v.date,
      Layout(Text(v.title), Slot("STYLES"), Text(v.author), Text(v.date), Text(v.content)));
  }

  lemma FillStyles(v: Values)
    requires '$' !in v.styles && '{' !in v.title
    ensures ReplaceFirst(Render(Layout(Text(v.title), Slot("STYLES"), Text(v.author), Text(v.date), Text(v.content))), Token("STYLES"), v.styles) ==
      Render(Layout(Text(v.title), Text(v.styles), Text(v.author), Text(v.date), Text(v.content)))
  {
    SegmentsPlain();
    var ps := Layout(Text(v.title), Slot("STYLES"), Text(v.author), Text(v.date), Text(v.content));
    ReplaceSlot(ps, 3, "STYLES", v.styles,
      Layout(Text(v.title), Text(v.styles), Text(v.author), Text(v.date), Text(v.content)));
  }

  /** Filling the built-in template: the title lands in `<title>` and the
      `{{TITLE}}` of the `<h1>` heading stays as it is, since each placeholder
      is replaced at its first occurrence only; every other value lands in the
      only placeholder of its name. Title and author are followed by
      placeholders still to be replaced, so they must hold no '{' for this to
      be the outcome. */
  lemma DefaultFill(v: Values)
    requires '{' !in v.title && '{' !in v.author && Literal(v)
    ensures Fill(DefaultTemplate(), v) ==
      Render(Layout(Text(v.title), Text(v.styles), Text(v.author), Text(v.date), Text(v.content)))
  {
    FillTitle(v);
    FillContent(v);
    FillAuthor(v);
    FillDate(v);
    FillStyles(v);
  }

  /** A placeholder piece shows in the rendered text where its piece starts. */
  lemma SlotShows(ps: seq<Piece>, k: nat, name: string)
    requires k < |ps| && ps[k] == Slot(name)
    ensures OccursAt(Render(ps), Token(name), |Render(ps[..k])|)
  {
    RenderSplit(ps, k);
    PrefixOccurs(Render(ps[..k]), Token(name), Render(ps[k + 1..]));
  }

  /** `t` occurs in `x + (t + y)` right after `x`. */
  lemma PrefixOccurs(x: string, t: string, y: string)
    ensures OccursAt(x + (t + y), t, |x|)
  {
    assert (x + (t + y))[|x|..|x| + |t|] == t;
  }

  lemma RenderCons(p: Piece, rest: seq<Piece>)
    ensures Render([p] + rest) == PieceText(p) + Render(rest)
  {
    assert ([p] + rest)[1..] == rest;
  }

  /** The length of what precedes the second title placeholder once filled. */
  lemma FrontLength(v: Values)
    ensures |Render(Layout(Text(v.title), Text(v.styles), Text(v.author), Text(v.date), Text(v.content))[..5])| ==
      |Head| + |v.title| + |TitleClose| + |v.styles| + |Heading|
  {
    var front := Layout(Text(v.title), Text(v.styles), Text(v.author), Text(v.date), Text(v.content))[..5];
    assert front == [Text(Head)] + ([Text(v.title)] + ([Text(TitleClose)] + ([Text(v.styles)] + ([Text(Heading)] + []))));
    RenderCons(Text(Heading), []);
    RenderCons(Text(v.styles), [Text(Heading)] + []);
    RenderCons(Text(TitleClose), [Text(v.styles)] + ([Text(Heading)] + []));
    RenderCons(Text(v.title), [Text(TitleClose)] + ([Text(v.styles)] + ([Text(Heading)] + [])));
    RenderCons(Text(Head), [Text(v.title)] + ([Text(TitleClose)] + ([Text(v.styles)] + ([Text(Heading)] + []))));
  }

  /** The filled built-in template still shows `{{TITLE}}` in its `<h1>`
      heading, right after the head, the title, the styles and the heading's
      opening tags. */
  lemma HeadingTitleKept(v: Values)
    requires '{' !in v.title && '{' !in v.author && Literal(v)
    ensures OccursAt(Fill(DefaultTemplate(), v), Token("TITLE"),
      |Head| + |v.title| + |TitleClose| + |v.styles| + |Heading|)
  {
    DefaultFill(v);
    FilledTitleShows(v);
  }

  lemma FilledTitleShows(v: Values)
    ensures OccursAt(Render(Layout(Text(v.title), Text(v.styles), Text(v.author), Text(v.date), Text(v.content))),
      Token("TITLE"), |Head| + |v.title| + |TitleClose| + |v.styles| + |Heading|)
  {
    FrontLength(v);
    SlotShows(Layout(Text(v.title), Text(v.styles), Text(v.author), Text(v.date), Text(v.content)), 5, "TITLE");
  }

  // ---------------------------------------------------------------------------
  // The heading's placeholder survives every filling

  /** Two placeholders do not overlap: one starting after another starts at
      least where the other ends, since a placeholder's inside holds no '{'. */
  lemma TokenAfter(s: string, a: string, b: string, i: nat, j: nat)
    requires Bare(a) && Bare(b) && i < j
    requires OccursAt(s, Token(a), i) && OccursAt(s, Token(b), j)
    ensures i + |Token(a)| <= j
  {
    var ta := Token(a);
    var tb := Token(b);
    assert s[j] == '{' && s[j + 1] == '{' by {
      assert s[j..j + |tb|][0] == s[j] && s[j..j + |tb|][1] == s[j + 1];
    }
    forall k | i + 2 <= k < i + |ta| ensures s[k] != '{' {
      assert s[i..i + |ta|][k - i] == s[k];
      if k - i < 2 + |a| {
        assert ta[k - i] == a[k - i - 2] && a[k - i - 2] in a;
      }
    }
  }

  /** The inside of a placeholder holds no '}' before its closing braces. */
  lemma TokenInside(a: string)
    requires Bare(a)
    ensures Token(a)[2..2 + |a|] == a && Token(a)[2 + |a|] == '}'
    ensures forall k :: 2 <= k < 2 + |a| ==> Token(a)[k] != '}'
  {
    forall k | 2 <= k < 2 + |a| ensures Token(a)[k] != '}' {
      assert Token(a)[k] == a[k - 2] && a[k - 2] in a;
    }
  }

  /** Two placeholders starting at one place are the same placeholder. */
  lemma TokenStartsName(s: string, a: string, b: string, i: nat, j: nat)
    requires Bare(a) && Bare(b)
    requires OccursAt(s, Token(a), i) && OccursAt(s, Token(b), j)
    ensures i == j ==> a == b
  {
    if i == j {
      var ta := Token(a);
      var tb := Token(b);
      forall k | 0 <= k < |ta| && k < |tb| ensures ta[k] == tb[k] {
        assert s[i..i + |ta|][k] == s[i + k] == s[j..j + |tb|][k];
      }
      TokenInside(a);
      TokenInside(b);
    }
  }

  /** Placeholders of two different names are apart. */
  lemma TokensApart(s: string, a: string, b: string, i: nat, j: nat)
    requires Bare(a) && Bare(b) && a != b
    requires OccursAt(s, Token(a), i) && OccursAt(s, Token(b), j)
    ensures i + |Token(a)| <= j || j + |Token(b)| <= i
  {
    TokenStartsName(s, a, b, i, j);
    if i < j {
      TokenAfter(s, a, b, i, j);
    } else if j < i {
      TokenAfter(s, b, a, j, i);
    }
  }

  /** Replacing the first `{{m}}` of a text keeps a `{{name}}` of another
      name, wherever it stands and whatever is inserted. */
  lemma TokenSurvives(s: string, m: string, rep: string, name: string, h: nat) returns (h2: nat)
    requires Bare(m) && Bare(name) && m != name && OccursAt(s, Token(name), h)
    ensures OccursAt(ReplaceFirst(s, Token(m), rep), Token(name), h2)
  {
    if IndexOf(s, Token(m)).None? {
      h2 := h;
    } else {
      var p, ins := ReplaceFirstSplice(s, Token(m), rep);
      TokensApart(s, m, name, p, h);
      h2 := SpliceKeeps(s, p, |Token(m)|, ins, Token(name), h);
    }
  }

  /** The built-in template's title placeholder comes before its heading's. */
  lemma TitleSlotsOrdered()
    ensures OccursAt(DefaultTemplate(), Token("TITLE"), |Render(DefaultPieces[..1])|)
    ensures OccursAt(DefaultTemplate(), Token("TITLE"), |Render(DefaultPieces[..5])|)
    ensures |Render(DefaultPieces[..1])| + |Token("TITLE")| <= |Render(DefaultPieces[..5])|
  {
    SlotShows(DefaultPieces, 1, "TITLE");
    SlotShows(DefaultPieces, 5, "TITLE");
    var front := DefaultPieces[..5];
    RenderSplit(front, 1);
    assert front[..1] == DefaultPieces[..1] && front[1] == Slot("TITLE");
  }

  /** Replacing the first of two `{{TITLE}}`s keeps the second. */
  lemma TitleStep(s0: string, title: string, q: nat, h0: nat) returns (h1: nat)
    requires OccursAt(s0, Token("TITLE"), q) && OccursAt(s0, Token("TITLE"), h0)
    requires q + |Token("TITLE")| <= h0
    ensures OccursAt(ReplaceFirst(s0, Token("TITLE"), title), Token("TITLE"), h1)
  {
    var t := Token("TITLE");
    var p, ins := ReplaceFirstSplice(s0, t, title);
    assert p <= q;
    h1 := SpliceKeeps(s0, p, |t|, ins, t, h0);
  }

  /** A text holding `{{TITLE}}` twice keeps one through the whole chain:
      the title only replaces the first, and no later replacement can remove
      the second. */
  lemma FillKeepsTitle(s0: string, v: Values, q: nat, h0: nat)
    requires OccursAt(s0, Token("TITLE"), q) && OccursAt(s0, Token("TITLE"), h0)
    requires q + |Token("TITLE")| <= h0
    ensures exists i :: OccursAt(Fill(s0, v), Token("TITLE"), i)
  {
    var h1 := TitleStep(s0, v.title, q, h0);
    var s1 := ReplaceFirst(s0, Token("TITLE"), v.title);
    var h2 := TokenSurvives(s1, "CONTENT", v.content, "TITLE", h1);
    var s2 := ReplaceFirst(s1, Token("CONTENT"), v.content);
    var h3 := TokenSurvives(s2, "AUTHOR", v.author, "TITLE", h2);
    var s3 := ReplaceFirst(s2, Token("AUTHOR"), v.author);
    var h4 := TokenSurvives(s3, "DATE", v.date, "TITLE", h3);
    var s4 := ReplaceFirst(s3, Token("DATE"), v.date);
    var h5 := TokenSurvives(s4, "STYLES", v.styles, "TITLE", h4);
    assert Fill(s0, v) == ReplaceFirst(s4, Token("STYLES"), v.styles);
    assert OccursAt(Fill(s0, v), Token("TITLE"), h5);
  }

  /** Whatever the values, the filled built-in template still holds a
      `{{TITLE}}`, the one of its `<h1>` heading. */
  lemma HeadingTitleStays(v: Values)
    ensures exists i :: OccursAt(Fill(DefaultTemplate(), v), Token("TITLE"), i)
  {
    TitleSlotsOrdered();
    FillKeepsTitle(DefaultTemplate(), v, |Render(DefaultPieces[..1])|, |Render(DefaultPieces[..5])|);
  }

  /** Text without '{' holds no placeholder, so its `replace` leaves it as it is. */
  lemma PlainAbsent(t: string, name: string, v: string)
    requires Bare(name)
    ensures '{' !in t ==> ReplaceFirst(t, Token(name), v) == t
  {
    if '{' !in t {
      var ps := [Text(t)];
      assert Render(ps) == t;
      ReplaceAbsent(ps, name, v);
    }
  }
}
