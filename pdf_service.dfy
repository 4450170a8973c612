/** The document assembly of the PDF service (backend/services/pdfService.js):
    expanding `[CHART: …]` and `[DIAGRAM: …]` markers into HTML fragments, the
    style sheet, the page built from a template, the options and result of a
    PDF run, and the list of available templates. Markdown conversion,
    printing, the clock, identifiers and the file system are parameters. */
module PdfService {
  import opened Common
  import opened JsString
  import opened NodePath
  import opened Regex
  import opened Template

  // ---------------------------------------------------------------------------
  // Chart and diagram markers (`processSpecialElements`)

  datatype Kind = Chart | Diagram

  function MarkerPattern(kind: Kind): Pattern {
    match kind
    case Chart => ChartMarker
    case Diagram => DiagramMarker
  }

  /** `generateChartHTML(description)`: a chart container showing the description. */
  function ChartFragment(description: string): string {
    ChartBox + ChartPlaceholder + ChartLabel + description + ChartTail
  }

  const ChartBox := "\n      <div class=\"chart-container\">\n"
  const ChartPlaceholder := "        <div class=\"chart-placeholder\">\n"
  const ChartLabel := "          <p><strong>Chart:</strong> "
  const ChartTail := "</p>\n" +
    "          <p><em>Chart generation in progress...</em></p>\n" +
    "        </div>\n" +
    "      </div>\n" +
    "    "

  /** `generateDiagramHTML(description)`: a diagram container showing the description. */
  function DiagramFragment(description: string): string {
    DiagramBox + DiagramPlaceholder + DiagramLabel + description + DiagramTail
  }

  const DiagramBox := "\n      <div class=\"diagram-container\">\n"
  const DiagramPlaceholder := "        <div class=\"diagram-placeholder\">\n"
  const DiagramLabel := "          <p><strong>Diagram:</strong> "
  const DiagramTail := "</p>\n" +
    "          <p><em>Diagram generation in progress...</em></p>\n" +
    "        </div>\n" +
    "      </div>\n" +
    "    "

  /** The fragment for a described marker: it opens with the container of its
      kind and shows the description right after the label. */
  function Fragment(kind: Kind, description: string): (r: string)
    ensures |Box(kind)| <= |r| && r[..|Box(kind)|] == Box(kind)
    ensures OccursAt(r, description, |BeforeDescription(kind)|)
  {
    var front := BeforeDescription(kind);
    var tail := if kind == Chart then ChartTail else DiagramTail;
    var f := match kind
      case Chart => ChartFragment(description)
      case Diagram => DiagramFragment(description);
    assert f == front + description + tail;
    assert f[|front|..|front| + |description|] == description;
    assert front[..|Box(kind)|] == Box(kind);
    f
  }

  /** The container a fragment of each kind opens with, and the text in front
      of its description. */
  function Box(kind: Kind): string {
    if kind == Chart then ChartBox else DiagramBox
  }

  function BeforeDescription(kind: Kind): string {
    if kind == Chart then ChartBox + ChartPlaceholder + ChartLabel
    else DiagramBox + DiagramPlaceholder + DiagramLabel
  }

  /** What the expansion asks for a described marker: its fragment, or the
      message of an error. The service's own fragment builders never fail
      (`BuiltIn`); any other renderer shows what an error does. */
  type Renderer = (Kind, string) -> Result<string, string>

  function BuiltIn(kind: Kind, description: string): Result<string, string> {
    Success(Fragment(kind, description))
  }

  /** The markers of one kind, as the `exec` loop over the original html finds them. */
  function Markers(kind: Kind, html: string): (ms: seq<Match>)
    ensures forall i :: 0 <= i < |ms| ==> |ms[i].captures| == 2
  {
    MatchAll(MarkerPattern(kind), html, 0)
  }

  /** The working string after each of `ms` in turn has had the first
      occurrence of its text replaced by its fragment; the first failure
      ends the expansion. */
  function Expand(render: Renderer, kind: Kind, w: string, ms: seq<Match>): (r: Result<string, string>)
    requires forall i :: 0 <= i < |ms| ==> |ms[i].captures| == 2
    ensures r.Failure? ==> exists i :: 0 <= i < |ms| && render(kind, ms[i].captures[1]) == Failure(r.error)
    decreases |ms|
  {
    if ms == [] then Success(w)
    else
      match render(kind, ms[0].captures[1])
      case Failure(e) => Failure(e)
      case Success(fragment) =>
        var r := Expand(render, kind, ReplaceFirst(w, ms[0].captures[0], fragment), ms[1..]);
        assert r.Failure? ==> exists i :: 0 <= i < |ms| && render(kind, ms[i].captures[1]) == Failure(r.error) by {
          if r.Failure? {
            var i :| 0 <= i < |ms[1..]| && render(kind, ms[1..][i].captures[1]) == Failure(r.error);
            assert ms[1..][i] == ms[i + 1];
          }
        }
        r
  }

  /** `processSpecialElements(html)`: every chart marker, then every diagram
      marker, each kind in the order the original html holds them; when an
      error occurs on the way the original html is returned instead. */
  function Processed(html: string, render: Renderer): (r: string)
    ensures Markers(Chart, html) == [] && Markers(Diagram, html) == [] ==> r == html
  {
    match Expand(render, Chart, html, Markers(Chart, html))
    case Failure(_) => html
    case Success(charted) =>
      match Expand(render, Diagram, charted, Markers(Diagram, html))
      case Failure(_) => html
      case Success(done) => done
  }

  /** One step of the expansion: the first marker, then the rest. */
  lemma ExpandStep(render: Renderer, kind: Kind, w: string, m: Match, rest: seq<Match>, ms: seq<Match>)
    requires ms == [m] + rest && |m.captures| == 2
    requires forall i :: 0 <= i < |rest| ==> |rest[i].captures| == 2
    ensures forall i :: 0 <= i < |ms| ==> |ms[i].captures| == 2
    ensures render(kind, m.captures[1]).Failure? ==> Expand(render, kind, w, ms).Failure?
    ensures render(kind, m.captures[1]).Success? ==>
      Expand(render, kind, w, ms) == Expand(render, kind, ReplaceFirst(w, m.captures[0], render(kind, m.captures[1]).value), rest)
  {
    assert ms[0] == m && ms[1..] == rest;
  }

  /** The loop of `processSpecialElements` over the markers of one kind: the
      working string after it, or None when a fragment could not be made. */
  method ExpandMarkers(kind: Kind, html: string, start: string, render: Renderer) returns (r: Option<string>)
    ensures r.None? <==> Expand(render, kind, start, Markers(kind, html)).Failure?
    ensures r.Some? ==> Expand(render, kind, start, Markers(kind, html)) == Success(r.value)
  {
    var pat := MarkerPattern(kind);
    var processed := start;
    var lastIndex := 0;
    var found := Exec(pat, html, lastIndex);
    while found.Some?
      invariant lastIndex <= |html|
      invariant found == Exec(pat, html, lastIndex)
      invariant Expand(render, kind, processed, MatchAll(pat, html, lastIndex)) == Expand(render, kind, start, Markers(kind, html))
      decreases |html| - lastIndex
    {
      var m := found.value;
      MatchAllStep(pat, html, lastIndex);
      ExpandStep(render, kind, processed, m, MatchAll(pat, html, m.end), MatchAll(pat, html, lastIndex));
      var fragment := render(kind, m.captures[1]);
      if fragment.Failure? {
        return None;
      }
      processed := ReplaceFirst(processed, m.captures[0], fragment.value);
      lastIndex := m.end;
      found := Exec(pat, html, lastIndex);
    }
    MatchAllStep(pat, html, lastIndex);
    r := Some(processed);
  }

  /** `processSpecialElements(html)` with the fragment builder `render`. */
  method ProcessSpecialElements(html: string, render: Renderer) returns (r: string)
    ensures r == Processed(html, render)
  {
    var charted := ExpandMarkers(Chart, html, html, render);
    if charted.None? {
      return html;
    }
    var done := ExpandMarkers(Diagram, html, charted.value, render);
    if done.None? {
      return html;
    }
    r := done.value;
  }

  /** The markers of a kind are the leftmost non-overlapping matches of its
      pattern in the original html, from left to right. */
  lemma MarkersInOrder(kind: Kind, html: string)
    ensures AllFound(MarkerPattern(kind), html, 0, Markers(kind, html))
    ensures Ordered(Markers(kind, html))
    ensures Covers(MarkerPattern(kind), html, 0, Markers(kind, html))
  {
    MatchAllSpec(MarkerPattern(kind), html, 0);
  }

  /** A marker's description is what follows the keyword and the white space
      after it, up to the first ']': it is non-empty and holds no ']'. */
  lemma MarkerDescription(kind: Kind, html: string, i: nat) returns (padding: string)
    requires i < |Markers(kind, html)|
    ensures var m := Markers(kind, html)[i];
      m.captures[1] != [] && ']' !in m.captures[1] && AllIn(padding, Space) &&
      m.captures[0] == Opening(MarkerPattern(kind)) + padding + m.captures[1] + "]"
  {
    MatchAllFound(MarkerPattern(kind), html, 0);
    padding := MarkerShape(MarkerPattern(kind), html, Markers(kind, html)[i]);
  }

  /** The expansion fails exactly when a fragment for one of the markers cannot
      be made. */
  lemma {:induction false} ExpandFails(render: Renderer, kind: Kind, w: string, ms: seq<Match>)
    requires forall i :: 0 <= i < |ms| ==> |ms[i].captures| == 2
    ensures Expand(render, kind, w, ms).Failure? <==>
      exists i :: 0 <= i < |ms| && render(kind, ms[i].captures[1]).Failure?
    decreases |ms|
  {
    if ms != [] {
      var rest := ms[1..];
      assert forall i :: 0 <= i < |rest| ==> rest[i] == ms[i + 1];
      match render(kind, ms[0].captures[1])
      case Failure(_) =>
      case Success(fragment) =>
        ExpandFails(render, kind, ReplaceFirst(w, ms[0].captures[0], fragment), rest);
        if exists i :: 0 <= i < |ms| && render(kind, ms[i].captures[1]).Failure? {
          var i :| 0 <= i < |ms| && render(kind, ms[i].captures[1]).Failure?;
          assert i > 0 && render(kind, rest[i - 1].captures[1]).Failure?;
        }
    }
  }

  /** When the fragment of any chart or diagram marker cannot be made, the
      original html comes back. */
  lemma FailureKeepsOriginal(html: string, render: Renderer, kind: Kind, i: nat)
    requires i < |Markers(kind, html)| && render(kind, Markers(kind, html)[i].captures[1]).Failure?
    ensures Processed(html, render) == html
  {
    match Expand(render, Chart, html, Markers(Chart, html))
    case Failure(_) =>
    case Success(charted) =>
      if kind == Chart {
        ExpandFails(render, Chart, html, Markers(Chart, html));
      } else {
        ExpandFails(render, Diagram, charted, Markers(Diagram, html));
      }
  }

  /** The service's own fragment builders never fail, so the markers of both
      kinds are all expanded. */
  lemma BuiltInExpandsAll(html: string)
    ensures Expand(BuiltIn, Chart, html, Markers(Chart, html)).Success?
    ensures var charted := Expand(BuiltIn, Chart, html, Markers(Chart, html)).value;
      Expand(BuiltIn, Diagram, charted, Markers(Diagram, html)).Success? &&
      Processed(html, BuiltIn) == Expand(BuiltIn, Diagram, charted, Markers(Diagram, html)).value
  {
    ExpandFails(BuiltIn, Chart, html, Markers(Chart, html));
    var charted := Expand(BuiltIn, Chart, html, Markers(Chart, html)).value;
    ExpandFails(BuiltIn, Diagram, charted, Markers(Diagram, html));
  }

  /** Html in which a marker pattern matches nowhere has no markers of its kind. */
  lemma NoMarkers(kind: Kind, html: string)
    requires NoMatchIn(MarkerPattern(kind), html, 0, |html| + 1)
    ensures Markers(kind, html) == []
  {
    ExecNone(MarkerPattern(kind), html, 0);
    MatchAllStep(MarkerPattern(kind), html, 0);
  }

  /** Html with no chart or diagram marker comes back unchanged; so does any
      html without a '['. */
  lemma UnmarkedUnchanged(html: string, render: Renderer)
    requires NoMatchIn(ChartMarker, html, 0, |html| + 1)
    requires NoMatchIn(DiagramMarker, html, 0, |html| + 1)
    ensures Processed(html, render) == html
  {
    NoMarkers(Chart, html);
    NoMarkers(Diagram, html);
  }

  lemma NoBracketUnchanged(html: string, render: Renderer)
    requires '[' !in html
    ensures Processed(html, render) == html
  {
    MarkerNeedsBracket(ChartMarker, html);
    MarkerNeedsBracket(DiagramMarker, html);
    UnmarkedUnchanged(html, render);
  }

  /** The first marker's own text is first found where that marker is, so the
      first replacement puts its fragment (one without '$' patterns) in the
      marker's place. */
  lemma FirstMarkerInPlace(kind: Kind, html: string, fragment: string)
    requires Markers(kind, html) != [] && '$' !in fragment
    ensures var m := Markers(kind, html)[0];
      m.start <= m.end <= |html| &&
      ReplaceFirst(html, m.captures[0], fragment) == html[..m.start] + fragment + html[m.end..]
  {
    var pat := MarkerPattern(kind);
    var m := Markers(kind, html)[0];
    MatchAllStep(pat, html, 0);
    MatchTextAt(pat, html, m);
    FirstMarkerText(pat, html, m);
    ReplaceFirstAt(html, m.captures[0], fragment, m.start);
  }

  // ---------------------------------------------------------------------------
  // Styles (`getCustomStyles`)

  const DefaultStyles: map<string, string> := map[
    "fontFamily" := "Arial, sans-serif",
    "fontSize" := "12pt",
    "lineHeight" := "1.6",
    "primaryColor" := "#333333",
    "accentColor" := "#2563eb"]

  /** `{ ...defaultStyles, ...styles }`: every supplied key overrides its
      default and is kept beside them; every other default stays. An absent
      `styles` argument is the empty record. Style values are strings. */
  function MergeStyles(styles: Option<map<string, string>>): (r: map<string, string>)
    ensures var given := if styles.Some? then styles.value else map[];
      r.Keys == DefaultStyles.Keys + given.Keys &&
      (forall k :: k in given ==> r[k] == given[k]) &&
      (forall k :: k in DefaultStyles && k !in given ==> r[k] == DefaultStyles[k])
  {
    match styles
    case None => DefaultStyles
    case Some(given) => DefaultStyles + given
  }

  /** The style sheet `getCustomStyles` writes, with a `Slot` wherever it
      interpolates a style value. */
  const StylePieces: seq<Piece> := [
    Text("\n" +
      "      <style>\n" +
      "        body {\n" +
      "          font-family: "),
    Slot("fontFamily"),
    Text(";\n" +
      "          font-size: "),
    Slot("fontSize"),
    Text(";\n" +
      "          line-height: "),
    Slot("lineHeight"),
    Text(";\n" +
      "          color: "),
    Slot("primaryColor"),
    Text(";\n" +
      "          max-width: 210mm;\n" +
      "          margin: 0 auto;\n" +
      "        }\n" +
      "        h1, h2, h3, h4, h5, h6 {\n" +
      "          color: "),
    Slot("accentColor"),
    Text(";\n" +
      "          margin-top: 24px;\n" +
      "          margin-bottom: 12px;\n" +
      "        }\n" +
      "        h1 { font-size: 24pt; border-bottom: 2px solid "),
    Slot("accentColor"),
    Text("; padding-bottom: 8px; }\n" +
      "        h2 { font-size: 20pt; }\n" +
      "        h3 { font-size: 16pt; }\n" +
      "        h4 { font-size: 14pt; }\n" +
      "        table {\n" +
      "          width: 100%;\n" +
      "          border-collapse: collapse;\n" +
      "          margin: 16px 0;\n" +
      "        }\n" +
      "        th, td {\n" +
      "          border: 1px solid #ddd;\n" +
      "          padding: 12px;\n" +
      "          text-align: left;\n" +
      "        }\n" +
      "        th {\n" +
      "          background-color: "),
    Slot("accentColor"),
    Text(";\n" +
      "          color: white;\n" +
      "        }\n" +
      "        .chart-container, .diagram-container {\n" +
      "          margin: 20px 0;\n" +
      "          padding: 16px;\n" +
      "          border: 1px dashed #ccc;\n" +
      "          text-align: center;\n" +
      "          background-color: #f9f9f9;\n" +
      "        }\n" +
      "        blockquote {\n" +
      "          border-left: 4px solid "),
    Slot("accentColor"),
    Text(";\n" +
      "          margin-left: 0;\n" +
      "          padding-left: 20px;\n" +
      "          color: #666;\n" +
      "        }\n" +
      "        code {\n" +
      "          background-color: #f4f4f4;\n" +
      "          padding: 2px 4px;\n" +
      "          border-radius: 3px;\n" +
      "          font-family: 'Courier New', monospace;\n" +
      "        }\n" +
      "        pre {\n" +
      "          background-color: #f4f4f4;\n" +
      "          padding: 16px;\n" +
      "          border-radius: 5px;\n" +
      "          overflow-x: auto;\n" +
      "        }\n" +
      "      </style>\n" +
      "    ")]

  /** The pieces' text with each slot replaced by the value of its key. */
  function Interpolate(ps: seq<Piece>, m: map<string, string>): string
    decreases |ps|
  {
    if ps == [] then []
    else
      var head := match ps[0]
        case Text(t) => t
        case Slot(k) => if k in m then m[k] else "undefined";
      head + Interpolate(ps[1..], m)
  }

  function StyleSheet(m: map<string, string>): string {
    Interpolate(StylePieces, m)
  }

  /** Only the default style names are read: extra keys of the caller's
      styles leave the sheet as it is. */
  function CustomStyles(styles: Option<map<string, string>>): (r: string)
    ensures var m := MergeStyles(styles);
      r == StyleSheet(map k | k in DefaultStyles :: m[k])
  {
    var m := MergeStyles(styles);
    StyleSlots();
    InterpolateAgree(StylePieces, m, map k | k in DefaultStyles :: m[k]);
    StyleSheet(m)
  }

  lemma {:induction false} InterpolateAppend(ps: seq<Piece>, qs: seq<Piece>, m: map<string, string>)
    ensures Interpolate(ps + qs, m) == Interpolate(ps, m) + Interpolate(qs, m)
    decreases |ps|
  {
    if ps == [] {
      assert ps + qs == qs;
    } else {
      assert (ps + qs)[1..] == ps[1..] + qs;
      InterpolateAppend(ps[1..], qs, m);
    }
  }

  /** A slot whose key is known is filled with that key's value, right after
      the text of the pieces before it. */
  lemma SlotFilled(ps: seq<Piece>, m: map<string, string>, i: nat)
    requires i < |ps| && ps[i].Slot? && ps[i].name in m
    ensures OccursAt(Interpolate(ps, m), m[ps[i].name], |Interpolate(ps[..i], m)|)
  {
    assert ps == ps[..i] + ps[i..];
    InterpolateAppend(ps[..i], ps[i..], m);
    assert ps[i..][0] == ps[i];
    assert ps[i..][1..] == ps[i + 1..];
  }

  /** Two maps that agree on every slot's key fill the pieces alike. */
  lemma {:induction false} InterpolateAgree(ps: seq<Piece>, m1: map<string, string>, m2: map<string, string>)
    requires forall i :: 0 <= i < |ps| && ps[i].Slot? ==>
      (ps[i].name in m1 <==> ps[i].name in m2) && (ps[i].name in m1 ==> m1[ps[i].name] == m2[ps[i].name])
    ensures Interpolate(ps, m1) == Interpolate(ps, m2)
    decreases |ps|
  {
    if ps != [] {
      assert forall i :: 0 <= i < |ps[1..]| ==> ps[1..][i] == ps[i + 1];
      InterpolateAgree(ps[1..], m1, m2);
    }
  }

  /** Every slot of the sheet names one of the five styles, and each style
      has a slot. */
  lemma StyleSlots()
    ensures forall i :: 0 <= i < |StylePieces| && StylePieces[i].Slot? ==> StylePieces[i].name in DefaultStyles
    ensures forall k :: k in DefaultStyles ==> exists i :: 0 <= i < |StylePieces| && StylePieces[i] == Slot(k)
  {
    assert StylePieces[1] == Slot("fontFamily");
    assert StylePieces[3] == Slot("fontSize");
    assert StylePieces[5] == Slot("lineHeight");
    assert StylePieces[7] == Slot("primaryColor");
    assert StylePieces[9] == Slot("accentColor");
  }

  /** The sheet shows the merged value of each style at each of its slots (so
      never 'undefined'), and keys that are not one of the five styles leave
      it as it is with the defaults alone. */
  lemma StylesShown(styles: Option<map<string, string>>)
    ensures var m := MergeStyles(styles);
      forall i :: 0 <= i < |StylePieces| && StylePieces[i].Slot? ==>
        OccursAt(CustomStyles(styles), m[StylePieces[i].name], |Interpolate(StylePieces[..i], m)|)
  {
    var m := MergeStyles(styles);
    StyleSlots();
    forall i | 0 <= i < |StylePieces| && StylePieces[i].Slot?
      ensures OccursAt(CustomStyles(styles), m[StylePieces[i].name], |Interpolate(StylePieces[..i], m)|)
    {
      SlotFilled(StylePieces, m, i);
    }
  }

  // ---------------------------------------------------------------------------
  // The page (`generateHTML`)

  /** The template file `templates/<name>.html`: absent, read, or unreadable. */
  datatype TemplateFile = NoFile | Contents(text: string) | ReadError

  /** The options `generateHTML` looks at. */
  datatype HtmlOptions = HtmlOptions(title: Option<string>, author: Option<string>, styles: Option<map<string, string>>)

  const HtmlError := "Failed to generate HTML content"

  /** What the chain inserts: the title, or 'Document'; the expanded html; the
      author, or the empty string; the date text; the style sheet. */
  function PageValues(markdownHtml: string, options: HtmlOptions, date: string): (v: Values)
    ensures v.title == StringOr(options.title, "Document")
    ensures v.author == StringOr(options.author, "")
    ensures v.content == Processed(markdownHtml, BuiltIn) && v.date == date
    ensures v.styles == CustomStyles(options.styles)
  {
    Values(StringOr(options.title, "Document"), Processed(markdownHtml, BuiltIn),
      StringOr(options.author, ""), date, CustomStyles(options.styles))
  }

  /** `generateHTML(content, template, options)`, given what `marked` made of
      the content, the template file and the date text: the template read, or
      the built-in one when there is no such file, filled with the page values;
      an unreadable file is the one error. */
  function GenerateHtml(markdownHtml: string, file: TemplateFile, options: HtmlOptions, date: string): (r: Result<string, string>)
    ensures r.Failure? <==> file.ReadError?
    ensures r.Failure? ==> r.error == HtmlError
  {
    var v := PageValues(markdownHtml, options, date);
    match file
    case NoFile => Success(Fill(DefaultTemplate(), v))
    case Contents(text) => Success(Fill(text, v))
    case ReadError => Failure(HtmlError)
  }

  /** Without a template file the page is the built-in template with the title
      in `<title>` (its `<h1>` keeps the `{{TITLE}}` placeholder), the style
      sheet, author, date and expanded content in their places. */
  lemma DefaultPage(markdownHtml: string, options: HtmlOptions, date: string)
    requires var v := PageValues(markdownHtml, options, date);
      '{' !in v.title && '{' !in v.author && Literal(v)
    ensures var v := PageValues(markdownHtml, options, date);
      GenerateHtml(markdownHtml, NoFile, options, date) ==
      Success(Render(Layout(Text(v.title), Text(v.styles), Text(v.author), Text(v.date), Text(v.content))))
  {
    DefaultFill(PageValues(markdownHtml, options, date));
  }

  /** A template file without placeholders is the page as it is. */
  lemma PlainTemplatePage(markdownHtml: string, text: string, options: HtmlOptions, date: string)
    requires '{' !in text
    ensures GenerateHtml(markdownHtml, Contents(text), options, date) == Success(text)
  {
  }

  // ---------------------------------------------------------------------------
  // The PDF run (`generatePDF`)

  /** Printing the page with the given options, which writes the file at the
      options' `path`: false when the browser fails. */
  type Printer = (string, map<string, Json>) -> bool

  /** `fs.statSync(p).size` after printing: the size of the file at `p`, or
      None when there is no file there. */
  type Stat = string -> Option<nat>

  datatype PdfFile = PdfFile(filename: string, path: string, url: string, size: nat)

  const PdfError := "Failed to generate PDF"

  /** `document_${id}.pdf`: the id can be read back from between the prefix
      and the `.pdf` suffix. */
  function PdfFilename(id: string): (name: string)
    ensures |name| == |id| + 13 && name[..9] == "document_" && name[|name| - 4..] == ".pdf"
    ensures name[9..|name| - 4] == id
  {
    "document_" + id + ".pdf"
  }

  const DefaultMargin: Json := JObj(map["top" := JStr("20mm"), "right" := JStr("15mm"), "bottom" := JStr("20mm"), "left" := JStr("15mm")])

  /** The print options: the output path, A4, printed backgrounds and 20mm/15mm
      margins, each replaced by the caller's option of the same name (a
      supplied `margin` replaces all four margins). */
  function PdfOptions(outputPath: string, overrides: Option<map<string, Json>>): (r: map<string, Json>)
    ensures var given := if overrides.Some? then overrides.value else map[];
      r.Keys == {"path", "format", "printBackground", "margin"} + given.Keys &&
      (forall k :: k in given ==> r[k] == given[k]) &&
      ("path" !in given ==> r["path"] == JStr(outputPath)) &&
      ("format" !in given ==> r["format"] == JStr("A4")) &&
      ("printBackground" !in given ==> r["printBackground"] == JBool(true)) &&
      ("margin" !in given ==> r["margin"] == DefaultMargin)
  {
    var defaults := map["path" := JStr(outputPath), "format" := JStr("A4"), "printBackground" := JBool(true), "margin" := DefaultMargin];
    match overrides
    case None => defaults
    case Some(given) => defaults + given
  }

  /** `generatePDF(content, template, options)`, given the output directory,
      the identifier for the file name, the page inputs of `generateHTML`, the
      printer and the file system's stat: the file's name, path, address and
      size; any failure, of the page, the printer or the stat, is reported as
      one error. */
  function GeneratePdf(outputDir: string, id: string, markdownHtml: string, file: TemplateFile,
                       options: HtmlOptions, pdfOptions: Option<map<string, Json>>, date: string,
                       printer: Printer, stat: Stat): (r: Result<PdfFile, string>)
    ensures r.Failure? ==> r.error == PdfError
    ensures r.Success? ==>
      r.value.filename == PdfFilename(id) && r.value.path == Join(outputDir, PdfFilename(id)) &&
      r.value.url == "/generated/" + PdfFilename(id)
  {
    var filename := PdfFilename(id);
    var outputPath := Join(outputDir, filename);
    match GenerateHtml(markdownHtml, file, options, date)
    case Failure(_) => Failure(PdfError)
    case Success(html) =>
      if !printer(html, PdfOptions(outputPath, pdfOptions)) then Failure(PdfError)
      else
        match stat(outputPath)
        case None => Failure(PdfError)
        case Some(size) => Success(PdfFile(filename, outputPath, "/generated/" + filename, size))
  }

  /** The run succeeds exactly when the page can be made, the printer, given
      that page and the print options, succeeds, and a file is then found at
      the default output path; the size reported is that file's. */
  lemma PdfPrinted(outputDir: string, id: string, markdownHtml: string, file: TemplateFile,
                   options: HtmlOptions, pdfOptions: Option<map<string, Json>>, date: string,
                   printer: Printer, stat: Stat)
    ensures var r := GeneratePdf(outputDir, id, markdownHtml, file, options, pdfOptions, date, printer, stat);
      var outputPath := Join(outputDir, PdfFilename(id));
      var page := GenerateHtml(markdownHtml, file, options, date);
      var printed := page.Success? && printer(page.value, PdfOptions(outputPath, pdfOptions));
      (r.Success? <==> printed && stat(outputPath).Some?) &&
      (r.Success? ==> r.value.size == stat(outputPath).value)
  {
  }

  /** A `path` among the caller's print options sends the printer there, while
      the size is still read at the default output path. */
  lemma PathOverride(outputDir: string, id: string, markdownHtml: string, file: TemplateFile,
                     options: HtmlOptions, given: map<string, Json>, date: string,
                     printer: Printer, stat: Stat)
    requires "path" in given
    ensures PdfOptions(Join(outputDir, PdfFilename(id)), Some(given))["path"] == given["path"]
    ensures var r := GeneratePdf(outputDir, id, markdownHtml, file, options, Some(given), date, printer, stat);
      r.Success? ==> r.value.size == stat(Join(outputDir, PdfFilename(id))).value
  {
    PdfPrinted(outputDir, id, markdownHtml, file, options, Some(given), date, printer, stat);
  }

  // ---------------------------------------------------------------------------
  // Available templates (`getAvailableTemplates`)

  datatype TemplateInfo = TemplateInfo(id: string, name: string, path: Option<string>, description: Option<string>)

  /** The entry listed when the directory has no template or cannot be read. */
  const DefaultInfo := TemplateInfo("default", "Default", None, Some("Clean, professional layout"))

  /** The entry for one `.html` file of the directory. */
  function InfoOf(dir: string, file: string): TemplateInfo {
    var id := BaseName(file, ".html");
    TemplateInfo(id, Capitalize(id), Some(Join(dir, file)), None)
  }

  /** The file as a one-element list when it is a template, else nothing. */
  function IfTemplate(file: string): seq<string> {
    if ExtName(file) == ".html" then [file] else []
  }

  function HtmlFiles(files: seq<string>): seq<string>
    decreases |files|
  {
    if files == [] then []
    else IfTemplate(files[0]) + HtmlFiles(files[1..])
  }

  /** What one file of the listing adds: its entry when it is a template. */
  function Entry(dir: string, file: string): seq<TemplateInfo> {
    if ExtName(file) == ".html" then [InfoOf(dir, file)] else []
  }

  /** The entries of the templates in the listing, in listing order. */
  function Infos(dir: string, files: seq<string>): seq<TemplateInfo>
    decreases |files|
  {
    if files == [] then []
    else Entry(dir, files[0]) + Infos(dir, files[1..])
  }

  /** What `getAvailableTemplates` lists for the directory listing `files`
      (None when reading the directory fails). */
  function TemplatesOf(dir: string, files: Option<seq<string>>): (r: seq<TemplateInfo>)
    ensures r != []
  {
    if files.None? || Infos(dir, files.value) == [] then [DefaultInfo]
    else Infos(dir, files.value)
  }

  /** One more file in the listing adds its entry when it is a template. */
  lemma {:induction false} InfosAppend(dir: string, files: seq<string>, f: string)
    ensures Infos(dir, files + [f]) == Infos(dir, files) + Entry(dir, f)
    decreases |files|
  {
    if files == [] {
      assert files + [f] == [f];
      assert [f][1..] == [];
    } else {
      var longer := files + [f];
      assert longer[0] == files[0];
      assert longer[1..] == files[1..] + [f];
      InfosAppend(dir, files[1..], f);
      Assoc(Entry(dir, files[0]), Infos(dir, files[1..]), Entry(dir, f));
    }
  }

  lemma Assoc<T>(a: seq<T>, b: seq<T>, c: seq<T>)
    ensures a + (b + c) == (a + b) + c
  {
  }

  /** The entries of a longer prefix of the listing. */
  lemma CollectStep(dir: string, files: seq<string>, i: nat)
    requires i < |files|
    ensures Infos(dir, files[..i + 1]) == Infos(dir, files[..i]) + Entry(dir, files[i])
  {
    assert files[..i + 1] == files[..i] + [files[i]];
    InfosAppend(dir, files[..i], files[i]);
  }

  /** The entries are those of the template files, one each, in order. */
  lemma InfosOfHtmlFiles(dir: string, files: seq<string>)
    ensures |Infos(dir, files)| == |HtmlFiles(files)|
    ensures forall i :: 0 <= i < |HtmlFiles(files)| ==> Infos(dir, files)[i] == InfoOf(dir, HtmlFiles(files)[i])
  {
    InfosEntries(dir, files);
  }

  /** `infos` are the entries of `files`, one each, in order. */
  predicate EntriesOf(dir: string, infos: seq<TemplateInfo>, files: seq<string>) {
    |infos| == |files| && forall i :: 0 <= i < |infos| ==> infos[i] == InfoOf(dir, files[i])
  }

  lemma {:induction false} InfosEntries(dir: string, files: seq<string>)
    ensures EntriesOf(dir, Infos(dir, files), HtmlFiles(files))
    decreases |files|
  {
    if files != [] {
      InfosEntries(dir, files[1..]);
      EntryOf(dir, files[0]);
      EntriesConcat(dir, Entry(dir, files[0]), IfTemplate(files[0]), Infos(dir, files[1..]), HtmlFiles(files[1..]));
    }
  }

  lemma EntryOf(dir: string, file: string)
    ensures EntriesOf(dir, Entry(dir, file), IfTemplate(file))
  {
  }

  lemma EntriesConcat(dir: string, a: seq<TemplateInfo>, fa: seq<string>, b: seq<TemplateInfo>, fb: seq<string>)
    requires EntriesOf(dir, a, fa) && EntriesOf(dir, b, fb)
    ensures EntriesOf(dir, a + b, fa + fb)
  {
    forall i | 0 <= i < |a + b|
      ensures (a + b)[i] == InfoOf(dir, (fa + fb)[i])
    {
      if i >= |a| {
        assert (a + b)[i] == b[i - |a|] && (fa + fb)[i] == fb[i - |a|];
      }
    }
  }

  lemma InConcat<T>(a: seq<T>, b: seq<T>, x: T)
    ensures x in a + b <==> x in a || x in b
  {
  }

  /** A file is kept exactly when it is in the listing and has the extension `.html`. */
  lemma {:induction false} HtmlFilesMembers(files: seq<string>, f: string)
    ensures f in HtmlFiles(files) <==> f in files && ExtName(f) == ".html"
    decreases |files|
  {
    if files != [] {
      HtmlFilesMembers(files[1..], f);
      InConcat(IfTemplate(files[0]), HtmlFiles(files[1..]), f);
      IfTemplateHas(files[0], f);
      InTail(files, f);
    }
  }

  lemma IfTemplateHas(file: string, f: string)
    ensures f in IfTemplate(file) <==> f == file && ExtName(file) == ".html"
  {
  }

  lemma InTail<T>(xs: seq<T>, x: T)
    requires xs != []
    ensures x in xs <==> x == xs[0] || x in xs[1..]
  {
    assert xs == [xs[0]] + xs[1..];
  }

  /** The entry for a template file `name.html`: its id is `name`, its display
      name is `name` with a capital first letter, its path is in `dir`. */
  lemma TemplateEntry(dir: string, file: string)
    requires '/' !in file && ExtName(file) == ".html"
    ensures |file| > 5 && file[|file| - 5..] == ".html"
    ensures InfoOf(dir, file) == TemplateInfo(file[..|file| - 5], Capitalize(file[..|file| - 5]), Some(dir + "/" + file), None)
  {
    ExtNameSplit(file, ".html");
  }

  /** The listing is never empty: the default entry stands alone when the
      directory cannot be read or holds no template, and otherwise there is
      one entry per template file, in listing order. */
  lemma TemplatesListed(dir: string, files: Option<seq<string>>)
    ensures var t := TemplatesOf(dir, files);
      t != [] &&
      (t == [DefaultInfo] <==> files.None? || HtmlFiles(files.value) == []) &&
      (files.Some? && HtmlFiles(files.value) != [] ==>
        |t| == |HtmlFiles(files.value)| &&
        forall i :: 0 <= i < |t| ==> t[i] == InfoOf(dir, HtmlFiles(files.value)[i]))
  {
    if files.Some? {
      InfosOfHtmlFiles(dir, files.value);
      var h := HtmlFiles(files.value);
      if h != [] {
        assert TemplatesOf(dir, files)[0] == InfoOf(dir, h[0]);
        assert InfoOf(dir, h[0]).path.Some?;
      }
    }
  }

  /** The `forEach` over the listing: an entry for each `.html` file, in order. */
  method CollectTemplates(dir: string, files: seq<string>) returns (templates: seq<TemplateInfo>)
    ensures templates == Infos(dir, files)
  {
    templates := [];
    var i := 0;
    while i < |files|
      invariant 0 <= i <= |files|
      invariant templates == Infos(dir, files[..i])
    {
      CollectStep(dir, files, i);
      if ExtName(files[i]) == ".html" {
        templates := templates + [InfoOf(dir, files[i])];
      }
      i := i + 1;
    }
    assert files[..|files|] == files;
  }

  /** `getAvailableTemplates()` for the directory `dir`, whose listing is
      `files` (None when it cannot be read). */
  method GetAvailableTemplates(dir: string, files: Option<seq<string>>) returns (templates: seq<TemplateInfo>)
    ensures templates == TemplatesOf(dir, files)
  {
    if files.None? {
      return [DefaultInfo];
    }
    templates := CollectTemplates(dir, files.value);
    if templates == [] {
      templates := [DefaultInfo];
    }
  }
}
