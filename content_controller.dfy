/** The content controller: text extraction from an uploaded file, whose
    extension here is the text after the last '.', the fixed table of design
    suggestions, and the lengths reported around content enhancement. The file
    read, the Word converter and the language model's answer are inputs. */
module ContentController {
  import opened Common
  import opened JsString
  import UploadController

  // ---------------------------------------------------------------------------
  // `extractText`

  /** `originalname.split('.').pop().toLowerCase()` */
  function FileExtension(name: string): string {
    var pieces := Split(name, '.');
    ToLower(pieces[|pieces| - 1])
  }

  /** Lowercasing brings in no '.'. */
  lemma LowerNoDot(x: string)
    requires '.' !in x
    ensures '.' !in ToLower(x)
  {
    forall k | 0 <= k < |x|
      ensures ToLower(x)[k] != '.'
    {
      assert x[k] in x;
    }
  }

  /** The last piece of the name split at '.'. */
  lemma LastPiece(name: string) returns (last: string)
    ensures FileExtension(name) == ToLower(last)
    ensures '.' !in last && |last| <= |name| && name[|name| - |last|..] == last
    ensures '.' !in name ==> last == name
    ensures '.' in name ==> name[|name| - |last| - 1] == '.'
  {
    var pieces := Split(name, '.');
    last := pieces[|pieces| - 1];
    SplitLast(name, '.');
    SplitJoin(name, '.');
    SplitCount(name, '.');
    if '.' in name {
      assert Count(name, '.') > 0;
    } else {
      assert Count(name, '.') == 0;
    }
  }

  /** The extension is the lowercased text after the last '.', or the whole
      lowercased name when it has no '.'. */
  lemma FileExtensionIsLast(name: string)
    ensures var ext := FileExtension(name);
      '.' !in ext && |ext| <= |name| && ext == ToLower(name[|name| - |ext|..]) &&
      ('.' !in name ==> ext == ToLower(name)) &&
      ('.' in name ==> name[|name| - |ext| - 1] == '.')
  {
    var last := LastPiece(name);
    LowerNoDot(last);
  }

  const Accepted := ["txt", "md", "docx", "html"]

  datatype ExtractResponse =
    | NoFileUploaded                  // 400 'No file uploaded'
    | UnsupportedFormat               // 400 'Unsupported file format'
    | ExtractionFailed(message: string) // 500 'Failed to extract text'
    | TextExtracted(extractedText: string, length: nat, format: string)

  function Status(r: ExtractResponse): nat {
    match r
    case NoFileUploaded => 400
    case UnsupportedFormat => 400
    case ExtractionFailed(_) => 500
    case TextExtracted(_, _, _) => 200
  }

  /** The response once the switch has produced the text or thrown. */
  function Outcome(ext: string, text: Result<string, string>): ExtractResponse {
    match text
    case Success(t) => TextExtracted(t, |t|, ext)
    case Failure(message) => ExtractionFailed(message)
  }

  /** `extractText` for the uploaded file's original name (None when no file
      was uploaded), what reading it yields and what the converter yields. */
  function ExtractText(originalName: Option<string>, read: Result<string, string>, docx: Result<UploadController.Docx, string>): (r: ExtractResponse)
    ensures r.NoFileUploaded? <==> originalName.None?
    ensures r.UnsupportedFormat? <==> originalName.Some? && FileExtension(originalName.value) !in Accepted
    ensures r.TextExtracted? ==> r.length == |r.extractedText| && r.format == FileExtension(originalName.value)
    ensures Status(r) == 200 <==> r.TextExtracted?
  {
    match originalName
    case None => NoFileUploaded
    case Some(name) =>
      var ext := FileExtension(name);
      if ext == "txt" || ext == "md" then Outcome(ext, read)
      else if ext == "docx" then
        match docx
        case Success(d) => TextExtracted(d.value, |d.value|, ext)
        case Failure(message) => ExtractionFailed(message)
      else if ext == "html" then
        match read
        case Success(html) => Outcome(ext, Success(UploadController.StripTags(html)))
        case Failure(message) => ExtractionFailed(message)
      else UnsupportedFormat
  }

  /** What each accepted extension yields: `txt` and `md` the file verbatim,
      `docx` the converter's text, `html` the file stripped of tags and
      trimmed; `htm`, unlike in the upload controller, is refused. */
  lemma ExtractedTexts(name: string, read: Result<string, string>, docx: Result<UploadController.Docx, string>)
    ensures var r := ExtractText(Some(name), read, docx); var ext := FileExtension(name);
      (ext in ["txt", "md"] && read.Success? ==> r == TextExtracted(read.value, |read.value|, ext)) &&
      (ext == "docx" && docx.Success? ==> r == TextExtracted(docx.value.value, |docx.value.value|, ext)) &&
      (ext == "html" && read.Success? ==> r.TextExtracted? && r.extractedText == UploadController.StripTags(read.value) &&
                                          UploadController.NoTagLeft(r.extractedText)) &&
      (ext == "htm" ==> r == UnsupportedFormat)
  {
    if FileExtension(name) == "html" && read.Success? {
      UploadController.StripTagsLeavesNoTag(read.value);
    }
  }

  // ---------------------------------------------------------------------------
  // `getSuggestions`

  datatype Layout = Layout(id: string, name: string, description: string)

  /** The three kinds of suggestion the table holds. */
  datatype Suggestions =
    | Typography(fonts: seq<string>, sizes: seq<string>, styles: seq<string>)
    | Colors(primary: seq<string>, accent: seq<string>, backgrounds: seq<string>)
    | Layouts(layouts: seq<Layout>)

  const SuggestionTypes: map<string, Suggestions> := map[
    "typography" := Typography(
      ["Arial", "Helvetica", "Georgia", "Times New Roman", "Verdana", "Calibri"],
      ["10pt", "11pt", "12pt", "14pt", "16pt", "18pt"],
      ["Normal", "Bold", "Italic", "Bold Italic"]),
    "colors" := Colors(
      ["#333333", "#000000", "#2c3e50", "#34495e"],
      ["#3498db", "#e74c3c", "#2ecc71", "#f39c12", "#9b59b6"],
      ["#ffffff", "#f8f9fa", "#ecf0f1", "#bdc3c7"]),
    "layouts" := Layouts([
      Layout("default", "Default", "Clean and simple"),
      Layout("modern", "Modern", "Contemporary design"),
      Layout("classic", "Classic", "Traditional layout"),
      Layout("minimal", "Minimal", "Ultra-clean design")])]

  datatype SuggestionResponse =
    | SuggestionsFound(suggestions: Suggestions)
    | SuggestionTypeNotFound   // 404 'Suggestion type not found'

  /** `getSuggestions` for the route parameter `suggestionType`. */
  function GetSuggestions(suggestionType: string): (r: SuggestionResponse)
    ensures r.SuggestionsFound? <==> suggestionType in ["typography", "colors", "layouts"]
    ensures r.SuggestionsFound? ==> r.suggestions == SuggestionTypes[suggestionType]
  {
    if suggestionType in SuggestionTypes then SuggestionsFound(SuggestionTypes[suggestionType])
    else SuggestionTypeNotFound
  }

  /** Each known type answers with its own kind of suggestion; the layouts
      offered are the four templates, each with a distinct id. */
  lemma SuggestionKinds()
    ensures GetSuggestions("typography").suggestions.Typography?
    ensures GetSuggestions("colors").suggestions.Colors?
    ensures GetSuggestions("layouts").suggestions.Layouts?
    ensures var ls := GetSuggestions("layouts").suggestions.layouts;
      |ls| == 4 && ls[0].id == "default" &&
      forall i, j :: 0 <= i < j < |ls| ==> ls[i].id != ls[j].id
    ensures GetSuggestions("fonts") == SuggestionTypeNotFound
  {
  }

  // ---------------------------------------------------------------------------
  // `enhanceContent`

  datatype EnhanceResponse =
    | ValidationFailed(details: seq<Json>)   // 400 'Validation failed'
    | EnhanceFailed(message: string)         // 500 'Failed to enhance content'
    | Enhanced(enhancedContent: string, originalLength: nat, enhancedLength: nat)

  /** `enhanceContent` for the validator's errors, the submitted text and what
      the language model answers (its error message when the call throws). */
  function EnhanceContent(validationErrors: seq<Json>, text: string, enhanced: Result<string, string>): (r: EnhanceResponse)
    ensures r.ValidationFailed? <==> validationErrors != []
    ensures r.ValidationFailed? ==> r.details == validationErrors
    ensures validationErrors == [] ==> (r.EnhanceFailed? <==> enhanced.Failure?)
    ensures r.Enhanced? ==> r.enhancedContent == enhanced.value &&
                            r.originalLength == |text| && r.enhancedLength == |r.enhancedContent|
  {
    if validationErrors != [] then ValidationFailed(validationErrors)
    else
      match enhanced
      case Failure(message) => EnhanceFailed(message)
      case Success(content) => Enhanced(content, |text|, |content|)
  }
}
