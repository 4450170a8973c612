# papyrus-ai core in Dafny

This project models the deterministic part of the papyrus-ai backend. That
backend turns Markdown and uploaded documents into styled HTML and PDF pages,
with charts and diagrams. The model covers the string and list transforms that
sit between its library calls:

- **Text signals and charts** (`ChartService`). The `word: number` and bullet
  scanners of `extractDataFromText`, the chart-type heuristic, the cycling
  colour palette, the axis configuration and the Chart.js data builders.
- **Document assembly** (`Template`, `PdfService`).
  - The `[CHART: …]` / `[DIAGRAM: …]` marker expansion, with its fall-back to
    the original HTML.
  - The placeholder chain `{{TITLE}}`, `{{CONTENT}}`, `{{AUTHOR}}`, `{{DATE}}`,
    `{{STYLES}}`, and the built-in template it fills.
  - The style merge and the generated stylesheet.
  - The PDF file name, URL and print options.
  - The template listing.
- **Uploaded text** (`UploadController`, `ContentController`). Classification
  by extension, naive tag stripping, character/word/line statistics, the batch
  loop, the content controller's own extension rule, the suggestion table and
  the enhancement lengths.
- **Chart suggestions** (`ChartController`). The model's charts merged with the
  one chart built from the key/value entries.

Shared modules model the JavaScript and Node built-ins the code relies on:
- `JsString`: `\s`, `trim`, `indexOf`, `replace` with a string pattern (first
  occurrence, with its `$` substitution patterns), `split` on one character and
  `toLowerCase`.
- `NodePath`: posix `path.extname`, `path.basename` and `path.join`.
- `Regex`: each regular expression written out as the matcher its backtracking
  amounts to, plus the global `exec` / `replace` scan, which finds leftmost
  matches and resumes where the previous match ended.

Loops in the source are `method`s with loops, proved equal to a
specification function. The properties are lemmas about those functions:
- the `exec` loops of `extractDataFromText` and `processSpecialElements`;
- the palette loop;
- the `forEach` of `getAvailableTemplates`;
- the `for … of` loops of `uploadBatch` and `extractChartData`.

Libraries and effects are parameters:
- **Libraries:** marked's output, the template file and the directory listing,
  the puppeteer printer, mammoth's result and the language model's answers.
- **Effects:** uuids, dates, and the results of file reads.

A failing call is a `Failure` carrying the thrown message.

## Model

| member | source | states |
|---|---|---|
| ChartService.ExtractDataFromText | backend/services/chartService.js:201-239 | the result is the key/value scan and the bullet scan of the whole text, each a full leftmost non-overlapping scan; `tables` is always empty |
| ChartService.CollectMatches | backend/services/chartService.js:220-226 | the `while (exec)` loop pushes exactly the entries of the successive matches, in order |
| ChartService.KeyValueLabels | backend/services/chartService.js:203-204 | every key/value label is a non-empty run of word characters and every value is non-negative |
| ChartService.KeyValueItem | backend/services/chartService.js:220-226 | entry i of the key/value list has a non-empty label made only of `\w` characters |
| ChartService.KeyValueEntries | backend/services/chartService.js:203-204 | a text made of entries `word: digits` (word characters, a colon and one space, digits) joined by `, ` yields exactly one datum per entry, in order, with the entry's word as label and its digits as value |
| ChartService.ExampleSales | backend/services/chartService.js:220-226 | "Sales: 100, Marketing: 50" yields Sales/100 then Marketing/50 |
| ChartService.BulletLabels | backend/services/chartService.js:230-236 | every bullet label is trimmed, contains no ':', and its value is non-negative |
| ChartService.BulletItem | backend/services/chartService.js:230-236 | entry i of the bullet list has a trimmed label without ':' |
| ChartService.BulletLineInBoth | backend/services/chartService.js:210-236 | a text consisting of the single line `- word: digits` gives that one entry in both lists, because the bullet pass rescans the text independently |
| ChartService.ExampleBullet | backend/services/chartService.js:221-236 | "- X: 5" gives X/5 in both the key/value and the bullet list |
| ChartService.SuggestChartType | backend/services/chartService.js:241-248 | 'pie' exactly for 1–5 values, 'bar' exactly for none or 6–10, 'line' exactly for more than 10; always one of the three |
| ChartService.GetDefaultColors | backend/services/chartService.js:147-158 | returns max(count, 0) colours, colour i being palette[i mod 8] |
| ChartService.DefaultColorsCycle | backend/services/chartService.js:154-156 | the colour list repeats with period 8 |
| ChartService.DefaultColorsShape | backend/services/chartService.js:148-151 | every default colour is one of the eight palette entries, a '#' and six hex digits long |
| ChartService.DefaultBorderColors | backend/services/chartService.js:160-162 | as many border colours as colours; each is the matching colour followed by "80", so dropping the suffix recovers the colour |
| ChartService.ScalesConfig | backend/services/chartService.js:62-82 | no scales exactly for 'pie' and 'doughnut'; otherwise both axes are displayed with grids and only y begins at zero |
| ChartService.CreateBarChart | backend/services/chartService.js:108-119 | labels unchanged; one bar dataset per input dataset, in order, keeping label and data; given colours kept, else palette colours for the data's length; border width 1 |
| ChartService.CreateLineChart | backend/services/chartService.js:121-133 | labels unchanged; one line dataset per input, in order, keeping label and data; fill defaults to false, colours to '#2563eb' and the translucent fill colour |
| ChartService.CreatePieChart | backend/services/chartService.js:135-145 | exactly one dataset holding the data, with colour and border lists of the data's length, border width 1 |
| Regex.MatchAllFound | backend/services/chartService.js:220-226 | every match the `exec` loop sees is a match of the pattern in the text |
| Regex.MatchAllOrdered | backend/services/chartService.js:220-226 | the matches are in left-to-right order and do not overlap |
| Regex.MatchAllCovers | backend/services/chartService.js:220-226 | every position where the pattern matches lies inside one of the matches seen: nothing is skipped |
| Regex.MarkerShape | backend/services/pdfService.js:94 | a marker match is the opening, optional whitespace, a non-empty description without ']', then ']' |
| Regex.FirstMarkerText | backend/services/pdfService.js:98-101 | the first occurrence of the first marker's text is where that marker was matched |
| Regex.MarkerNeedsBracket | backend/services/pdfService.js:94 | text without '[' holds no marker |
| PdfService.ProcessSpecialElements | backend/services/pdfService.js:91-119 | equals the specification: chart markers expanded, then diagram markers, each list taken from the original html; any failure returns the original html |
| PdfService.ExpandMarkers | backend/services/pdfService.js:98-102 | the `while (exec)` loop fails exactly when the fold over the markers fails, and otherwise yields the fold's result |
| PdfService.MarkersInOrder | backend/services/pdfService.js:98-108 | the markers visited are real matches in the original html, in order, and none is skipped |
| PdfService.MarkerDescription | backend/services/pdfService.js:94-109 | each captured description is non-empty, holds no ']', and follows the opening and optional whitespace |
| PdfService.ExpandFails | backend/services/pdfService.js:98-112 | the expansion fails exactly when generating some marker's fragment fails |
| PdfService.Expand | backend/services/pdfService.js:98-112 | a failed expansion carries the error of the fragment of one of the markers |
| PdfService.Processed | backend/services/pdfService.js:91-119 | html in which neither kind of marker is found is returned as it is |
| PdfService.FailureKeepsOriginal | backend/services/pdfService.js:115-118 | if any marker's fragment fails, the original html is returned |
| PdfService.BuiltInExpandsAll | backend/services/pdfService.js:121-143 | with the built-in fragment generators nothing fails: the result is the chart expansion followed by the diagram expansion |
| PdfService.UnmarkedUnchanged | backend/services/pdfService.js:94-114 | html with no chart or diagram marker is returned unchanged |
| PdfService.NoBracketUnchanged | backend/services/pdfService.js:94-114 | html without '[' is returned unchanged |
| PdfService.FirstMarkerInPlace | backend/services/pdfService.js:101 | replacing the first marker puts the fragment exactly where that marker was |
| PdfService.Fragment | backend/services/pdfService.js:121-143 | a fragment starts with its chart or diagram container and shows the description right after its label |
| PdfService.MergeStyles | backend/services/pdfService.js:146-154 | the merged keys are the defaults' and the supplied ones; supplied values override; unsupplied keys keep 'Arial, sans-serif', '12pt', '1.6', '#333333', '#2563eb' |
| PdfService.InterpolateAppend | backend/services/pdfService.js:156-215 | filling the sheet's pieces distributes over concatenation of pieces |
| PdfService.SlotFilled | backend/services/pdfService.js:156-215 | an interpolation whose key is present puts that key's value right after the text that precedes it |
| PdfService.InterpolateAgree | backend/services/pdfService.js:156-215 | two style records that agree on every interpolated key give the same sheet |
| PdfService.StyleSlots | backend/services/pdfService.js:156-215 | every interpolation in the sheet reads one of the five default styles, and each of the five is read somewhere |
| PdfService.StylesShown | backend/services/pdfService.js:146-215 | the custom sheet shows the merged value of its style at every interpolation, so none reads 'undefined' |
| PdfService.CustomStyles | backend/services/pdfService.js:146-215 | only the five default style names are read: extra keys in the caller's styles leave the sheet unchanged |
| Template.ReplaceSlot | backend/services/pdfService.js:77-82 | replacing a token whose first occurrence is a given slot fills exactly that slot and nothing else |
| Template.DefaultFill | backend/services/pdfService.js:218-251 | filling the built-in template puts the title, styles, author, date and content into its first five slots, in template order |
| Template.HeadingTitleKept | backend/services/pdfService.js:225-230 | in the filled built-in template the second `{{TITLE}}`, in the heading, stays literal |
| Template.HeadingTitleStays | backend/services/pdfService.js:77-82 | whatever the values, the filled built-in template still holds a `{{TITLE}}`: the chain replaces only the first one, in `<title>`, and no later replacement removes the heading's |
| Template.TokenSurvives | backend/services/pdfService.js:77-82 | replacing the first `{{m}}` of a text keeps every `{{name}}` of another name, whatever is inserted |
| Template.DefaultLayout | backend/services/pdfService.js:218-251 | the built-in template is the fixed layout whose five slots hold the title, styles, author, date and content placeholders, with a second `{{TITLE}}` in the `<h1>` heading |
| Template.TitleSlotsOrdered | backend/services/pdfService.js:225-230 | the built-in template holds `{{TITLE}}` in `<title>` and again, after it, in `<h1>` |
| Template.Fill | backend/services/pdfService.js:77-82 | a template without '{' holds no placeholder and comes back unchanged |
| PdfService.PageValues | backend/services/pdfService.js:74-82 | title is the option or 'Document' when absent or empty, author the option or '', content the processed markdown, styles the custom stylesheet |
| PdfService.GenerateHtml | backend/services/pdfService.js:58-89 | fails exactly when the template file cannot be read, with 'Failed to generate HTML content' |
| PdfService.DefaultPage | backend/services/pdfService.js:67-82 | a page without a template file is the built-in layout with the five values in their slots |
| PdfService.PlainTemplatePage | backend/services/pdfService.js:67-82 | a read template without placeholders is the page as it is |
| PdfService.PdfFilename | backend/services/pdfService.js:16 | the file name is 'document_', the id, then '.pdf', and the id can be read back from it |
| PdfService.PdfOptions | backend/services/pdfService.js:30-41 | the options have path, A4 format, printBackground and the 20/15 mm margin as defaults; every supplied key replaces its default whole |
| PdfService.GeneratePdf | backend/services/pdfService.js:13-56 | on success the filename, the path in the output directory and the '/generated/' url are those of the id; any failure, of the page, the printer or the stat, is 'Failed to generate PDF' |
| PdfService.PdfPrinted | backend/services/pdfService.js:15-50 | the run succeeds exactly when the page is made, the printer succeeds on it with the print options, and a file is then found at the default output path; the size is that file's |
| PdfService.PathOverride | backend/services/pdfService.js:30-49 | a caller's `path` option is the path the printer is given, while the size is still read at the default output path |
| PdfService.CollectTemplates | backend/services/pdfService.js:258-267 | the `forEach` pushes one entry per `.html` file of the listing, in listing order |
| PdfService.GetAvailableTemplates | backend/services/pdfService.js:253-287 | equals the listing specification, including the default entry on an empty result or an unreadable directory |
| PdfService.TemplatesListed | backend/services/pdfService.js:269-285 | the list is never empty; it is the single default entry exactly when the directory is unreadable or holds no `.html` file; otherwise it has one entry per `.html` file, in order |
| PdfService.TemplatesOf | backend/services/pdfService.js:253-287 | the template list is never empty |
| PdfService.HtmlFilesMembers | backend/services/pdfService.js:259 | a file is listed exactly when it is in the directory and its extension is `.html` |
| PdfService.InfosOfHtmlFiles | backend/services/pdfService.js:258-267 | entry i is the entry of the i-th `.html` file |
| PdfService.TemplateEntry | backend/services/pdfService.js:260-264 | the entry of `name.html` has id `name`, display name `name` with its first letter upper-cased, and its path in the template directory |
| UploadController.StripTagsLeavesNoTag | backend/controllers/uploadController.js:47 | the stripped text contains no '<' followed later by a '>' |
| UploadController.RemovedTagsGone | backend/controllers/uploadController.js:47 | removing every `<[^>]*>` match leaves no '<' with a '>' after it |
| UploadController.StripTags | backend/controllers/uploadController.js:47 | text without '<' is only trimmed |
| UploadController.WordCountIsWordStarts | backend/controllers/uploadController.js:70 | the word count equals the number of places where a non-space character starts the text or follows a space |
| UploadController.WordCountZero | backend/controllers/uploadController.js:70 | the word count is 0 exactly for empty or all-whitespace text |
| JsString.SplitCount | backend/controllers/uploadController.js:71 | splitting on '\n' gives one more line than there are newlines |
| JsString.SplitJoin | backend/controllers/uploadController.js:71 | the pieces of a split hold no separator and join back to the text |
| UploadController.Stats | backend/controllers/uploadController.js:68-72 | character count is the length, word count the number of word starts, line count the newlines plus one |
| UploadController.ExtractUpload | backend/controllers/uploadController.js:30-56 | unsupported exactly for extensions outside .txt .md .docx .html .htm; format 'markdown' exactly for .md; a failure carries the read's or the converter's message |
| UploadController.ExtractedText | backend/controllers/uploadController.js:31-49 | .txt and .md give the file verbatim, .docx the converter's text, .html and .htm the stripped file, which holds no tag |
| UploadController.UploadDocument | backend/controllers/uploadController.js:7-55 | no file gives 'No file uploaded'; an unsupported extension gives 'Unsupported file format' listing the five extensions |
| UploadController.UploadedDescribed | backend/controllers/uploadController.js:18-73 | a 200 response is a supported extension, tagged 'markdown' exactly for .md, with statistics matching the returned text |
| UploadController.ProcessFile | backend/controllers/uploadController.js:134-184 | an unsupported extension throws 'Unsupported file format: ' followed by the extension; a result keeps the file name, the length of its text and its word count |
| UploadController.ProcessAgreesWithUpload | backend/controllers/uploadController.js:143-162 | `processFile` succeeds exactly when `uploadDocument` does, with the same text |
| UploadController.UploadBatch | backend/controllers/uploadController.js:92-123 | the loop produces the batch specification: results and errors of the files in order |
| UploadController.BatchAppend | backend/controllers/uploadController.js:104-114 | results and errors keep input order, and a failure does not stop later files |
| UploadController.BatchOne | backend/controllers/uploadController.js:105-113 | a file lands in exactly one of results and errors |
| UploadController.BatchCounts | backend/controllers/uploadController.js:119-120 | processed and error counts add up to the number of files |
| UploadController.Batch | backend/controllers/uploadController.js:92-123 | a missing or empty list gives 'No files uploaded'; otherwise the counts are the list lengths and add up to the files |
| ContentController.FileExtensionIsLast | backend/controllers/contentController.js:72 | the extension is the lowercased text after the last '.', the whole lowercased name without a '.', and holds no '.' |
| ContentController.ExtractText | backend/controllers/contentController.js:63-114 | no file gives 'No file uploaded'; extensions other than txt, md, docx, html give 'Unsupported file format'; a success reports the text's length and echoes the extension |
| ContentController.ExtractedTexts | backend/controllers/contentController.js:76-96 | txt and md are verbatim, docx is the converter's text, html is stripped of tags and trimmed, htm is refused |
| ContentController.GetSuggestions | backend/controllers/contentController.js:116-148 | found exactly for 'typography', 'colors' and 'layouts', with that entry of the table; otherwise 'Suggestion type not found' |
| ContentController.SuggestionKinds | backend/controllers/contentController.js:120-137 | each known type answers with its kind of suggestion; the four layouts have distinct ids |
| ContentController.EnhanceContent | backend/controllers/contentController.js:34-60 | validation errors give 400; otherwise a failing call gives 500; a success reports the input's and the enhanced text's lengths |
| ChartController.BuildSuggestions | backend/controllers/chartController.js:91-114 | the loop and the final push produce the suggestion specification |
| ChartController.AiCharts | backend/controllers/chartController.js:91-99 | the model's charts are its `charts` field when that is an array, and none otherwise |
| ChartController.SuggestedCharts | backend/controllers/chartController.js:91-114 | one suggestion per model chart, plus one when there are key/value entries |
| ChartController.SuggestedChartsShape | backend/controllers/chartController.js:91-114 | the model's charts come first, in order, each copying title, type, data and position. One 'Extracted Data' chart follows exactly when there are key/value entries. It has type suggestChartType(values), source 'simple_extraction', the entries' labels, and one 'Values' bar dataset with their values in order |
| ChartController.ChartResponseFor | backend/controllers/chartController.js:65-127 | validation errors give 400; on success the simple and the model's extraction are passed through beside the suggestions |
| ChartController.ExtractChartData | backend/controllers/chartController.js:65-127 | the handler computes the response specification |

## Left out

- Rendering is not modelled. `generateChart`, `generateMultipleCharts` and `generateDiagram` (backend/services/chartService.js:21-60, 84-106, 164-199) only render and write files.
- backend/services/aiService.js is not part of this model. Its answers are parameters. `analyzeContent` only forwards such an answer.
- `getUploadStatus` (backend/controllers/uploadController.js:186-206) is a fixed reply and is not modelled.
- Effects are parameters:
  - marked, mammoth, puppeteer and the template file are inputs;
  - `readdirSync`, `readFileSync`, `statSync`, `uuidv4` and `toLocaleDateString` are inputs;
  - `existsSync`, `unlinkSync` and `mkdirSync` are not modelled.
  - A failing `unlinkSync` in `extractText` is therefore not modelled.
- Express request validation is out: its outcome is the `validationErrors` parameter.
- Numbers are exact decimals (digits over a power of ten), not `parseFloat` doubles. JavaScript strings are `seq<char>`, not UTF-16 code units.
- `toLowerCase` and `toUpperCase` are modelled for ASCII letters only.
- `path.join` is `dir + "/" + file`, without normalisation.
- ChartService.CreateLineChart: the `tension: 0.1` field is not modelled.
- PdfService.MergeStyles: style values are strings. Other JSON values in `options.styles` are not modelled.
- Template.DefaultFill and PdfService.DefaultPage assume no '$' in the inserted values and no '{' in the title and author. `replace` itself models the `$` patterns exactly; the hypotheses only keep the slot positions fixed.
- Template.HeadingTitleKept: the exact position of the heading's `{{TITLE}}` is stated only under the hypotheses of Template.DefaultFill. Template.HeadingTitleStays shows for all values that a `{{TITLE}}` is left.
- PdfService.FirstMarkerInPlace assumes no '$' in the fragment, for the same reason.
- PdfService.ProcessSpecialElements: the fragment generators are a parameter, `render`, so that their failure path can be stated. `BuiltIn` is the source's own generator, which never fails.
- ChartService.BulletLineInBoth: stated for a text of one line. The bullet pattern's `[^:]+` also matches newlines, so in a text of several lines a bullet label can run across lines: for "- a\n- X: 5" the bullet pass gives the label "a\n- X" while the key/value pass gives "X". The matcher of the model has this behaviour; no lemma states it.
- PdfService.GeneratePdf: the printer and `fs.statSync` are separate inputs. What is found at the default output path after a run whose `path` option points elsewhere (no file, or an older one) is up to the `stat` input.
- ChartController.Field: an absent field (undefined) and a field set to null both read as JNull. `res.json` leaves undefined keys out and writes null ones, so responses that differ only in this are not told apart (a model chart without `position`, say).
- ChartController.AiCharts: a `charts` field that is not an array counts as no charts. A null entry is read as having null fields; the source would throw on it.
- UploadController.UploadBatch: the route registers the handler unbound (backend/routes/upload.js:47). The model is the intended loop, with `processFile` passed in as `process`.
- ContentController.GetSuggestions: the table is a map with three keys. Lookups of `Object.prototype` names are not modelled.
- The 500 responses for errors thrown outside the modelled calls are not modelled.
