/** The upload controller: classifying an uploaded file by its extension,
    extracting its text (plain text and Markdown verbatim, Word documents through
    the converter, HTML with its tags stripped), the statistics reported about
    that text, and the batch upload that sorts files into results and errors.
    File reads, the Word converter and the generated ids and times are inputs. */
module UploadController {
  import opened Common
  import opened JsString
  import opened NodePath
  import opened Regex

  // ---------------------------------------------------------------------------
  // Tag stripping: `html.replace(/<[^>]*>/g, '').trim()`

  function StripTags(html: string): (r: string)
    ensures '<' !in html ==> r == Trim(html)
  {
    UntaggedKept(html);
    Trim(RemoveMatches(Tag, html, 0))
  }

  /** No '<' in `t` has a '>' somewhere after it: nothing that looks like a tag is left. */
  predicate NoTagLeft(t: string) {
    forall i, j :: 0 <= i < j < |t| && t[i] == '<' ==> t[j] != '>'
  }

  /** A '<' with a '>' anywhere after it starts a tag. */
  lemma TagWhereClosed(s: string, p: nat, q: nat)
    requires p < q < |s| && s[p] == '<' && s[q] == '>'
    ensures MatchesAt(Tag, s, p)
  {
    OccursChar(s, '>', q);
  }

  /** A tag match ends with its '>'. */
  lemma TagEnds(s: string, m: Match)
    requires Found(Tag, s, m)
    ensures m.start < m.end <= |s| && s[m.end - 1] == '>'
  {
    var c := IndexFrom(s, ">", m.start + 1).value;
    OccursChar(s, '>', c);
  }

  lemma NoTagConcat(a: string, b: string)
    requires '<' !in a && NoTagLeft(b)
    ensures NoTagLeft(a + b)
  {
    assert forall k :: 0 <= k < |a| ==> a[k] != '<';
    forall i, j | 0 <= i < j < |a + b| && (a + b)[i] == '<'
      ensures (a + b)[j] != '>'
    {
      if i >= |a| {
        assert (a + b)[i] == b[i - |a|] && (a + b)[j] == b[j - |a|];
      }
    }
  }

  lemma NoTagSlice(t: string, lo: nat, hi: nat)
    requires lo <= hi <= |t| && NoTagLeft(t)
    ensures NoTagLeft(t[lo..hi])
  {
    forall i, j | 0 <= i < j < hi - lo && t[lo..hi][i] == '<'
      ensures t[lo..hi][j] != '>'
    {
      assert t[lo + i] == '<';
    }
  }

  /** Removing the tags from position `from` on leaves no tag behind. */
  lemma {:induction false} RemovedTagsGone(s: string, from: nat)
    requires from <= |s|
    ensures NoTagLeft(RemoveMatches(Tag, s, from))
    decreases |s| - from
  {
    ExecSpec(Tag, s, from);
    match Exec(Tag, s, from)
    case None =>
      forall i, j | 0 <= i < j < |s[from..]| && s[from..][i] == '<'
        ensures s[from..][j] != '>'
      {
        if s[from + j] == '>' {
          TagWhereClosed(s, from + i, from + j);
        }
      }
    case Some(m) =>
      TagEnds(s, m);
      forall i | 0 <= i < m.start - from
        ensures s[from..m.start][i] != '<'
      {
        if s[from + i] == '<' {
          TagWhereClosed(s, from + i, m.end - 1);
        }
      }
      RemovedTagsGone(s, m.end);
      NoTagConcat(s[from..m.start], RemoveMatches(Tag, s, m.end));
  }

  /** The stripped text contains no '<' followed later by '>'. */
  lemma StripTagsLeavesNoTag(html: string)
    ensures NoTagLeft(StripTags(html))
  {
    var t := RemoveMatches(Tag, html, 0);
    RemovedTagsGone(html, 0);
    NoTagSlice(t, TrimStart(t), TrimStart(t) + |Trim(t)|);
  }

  /** Text without '<' has no tag to remove. */
  lemma UntaggedKept(html: string)
    ensures '<' !in html ==> RemoveMatches(Tag, html, 0) == html
  {
    if '<' !in html {
      ExecSpec(Tag, html, 0);
      assert forall k :: 0 <= k < |html| ==> html[k] != '<';
      if Exec(Tag, html, 0).Some? {
        assert false;
      }
    }
  }

  // ---------------------------------------------------------------------------
  // Statistics

  /** `text.split(/\s+/)`, scanning from `q` with the current piece starting at
      `p`: each maximal whitespace run ends a piece. */
  function SplitFrom(t: string, p: nat, q: nat): seq<string>
    requires p <= q <= |t|
    decreases |t| - q
  {
    if q == |t| then [t[p..]]
    else if IsSpace(t[q]) then
      var e := RunEnd(t, q, Space);
      [t[p..q]] + SplitFrom(t, e, e)
    else SplitFrom(t, p, q + 1)
  }

  function SplitOnSpace(t: string): seq<string> {
    SplitFrom(t, 0, 0)
  }

  /** `.filter(word => word.length > 0)` */
  function NonEmpty(pieces: seq<string>): seq<string> {
    if pieces == [] then []
    else (if pieces[0] == [] then [] else [pieces[0]]) + NonEmpty(pieces[1..])
  }

  function WordCount(t: string): nat {
    |NonEmpty(SplitOnSpace(t))|
  }

  /** `text.split('\n').length` */
  function LineCount(t: string): nat {
    |Split(t, '\n')|
  }

  datatype Statistics = Statistics(characterCount: nat, wordCount: nat, lineCount: nat)

  /** `{ characterCount, wordCount, lineCount }`: the length, the number of
      words (each starting after a space or at the start), and the number of
      lines (one more than the newlines). */
  function Stats(text: string): (r: Statistics)
    ensures r.characterCount == |text|
    ensures r.wordCount == WordStarts(text, 0)
    ensures r.lineCount == Count(text, '\n') + 1
  {
    WordCountIsWordStarts(text);
    SplitCount(text, '\n');
    Statistics(|text|, WordCount(text), LineCount(text))
  }

  /** A word starts at `i`: a non-space character at the start or after a space. */
  predicate WordStart(t: string, i: nat)
    requires i < |t|
  {
    !IsSpace(t[i]) && (i == 0 || IsSpace(t[i - 1]))
  }

  /** The number of word starts at or after `i`. */
  function WordStarts(t: string, i: nat): nat
    requires i <= |t|
    decreases |t| - i
  {
    if i == |t| then 0 else (if WordStart(t, i) then 1 else 0) + WordStarts(t, i + 1)
  }

  lemma NonEmptyCons(w: string, rest: seq<string>)
    ensures |NonEmpty([w] + rest)| == (if w == [] then 0 else 1) + |NonEmpty(rest)|
  {
    assert ([w] + rest)[1..] == rest;
  }

  /** Spaces start no word. */
  lemma {:induction false} WordStartsSkipSpaces(t: string, q: nat, e: nat)
    requires q <= e <= |t|
    requires forall k :: q <= k < e ==> IsSpace(t[k])
    ensures WordStarts(t, q) == WordStarts(t, e)
    decreases e - q
  {
    if q < e {
      WordStartsSkipSpaces(t, q + 1, e);
    }
  }

  /** The scan from `q`, inside a piece `t[p..q]` of non-space characters that
      starts at a word boundary, yields one non-empty piece per word start. */
  lemma {:induction false} SplitFromWords(t: string, p: nat, q: nat)
    requires p <= q <= |t|
    requires forall k :: p <= k < q ==> !IsSpace(t[k])
    requires p == 0 || (p <= |t| && IsSpace(t[p - 1]))
    ensures |NonEmpty(SplitFrom(t, p, q))| == (if p < q then 1 else 0) + WordStarts(t, q)
    decreases |t| - q
  {
    if q == |t| {
    } else if IsSpace(t[q]) {
      var e := RunEnd(t, q, Space);
      RunEndAll(t, q, Space);
      SplitFromWords(t, e, e);
      NonEmptyCons(t[p..q], SplitFrom(t, e, e));
      WordStartsSkipSpaces(t, q, e);
    } else {
      SplitFromWords(t, p, q + 1);
    }
  }

  /** `word_count` counts the words: the places where a non-space character
      follows a space or starts the text. */
  lemma WordCountIsWordStarts(t: string)
    ensures WordCount(t) == WordStarts(t, 0)
  {
    SplitFromWords(t, 0, 0);
  }

  lemma {:induction false} NoWordStartsBlank(t: string, i: nat)
    requires i <= |t| && WordStarts(t, i) == 0
    requires i == 0 || IsSpace(t[i - 1])
    ensures forall k :: i <= k < |t| ==> IsSpace(t[k])
    decreases |t| - i
  {
    if i < |t| {
      NoWordStartsBlank(t, i + 1);
    }
  }

  /** No word exactly when the text is empty or all whitespace. */
  lemma WordCountZero(t: string)
    ensures WordCount(t) == 0 <==> AllIn(t, Space)
  {
    WordCountIsWordStarts(t);
    if WordStarts(t, 0) == 0 {
      NoWordStartsBlank(t, 0);
    }
    if AllIn(t, Space) {
      WordStartsSkipSpaces(t, 0, |t|);
    }
  }

  // ---------------------------------------------------------------------------
  // Extraction by extension

  const SupportedExtensions := [".txt", ".md", ".docx", ".html", ".htm"]

  /** `path.extname(originalName).toLowerCase()` */
  function Extension(name: string): string {
    ToLower(ExtName(name))
  }

  /** What the Word converter resolves to: the raw text and its warnings. */
  datatype Docx = Docx(value: string, messages: seq<Json>)

  /** The outcome of the extension switch: the text and its format tag, the
      default branch, or the message of an error a read or the converter threw. */
  datatype Extraction =
    | Extracted(text: string, format: string, warnings: Option<seq<Json>>)
    | Unsupported
    | Thrown(message: string)

  /** The switch of `uploadDocument`; `read` is what reading the file yields
      and `docx` what the converter yields (each the thrown message on failure). */
  function ExtractUpload(ext: string, read: Result<string, string>, docx: Result<Docx, string>): (r: Extraction)
    ensures r.Unsupported? <==> ext !in SupportedExtensions
    ensures r.Extracted? ==> r.format in ["plain", "markdown", "docx", "html"]
    ensures r.Extracted? ==> (r.format == "markdown" <==> ext == ".md")
    ensures r.Thrown? ==> (ext == ".docx" && docx.Failure? && r.message == docx.error) ||
                          (ext != ".docx" && read.Failure? && r.message == read.error)
  {
    if ext == ".txt" || ext == ".md" then
      match read
      case Success(text) => Extracted(text, if ext == ".md" then "markdown" else "plain", None)
      case Failure(message) => Thrown(message)
    else if ext == ".docx" then
      match docx
      case Success(d) => Extracted(d.value, "docx", Some(d.messages))
      case Failure(message) => Thrown(message)
    else if ext == ".html" || ext == ".htm" then
      match read
      case Success(html) => Extracted(StripTags(html), "html", None)
      case Failure(message) => Thrown(message)
    else Unsupported
  }

  /** Which text each supported extension yields: the file verbatim for `.txt`
      and `.md`, the converter's text for `.docx`, the stripped file for HTML. */
  lemma ExtractedText(ext: string, read: Result<string, string>, docx: Result<Docx, string>)
    requires ExtractUpload(ext, read, docx).Extracted?
    ensures var text := ExtractUpload(ext, read, docx).text;
      (ext in [".txt", ".md"] ==> read.Success? && text == read.value) &&
      (ext == ".docx" ==> docx.Success? && text == docx.value.value) &&
      (ext in [".html", ".htm"] ==> read.Success? && text == StripTags(read.value) && NoTagLeft(text))
  {
    if ext in [".html", ".htm"] {
      StripTagsLeavesNoTag(read.value);
    }
  }

  // ---------------------------------------------------------------------------
  // `uploadDocument`

  /** The multer record of an uploaded file that the controller reads. */
  datatype UploadedFile = UploadedFile(originalName: string, size: nat, mimeType: string)

  datatype Metadata = Metadata(originalName: string, size: nat, mimeType: string, uploadId: string,
                               uploadTime: string, format: string, warnings: Option<seq<Json>>)

  datatype UploadResponse =
    | NoFileUploaded                              // 400 'No file uploaded'
    | UnsupportedFormat(supported: seq<string>)   // 400 'Unsupported file format'
    | ProcessingFailed(message: string)           // 500 'Failed to process uploaded file'
    | Uploaded(uploadId: string, extractedText: string, metadata: Metadata, statistics: Statistics)

  function Status(r: UploadResponse): nat {
    match r
    case NoFileUploaded => 400
    case UnsupportedFormat(_) => 400
    case ProcessingFailed(_) => 500
    case Uploaded(_, _, _, _) => 200
  }

  /** `uploadDocument` for the uploaded file (None when there is none), the
      generated id and time, and what reading and converting the file yield. */
  function UploadDocument(file: Option<UploadedFile>, uploadId: string, uploadTime: string,
                          read: Result<string, string>, docx: Result<Docx, string>): (r: UploadResponse)
    ensures r.NoFileUploaded? <==> file.None?
    ensures r.UnsupportedFormat? <==> file.Some? && Extension(file.value.originalName) !in SupportedExtensions
    ensures r.UnsupportedFormat? ==> r.supported == SupportedExtensions
  {
    match file
    case None => NoFileUploaded
    case Some(f) =>
      match ExtractUpload(Extension(f.originalName), read, docx)
      case Unsupported => UnsupportedFormat(SupportedExtensions)
      case Thrown(message) => ProcessingFailed(message)
      case Extracted(text, format, warnings) =>
        Uploaded(uploadId, text, Metadata(f.originalName, f.size, f.mimeType, uploadId, uploadTime, format, warnings),
                 Stats(text))
  }

  /** A successful upload is of a supported extension, tagged 'markdown' exactly
      for `.md`, and its statistics describe the text it returns. */
  lemma UploadedDescribed(file: Option<UploadedFile>, uploadId: string, uploadTime: string,
                          read: Result<string, string>, docx: Result<Docx, string>)
    ensures var r := UploadDocument(file, uploadId, uploadTime, read, docx);
      (Status(r) == 200 <==> r.Uploaded?) &&
      (r.Uploaded? ==>
        var ext := Extension(file.value.originalName);
        ext in SupportedExtensions &&
        (r.metadata.format == "markdown" <==> ext == ".md") &&
        r.metadata.originalName == file.value.originalName && r.metadata.uploadId == uploadId &&
        r.statistics.characterCount == |r.extractedText| &&
        r.statistics.wordCount == WordStarts(r.extractedText, 0) &&
        r.statistics.lineCount == Count(r.extractedText, '\n') + 1)
  {
  }

  // ---------------------------------------------------------------------------
  // `processFile`

  datatype FileResult = FileResult(uploadId: string, filename: string, extractedText: string,
                                   characterCount: nat, wordCount: nat)

  /** `processFile`: the same switch, but an unsupported extension throws an
      error naming it; Failure carries the message of what is thrown. */
  function ProcessFile(file: UploadedFile, uploadId: string,
                       read: Result<string, string>, docx: Result<Docx, string>): (r: Result<FileResult, string>)
    ensures Extension(file.originalName) !in SupportedExtensions ==>
            r == Failure("Unsupported file format: " + Extension(file.originalName))
    ensures Extension(file.originalName) in SupportedExtensions && r.Failure? ==>
            (if Extension(file.originalName) == ".docx" then docx == Failure(r.error) else read == Failure(r.error))
    ensures r.Success? ==> r.value.filename == file.originalName && r.value.uploadId == uploadId &&
                           r.value.characterCount == |r.value.extractedText| &&
                           r.value.wordCount == WordCount(r.value.extractedText)
  {
    var ext := Extension(file.originalName);
    match ExtractUpload(ext, read, docx)
    case Unsupported => Failure("Unsupported file format: " + ext)
    case Thrown(message) => Failure(message)
    case Extracted(text, _, _) => Success(FileResult(uploadId, file.originalName, text, |text|, WordCount(text)))
  }

  /** `processFile` and `uploadDocument` extract the same text from the same file. */
  lemma ProcessAgreesWithUpload(file: UploadedFile, uploadId: string, uploadTime: string,
                                read: Result<string, string>, docx: Result<Docx, string>)
    ensures var p := ProcessFile(file, uploadId, read, docx);
      var u := UploadDocument(Some(file), uploadId, uploadTime, read, docx);
      (p.Success? <==> u.Uploaded?) &&
      (p.Success? ==> p.value.extractedText == u.extractedText && p.value.wordCount == u.statistics.wordCount)
  {
  }

  // ---------------------------------------------------------------------------
  // `uploadBatch`

  /** What `processFile` does to each file, with its reads and id bound in. */
  type Processor = UploadedFile -> Result<FileResult, string>

  datatype FileError = FileError(filename: string, error: string)

  /** The results of the files that were processed, in order. */
  function Results(files: seq<UploadedFile>, process: Processor): seq<FileResult>
    decreases |files|
  {
    if files == [] then []
    else
      var last := files[|files| - 1];
      Results(files[..|files| - 1], process) + (if process(last).Success? then [process(last).value] else [])
  }

  /** The errors of the files that failed, in order. */
  function Errors(files: seq<UploadedFile>, process: Processor): seq<FileError>
    decreases |files|
  {
    if files == [] then []
    else
      var last := files[|files| - 1];
      Errors(files[..|files| - 1], process) +
        (if process(last).Failure? then [FileError(last.originalName, process(last).error)] else [])
  }

  datatype BatchResponse =
    | NoFilesUploaded   // 400 'No files uploaded'
    | BatchDone(batchId: string, processedCount: nat, errorCount: nat, results: seq<FileResult>, errors: seq<FileError>)

  /** The response of `uploadBatch` for the uploaded files (None when there are none). */
  function Batch(files: Option<seq<UploadedFile>>, batchId: string, process: Processor): (r: BatchResponse)
    ensures r.NoFilesUploaded? <==> files.None? || files.value == []
    ensures r.BatchDone? ==>
      r.processedCount + r.errorCount == |files.value| &&
      r.processedCount == |r.results| && r.errorCount == |r.errors|
  {
    if files.None? || files.value == [] then NoFilesUploaded
    else
      BatchCounts(files.value, process);
      var results := Results(files.value, process);
      var errors := Errors(files.value, process);
      BatchDone(batchId, |results|, |errors|, results, errors)
  }

  /** The `for ... of` loop over the files: each is processed, its result or its
      error pushed, and one failure does not stop the rest. */
  method UploadBatch(files: Option<seq<UploadedFile>>, batchId: string, process: Processor) returns (r: BatchResponse)
    ensures r == Batch(files, batchId, process)
  {
    if files.None? || |files.value| == 0 {
      return NoFilesUploaded;
    }
    var fs := files.value;
    var results: seq<FileResult> := [];
    var errors: seq<FileError> := [];
    var i := 0;
    while i < |fs|
      invariant 0 <= i <= |fs|
      invariant results == Results(fs[..i], process)
      invariant errors == Errors(fs[..i], process)
    {
      assert fs[..i + 1][..i] == fs[..i];
      var outcome := process(fs[i]);
      match outcome {
        case Success(value) =>
          results := results + [value];
        case Failure(message) =>
          errors := errors + [FileError(fs[i].originalName, message)];
      }
      i := i + 1;
    }
    assert fs[..|fs|] == fs;
    r := BatchDone(batchId, |results|, |errors|, results, errors);
  }

  /** Sorting two runs of files one after the other sorts their concatenation:
      results and errors keep the input order. */
  lemma {:induction false} BatchAppend(a: seq<UploadedFile>, b: seq<UploadedFile>, process: Processor)
    ensures Results(a + b, process) == Results(a, process) + Results(b, process)
    ensures Errors(a + b, process) == Errors(a, process) + Errors(b, process)
    decreases |b|
  {
    if b == [] {
      assert a + b == a;
    } else {
      var b' := b[..|b| - 1];
      assert (a + b)[..|a + b| - 1] == a + b';
      assert (a + b)[|a + b| - 1] == b[|b| - 1];
      BatchAppend(a, b', process);
    }
  }

  /** A single file lands in exactly one of the two lists. */
  lemma BatchOne(f: UploadedFile, process: Processor)
    ensures Results([f], process) == (if process(f).Success? then [process(f).value] else [])
    ensures Errors([f], process) == (if process(f).Failure? then [FileError(f.originalName, process(f).error)] else [])
    ensures |Results([f], process)| + |Errors([f], process)| == 1
  {
    assert [f][..0] == [];
  }

  /** Every file is counted once: processed and failed add up to the files sent. */
  lemma {:induction false} BatchCounts(files: seq<UploadedFile>, process: Processor)
    ensures |Results(files, process)| + |Errors(files, process)| == |files|
    decreases |files|
  {
    if files != [] {
      BatchCounts(files[..|files| - 1], process);
    }
  }
}
