/** `FileParser`: the text of an uploaded file, chosen by its extension. UTF-8 decoding
    and pypdf are oracles: `decode` gives the text or the decoder's message, `openPdf`
    the text of each page (or the message of the page that failed) or the reader's
    message. */
module FileParser {
  import opened Common

  newtype byte = x: int | 0 <= x < 256

  /** The exceptions of `parse_text`: the `ValueError` of an unsupported extension, the
      `UnicodeDecodeError` of a text file, and the `Exception` wrapping any PDF failure. */
  datatype ParseError = Unsupported(message: string) | DecodeFailed(message: string) | PdfFailed(message: string)

  /** A page of a PDF: its extracted text, or the message of the failed extraction. */
  type PageText = Result<string, string>

  const SupportedExtensions: seq<string> := ["txt", "md", "markdown", "pdf"]
  const TextExtensions: seq<string> := ["txt", "md", "markdown"]
  const PdfExtension: string := "pdf"
  const PdfErrorPrefix: string := "Failed to parse PDF: "
  const NoTextMessage: string := "PDF contains no extractable text"

  /** `filename.lower().split('.')[-1]`: the lower-cased text after the last dot, or the
      whole lower-cased name when it has none. */
  function Extension(filename: string): (ext: string)
    ensures |ext| <= |filename|
    ensures forall k :: 0 <= k < |ext| ==> ext[k] != '.'
    ensures ext == Lower(filename)[|filename| - |ext|..]
    ensures |ext| < |filename| ==> filename[|filename| - |ext| - 1] == '.'
    ensures |ext| == |filename| ==> forall k :: 0 <= k < |filename| ==> filename[k] != '.'
  {
    var l := Lower(filename);
    match LastIndex(l, '.', |l|)
    case None => l
    case Some(i) => l[i + 1..]
  }

  /** `get_supported_extensions`: the extensions `parse_text` handles, written without
      their dot. */
  function GetSupportedExtensions(): (exts: seq<string>)
    ensures forall e :: e in exts <==> e in TextExtensions || e == PdfExtension
    ensures forall i, k :: 0 <= i < |exts| && 0 <= k < |exts[i]| ==> exts[i][k] != '.'
    ensures forall i, j :: 0 <= i < j < |exts| ==> exts[i] != exts[j]
  {
    SupportedExtensions
  }

  /** `is_supported`. */
  predicate IsSupported(filename: string) {
    Extension(filename) in GetSupportedExtensions()
  }

  /** A name that ends in a dot and a lower-case extension has that extension. */
  lemma ExtensionIs(filename: string, i: nat, ext: string)
    requires i < |filename| && filename[i] == '.' && filename[i + 1..] == ext
    requires forall k :: 0 <= k < |ext| ==> ext[k] != '.' && !('A' <= ext[k] <= 'Z')
    ensures Extension(filename) == ext
  {
    var l := Lower(filename);
    assert LastIndex(l, '.', |l|) == Some(i);
    assert l[i + 1..] == ext;
  }

  // The file names of the repository's format check, one lemma each.

  lemma ExampleDocumentTxt()
    ensures IsSupported("document.txt")
  {
    ExtensionIs("document.txt", 8, "txt");
  }

  lemma ExampleReadmeMd()
    ensures IsSupported("readme.md")
  {
    ExtensionIs("readme.md", 6, "md");
  }

  lemma ExampleNotesMarkdown()
    ensures IsSupported("notes.markdown")
  {
    ExtensionIs("notes.markdown", 5, "markdown");
  }

  lemma ExampleReportPdf()
    ensures IsSupported("report.pdf")
  {
    ExtensionIs("report.pdf", 6, "pdf");
  }

  lemma ExampleImagePng()
    ensures !IsSupported("image.png")
  {
    ExtensionIs("image.png", 5, "png");
  }

  lemma ExampleDataDocx()
    ensures !IsSupported("data.docx")
  {
    ExtensionIs("data.docx", 4, "docx");
  }

  lemma ExampleSheetXlsx()
    ensures !IsSupported("sheet.xlsx")
  {
    ExtensionIs("sheet.xlsx", 5, "xlsx");
  }

  /** The file names of the repository's own format check get the answers it expects. */
  lemma FormatCheckExamples()
    ensures IsSupported("document.txt") && IsSupported("readme.md")
    ensures IsSupported("notes.markdown") && IsSupported("report.pdf")
    ensures !IsSupported("image.png") && !IsSupported("data.docx") && !IsSupported("sheet.xlsx")
  {
    ExampleDocumentTxt(); ExampleReadmeMd(); ExampleNotesMarkdown(); ExampleReportPdf();
    ExampleImagePng(); ExampleDataDocx(); ExampleSheetXlsx();
  }

  /** Upper-case extensions are supported too: only the case of the name changes. */
  lemma SupportIgnoresCase(filename: string)
    ensures IsSupported(Lower(filename)) <==> IsSupported(filename)
  {
    var l := Lower(filename);
    assert Lower(l) == l;
  }

  // ---------------------------------------------------------------------------
  // _parse_pdf
  // ---------------------------------------------------------------------------

  /** What the page loop has gathered: the non-blank page texts, in page order, or the
      message of the first page whose extraction failed. */
  function Kept(pages: seq<PageText>): Result<seq<string>, string>
  {
    if pages == [] then Ok([])
    else
      match Kept(pages[..|pages| - 1])
      case Err(e) => Err(e)
      case Ok(texts) =>
        match pages[|pages| - 1]
        case Err(e) => Err(e)
        case Ok(t) => if IsBlank(t) then Ok(texts) else Ok(texts + [t])
  }

  /** `texts` are the texts of pages `idx`, taken in increasing page order, and every
      non-blank page is among them. */
  ghost predicate KeptAt(pages: seq<PageText>, texts: seq<string>, idx: seq<nat>) {
    && |idx| == |texts|
    && (forall j :: 0 <= j < |idx| ==> idx[j] < |pages| && pages[idx[j]] == Ok(texts[j]))
    && (forall j, j' :: 0 <= j < j' < |idx| ==> idx[j] < idx[j'])
    && (forall i :: 0 <= i < |pages| && pages[i].Ok? && !IsBlank(pages[i].value) ==> i in idx)
  }

  /** The pages behind the kept texts. */
  lemma {:induction false} KeptIndices(pages: seq<PageText>) returns (idx: seq<nat>)
    requires Kept(pages).Ok?
    ensures KeptAt(pages, Kept(pages).value, idx)
    decreases |pages|
  {
    if pages == [] {
      idx := [];
    } else {
      var n := |pages| - 1;
      var prev := KeptIndices(pages[..n]);
      KeptAtExtend(pages, Kept(pages[..n]).value, prev);
      if IsBlank(pages[n].value) {
        idx := prev;
      } else {
        idx := prev + [n];
      }
    }
  }

  /** One more successful page: a blank one changes nothing, a non-blank one is kept last. */
  lemma KeptAtExtend(pages: seq<PageText>, texts: seq<string>, idx: seq<nat>)
    requires pages != [] && KeptAt(pages[..|pages| - 1], texts, idx) && pages[|pages| - 1].Ok?
    ensures IsBlank(pages[|pages| - 1].value) ==> KeptAt(pages, texts, idx)
    ensures !IsBlank(pages[|pages| - 1].value) ==>
      KeptAt(pages, texts + [pages[|pages| - 1].value], idx + [|pages| - 1])
  {
    var init := pages[..|pages| - 1];
    assert forall i :: 0 <= i < |init| ==> pages[i] == init[i];
  }

  /** The page loop stops at the first failure; otherwise it keeps exactly the non-blank
      pages, in page order: none kept means every page was blank. */
  lemma {:induction false} KeptFacts(pages: seq<PageText>)
    ensures Kept(pages).Ok? <==> forall i :: 0 <= i < |pages| ==> pages[i].Ok?
    ensures Kept(pages).Err? ==> exists i :: 0 <= i < |pages| && pages[i] == Err(Kept(pages).error) &&
                                   forall k :: 0 <= k < i ==> pages[k].Ok?
    ensures Kept(pages).Ok? ==> |Kept(pages).value| <= |pages|
    ensures Kept(pages).Ok? ==> forall j :: 0 <= j < |Kept(pages).value| ==> !IsBlank(Kept(pages).value[j])
    ensures Kept(pages).Ok? ==> (Kept(pages).value == [] <==> forall i :: 0 <= i < |pages| ==> IsBlank(pages[i].value))
    ensures Kept(pages).Ok? ==> exists idx :: KeptAt(pages, Kept(pages).value, idx)
    decreases |pages|
  {
    if Kept(pages).Ok? {
      var idx := KeptIndices(pages);
    }
    if pages != [] {
      var init := pages[..|pages| - 1];
      KeptFacts(init);
      assert forall i :: 0 <= i < |init| ==> init[i] == pages[i];
    }
  }

  /** `_parse_pdf` on the reader's outcome. */
  function PdfText(reader: Result<seq<PageText>, string>): Result<string, ParseError>
  {
    match reader
    case Err(e) => Err(PdfFailed(PdfErrorPrefix + e))
    case Ok(pages) =>
      match Kept(pages)
      case Err(e) => Err(PdfFailed(PdfErrorPrefix + e))
      case Ok(texts) =>
        if texts == [] then Err(PdfFailed(PdfErrorPrefix + NoTextMessage)) else Ok(Join("\n\n", texts))
  }

  /** `_parse_pdf`: keep the text of every non-blank page and join the pages with a blank
      line; every failure, the empty document included, is reported with the same prefix. */
  method ParsePdf(openPdf: seq<byte> -> Result<seq<PageText>, string>, content: seq<byte>) returns (r: Result<string, ParseError>)
    ensures r == PdfText(openPdf(content))
  {
    match openPdf(content) {
      case Err(e) =>
        return Err(PdfFailed(PdfErrorPrefix + e));
      case Ok(pages) =>
        var textParts: seq<string> := [];
        for i := 0 to |pages|
          invariant Kept(pages[..i]) == Ok(textParts)
        {
          assert pages[..i + 1][..i] == pages[..i];
          match pages[i] {
            case Err(e) =>
              assert Kept(pages[..i + 1]) == Err(e);
              assert Kept(pages) == Err(e) by { KeptStopsAtError(pages, i + 1); }
              return Err(PdfFailed(PdfErrorPrefix + e));
            case Ok(pageText) =>
              if !IsBlank(pageText) {
                textParts := textParts + [pageText];
              }
          }
        }
        assert pages[..|pages|] == pages;
        if textParts == [] {
          return Err(PdfFailed(PdfErrorPrefix + NoTextMessage));
        }
        r := Ok(Join("\n\n", textParts));
    }
  }

  /** A failure among the first n pages is the failure of the whole document. */
  lemma {:induction false} KeptStopsAtError(pages: seq<PageText>, n: nat)
    requires n <= |pages| && Kept(pages[..n]).Err?
    ensures Kept(pages) == Kept(pages[..n])
    decreases |pages| - n
  {
    if n < |pages| {
      assert pages[..n + 1][..n] == pages[..n];
      KeptStopsAtError(pages, n + 1);
    } else {
      assert pages[..n] == pages;
    }
  }

  /** A PDF parses when no page fails and some page has text; its text is the kept pages
      joined by blank lines, and every failure carries the same prefix. */
  lemma PdfTextFacts(pages: seq<PageText>)
    ensures var r := PdfText(Ok(pages));
      && (r.Ok? <==> (forall i :: 0 <= i < |pages| ==> pages[i].Ok?) && exists i :: 0 <= i < |pages| && !IsBlank(pages[i].value))
      && (r.Ok? ==> r.value == Join("\n\n", Kept(pages).value))
      && (r.Err? ==> r.error.PdfFailed? && r.error.message[..|PdfErrorPrefix|] == PdfErrorPrefix)
  {
    KeptFacts(pages);
  }

  // ---------------------------------------------------------------------------
  // parse_text
  // ---------------------------------------------------------------------------

  /** The message of an unsupported extension. */
  function UnsupportedMessage(ext: string): string {
    "Unsupported file format: ." + ext + ". Supported formats: .txt, .md, .pdf"
  }

  /** `parse_text`: decode text and markdown, parse PDF, refuse everything else. */
  function ParsedText(decode: seq<byte> -> Result<string, string>, openPdf: seq<byte> -> Result<seq<PageText>, string>,
                      content: seq<byte>, filename: string): Result<string, ParseError>
  {
    var ext := Extension(filename);
    if ext in TextExtensions then
      match decode(content)
      case Ok(text) => Ok(text)
      case Err(e) => Err(DecodeFailed(e))
    else if ext == PdfExtension then PdfText(openPdf(content))
    else Err(Unsupported(UnsupportedMessage(ext)))
  }

  /** `parse_text` refuses a file exactly when `is_supported` says it is not supported. */
  lemma ParseAgreesWithIsSupported(decode: seq<byte> -> Result<string, string>, openPdf: seq<byte> -> Result<seq<PageText>, string>,
                                   content: seq<byte>, filename: string)
    ensures var r := ParsedText(decode, openPdf, content, filename);
      (r.Err? && r.error.Unsupported?) <==> !IsSupported(filename)
    ensures !IsSupported(filename) ==>
      ParsedText(decode, openPdf, content, filename) == Err(Unsupported(UnsupportedMessage(Extension(filename))))
  {
  }

  /** `parse_text`. */
  method ParseText(decode: seq<byte> -> Result<string, string>, openPdf: seq<byte> -> Result<seq<PageText>, string>,
                   content: seq<byte>, filename: string) returns (r: Result<string, ParseError>)
    ensures r == ParsedText(decode, openPdf, content, filename)
  {
    var ext := Extension(filename);
    if ext in TextExtensions {
      match decode(content) {
        case Ok(text) => r := Ok(text);
        case Err(e) => r := Err(DecodeFailed(e));
      }
    } else if ext == PdfExtension {
      r := ParsePdf(openPdf, content);
    } else {
      r := Err(Unsupported(UnsupportedMessage(ext)));
    }
  }
}
