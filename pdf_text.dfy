/** The per-page text selection of `extract_pdf_text`: the PDF reader's text for a
    page when it has any, else the OCR text of that page's image, else a
    placeholder. The PDF reader and the OCR engine are foreign code; their
    answers are inputs here. */
module PdfText {
  import opened Text

  /** What the PDF reader's `extract_text()` gave for one page. */
  datatype Extraction =
    | Extracted(text: string)   // a string, possibly empty or blank
    | Nothing                   // `None`
    | Raised(error: string)     // the call raised; `error` is `str(e)`

  /** What OCR of one page image gave. */
  datatype Ocr =
    | Recognised(text: string)
    | OcrRaised(error: string)

  /** The uploaded file as the PDF reader sees it. */
  datatype Document =
    | Unreadable(error: string)          // opening or reading the file raised
    | Readable(pages: seq<Extraction>)   // one extraction per page, in order

  /** The page-image list: `images[i]` is the OCR result of page `i`'s image.
      A failed image conversion leaves it empty. */
  type Images = seq<Ocr>

  /** True when the reader gave no usable text: `not text or not text.strip()`. */
  predicate NoUsableText(e: Extraction) {
    e.Nothing? || (e.Extracted? && IsBlank(e.text))
  }

  /** The placeholder for page `i` (0-based) without extractable text. */
  function NoTextPlaceholder(i: nat): (t: string)
    ensures !IsBlank(t)
  {
    var t := "Page " + NatToString(i + 1) + " has no extractable text.";
    assert t[0] == 'P';
    t
  }

  /** The placeholder for page `i` (0-based) whose OCR raised `error`. */
  function OcrErrorPlaceholder(i: nat, error: string): (t: string)
    ensures !IsBlank(t)
  {
    var t := "Error during OCR on Page " + NatToString(i + 1) + ": " + error;
    assert t[0] == 'E';
    t
  }

  /** The single entry returned when the whole extraction fails. */
  function ProcessingError(error: string): (t: string)
    ensures !IsBlank(t) && |t| >= |error| && t[|t| - |error|..] == error
  {
    var t := "Error processing PDF: " + error;
    assert t[0] == 'E';
    t
  }

  /** The text kept for page `i`, whose reader result `e` did not raise. */
  function PageText(i: nat, e: Extraction, images: Images): (t: string)
    requires !e.Raised?
    // the reader's text wins whenever it is not blank
    ensures !NoUsableText(e) ==> t == e.text
    // otherwise non-blank OCR text of the page's image, when there is an image
    ensures NoUsableText(e) && i < |images| && images[i].Recognised? && !IsBlank(images[i].text)
      ==> t == images[i].text
    // otherwise a placeholder saying why
    ensures NoUsableText(e) && i < |images| && images[i].OcrRaised?
      ==> t == OcrErrorPlaceholder(i, images[i].error)
    ensures NoUsableText(e) && (i >= |images| || (images[i].Recognised? && IsBlank(images[i].text)))
      ==> t == NoTextPlaceholder(i)
    // so no page ever comes out blank
    ensures !IsBlank(t)
  {
    if !NoUsableText(e) then e.text
    else if i < |images| then
      match images[i]
      case Recognised(text) => if IsBlank(text) then NoTextPlaceholder(i) else text
      case OcrRaised(error) => OcrErrorPlaceholder(i, error)
    else NoTextPlaceholder(i)
  }

  /** True when no page before `k` raised. */
  predicate NoneRaisedBefore(pages: seq<Extraction>, k: nat)
    requires k <= |pages|
  {
    forall j :: 0 <= j < k ==> !pages[j].Raised?
  }

  /** `extract_pdf_text`: one text per page and `true`, or a one-element list
      holding the error message and `false` when the reader or a page raised. */
  method ExtractPdfText(doc: Document, images: Images) returns (texts: seq<string>, ok: bool)
    ensures ok <==> doc.Readable? && NoneRaisedBefore(doc.pages, |doc.pages|)
    ensures ok ==> |texts| == |doc.pages|
    ensures ok ==> forall i :: 0 <= i < |texts| ==> texts[i] == PageText(i, doc.pages[i], images)
    ensures !ok && doc.Unreadable? ==> texts == [ProcessingError(doc.error)]
    // a failing page stops the loop: the error is that of the first page that raised
    ensures !ok && doc.Readable? ==>
      exists k :: 0 <= k < |doc.pages| && doc.pages[k].Raised? && NoneRaisedBefore(doc.pages, k)
        && texts == [ProcessingError(doc.pages[k].error)]
  {
    if doc.Unreadable? {
      return [ProcessingError(doc.error)], false;
    }
    var pages := doc.pages;
    texts := [];
    var i := 0;
    while i < |pages|
      invariant 0 <= i <= |pages|
      invariant NoneRaisedBefore(pages, i)
      invariant |texts| == i
      invariant forall j :: 0 <= j < i ==> texts[j] == PageText(j, pages[j], images)
    {
      if pages[i].Raised? {
        return [ProcessingError(pages[i].error)], false;
      }
      texts := texts + [PageText(i, pages[i], images)];
      i := i + 1;
    }
    ok := true;
  }
}
