# PDF Bot: collaboration state, search and page-text fallback

A Dafny model of the logic inside the PDF Bot Streamlit application (`app.py`)
that is not a call into an outside library:

- **Session state** (`collab.dfy`, module `Collab`, class `Session`): the current
  page index with Previous/Next navigation clamped at both ends; local annotations
  as a map from page index to the records saved on that page; the revision history
  as a map from annotation id to its snapshots, seeded with one snapshot when the
  annotation is saved; the two logs the relay listener feeds (remote annotations
  and chat) and the chat send action that appends to the chat log; the username
  form; and the flag that starts the listener only once. The class invariant
  `Valid()` says that the page index stays within the document (or at 0 when the
  document has no pages), that every local annotation sits under the page it names
  and has a revision entry, that every revision entry holds exactly one snapshot
  carrying its own id, and that each log holds only records of its own type. Every
  method keeps it.
- **Search** (`search.dfy`, module `Search`): `finditer` over a literal,
  case-insensitive term as a leftmost, non-overlapping scan, the context window of
  up to 100 characters on each side of an occurrence, and the nested loop that
  collects one result per occurrence, page by page.
- **Page text fallback** (`pdf_text.dfy`, module `PdfText`): the loop of
  `extract_pdf_text` that keeps, for each page, the reader's text if it is not
  blank, else the OCR text of that page's image if there is one and it is not blank,
  else a placeholder; and the single error entry returned when the reader fails.
- **Text helpers** (`text.dfy`, module `Text`): Python's whitespace test and
  `str.strip()`, decimal formatting of page numbers, and an ASCII case fold.

Publishing to the relay is an outside call that returns or raises; the model takes
whether it raises as a boolean parameter (`publishRaises`) and shows that the local
state after Save Annotation or Send Message does not depend on it. Relay arrivals are
calls to `Session.Receive` with an already-decoded message. The clock values (the
annotation id and the timestamps) are parameters.

Behaviour as the code has it:

- Send Message with a blank message: the append at `app.py:534` is outside the
  `if chat_message.strip():` that binds `chat_data`, so a blank message raises a
  `NameError` before anything is appended. `Session.SendMessage` models this as the
  outcome `ChatDataUndefined` with no state change. The `else` warning at
  `app.py:543-544` is shown whenever the Send Message button is not pressed; it is
  not a rejection of blank messages.
- A message that decodes to something other than a JSON object makes `data.get`
  raise, which the handler catches: it is reported and dropped, like one that does
  not decode.
- An annotation id already in the revision history has its history replaced by the
  new one-snapshot list.

## Model

| member | source | states |
|---|---|---|
| `Text.Strip` | app.py:531 | The result is empty exactly when the input is blank; otherwise it starts and ends with a non-whitespace character and is the input with only whitespace removed from its two ends. |
| `Text.StripIdempotent` | app.py:199-200 | Stripping an already stripped string changes nothing, so a stored username is its own strip. |
| `Text.NatToString` | app.py:74 | The page number is written as one or more decimal digits with no leading zero. |
| `Text.DecimalRoundTrip` | app.py:74 | Reading the written page number back gives the number. |
| `PdfText.NoTextPlaceholder` | app.py:74 | The "Page N has no extractable text." placeholder is never blank. |
| `PdfText.OcrErrorPlaceholder` | app.py:76 | The OCR error placeholder is never blank. |
| `PdfText.ProcessingError` | app.py:83 | The failure entry is not blank and ends with the error's text. |
| `PdfText.PageText` | app.py:67-78 | The reader's text is kept whenever it is not blank; otherwise non-blank OCR text of the page's image, if the page has an image; otherwise the OCR error placeholder if OCR raised, or the no-text placeholder; the kept text is never blank. |
| `PdfText.ExtractPdfText` | app.py:44-83 | Succeeds exactly when the reader opens the file and no page raises; then it returns one text per page, each chosen by the fallback rule; otherwise it returns a one-element list holding the error of the reader or of the first page that raised. |
| `Search.MatchesFrom` | app.py:415-417 | Every reported start is an occurrence of the term (ignoring ASCII case) at or after the scan start, and successive occurrences do not overlap. |
| `Search.MatchesFromLeftmost` | app.py:417 | The scan misses nothing: no occurrence starts before the first reported one, in a gap between one reported occurrence's end and the next one's start, or after the last one's end. |
| `Search.Window` | app.py:419-420 | The window contains the occurrence, lies within the text, reaches at most 100 characters past each end of it, and is cut short only by the ends of the text. |
| `Search.Context` | app.py:421 | The context is the page text inside the window, and it contains the occurrence at the offset where it starts in the window. |
| `Search.PageHits` | app.py:417-424 | A page yields one result per occurrence, each tagged with the 1-based page number. |
| `Search.AllHitsPageOrder` | app.py:416-424 | Result page numbers lie between 1 and the page count and never decrease. |
| `Search.AllHitsOfPage` | app.py:416-424 | The results naming page p+1 are exactly page p's results, one per occurrence, left to right. |
| `Search.Search` | app.py:412-424 | A blank term runs no search; otherwise the loops return the results of all pages in page order. |
| `Collab.Appended` | app.py:363-365 | Saving on page p adds exactly one record at the end of p's list, creating the list if needed, and leaves every other page unchanged. |
| `Collab.AppendedAllContents` | app.py:363-365 | After any series of saves, each page's list is its earlier records, unchanged and first, followed by the records saved on that page in the order of the saves; so it grows by one per save made on it. |
| `Collab.SaveKeepsStore` | app.py:363-369 | A save keeps every local annotation under the page it names with a revision entry, and every revision entry a single snapshot carrying its own id. |
| `Collab.Session.constructor` | app.py:318-325 | A session starts on page 0 with no annotations, no history, empty logs and the listener not started. |
| `Collab.Session.SetUsername` | app.py:194-203 | While no name is set, a blank entry is refused and any other is stored stripped; once set, the name never changes. |
| `Collab.Session.PreviousPage` | app.py:330-332 | The page index drops by one when above 0 and otherwise stays at 0; nothing else changes. |
| `Collab.Session.NextPage` | app.py:336-338 | The page index rises by one when below the last page and otherwise stays; it never passes the last page; nothing else changes. |
| `Collab.Session.SaveAnnotation` | app.py:349-379 | With a blank selection or annotation nothing changes; otherwise one record with the current 1-based page and type "annotation" is appended to the current page's list, the other pages are unchanged, and the id's history becomes a one-element list holding that record, whether or not the publish fails. |
| `Collab.Session.Receive` | app.py:138-153 | An object of type "annotation" is appended to the remote-annotation log alone, one of type "chat" to the chat log alone; any other type, and anything that is not a decoded object, leaves both logs unchanged. |
| `Collab.Session.SendMessage` | app.py:525-542 | A non-blank message is appended, stripped, to the chat log, whether or not the publish fails; a blank one changes nothing. |
| `Collab.Session.StartListener` | app.py:170-174 | The listener is started on the first call only; the flag then stays set. |

## Left out

- Streamlit rendering, styling, tabs, `st.rerun` and the texts of `st.error`,
  `st.warning`, `st.success` and `st.info`: user interface without behaviour to state.
- The WebSocket transport (`websocket_listen`, `create_connection`, `send`, `close`)
  and the listener thread: network I/O and concurrency. A publish is a boolean
  parameter saying whether it raises; arrivals are sequential calls to `Receive`.
- JSON encoding and decoding: a received message is already decoded (`Incoming`).
- PyPDF2 text extraction, pdf2image conversion, pytesseract OCR, googletrans
  translation, pyttsx3 speech and OpenAI summarisation: outside libraries. Their
  answers are inputs to `ExtractPdfText`; translation, speech and summarisation are
  not modelled.
- Timestamps and the id built from them: the clock is outside the model. The id and
  the timestamp are parameters of `SaveAnnotation`; the timestamp alone is a
  parameter of `SendMessage`, since a chat record has no id.
- `Search.MatchesFrom`: `re.IGNORECASE` folds case only for ASCII letters here, not
  for the rest of Unicode.
- The HTML highlighting `pattern.sub` applies to each context: the model keeps the
  plain context text.
- A later upload: the page count is fixed for a session. Uploading a different document
  later keeps the old page index, which the model does not follow.
- The per-result annotation text areas of the search tab: widget state only.
- A document with no pages: the page display at `app.py:341` indexes an empty list
  and raises `IndexError`, which ends the script run before the annotation, search
  and chat sections, so those actions never run for such a document. The model does not follow that stop: a `Session` with no pages
  still lets `SaveAnnotation`, `Search` and `SendMessage` run, with the page index
  at 0.
