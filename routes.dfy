/** The decisions of the two POST routes in app.py, `/upload` (`upload_file`) and `/chat`
    (`chat`), as functions from the request and the services the server calls to the JSON
    response and its HTTP status. The services are parameters: they are foreign calls. */
module Routes {
  import opened Wrappers
  import opened Strings
  import opened ServerFiles
  import OcrText

  /** The JSON bodies the two routes send. */
  datatype Body =
    | ErrorBody(error: string)                                   // {'error': ...}
    | FailureBody(error: string)                                 // {'success': False, 'error': ...}
    | ProcessedBody(extractedText: string, summary: Option<string>, qa: Option<string>,
                    mcqs: Option<string>, urduText: Option<string>) // {'success': True, ...}
    | ReplyBody(response: string)                                // {'response': ...}

  datatype Response = Response(status: nat, body: Body)

  /** Python truthiness of an optional string: neither `None` nor empty. */
  predicate Truthy(s: Option<string>) {
    s.Some? && s.value != ""
  }

  // ---------------------------------------------------------------------------
  // /upload

  /** The form's `file` part, by its file name (`None` when the part carries none). */
  datatype FilePart = FilePart(filename: Option<string>)

  /** The PyPDF2 fallback on the saved file: the pages' extracted texts, the `ImportError`
      of a missing library, or the message of any other exception it raises. */
  datatype PdfFallback = Pages(texts: seq<string>) | NotInstalled | Raised(message: string)

  /** The calls the route makes and that are not modelled: `secure_filename`,
      `extract_text_with_azure_ocr(path, is_pdf)`, the PyPDF2 reader on a saved path,
      `call_azure_openai(prompt, max_tokens)` and `translate_text`. */
  datatype Services = Services(
    sanitize: string -> string,
    ocr: (string, bool) -> Option<string>,
    readPdf: string -> PdfFallback,
    openai: (string, nat) -> Option<string>,
    translate: string -> Option<string>)

  /** The response, and the path the upload was saved under, if it was saved. */
  datatype UploadOutcome = UploadOutcome(response: Response, saved: Option<string>)

  /** `os.path.join(app.config['UPLOAD_FOLDER'], filename)`. */
  function SavePath(name: string): string {
    "uploads/" + name
  }

  const ExtractionFailed: string := "Text extraction failed. Please check your Azure OCR configuration and try again."

  /** The text once OCR and the PDF fallback have run, or the message of an exception
      that leaves the route. */
  datatype Extraction = Extracted(text: Option<string>) | ExtractionRaised(message: string)

  /** For a PDF whose OCR text is falsy, the fallback's pages, each followed by a line
      feed; `None` when PyPDF2 is missing. Otherwise the OCR result as it is. */
  function ExtractText(ocr: Option<string>, isPdf: bool, fallback: PdfFallback): (e: Extraction)
    ensures Truthy(ocr) ==> e == Extracted(ocr)
    ensures !Truthy(ocr) && !isPdf ==> e.Extracted? && !Truthy(e.text)
  {
    if Truthy(ocr) || !isPdf then Extracted(ocr)
    else match fallback
      case Pages(texts) => Extracted(Some(OcrText.LinesText(texts)))
      case NotInstalled => Extracted(None)
      case Raised(m) => ExtractionRaised(m)
  }

  const SummaryInstruction: string := "Please provide a concise summary of the following text:\n\n"
  const QaInstruction: string := "Create 3-5 question and answer pairs based on the following text. Format each as 'Q: question\nA: answer':\n\n"
  const McqInstruction: string := "Create 5 multiple choice questions based on the following text. Format each question as follows:\n\n"
    + "Q: question\nA. option1\nB. option2\nC. option3\nD. option4\nAnswer: correct_letter\n\nText:\n"

  function SummaryPrompt(text: string): string {
    SummaryInstruction + text
  }

  function QaPrompt(text: string): string {
    QaInstruction + text
  }

  function McqPrompt(text: string): string {
    McqInstruction + text
  }

  function Rejected(message: string): UploadOutcome {
    UploadOutcome(Response(400, ErrorBody(message)), None)
  }

  /** The three checks of `upload_file`, in order: the message of the first that fails. */
  function Rejection(part: Option<FilePart>): (m: Option<string>)
    ensures m.None? ==> part.Some? && part.value.filename.Some? && AllowedFile(part.value.filename.value)
  {
    if part.None? then Some("No file uploaded")
    else if part.value.filename == Some("") then Some("No file selected")
    else if part.value.filename.None? || !AllowedFile(part.value.filename.value) then Some("Invalid file type")
    else None
  }

  /** `upload_file`. */
  function UploadFile(part: Option<FilePart>, sv: Services): (r: UploadOutcome)
    ensures r.response.status == 200 || r.response.status == 400 || r.response.status == 500
    ensures r.saved.Some? <==> r.response.status != 400
  {
    match Rejection(part)
    case Some(message) => Rejected(message)
    case None => Process(part.value.filename.value, sv)
  }

  /** What `upload_file` does with a file that passed the checks: save it under its
      sanitised name, derive `is_pdf`, extract the text and generate the rest. */
  function Process(filename: string, sv: Services): (r: UploadOutcome)
    ensures r.saved == Some(SavePath(sv.sanitize(filename)))
    ensures r.response.status == 200 || r.response.status == 500
  {
    var name := sv.sanitize(filename);
    var path := SavePath(name);
    match IsPdf(name)
    case None =>
      UploadOutcome(Response(500, ErrorBody("Internal server error: list index out of range")), Some(path))
    case Some(pdf) =>
      UploadOutcome(Respond(ExtractText(sv.ocr(path, pdf), pdf, sv.readPdf(path)), sv), Some(path))
  }

  /** The response once the text is extracted: the exception's message, the extraction
      failure for a falsy text, or the generated content. */
  function Respond(e: Extraction, sv: Services): (r: Response)
    ensures r.status == 200 <==> e.Extracted? && Truthy(e.text)
    ensures r.status == 500 <==> !(e.Extracted? && Truthy(e.text))
  {
    match e
    case ExtractionRaised(m) => Response(500, ErrorBody("Internal server error: " + m))
    case Extracted(t) =>
      if !Truthy(t) then Response(500, FailureBody(ExtractionFailed))
      else Response(200, Generated(t.value, sv))
  }

  /** The success body: the text with the summary, the question-and-answer pairs and the
      multiple-choice questions generated from it (800 tokens for these, 500 for the
      others) and its translation. */
  function Generated(text: string, sv: Services): (b: Body)
    ensures b.ProcessedBody? && b.extractedText == text
  {
    ProcessedBody(text, sv.openai(SummaryPrompt(text), 500), sv.openai(QaPrompt(text), 500),
                  sv.openai(McqPrompt(text), 800), sv.translate(text))
  }

  /** The checks run in order, each only when the ones before it passed, and the three
      rejections are the only 400 responses. */
  lemma UploadValidationOrder(part: Option<FilePart>, sv: Services)
    ensures UploadFile(part, sv).response == Response(400, ErrorBody("No file uploaded")) <==> part.None?
    ensures UploadFile(part, sv).response == Response(400, ErrorBody("No file selected")) <==>
      part.Some? && part.value.filename == Some("")
    ensures UploadFile(part, sv).response == Response(400, ErrorBody("Invalid file type")) <==>
      part.Some? && part.value.filename != Some("") &&
      (part.value.filename.None? || !AllowedFile(part.value.filename.value))
    ensures UploadFile(part, sv).response.status == 400 <==>
      part.None? || part.value.filename.None? || !AllowedFile(part.value.filename.value)
  {
  }

  /** A rejected upload is never saved and does not depend on any service; an accepted one
      is saved under its sanitised name before anything else can fail. */
  lemma UploadSavedIffAccepted(part: Option<FilePart>, sv: Services, sv': Services)
    ensures UploadFile(part, sv).saved.None? <==> UploadFile(part, sv).response.status == 400
    ensures UploadFile(part, sv).saved.Some? ==>
      UploadFile(part, sv).saved == Some(SavePath(sv.sanitize(part.value.filename.value)))
    ensures UploadFile(part, sv).response.status == 400 ==> UploadFile(part, sv') == UploadFile(part, sv)
  {
  }

  /** A success carries non-empty text: the OCR text when it is truthy, otherwise (for a
      PDF) the fallback's pages. */
  lemma UploadSuccess(filename: string, sv: Services)
    requires Process(filename, sv).response.status == 200
    ensures IsPdf(sv.sanitize(filename)).Some?
    ensures Process(filename, sv).response.body.ProcessedBody? && Process(filename, sv).response.body.extractedText != ""
    ensures var name := sv.sanitize(filename);
      var ocr := sv.ocr(SavePath(name), IsPdf(name).value);
      Truthy(ocr) ==> Process(filename, sv).response.body.extractedText == ocr.value
    ensures var name := sv.sanitize(filename);
      var fallback := sv.readPdf(SavePath(name));
      !Truthy(sv.ocr(SavePath(name), IsPdf(name).value)) ==>
        IsPdf(name).value && fallback.Pages? &&
        Process(filename, sv).response.body.extractedText == OcrText.LinesText(fallback.texts)
  {
    var name := sv.sanitize(filename);
    var pdf := IsPdf(name).value;
    var path := SavePath(name);
    var e := ExtractText(sv.ocr(path, pdf), pdf, sv.readPdf(path));
    assert e.Extracted? && Truthy(e.text);
  }

  /** Only a PDF gets a second chance: with falsy OCR text an image fails with the
      extraction message, while a PDF with at least one page succeeds even when every
      page's text is empty, and a PDF without pages, or without PyPDF2, fails. */
  lemma UploadFallback(filename: string, sv: Services)
    requires var name := sv.sanitize(filename);
      IsPdf(name).Some? && !Truthy(sv.ocr(SavePath(name), IsPdf(name).value))
    ensures var name := sv.sanitize(filename);
      var fallback := sv.readPdf(SavePath(name));
      && (!IsPdf(name).value ==> Process(filename, sv).response == Response(500, FailureBody(ExtractionFailed)))
      && (IsPdf(name).value && fallback.Pages? ==>
            (Process(filename, sv).response.status == 200 <==> fallback.texts != []))
      && (IsPdf(name).value && fallback.NotInstalled? ==>
            Process(filename, sv).response == Response(500, FailureBody(ExtractionFailed)))
  {
    var name := sv.sanitize(filename);
    var fallback := sv.readPdf(SavePath(name));
    if IsPdf(name).value && fallback.Pages? {
      PagesTextEmptyIff(fallback.texts);
    }
  }

  /** Each page adds a line feed, so the fallback text is empty only without pages. */
  lemma PagesTextEmptyIff(texts: seq<string>)
    ensures OcrText.LinesText(texts) == "" <==> texts == []
  {
    if texts != [] {
      var t := OcrText.LinesText(texts);
      assert t[|t| - 1] == '\n';
    }
  }

  /** A sanitised name without a dot makes `is_pdf` raise after the file was saved. */
  lemma UploadDotlessSanitisedName(filename: string, sv: Services)
    requires '.' !in sv.sanitize(filename)
    ensures Process(filename, sv) ==
      UploadOutcome(Response(500, ErrorBody("Internal server error: list index out of range")),
                    Some(SavePath(sv.sanitize(filename))))
  {
  }

  // ---------------------------------------------------------------------------
  // /chat

  const Apology: string := "I'm sorry, I couldn't process your request at the moment. Please try again later."

  /** `data.get(key, '')` on the object's string members. */
  function Get(data: map<string, string>, key: string): string {
    if key in data then data[key] else ""
  }

  /** `s[:n]`. */
  function Truncate(s: string, n: nat): (r: string)
    ensures |r| == if |s| < n then |s| else n
    ensures r == s[..|r|]
  {
    if |s| <= n then s else s[..n]
  }

  const ChatIntro: string := "Based on the following text: "
  const ChatSeparator: string := "...\n\nUser question: "
  const ChatClosing: string := "\n\nPlease provide a helpful response:"

  /** The prompt: the text cut to its first 1000 characters, then the message. */
  function ChatPrompt(text: string, message: string): (p: string)
    ensures |p| <= |ChatIntro| + 1000 + |ChatSeparator| + |message| + |ChatClosing|
    ensures StartsWith(p, ChatIntro)
  {
    ChatIntro + Truncate(text, 1000) + ChatSeparator + message + ChatClosing
  }

  /** `chat`, for a body that is missing (`None`) or a JSON object with string members. */
  function Chat(data: Option<map<string, string>>, openai: (string, nat) -> Option<string>): (r: Response)
    ensures r.status == 200 || r.status == 400
    ensures r.status == 200 ==> r.body.ReplyBody? && r.body.response != ""
  {
    if data.None? || data.value == map[] then Response(400, ErrorBody("No data provided"))
    else
      var message := Get(data.value, "message");
      var text := Get(data.value, "extracted_text");
      if message == "" then Response(400, ErrorBody("No message provided"))
      else
        var reply := openai(ChatPrompt(text, message), 500);
        Response(200, ReplyBody(if Truthy(reply) then reply.value else Apology))
  }

  /** Both rejections come before the model is asked, so they do not depend on it; every
      other request gets a reply, which is never empty: the model's, or the apology. */
  lemma ChatOutcomes(data: Option<map<string, string>>, openai: (string, nat) -> Option<string>,
                     openai': (string, nat) -> Option<string>)
    ensures Chat(data, openai) == Response(400, ErrorBody("No data provided")) <==> data.None? || data.value == map[]
    ensures Chat(data, openai) == Response(400, ErrorBody("No message provided")) <==>
      data.Some? && data.value != map[] && Get(data.value, "message") == ""
    ensures Chat(data, openai).status == 400 ==> Chat(data, openai') == Chat(data, openai)
    ensures Chat(data, openai).status != 400 ==>
      && Chat(data, openai).status == 200 && Chat(data, openai).body.ReplyBody?
      && Chat(data, openai).body.response != ""
      && var reply := openai(ChatPrompt(Get(data.value, "extracted_text"), Get(data.value, "message")), 500);
         Chat(data, openai).body.response == if Truthy(reply) then reply.value else Apology
  {
  }

  /** The prompt sees only the first 1000 characters of the extracted text. */
  lemma PromptSeesFirst1000(a: string, b: string, message: string)
    requires Truncate(a, 1000) == Truncate(b, 1000)
    ensures ChatPrompt(a, message) == ChatPrompt(b, message)
  {
  }

  /** For the same text, different messages give different prompts. (Across different
      texts this fails: a text that itself contains `...\n\nUser question: ` can make two
      requests share a prompt.) */
  lemma PromptKeepsMessage(text: string, m: string, m': string)
    requires ChatPrompt(text, m) == ChatPrompt(text, m')
    ensures m == m'
  {
    var head := ChatIntro + Truncate(text, 1000) + ChatSeparator;
    var z := ChatClosing;
    var x := ChatPrompt(text, m);
    assert x == head + m + z;
    assert x == head + m' + z;
    assert |m| == |m'|;
    assert m == x[|head|..|head| + |m|];
    assert m' == x[|head|..|head| + |m'|];
  }

  /** A text that fits in the first 1000 characters and embeds the separator gives the
      same prompt as its head with the rest moved into the message. */
  lemma PromptAmbiguity(x: string, y: string, z: string)
    requires |x + ChatSeparator + y| <= 1000
    ensures ChatPrompt(x + ChatSeparator + y, z) == ChatPrompt(x, y + ChatSeparator + z)
  {
    assert Truncate(x + ChatSeparator + y, 1000) == x + ChatSeparator + y;
    Regroup(ChatIntro, x, ChatSeparator, y, z, ChatClosing);
  }

  /** The regrouping behind `PromptAmbiguity`. */
  lemma Regroup(head: string, x: string, sep: string, y: string, z: string, tail: string)
    ensures head + (x + sep + y) + sep + z + tail == head + x + sep + (y + sep + z) + tail
  {
  }
}
