/**
 * The conversion entry points of the first plugin generation
 * (src/conversion.ts): one per back end, each built from the helpers of
 * src/utils.ts. Every entry point answers true once the settings check has
 * passed, whatever happens afterwards; what the user learns is in the
 * notices, and what the conversion did is in the vault.
 *
 * The network is not modelled: the connection probe's reply, the upload's
 * reply and the poll replies are inputs, as are the answers of the two
 * dialogs and the file's bytes (None when reading them throws). The
 * multipart boundaries, which the source draws at random, are parameters.
 */
module Conversion {
  import opened Wrappers
  import opened Text
  import opened Js
  import opened Settings
  import opened Host
  import opened Multipart
  import opened Http
  import opened FileUtils
  import Utils
  import Datalab
  import MarkerDocker
  import PythonApi

  /** A notice: a fixed text, or a text followed by the message of the error caught. */
  datatype Notice = Say(text: string) | SayError(prefix: string)

  /** Fixed texts as notices. */
  function Says(texts: seq<string>): (r: seq<Notice>)
    ensures |r| == |texts| && forall i | 0 <= i < |texts| :: r[i] == Say(texts[i])
  {
    seq(|texts|, i requires 0 <= i < |texts| => Say(texts[i]))
  }

  lemma SaysAppend(a: seq<string>, b: seq<string>)
    ensures Says(a + b) == Says(a) + Says(b)
  {
  }

  /** What a conversion leaves: the vault and the notices posted, in order. */
  datatype Conversion = Conversion(st: Store, notices: seq<Notice>)

  // ---------------------------------------------------------------------
  // The common start
  // ---------------------------------------------------------------------

  /**
   * How the start of a conversion ends: stopped quietly or with the notices
   * already posted, with `createFolder` throwing, or ready to convert into
   * a folder.
   */
  datatype Start = Halted(notices: seq<string>) | Faulted | Ready(folder: string)

  /** The modes in which the overwrite dialog may be shown. */
  predicate ChecksOverwrite(s: Settings) {
    s.extractContent == "images" || s.extractContent == "all"
  }

  /** The folder `handleFolderCreation` settles on, if any. */
  function ChosenFolder(st: Store, s: Settings, path: string, folderAnswer: bool): Utils.FolderChoice {
    Utils.HandleFolderCreationIn(st, s, path, folderAnswer).1
  }

  /**
   * The start every entry point shares: `checkSettings`, the silent
   * connection test, `handleFolderCreation`, and, when `gated` and images
   * are wanted, `checkForExistingFiles`.
   */
  function BeginIn(st: Store, s: Settings, path: string, probe: Reply, folderAnswer: bool, overwriteAnswer: bool, gated: bool)
    : (r: (Store, Start))
    ensures !Utils.CheckSettings(s).0 ==> r == (st, Halted(Utils.CheckSettings(s).1))
    ensures Utils.CheckSettings(s).0 && !Utils.Connection(s, probe, true).0
            ==> r == (st, Halted(Utils.Connection(s, probe, true).1))
    ensures r.1.Ready? <==>
              && Utils.CheckSettings(s).0 && Utils.Connection(s, probe, true).0
              && ChosenFolder(st, s, path, folderAnswer).InFolder?
              && !(gated && ChecksOverwrite(s) && !overwriteAnswer
                   && HasFilesUnder(Utils.HandleFolderCreationIn(st, s, path, folderAnswer).0, ChosenFolder(st, s, path, folderAnswer).path))
    ensures r.1.Ready? ==> r.1.folder == ChosenFolder(st, s, path, folderAnswer).path
    ensures r.1.Faulted? ==> r.0 == st
    ensures r.1.Halted? && r.1.notices != [] ==> r.0 == st && |r.1.notices| == 1
  {
    var (ok, texts) := Utils.CheckSettings(s);
    if !ok then (st, Halted(texts))
    else
      var (connected, said) := Utils.Connection(s, probe, true);
      if !connected then (st, Halted(said))
      else
        var (st1, choice, _) := Utils.HandleFolderCreationIn(st, s, path, folderAnswer);
        match choice
        case NoFolder => (st1, Halted([]))
        case FolderFailed => (st1, Faulted)
        case InFolder(folder) =>
          if gated && ChecksOverwrite(s) && HasFilesUnder(st1, folder) && !overwriteAnswer then (st1, Halted([]))
          else (st1, Ready(folder))
  }

  /** Settings that fail the check stop every entry point with its one notice, before anything else. */
  lemma SettingsComeFirst(st: Store, s: Settings, path: string, probe: Reply, folderAnswer: bool, overwriteAnswer: bool, gated: bool)
    requires !Utils.CheckSettings(s).0
    ensures BeginIn(st, s, path, probe, folderAnswer, overwriteAnswer, gated) == (st, Halted(Utils.CheckSettings(s).1))
    ensures |Utils.CheckSettings(s).1| == 1
  {
  }

  /**
   * Declining the overwrite dialog stops the conversion with the conversion
   * folder in place and nothing else changed.
   */
  lemma DeclineKeepsFiles(st: Store, s: Settings, path: string, probe: Reply, folderAnswer: bool)
    requires Utils.CheckSettings(s).0 && Utils.Connection(s, probe, true).0
    requires ChecksOverwrite(s)
    requires ChosenFolder(st, s, path, folderAnswer).InFolder?
    requires HasFilesUnder(Utils.HandleFolderCreationIn(st, s, path, folderAnswer).0, ChosenFolder(st, s, path, folderAnswer).path)
    ensures var (st1, b) := BeginIn(st, s, path, probe, folderAnswer, false, true);
            b == Halted([]) && st1 == Utils.HandleFolderCreationIn(st, s, path, folderAnswer).0
  {
  }

  method Begin(vault: Vault, s: Settings, path: string, probeBoundary: string, probe: Reply,
               folderAnswer: bool, overwriteAnswer: bool, gated: bool)
    returns (b: Start)
    modifies vault
    ensures (vault.State(), b) == BeginIn(old(vault.State()), s, path, probe, folderAnswer, overwriteAnswer, gated)
  {
    var checked := Utils.CheckSettings(s);
    if !checked.0 {
      return Halted(checked.1);
    }
    var connected, said, probeSent := Utils.TestConnection(s, probeBoundary, probe, true);
    if !connected {
      return Halted(said);
    }
    var choice, asked := Utils.HandleFolderCreation(vault, s, path, folderAnswer);
    match choice
    case NoFolder => b := Halted([]);
    case FolderFailed => b := Faulted;
    case InFolder(folder) =>
      b := Ready(folder);
      if gated && ChecksOverwrite(s) {
        var proceed, shown := CheckForExistingFiles(vault, folder, overwriteAnswer);
        if !proceed {
          b := Halted([]);
        }
      }
  }

  // ---------------------------------------------------------------------
  // convertPDFToMD: a self-hosted Marker server
  // ---------------------------------------------------------------------

  const PdfErrorNotice := "Error during PDF conversion. Check console for details."
  const PdfDoneNotice := "PDF conversion completed"

  /** The notice posted once the file has been read. */
  function PdfProgress(s: Settings): string {
    if s.extractContent == "text" || s.extractContent == "all" then "Converting PDF to Markdown, this can take a few seconds..."
    else "Extracting images from PDF..."
  }

  /**
   * `convertPDFToMD` after its start: the upload's outcome, then
   * `processConversionResult`; anything that throws ends in the one error notice.
   */
  function PdfToMdIn(st: Store, s: Settings, path: string, probe: Reply, folderAnswer: bool, overwriteAnswer: bool,
                     content: Option<seq<byte>>, reply: Reply, hostOk: bool): (r: Conversion)
    ensures !Utils.CheckSettings(s).0 ==> r == Conversion(st, Says(Utils.CheckSettings(s).1))
  {
    var (st1, b) := BeginIn(st, s, path, probe, folderAnswer, overwriteAnswer, true);
    PdfFromStart(st1, s, path, b, content, reply, hostOk)
  }

  /** From the end of the start on. */
  function PdfFromStart(st: Store, s: Settings, path: string, b: Start, content: Option<seq<byte>>, reply: Reply, hostOk: bool)
    : Conversion
  {
    match b
    case Halted(texts) => Conversion(st, Says(texts))
    case Faulted => Conversion(st, [Say(PdfErrorNotice)])
    case Ready(folder) =>
      if content.None? then Conversion(st, [Say(PdfErrorNotice)])
      else PdfConverted(st, s, path, folder, reply, hostOk)
  }

  /** From the progress notice on. */
  function PdfConverted(st: Store, s: Settings, path: string, folder: string, reply: Reply, hostOk: bool): Conversion {
    var started := [Say(PdfProgress(s))];
    match Utils.ContentOutcome(reply)
    case Thrown(_) => Conversion(st, started + [Say(PdfErrorNotice)])
    case Answer(json) =>
      var run := Utils.ProcessIn(st, s, json, folder, path, hostOk);
      Conversion(run.st, started + Says(run.notices) + [Say(if run.threw then PdfErrorNotice else PdfDoneNotice)])
  }

  /**
   * Once the file is read, the conversion ends in exactly one verdict: the
   * completion notice when the server answered with data and its
   * materialisation did not throw (and then the vault is what
   * `processConversionResult` made of it), the error notice otherwise.
   */
  lemma PdfVerdict(st: Store, s: Settings, path: string, folder: string, reply: Reply, hostOk: bool)
    ensures var r := PdfConverted(st, s, path, folder, reply, hostOk);
            && |r.notices| >= 2 && r.notices[0] == Say(PdfProgress(s))
            && Last(r.notices) in {Say(PdfDoneNotice), Say(PdfErrorNotice)}
            && (Last(r.notices) == Say(PdfDoneNotice) <==>
                  Utils.ContentOutcome(reply).Answer?
                  && !Utils.ProcessIn(st, s, Utils.ContentOutcome(reply).json, folder, path, hostOk).threw)
            && (Last(r.notices) == Say(PdfDoneNotice) ==>
                  r.st == Utils.ProcessIn(st, s, Utils.ContentOutcome(reply).json, folder, path, hostOk).st)
            && (!Utils.ContentOutcome(reply).Answer? ==> r.st == st)
  {
  }

  /** Whether the entry point gets as far as the upload. */
  predicate Uploads(st: Store, s: Settings, path: string, probe: Reply, folderAnswer: bool, overwriteAnswer: bool,
                    content: Option<seq<byte>>, gated: bool) {
    BeginIn(st, s, path, probe, folderAnswer, overwriteAnswer, gated).1.Ready? && content.Some?
  }

  /**
   * `convertPDFToMD` on the vault. Returns the answer, the notices and the
   * body uploaded, if the conversion got that far.
   */
  method ConvertPDFToMD(vault: Vault, s: Settings, path: string, probeBoundary: string, probe: Reply,
                        folderAnswer: bool, overwriteAnswer: bool, content: Option<seq<byte>>,
                        boundary: string, reply: Reply, hostOk: bool)
    returns (result: bool, notices: seq<Notice>, body: Option<seq<byte>>)
    modifies vault
    ensures result == Utils.CheckSettings(s).0
    ensures Conversion(vault.State(), notices)
            == PdfToMdIn(old(vault.State()), s, path, probe, folderAnswer, overwriteAnswer, content, reply, hostOk)
    ensures body.Some? <==> Uploads(old(vault.State()), s, path, probe, folderAnswer, overwriteAnswer, content, true)
    ensures body.Some? ==> body.value == Flatten(MarkerDocker.MarkerParts(boundary, "pdf_file", content.value, MarkerDocker.ExtractImages(s)))
  {
    result := Utils.CheckSettings(s).0;
    var b := Begin(vault, s, path, probeBoundary, probe, folderAnswer, overwriteAnswer, true);
    notices, body := ContinuePdf(vault, s, path, b, content, boundary, reply, hostOk);
  }

  /** `convertPDFToMD` once the start is over. */
  method ContinuePdf(vault: Vault, s: Settings, path: string, b: Start, content: Option<seq<byte>>,
                     boundary: string, reply: Reply, hostOk: bool)
    returns (notices: seq<Notice>, body: Option<seq<byte>>)
    modifies vault
    ensures Conversion(vault.State(), notices) == PdfFromStart(old(vault.State()), s, path, b, content, reply, hostOk)
    ensures body.Some? <==> b.Ready? && content.Some?
    ensures body.Some? ==> body.value == Flatten(MarkerDocker.MarkerParts(boundary, "pdf_file", content.value, MarkerDocker.ExtractImages(s)))
  {
    body := None;
    match b
    case Halted(texts) => notices := Says(texts);
    case Faulted => notices := [Say(PdfErrorNotice)];
    case Ready(folder) =>
      if content.None? {
        notices := [Say(PdfErrorNotice)];
      } else {
        var sent;
        notices, sent := UploadPdf(vault, s, path, folder, content.value, boundary, reply, hostOk);
        body := Some(sent);
      }
  }

  /** `convertPDFToMD` from the progress notice on. */
  method UploadPdf(vault: Vault, s: Settings, path: string, folder: string, content: seq<byte>,
                   boundary: string, reply: Reply, hostOk: bool)
    returns (notices: seq<Notice>, body: seq<byte>)
    modifies vault
    ensures Conversion(vault.State(), notices) == PdfConverted(old(vault.State()), s, path, folder, reply, hostOk)
    ensures body == Flatten(MarkerDocker.MarkerParts(boundary, "pdf_file", content, MarkerDocker.ExtractImages(s)))
  {
    notices := [Say(PdfProgress(s))];
    var outcome;
    outcome, body := Utils.ConvertPDFContent(s, content, boundary, reply);
    match outcome
    case Thrown(_) => notices := notices + [Say(PdfErrorNotice)];
    case Answer(json) =>
      var texts, threw, current := Utils.ProcessConversionResult(vault, s, json, folder, path, hostOk);
      notices := notices + Says(texts) + [Say(if threw then PdfErrorNotice else PdfDoneNotice)];
  }

  // ---------------------------------------------------------------------
  // convertWithDatalab: the hosted Marker API
  // ---------------------------------------------------------------------

  const DatalabUrl := "https://www.datalab.to/api/v1/marker"
  const FailurePrefix := "An error occurred during file conversion: "
  /** The message of an error rethrown by the request's own `catch`, after the prefix. */
  const WrappedPrefix := FailurePrefix + "Error in convertWithDatalab: "
  const DetailPrefix := "Error with Datalab Marker API: "
  const NoDetailNotice := "Error with Datalab Marker API, check console for details"

  /** The notice posted once the file has been read. */
  function FileProgress(s: Settings): string {
    if s.extractContent == "text" || s.extractContent == "all" then "Converting file to Markdown, this can take a few seconds..."
    else "Extracting images from file..."
  }

  /** An error caught by the outer `catch`: its message, then the final notice. */
  function Failure(prefix: string): seq<Notice> {
    [SayError(prefix), Say(PdfErrorNotice)]
  }

  /** The MIME type chosen by the `switch` on the file's extension; "" for any other. */
  function LegacyContentType(ext: string): string {
    if ext == "pdf" then Datalab.PdfType
    else if ext == "docx" || ext == "doc" then Datalab.WordType
    else if ext == "pptx" || ext == "ppt" then Datalab.PresentationType
    else ""
  }

  /**
   * For the five document types the converter class's table gives the same
   * type; every other extension is sent with an empty type, where the class
   * sends a generic one.
   */
  lemma LegacyContentTypeAgrees(ext: string)
    ensures ext == "pdf" || ext == "docx" || ext == "doc" || ext == "pptx" || ext == "ppt" ==>
              LegacyContentType(ext) == Datalab.ContentType(ext)
    ensures LegacyContentType(ext) == "" <==> !(ext == "pdf" || ext == "docx" || ext == "doc" || ext == "pptx" || ext == "ppt")
  {
    Datalab.TypeLengths();
  }

  /** A truthy flag as the text of a field. */
  function Flag(b: Option<bool>): string {
    if b == Some(true) then "true" else "false"
  }

  /** The four form fields, in the order they are added. */
  function DatalabFieldTexts(boundary: string, s: Settings): seq<string> {
    [ FieldPart(boundary, "extract_images", if s.extractContent != "text" then "true" else "false"),
      FieldPart(boundary, "langs", s.langs.GetOr("en")),
      FieldPart(boundary, "force_ocr", Flag(s.forceOCR)),
      FieldPart(boundary, "paginate", Flag(s.paginate)) ]
  }

  /** The parts: the file part, its bytes, CRLF, the four fields, the close delimiter. */
  function DatalabParts(boundary: string, path: string, content: seq<byte>, s: Settings): seq<Part> {
    [TextPart(FileHead(boundary, "file", BaseName(path), LegacyContentType(Extension(path)))), BytePart(content), TextPart("\r\n")]
    + Texts(DatalabFieldTexts(boundary, s))
    + [TextPart(Close(boundary))]
  }

  /** The body: the file part's header, the file's bytes right after it, then the rest as text. */
  lemma DatalabLayout(boundary: string, path: string, content: seq<byte>, s: Settings)
    ensures Flatten(DatalabParts(boundary, path, content, s))
            == Encode(FileHead(boundary, "file", BaseName(path), LegacyContentType(Extension(path)))) + content
               + Encode("\r\n" + Concat(DatalabFieldTexts(boundary, s)) + Close(boundary))
  {
    var head := FileHead(boundary, "file", BaseName(path), LegacyContentType(Extension(path)));
    var fs := DatalabFieldTexts(boundary, s);
    var ts := ["\r\n"] + fs + [Close(boundary)];
    TextsAppend(["\r\n"] + fs, [Close(boundary)]);
    TextsAppend(["\r\n"], fs);
    assert Texts(ts) == [TextPart("\r\n")] + Texts(fs) + [TextPart(Close(boundary))];
    assert DatalabParts(boundary, path, content, s) == [TextPart(head), BytePart(content)] + Texts(ts);
    FileBodyLayout(head, content, ts);
    ConcatAround("\r\n", DatalabFieldTexts(boundary, s), Close(boundary));
  }

  /**
   * The settings the request carries agree with the converter class's
   * fields: languages, OCR and pagination alike, and images extracted
   * exactly when the class does not disable their extraction.
   */
  lemma DatalabFieldsAgree(s: Settings)
    ensures var fs := Datalab.BaseFields(s);
            && Datalab.FieldText(fs[0]) == s.langs.GetOr("en")
            && Datalab.FieldText(fs[1]) == Flag(s.forceOCR)
            && Datalab.FieldText(fs[2]) == Flag(s.paginate)
            && (Datalab.FieldText(fs[3]) == "false" <==> s.extractContent != "text")
  {
  }

  /** The pushes of `parts` and the copy into one buffer. */
  method BuildDatalabBody(boundary: string, path: string, content: seq<byte>, s: Settings) returns (body: seq<byte>)
    ensures body == Flatten(DatalabParts(boundary, path, content, s))
  {
    var head := FileHead(boundary, "file", BaseName(path), LegacyContentType(Extension(path)));
    var fields := DatalabFieldTexts(boundary, s);
    var parts: seq<Part> := [];
    parts := parts + [TextPart(head)];
    parts := parts + [BytePart(content)];
    parts := parts + [TextPart("\r\n")];
    parts := parts + [TextPart(FieldPart(boundary, "extract_images", if s.extractContent != "text" then "true" else "false"))];
    parts := parts + [TextPart(FieldPart(boundary, "langs", if s.langs.Some? then s.langs.value else "en"))];
    parts := parts + [TextPart(FieldPart(boundary, "force_ocr", if s.forceOCR == Some(true) then "true" else "false"))];
    parts := parts + [TextPart(FieldPart(boundary, "paginate", if s.paginate == Some(true) then "true" else "false"))];
    assert parts == [TextPart(head), BytePart(content), TextPart("\r\n")] + Texts(fields);
    parts := parts + [TextPart(Close(boundary))];
    assert parts == DatalabParts(boundary, path, content, s);
    var buffer := Combine(parts);
    body := buffer[..];
  }

  /**
   * `convertWithDatalab`: after the start, the upload's reply decides. A
   * 200 reply is polled for and materialised; another status posts the
   * server's `detail`. Anything that throws inside the request's `try` is
   * rethrown wrapped, and the outer `catch` posts its message before the
   * final error notice.
   */
  function DatalabIn(st: Store, s: Settings, path: string, probe: Reply, folderAnswer: bool, overwriteAnswer: bool,
                     content: Option<seq<byte>>, reply: Reply, polls: seq<Reply>, hostOk: bool): (r: Conversion)
    requires |polls| == Utils.PollRetries + 1
    ensures !Utils.CheckSettings(s).0 ==> r == Conversion(st, Says(Utils.CheckSettings(s).1))
  {
    var (st1, b) := BeginIn(st, s, path, probe, folderAnswer, overwriteAnswer, true);
    DatalabFromStart(st1, s, path, b, content, reply, polls, hostOk)
  }

  /** From the end of the start on. */
  function DatalabFromStart(st: Store, s: Settings, path: string, b: Start, content: Option<seq<byte>>,
                            reply: Reply, polls: seq<Reply>, hostOk: bool): Conversion
    requires |polls| == Utils.PollRetries + 1
  {
    match b
    case Halted(texts) => Conversion(st, Says(texts))
    case Faulted => Conversion(st, Failure(FailurePrefix))
    case Ready(folder) =>
      if content.None? then Conversion(st, Failure(FailurePrefix))
      else
        var r := DatalabSubmitted(st, s, path, folder, reply, polls, hostOk);
        Conversion(r.st, [Say(FileProgress(s))] + r.notices)
  }

  /** The notice for a reply other than 200: the server's `detail` when it is a string. */
  function DetailNotice(data: Value): string {
    var detail := Prop(data, "detail");
    if detail.Str? then DetailPrefix + detail.s else NoDetailNotice
  }

  /** From the upload's reply on (after the progress notice). */
  function DatalabSubmitted(st: Store, s: Settings, path: string, folder: string, reply: Reply, polls: seq<Reply>, hostOk: bool): (r: Conversion)
    requires |polls| == Utils.PollRetries + 1
    ensures r.st != st ==> reply.Reply? && reply.status == 200
  {
    if reply.Failed? || reply.json.None? || reply.json.value.Nullish() then Conversion(st, Failure(WrappedPrefix))
    else if reply.status != 200 then Conversion(st, [Say(DetailNotice(reply.json.value))])
    else
      var polled := Utils.PollResult(polls);
      if polled.None? then Conversion(st, Failure(WrappedPrefix))
      else
        var run := Utils.ProcessIn(st, s, polled.value, folder, path, hostOk);
        Conversion(run.st, Says(run.notices) + (if run.threw then Failure(WrappedPrefix) else [Say(PdfDoneNotice)]))
  }

  /**
   * After the upload, the conversion ends in one of three ways: the
   * completion notice, with the vault as `processConversionResult` left it;
   * the server's refusal, with the vault untouched; or an error, reported
   * twice, the wrapped message first.
   */
  lemma DatalabVerdict(st: Store, s: Settings, path: string, folder: string, reply: Reply, polls: seq<Reply>, hostOk: bool)
    requires |polls| == Utils.PollRetries + 1
    ensures var r := DatalabSubmitted(st, s, path, folder, reply, polls, hostOk);
            var accepted := reply.Reply? && reply.status == 200 && reply.json.Some? && !reply.json.value.Nullish()
                            && Utils.PollResult(polls).Some?;
            var refused := reply.Reply? && reply.status != 200 && reply.json.Some? && !reply.json.value.Nullish();
            && |r.notices| >= 1
            && (Last(r.notices) == Say(PdfDoneNotice) <==>
                  accepted && !Utils.ProcessIn(st, s, Utils.PollResult(polls).value, folder, path, hostOk).threw)
            && (Last(r.notices) == Say(PdfDoneNotice) ==>
                  r.st == Utils.ProcessIn(st, s, Utils.PollResult(polls).value, folder, path, hostOk).st)
            && (refused ==> r.notices == [Say(DetailNotice(reply.json.value))])
            && (!accepted && !refused ==> r.notices == Failure(WrappedPrefix))
            && (!accepted ==> r.st == st)
  {
  }

  /**
   * `convertWithDatalab` on the vault. Returns the answer, the notices and
   * the body uploaded, if the conversion got that far.
   */
  method ConvertWithDatalab(vault: Vault, s: Settings, path: string, probeBoundary: string, probe: Reply,
                            folderAnswer: bool, overwriteAnswer: bool, content: Option<seq<byte>>,
                            boundary: string, reply: Reply, polls: seq<Reply>, hostOk: bool)
    returns (result: bool, notices: seq<Notice>, body: Option<seq<byte>>)
    requires |polls| == Utils.PollRetries + 1
    modifies vault
    ensures result == Utils.CheckSettings(s).0
    ensures Conversion(vault.State(), notices)
            == DatalabIn(old(vault.State()), s, path, probe, folderAnswer, overwriteAnswer, content, reply, polls, hostOk)
    ensures body.Some? <==> Uploads(old(vault.State()), s, path, probe, folderAnswer, overwriteAnswer, content, true)
    ensures body.Some? ==> body.value == Flatten(DatalabParts(boundary, path, content.value, s))
  {
    result := Utils.CheckSettings(s).0;
    var b := Begin(vault, s, path, probeBoundary, probe, folderAnswer, overwriteAnswer, true);
    notices, body := ContinueDatalab(vault, s, path, b, content, boundary, reply, polls, hostOk);
  }

  /** `convertWithDatalab` once the start is over. */
  method ContinueDatalab(vault: Vault, s: Settings, path: string, b: Start, content: Option<seq<byte>>,
                         boundary: string, reply: Reply, polls: seq<Reply>, hostOk: bool)
    returns (notices: seq<Notice>, body: Option<seq<byte>>)
    requires |polls| == Utils.PollRetries + 1
    modifies vault
    ensures Conversion(vault.State(), notices) == DatalabFromStart(old(vault.State()), s, path, b, content, reply, polls, hostOk)
    ensures body.Some? <==> b.Ready? && content.Some?
    ensures body.Some? ==> body.value == Flatten(DatalabParts(boundary, path, content.value, s))
  {
    body := None;
    match b
    case Halted(texts) => notices := Says(texts);
    case Faulted => notices := Failure(FailurePrefix);
    case Ready(folder) =>
      if content.None? {
        notices := Failure(FailurePrefix);
      } else {
        var sent := BuildDatalabBody(boundary, path, content.value, s);
        body := Some(sent);
        var rest := SubmitToDatalab(vault, s, path, folder, reply, polls, hostOk);
        notices := [Say(FileProgress(s))] + rest;
      }
  }

  /** `convertWithDatalab` from the request on. */
  method SubmitToDatalab(vault: Vault, s: Settings, path: string, folder: string, reply: Reply, polls: seq<Reply>, hostOk: bool)
    returns (notices: seq<Notice>)
    requires |polls| == Utils.PollRetries + 1
    modifies vault
    ensures Conversion(vault.State(), notices) == DatalabSubmitted(old(vault.State()), s, path, folder, reply, polls, hostOk)
  {
    if reply.Failed? || reply.json.None? || reply.json.value.Nullish() {
      return Failure(WrappedPrefix);
    }
    if reply.status != 200 {
      return [Say(DetailNotice(reply.json.value))];
    }
    var polled, requests := Utils.PollForConversionResult(polls);
    if polled.None? {
      return Failure(WrappedPrefix);
    }
    var texts, threw, current := Utils.ProcessConversionResult(vault, s, polled.value, folder, path, hostOk);
    notices := Says(texts) + (if threw then Failure(WrappedPrefix) else [Say(PdfDoneNotice)]);
  }

  // ---------------------------------------------------------------------
  // convertWithPythonAPI: a Marker Python server on this machine
  // ---------------------------------------------------------------------

  const PythonProgress := "Converting file with Python API..."
  const FileErrorNotice := "Error during file conversion. Check console for details."
  const PythonErrorPrefix := "Error with Python API: "
  const PythonDoneNotice := "Conversion with Python API completed"

  /** The text after the prefix for a status other than 200. */
  function RejectionText(status: int, json: Option<Value>): string {
    if json.None? then IntToString(status)
    else Display(Coalesce(Prop(json.value, "error"), Str("HTTP " + IntToString(status))))
  }

  /**
   * `convertWithPythonAPI`: after the start (without the overwrite dialog)
   * the JSON request is posted with the file's absolute path; the reply
   * decides.
   */
  function PythonIn(st: Store, s: Settings, path: string, probe: Reply, folderAnswer: bool, reply: Reply, hostOk: bool): (r: Conversion)
    ensures !Utils.CheckSettings(s).0 ==> r == Conversion(st, Says(Utils.CheckSettings(s).1))
  {
    var (st1, b) := BeginIn(st, s, path, probe, folderAnswer, true, false);
    match b
    case Halted(texts) => Conversion(st1, Says(texts))
    case Faulted => Conversion(st1, [Say(FileErrorNotice)])
    case Ready(folder) =>
      var r := PythonAnswered(st1, s, path, folder, reply, hostOk);
      Conversion(r.st, [Say(PythonProgress)] + r.notices)
  }

  /** From the reply on (after the progress notice). */
  function PythonAnswered(st: Store, s: Settings, path: string, folder: string, reply: Reply, hostOk: bool): Conversion {
    match reply
    case Failed => Conversion(st, [Say(FileErrorNotice)])
    case Reply(status, _, json) =>
      if status != 200 then Conversion(st, [Say(PythonErrorPrefix + RejectionText(status, json))])
      else if json.None? || json.value.Nullish() then Conversion(st, [Say(PythonApi.ParseErrorNotice)])
      else if !Truthy(Prop(json.value, "success")) then
        Conversion(st, [Say(PythonErrorPrefix + Display(Or(Prop(json.value, "error"), Str("unknown error"))))])
      else PythonProcessed(st, s, json.value, folder, path, hostOk)
  }

  /**
   * `processConversionResult`, then the entry point's own move and
   * deletion of the original, wherever the first left it.
   */
  function PythonProcessed(st: Store, s: Settings, data: Value, folder: string, path: string, hostOk: bool): Conversion {
    var run := Utils.ProcessIn(st, s, data, folder, path, hostOk);
    if run.threw then Conversion(run.st, Says(run.notices) + [Say(PythonApi.ParseErrorNotice)])
    else
      var done := Says(run.notices) + [Say(PythonDoneNotice)];
      var (st1, moved) := if s.movePDFtoFolder then RenameIn(run.st, run.current, folder + BaseName(path)) else (run.st, true);
      if !moved then Conversion(st1, done + [Say(PythonApi.ParseErrorNotice)])
      else if s.deleteOriginal then
        var now := if s.movePDFtoFolder then folder + BaseName(path) else run.current;
        var (st2, texts) := DeleteOriginalIn(st1, now);
        Conversion(st2, done + Says(texts))
      else Conversion(st1, done)
  }

  /** A file cannot be renamed onto its own path: the target is taken by the file itself. */
  lemma RenameOntoItselfFails(st: Store, p: string)
    ensures !RenameIn(st, p, p).1 && RenameIn(st, p, p).0 == st
  {
  }

  /**
   * With `movePDFtoFolder`, a result that was materialised has already been
   * moved into the folder by `processConversionResult`; the entry point's
   * second rename is onto the file's own new path and throws, so a
   * successful conversion always ends with the completion notice followed by
   * the parse-error notice, and nothing after the first move is undone or added.
   */
  lemma PythonSecondMoveFails(st: Store, s: Settings, data: Value, folder: string, path: string, hostOk: bool)
    requires s.movePDFtoFolder
    requires Utils.Normalise(data).Normal?
    requires !Utils.ProcessIn(st, s, data, folder, path, hostOk).threw
    ensures var r := PythonProcessed(st, s, data, folder, path, hostOk);
            && r.st == Utils.ProcessIn(st, s, data, folder, path, hostOk).st
            && |r.notices| >= 2
            && r.notices[|r.notices| - 2] == Say(PythonDoneNotice)
            && Last(r.notices) == Say(PythonApi.ParseErrorNotice)
  {
    var run := Utils.ProcessIn(st, s, data, folder, path, hostOk);
    assert run.current == folder + BaseName(path) by {
      MovedRunEndsInFolder(st, s, Utils.Normalise(data).data, folder, path, hostOk);
    }
    RenameOntoItselfFails(run.st, run.current);
  }

  /** A materialisation that does not throw, with `movePDFtoFolder`, leaves the original in the folder. */
  lemma MovedRunEndsInFolder(st: Store, s: Settings, d: Value, folder: string, path: string, hostOk: bool)
    requires s.movePDFtoFolder
    requires !Utils.Materialise(st, s, d, folder, path, hostOk).threw
    ensures Utils.Materialise(st, s, d, folder, path, hostOk).current == folder + BaseName(path)
  {
    var (st1, texts, ok) := Utils.MarkdownStep(st, s, d, folder, path);
    var (st2, texts2, ok2) := Utils.ImagesStep(st1, s, d, folder, path);
    var (st3, ok3) := Utils.MetadataStep(st2, s, d, folder, path, hostOk);
  }

  /**
   * Without `movePDFtoFolder` the entry point's own deletion finds nothing
   * left to trash when `processConversionResult` already trashed the
   * original: it adds no notice and changes nothing.
   */
  lemma PythonSecondDeleteIsQuiet(st: Store, s: Settings, data: Value, folder: string, path: string, hostOk: bool)
    requires !s.movePDFtoFolder && s.deleteOriginal
    requires Utils.Normalise(data).Normal?
    requires !Utils.ProcessIn(st, s, data, folder, path, hostOk).threw
    ensures var r := PythonProcessed(st, s, data, folder, path, hostOk);
            var run := Utils.ProcessIn(st, s, data, folder, path, hostOk);
            r.st == run.st && r.notices == Says(run.notices) + [Say(PythonDoneNotice)]
  {
    var run := Utils.ProcessIn(st, s, data, folder, path, hostOk);
    UnmovedRunTrashed(st, s, Utils.Normalise(data).data, folder, path, hostOk);
  }

  /** A materialisation that does not throw, with `deleteOriginal` and no move, has trashed the original. */
  lemma UnmovedRunTrashed(st: Store, s: Settings, d: Value, folder: string, path: string, hostOk: bool)
    requires !s.movePDFtoFolder && s.deleteOriginal
    requires !Utils.Materialise(st, s, d, folder, path, hostOk).threw
    ensures var run := Utils.Materialise(st, s, d, folder, path, hostOk);
            run.current == path && !run.st.IsFile(path)
  {
    var (st1, texts, ok) := Utils.MarkdownStep(st, s, d, folder, path);
    var (st2, texts2, ok2) := Utils.ImagesStep(st1, s, d, folder, path);
    var (st3, ok3) := Utils.MetadataStep(st2, s, d, folder, path, hostOk);
    Utils.FinishLeavesNoOriginal(st3, s, folder, path);
  }

  /**
   * `convertWithPythonAPI` on the vault; `realPath` is the file's absolute
   * path. Returns the answer, the notices and the request object posted, if
   * the conversion got that far.
   */
  method ConvertWithPythonAPI(vault: Vault, s: Settings, path: string, realPath: string, probeBoundary: string, probe: Reply,
                              folderAnswer: bool, reply: Reply, hostOk: bool)
    returns (result: bool, notices: seq<Notice>, request: Option<Value>)
    modifies vault
    ensures result == Utils.CheckSettings(s).0
    ensures Conversion(vault.State(), notices) == PythonIn(old(vault.State()), s, path, probe, folderAnswer, reply, hostOk)
    ensures request.Some? <==> BeginIn(old(vault.State()), s, path, probe, folderAnswer, true, false).1.Ready?
    ensures request.Some? ==> request.value == PythonApi.RequestObject(s, realPath)
  {
    result := Utils.CheckSettings(s).0;
    request := None;
    var b := Begin(vault, s, path, probeBoundary, probe, folderAnswer, true, false);
    match b
    case Halted(texts) => notices := Says(texts);
    case Faulted => notices := [Say(FileErrorNotice)];
    case Ready(folder) =>
      request := Some(PythonApi.RequestObject(s, realPath));
      var rest := PostToPython(vault, s, path, folder, reply, hostOk);
      notices := [Say(PythonProgress)] + rest;
  }

  /** `convertWithPythonAPI` from the reply on. */
  method PostToPython(vault: Vault, s: Settings, path: string, folder: string, reply: Reply, hostOk: bool)
    returns (notices: seq<Notice>)
    modifies vault
    ensures Conversion(vault.State(), notices) == PythonAnswered(old(vault.State()), s, path, folder, reply, hostOk)
  {
    if reply.Failed? {
      return [Say(FileErrorNotice)];
    }
    if reply.status != 200 {
      return [Say(PythonErrorPrefix + RejectionText(reply.status, reply.json))];
    }
    if reply.json.None? || reply.json.value.Nullish() {
      return [Say(PythonApi.ParseErrorNotice)];
    }
    var data := reply.json.value;
    if !Truthy(Prop(data, "success")) {
      return [Say(PythonErrorPrefix + Display(Or(Prop(data, "error"), Str("unknown error"))))];
    }
    var texts, threw, current := Utils.ProcessConversionResult(vault, s, data, folder, path, hostOk);
    notices := Says(texts);
    if threw {
      notices := notices + [Say(PythonApi.ParseErrorNotice)];
      return;
    }
    notices := notices + [Say(PythonDoneNotice)];
    if s.movePDFtoFolder {
      var newFilePath := folder + BaseName(path);
      var moved := vault.Rename(current, newFilePath);
      if !moved {
        notices := notices + [Say(PythonApi.ParseErrorNotice)];
        return;
      }
      current := newFilePath;
    }
    if s.deleteOriginal {
      var deleted := DeleteOriginalFile(vault, current);
      notices := notices + Says(deleted);
    }
  }
}
