/**
 * `MarkerApiDockerConverter` (src/converters/markerApiDocker.ts): the
 * self-hosted Marker API. One multipart upload, retried once under another
 * field name when the server says the field it expects is missing, and the
 * server's answer mapped into a conversion result.
 */
module MarkerDocker {
  import opened Wrappers
  import opened Text
  import opened Js
  import opened Settings
  import opened Host
  import opened Multipart
  import opened Http
  import opened FileUtils
  import opened Converter

  /** `testConnection`: no request without an endpoint; otherwise true exactly when /health answers 200. */
  function TestConnection(s: Settings, reply: Reply): (r: (bool, bool))
    ensures s.markerEndpoint == "" ==> r == (false, false)
    ensures s.markerEndpoint != "" ==> r.1
    ensures r.0 <==> s.markerEndpoint != "" && reply.Reply? && reply.status == 200
  {
    if s.markerEndpoint == "" then (false, false)
    else (reply.Reply? && reply.status == 200, true)
  }

  // ---------------------------------------------------------------------
  // The request
  // ---------------------------------------------------------------------

  /** The `extract_images` value: 'true' unless the mode is 'text'. */
  function ExtractImages(s: Settings): string {
    if s.extractContent != "text" then "true" else "false"
  }

  /**
   * The parts of a Marker upload: the PDF under `field` as "document.pdf",
   * CRLF, the `extract_images` field, the close delimiter.
   */
  function MarkerParts(boundary: string, field: string, content: seq<byte>, extract: string): seq<Part> {
    [ TextPart(FileHead(boundary, field, "document.pdf", "application/pdf")),
      BytePart(content),
      TextPart("\r\n"),
      TextPart(FieldPart(boundary, "extract_images", extract)),
      TextPart(Close(boundary)) ]
  }

  /** The PDF's bytes follow the file header, and the `extract_images` part reads back as sent. */
  lemma MarkerLayout(boundary: string, field: string, content: seq<byte>, extract: string)
    ensures Flatten(MarkerParts(boundary, field, content, extract))
            == Encode(FileHead(boundary, field, "document.pdf", "application/pdf")) + content
               + Encode("\r\n" + FieldPart(boundary, "extract_images", extract) + Close(boundary))
    ensures ParseFieldPart(boundary, FieldPart(boundary, "extract_images", extract)) == Some(("extract_images", extract))
  {
    var ts := ["\r\n", FieldPart(boundary, "extract_images", extract), Close(boundary)];
    assert MarkerParts(boundary, field, content, extract)
           == [TextPart(FileHead(boundary, field, "document.pdf", "application/pdf")), BytePart(content)] + Texts(ts);
    FileBodyLayout(FileHead(boundary, field, "document.pdf", "application/pdf"), content, ts);
    assert ts == ["\r\n"] + [FieldPart(boundary, "extract_images", extract)] + [Close(boundary)];
    ConcatAround("\r\n", [FieldPart(boundary, "extract_images", extract)], Close(boundary));
    var one := [FieldPart(boundary, "extract_images", extract)];
    assert one[..|one| - 1] == [];
    assert Concat(one) == FieldPart(boundary, "extract_images", extract);
    ParseFieldPartOfFieldPart(boundary, "extract_images", extract);
  }

  /** What one attempt gives: the server's JSON, or an error with its message (None when the message is the runtime's). */
  datatype Attempt = Answer(json: Value) | Thrown(message: Option<string>)

  /** `Object.keys(v).length === 0` for a truthy value. */
  predicate NoKeys(v: Value)
    requires !v.Nullish()
  {
    |Js.Entries(v).value| == 0
  }

  /**
   * The outcome of `attemptConversion` for the server's reply. Every status
   * of 400 or more ends in "Server returned error: " with the body text (or
   * the status): the validation-error throw is caught by its own `catch`.
   */
  function AttemptOutcome(reply: Reply): (r: Attempt)
    ensures reply.Reply? && reply.status >= 400 ==>
              r == Thrown(Some("Server returned error: "
                               + (if reply.text != "" then reply.text else "HTTP " + IntToString(reply.status))))
    ensures r.Answer? <==> reply.Reply? && reply.status < 400 && reply.json.Some?
                           && Truthy(reply.json.value) && !NoKeys(reply.json.value)
    ensures r.Answer? ==> r.json == reply.json.value
  {
    match reply
    case Failed => Thrown(None)
    case Reply(status, text, json) =>
      if status >= 400 then
        Thrown(Some("Server returned error: " + (if text != "" then text else "HTTP " + IntToString(status))))
      else if json.None? then Thrown(None)
      else if !Truthy(json.value) || NoKeys(json.value) then Thrown(Some("No data returned from Marker API"))
      else Answer(json.value)
  }

  /** `attemptConversion`: the parts, the offset copy, and the server's reply. */
  method AttemptConversion(s: Settings, content: seq<byte>, field: string, boundary: string, reply: Reply)
    returns (r: Attempt, body: seq<byte>)
    ensures body == Flatten(MarkerParts(boundary, field, content, ExtractImages(s)))
    ensures r == AttemptOutcome(reply)
  {
    var parts: seq<Part> := [];
    parts := parts + [TextPart(FileHead(boundary, field, "document.pdf", "application/pdf"))];
    parts := parts + [BytePart(content)];
    parts := parts + [TextPart("\r\n")];
    parts := parts + [TextPart(FieldPart(boundary, "extract_images", if s.extractContent != "text" then "true" else "false"))];
    parts := parts + [TextPart(Close(boundary))];
    assert parts == MarkerParts(boundary, field, content, ExtractImages(s));
    var buffer := Combine(parts);
    body := buffer[..];
    r := AttemptOutcome(reply);
  }

  /** The error that makes `convertPDFContent` try again under `document_file`. */
  predicate AsksForDocumentFile(a: Attempt) {
    a.Thrown? && a.message.Some? && Contains(a.message.value, "missing") && Contains(a.message.value, "document_file")
  }

  /**
   * `convertPDFContent`: the upload as `pdf_file`, and once more as
   * `document_file` when the first error names a missing `document_file`;
   * any other error is passed on. Returns the outcome and the bodies sent.
   */
  method ConvertPDFContent(s: Settings, content: seq<byte>, boundary: string, first: Reply, second: Reply)
    returns (r: Attempt, bodies: seq<seq<byte>>)
    ensures 1 <= |bodies| <= 2
    ensures bodies[0] == Flatten(MarkerParts(boundary, "pdf_file", content, ExtractImages(s)))
    ensures |bodies| == 2 <==> AsksForDocumentFile(AttemptOutcome(first))
    ensures |bodies| == 2 ==> bodies[1] == Flatten(MarkerParts(boundary, "document_file", content, ExtractImages(s)))
                              && r == AttemptOutcome(second)
    ensures |bodies| == 1 ==> r == AttemptOutcome(first)
  {
    var body;
    r, body := AttemptConversion(s, content, "pdf_file", boundary, first);
    bodies := [body];
    if r.Thrown? && r.message.Some? && Contains(r.message.value, "missing") && Contains(r.message.value, "document_file") {
      r, body := AttemptConversion(s, content, "document_file", boundary, second);
      bodies := bodies + [body];
    }
  }

  /** A first attempt that succeeds is never repeated. */
  lemma AnswerNotRetried(first: Reply)
    requires AttemptOutcome(first).Answer?
    ensures !AsksForDocumentFile(AttemptOutcome(first))
  {
  }

  // ---------------------------------------------------------------------
  // processApiResponse and convert
  // ---------------------------------------------------------------------

  /**
   * `processApiResponse`: a success when `status` is 'Success' and `result`
   * is truthy, with markdown, images and metadata defaulting to '', {}, {};
   * otherwise a failure naming the status.
   */
  function ProcessApiResponse(response: Value): (r: Value)
    ensures r.Obj?
  {
    var result := Prop(response, "result");
    if Prop(response, "status") == Str("Success") && Truthy(result) then
      Obj([ Member("success", Bool(true)),
            Member("markdown", Or(Prop(result, "markdown"), Str(""))),
            Member("images", Or(Prop(result, "images"), Obj([]))),
            Member("metadata", Or(Prop(result, "metadata"), Obj([]))) ])
    else
      Obj([ Member("success", Bool(false)),
            Member("error", Str("Conversion failed with status: " + Display(Or(Prop(response, "status"), Str("Unknown"))))) ])
  }

  /** The mapped result, field by field. */
  lemma ProcessApiResponseFields(response: Value)
    ensures var r := ProcessApiResponse(response);
            var result := Prop(response, "result");
            && (Prop(r, "success") == Bool(true) <==> Prop(response, "status") == Str("Success") && Truthy(result))
            && (Prop(r, "success") == Bool(true) ==>
                  && Prop(r, "markdown") == Or(Prop(result, "markdown"), Str(""))
                  && Prop(r, "images") == Or(Prop(result, "images"), Obj([]))
                  && Prop(r, "metadata") == Or(Prop(result, "metadata"), Obj([])))
            && (Prop(r, "success") != Bool(true) ==>
                  Prop(r, "success") == Bool(false) &&
                  Prop(r, "error") == Str("Conversion failed with status: "
                                          + (if Truthy(Prop(response, "status")) then Display(Prop(response, "status")) else "Unknown")))
  {
    var ms := ProcessApiResponse(response).members;
    LookupFirst(ms, "success", 0);
    if Prop(response, "status") == Str("Success") && Truthy(Prop(response, "result")) {
      LookupFirst(ms, "markdown", 1);
      LookupFirst(ms, "images", 2);
      LookupFirst(ms, "metadata", 3);
    } else {
      LookupFirst(ms, "error", 1);
    }
  }

  /**
   * `convert`: the folder and overwrite gates, the file read (`content`,
   * None when it throws), the upload with its retry, then the result
   * materialised; a failed result only posts a notice.
   */
  method Convert(vault: Vault, s: Settings, path: string, probe: Reply, answer: bool,
                 content: Option<seq<byte>>, boundary: string, first: Reply, second: Reply, hostOk: bool)
    returns (ok: bool)
    modifies vault
    ensures var gate := OverwriteGate(s, path, TestConnection(s, probe).0,
                                      HasFilesUnder(old(vault.State()), CalculateFolderPath(path)), answer);
            && (gate.Stop? ==> ok == gate.result && vault.State() == old(vault.State()))
            && (gate.Proceed? ==>
                  var outcome := if AsksForDocumentFile(AttemptOutcome(first)) then AttemptOutcome(second)
                                 else AttemptOutcome(first);
                  && (ok <==> content.Some? && outcome.Answer? && !Unsuccessful(ProcessApiResponse(outcome.json)))
                  && (ok ==> vault.State() == ProcessIn(old(vault.State()), s, ProcessApiResponse(outcome.json),
                                                         gate.folder, path, hostOk).st)
                  && (!ok ==> vault.State() == old(vault.State())))
  {
    var connected := TestConnection(s, probe).0;
    var folder := PreparedFolder(s, path, connected);
    if folder.None? {
      return false;
    }
    if s.extractContent == "images" || s.extractContent == "all" {
      var proceed, _ := CheckForExistingFiles(vault, folder.value, answer);
      if !proceed {
        return true;
      }
    }
    ok := Upload(vault, s, path, folder.value, content, boundary, first, second, hostOk);
  }

  /** `convert` past its gates: the upload with its retry, then the result materialised. */
  method Upload(vault: Vault, s: Settings, path: string, folder: string, content: Option<seq<byte>>,
                boundary: string, first: Reply, second: Reply, hostOk: bool)
    returns (ok: bool)
    modifies vault
    ensures var outcome := if AsksForDocumentFile(AttemptOutcome(first)) then AttemptOutcome(second)
                           else AttemptOutcome(first);
            && (ok <==> content.Some? && outcome.Answer? && !Unsuccessful(ProcessApiResponse(outcome.json)))
            && (ok ==> vault.State() == ProcessIn(old(vault.State()), s, ProcessApiResponse(outcome.json),
                                                   folder, path, hostOk).st)
            && (!ok ==> vault.State() == old(vault.State()))
  {
    if content.None? {
      return false;
    }
    var response, _ := ConvertPDFContent(s, content.value, boundary, first, second);
    if response.Thrown? {
      return false;
    }
    var result := ProcessApiResponse(response.json);
    if Unsuccessful(result) {
      return false;
    }
    var _, _, _ := ProcessConversionResult(vault, s, result, folder, path, hostOk);
    ok := true;
  }

  /** A failed mapping never reaches the vault: the converter stops at the notice. */
  lemma FailedResultWritesNothing(response: Value)
    requires Prop(ProcessApiResponse(response), "success") != Bool(true)
    ensures Unsuccessful(ProcessApiResponse(response))
  {
    ProcessApiResponseFields(response);
  }
}
