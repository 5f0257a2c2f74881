/**
 * The helpers of the first plugin generation (src/utils.ts), which the
 * conversion entry points of src/conversion.ts call: the settings check, the
 * connection test of each back end, the choice of the output folder, the
 * upload to a self-hosted Marker server, polling for a result, the
 * materialisation of a result, and the OK/Cancel dialog.
 *
 * Unlike the converter classes, `processConversionResult` here has no `try`
 * of its own: the first host call that throws ends it, and the caller's
 * `catch` takes over.
 */
module Utils {
  import opened Wrappers
  import opened Text
  import opened Js
  import opened Settings
  import SettingsUtils
  import opened Host
  import opened Patterns
  import opened Multipart
  import opened Http
  import opened FileUtils
  import Converter
  import MarkerDocker
  import Datalab
  import PythonApi

  // ---------------------------------------------------------------------
  // checkSettings
  // ---------------------------------------------------------------------

  const EndpointNotice := "Err: Marker API endpoint not set"

  /**
   * `checkSettings`: the Marker endpoint must be set and the mode one of the
   * three; the verdict and the notice posted for the first problem found.
   */
  function CheckSettings(s: Settings): (r: (bool, seq<string>))
    ensures r.0 <==> s.markerEndpoint != "" && ValidMode(s.extractContent)
    ensures r.0 ==> r.1 == []
    ensures !r.0 ==> |r.1| == 1
    ensures s.markerEndpoint == "" ==> r.1 == [EndpointNotice]
  {
    if s.markerEndpoint == "" then (false, [EndpointNotice])
    else SettingsUtils.CheckSettings(s)
  }

  /** With the endpoint set, the check is the mode check of the converter classes. */
  lemma CheckSettingsRefinesModeCheck(s: Settings)
    requires s.markerEndpoint != ""
    ensures CheckSettings(s) == SettingsUtils.CheckSettings(s)
    ensures !CheckSettings(s).0 ==> CheckSettings(s).1 == [SettingsUtils.InvalidModeNotice]
  {
  }

  // ---------------------------------------------------------------------
  // testConnection
  // ---------------------------------------------------------------------

  /** A request the plugin sends; the network's answer is an input of the model. */
  datatype Request =
    | NoRequest
    | Get(url: string, apiKey: string)
    | Upload(url: string, boundary: string, body: seq<byte>)
    | PostJson(url: string, json: Value)

  const DatalabHealthUrl := "https://www.datalab.to/api/v1/user_health"
  const ConnectedNotice := "Connection successful!"

  /** The parts of the self-hosted probe: an empty "test.pdf" and `extract_images` false. */
  function ProbeParts(boundary: string): seq<Part> {
    [ TextPart(FileHead(boundary, "pdf_file", "test.pdf", "application/pdf")),
      BytePart([]),
      TextPart("\r\n"),
      TextPart(FieldPart(boundary, "extract_images", "false")),
      TextPart(Close(boundary)) ]
  }

  /** The request `testConnection` sends for the configured back end, if any. */
  function ProbeRequest(s: Settings, boundary: string): Request {
    if s.apiEndpoint == "datalab" then
      if Filled(s.apiKey) then Get(DatalabHealthUrl, s.apiKey.value) else NoRequest
    else if s.apiEndpoint == "selfhosted" then
      Upload("http://" + s.markerEndpoint + "/convert", boundary, Flatten(ProbeParts(boundary)))
    else if s.apiEndpoint == "python-api" then
      PostJson("http://" + s.pythonEndpoint + "/marker", PythonApi.RequestObject(s, "test"))
    else NoRequest
  }

  /** The probe upload is a file header with no bytes after it, then `extract_images=false`. */
  lemma ProbeLayout(boundary: string)
    ensures Flatten(ProbeParts(boundary))
            == Encode(FileHead(boundary, "pdf_file", "test.pdf", "application/pdf"))
               + Encode("\r\n" + FieldPart(boundary, "extract_images", "false") + Close(boundary))
    ensures ParseFieldPart(boundary, FieldPart(boundary, "extract_images", "false")) == Some(("extract_images", "false"))
  {
    var head := FileHead(boundary, "pdf_file", "test.pdf", "application/pdf");
    var ts := ["\r\n", FieldPart(boundary, "extract_images", "false"), Close(boundary)];
    assert ProbeParts(boundary) == [TextPart(head), BytePart([])] + Texts(ts);
    FileBodyLayout(head, [], ts);
    assert ts == ["\r\n"] + [FieldPart(boundary, "extract_images", "false")] + [Close(boundary)];
    ConcatAround("\r\n", [FieldPart(boundary, "extract_images", "false")], Close(boundary));
    var one := [FieldPart(boundary, "extract_images", "false")];
    assert one[..|one| - 1] == [];
    assert Concat(one) == FieldPart(boundary, "extract_images", "false");
    assert Concat(ts) == "\r\n" + FieldPart(boundary, "extract_images", "false") + Close(boundary);
    assert Flatten(ProbeParts(boundary)) == Encode(head) + [] + Encode(Concat(ts));
    assert Encode(head) + [] == Encode(head);
    ParseFieldPartOfFieldPart(boundary, "extract_images", "false");
  }

  /** What a successful test says: nothing when `silent`. */
  function Connected(silent: bool): seq<string> {
    if silent then [] else [ConnectedNotice]
  }

  /**
   * `testConnection`: the verdict and the notices, for the back end the
   * settings name; `reply` answers the probe. A datalab probe needs an API
   * key and a 200 whose JSON has `status: 'ok'`; the others need a 200.
   * Only the datalab probe is sent without `throw: false`, so a status of
   * 400 or more rejects there and gets the plain notice of the `.catch`.
   */
  function Connection(s: Settings, reply: Reply, silent: bool): (r: (bool, seq<string>))
    ensures r.0 <==> || (s.apiEndpoint == "datalab" && Filled(s.apiKey) && reply.Reply? && reply.status == 200
                         && reply.json.Some? && Prop(reply.json.value, "status") == Str("ok"))
                     || (s.apiEndpoint in {"selfhosted", "python-api"} && reply.Reply? && reply.status == 200)
    ensures r.0 ==> r.1 == Connected(silent)
    ensures !r.0 ==> |r.1| == 1
    ensures ProbeRequest(s, "").NoRequest? ==> !r.0
    ensures s.apiEndpoint == "datalab" && Filled(s.apiKey) && reply.Reply? && reply.status >= 400 ==>
              r == (false, ["Error connecting to Datalab Marker API"])
  {
    if s.apiEndpoint == "datalab" then
      if !Filled(s.apiKey) then (false, ["Err: Datalab API key not set"])
      else
        match reply
        case Failed => (false, ["Error connecting to Datalab Marker API"])
        case Reply(status, _, json) =>
          if status >= 400 then (false, ["Error connecting to Datalab Marker API"])
          else if status != 200 then (false, ["Error connecting to Datalab Marker API: " + IntToString(status)])
          else if json.Some? && Prop(json.value, "status") == Str("ok") then (true, Connected(silent))
          else (false, ["Error connecting to Datalab Marker API"])
    else if s.apiEndpoint == "selfhosted" then
      match reply
      case Failed => (false, ["Error connecting to Marker API"])
      case Reply(status, _, _) =>
        if status != 200 then (false, ["Error connecting to Marker API: " + IntToString(status)])
        else (true, Connected(silent))
    else if s.apiEndpoint == "python-api" then
      match reply
      case Failed => (false, ["Error connecting to Python API"])
      case Reply(status, _, _) =>
        if status == 200 then (true, Connected(silent))
        else (false, ["Error connecting to Python API: " + IntToString(status)])
    else (false, ["Err: Invalid API endpoint"])
  }

  /** The datalab and Python probes judge a reply as the converter classes' probes do. */
  lemma ConnectionAgreesWithConverters(s: Settings, reply: Reply, silent: bool)
    ensures s.apiEndpoint == "datalab" ==> Connection(s, reply, silent).0 == Datalab.TestConnection(s, reply).0
    ensures s.apiEndpoint == "python-api" ==> Connection(s, reply, silent).0 == PythonApi.TestConnection(reply)
  {
  }

  /** The Python probe posts the request a conversion would, for the path "test". */
  lemma PythonProbeFields(s: Settings, boundary: string)
    requires s.apiEndpoint == "python-api"
    ensures var o := ProbeRequest(s, boundary).json;
            && Prop(o, "filepath") == Str("test")
            && Prop(o, "languages") == Str(if s.langs.Some? then s.langs.value else "en")
            && Prop(o, "force_ocr") == Bool(s.forceOCR == Some(true))
            && Prop(o, "paginate_output") == Bool(s.paginate == Some(true))
  {
    PythonApi.RequestFields(s, "test");
  }

  /**
   * `testConnection`, building the self-hosted probe body part by part and
   * copying it into one buffer. Returns the verdict, the notices, and the
   * request sent.
   */
  method TestConnection(s: Settings, boundary: string, reply: Reply, silent: bool)
    returns (ok: bool, notices: seq<string>, request: Request)
    ensures (ok, notices) == Connection(s, reply, silent)
    ensures request == ProbeRequest(s, boundary)
  {
    request := NoRequest;
    if s.apiEndpoint == "datalab" {
      if Filled(s.apiKey) {
        request := Get(DatalabHealthUrl, s.apiKey.value);
      }
    } else if s.apiEndpoint == "selfhosted" {
      var parts: seq<Part> := [];
      parts := parts + [TextPart(FileHead(boundary, "pdf_file", "test.pdf", "application/pdf"))];
      parts := parts + [BytePart([])];
      parts := parts + [TextPart("\r\n")];
      parts := parts + [TextPart(FieldPart(boundary, "extract_images", "false"))];
      parts := parts + [TextPart(Close(boundary))];
      assert parts == ProbeParts(boundary);
      var body := Combine(parts);
      request := Upload("http://" + s.markerEndpoint + "/convert", boundary, body[..]);
    } else if s.apiEndpoint == "python-api" {
      request := PostJson("http://" + s.pythonEndpoint + "/marker", PythonApi.RequestObject(s, "test"));
    }
    ok, notices := Connection(s, reply, silent).0, Connection(s, reply, silent).1;
  }

  // ---------------------------------------------------------------------
  // handleFolderCreation
  // ---------------------------------------------------------------------

  /** The first index at or after `i` where `sub` occurs in `s`. */
  function FindFrom(s: string, sub: string, i: nat): (r: Option<nat>)
    ensures r.Some? ==> i <= r.value && OccursAt(s, sub, r.value)
    ensures r.Some? ==> forall j | i <= j < r.value :: !OccursAt(s, sub, j)
    ensures r.None? ==> forall j | i <= j :: !OccursAt(s, sub, j)
    decreases |s| + 1 - i
  {
    if i + |sub| > |s| then None
    else if s[i..i + |sub|] == sub then Some(i)
    else FindFrom(s, sub, i + 1)
  }

  /** `s.replace(sub, '')` with a string pattern: only the first occurrence goes. */
  function RemoveFirst(s: string, sub: string): (r: string)
    ensures FindFrom(s, sub, 0).None? ==> r == s
  {
    match FindFrom(s, sub, 0)
    case None => s
    case Some(k) => s[..k] + s[k + |sub|..]
  }

  /**
   * The folder of a file when no conversion folder is made, as written:
   * the file's name removed where it first occurs in its path, and a '/'
   * added when the rest does not end with one.
   */
  function ParentAsWritten(path: string): (r: string)
    ensures EndsWith(r, "/")
  {
    var rest := RemoveFirst(path, BaseName(path));
    if EndsWith(rest, "/") then rest else rest + "/"
  }

  /** The folder that holds the file, with a trailing '/'; "/" at the vault root. */
  function ParentFolder(path: string): (r: string)
    ensures EndsWith(r, "/")
  {
    BeforeLast(path, '/') + "/"
  }

  /** The parent folder and the name make up the path again. */
  lemma ParentFolderHoldsFile(path: string)
    requires '/' in path
    ensures ParentFolder(path) + BaseName(path) == path
  {
    var l := LastIndexOf(path, '/');
    assert path[..l] + "/" + path[l + 1..] == path[..l] + [path[l]] + path[l + 1..];
    assert path[..l] + [path[l]] + path[l + 1..] == path;
  }

  /** The file's name occurs in its path only as the last segment. */
  predicate NameOnlyAtEnd(path: string) {
    forall j | 0 <= j < |path| - |BaseName(path)| :: !OccursAt(path, BaseName(path), j)
  }

  /** Where the name occurs only as the last segment, the two agree. */
  lemma ParentAsWrittenAgrees(path: string)
    requires NameOnlyAtEnd(path)
    ensures ParentAsWritten(path) == ParentFolder(path)
  {
    var name := BaseName(path);
    if '/' in path {
      var l := LastIndexOf(path, '/');
      assert name == path[l + 1..];
      assert OccursAt(path, name, l + 1);
      assert FindFrom(path, name, 0) == Some(l + 1);
      assert path[l + 1 + |name|..] == [];
      var rest := path[..l + 1];
      assert RemoveFirst(path, name) == rest;
      assert rest == path[..l] + "/";
    } else {
      assert name == path;
      assert OccursAt(path, name, 0);
      assert FindFrom(path, name, 0) == Some(0);
      assert RemoveFirst(path, name) == "";
    }
  }

  /** The last segment of `pre + "/" + n`, for `n` free of '/'. */
  lemma LastSegment(pre: string, n: string)
    requires forall i | 0 <= i < |n| :: n[i] != '/'
    ensures BaseName(pre + "/" + n) == n
    ensures BeforeLast(pre + "/" + n, '/') == pre
  {
    var path := pre + "/" + n;
    assert path[|pre|] == '/';
    assert path[|pre| + 1..] == n;
    LastIndexOfUnique(path, '/', |pre|);
    assert path[..|pre|] == pre;
  }

  /** A path that starts with `sub` has its first occurrence at 0. */
  lemma FindAtStart(s: string, sub: string)
    requires StartsWith(s, sub)
    ensures FindFrom(s, sub, 0) == Some(0)
  {
    assert OccursAt(s, sub, 0);
  }

  /**
   * A file whose folder starts with the file's own name, `n + r + "/" + n`
   * (for example "old.pdf-files/old.pdf"), loses the folder's prefix
   * instead: the result is `r + "/" + n + "/"` rather than `n + r + "/"`.
   */
  lemma ParentAsWrittenWrongFolder(n: string, r: string)
    requires n != []
    requires forall i | 0 <= i < |n| :: n[i] != '/'
    ensures var path := n + r + "/" + n;
            && BaseName(path) == n
            && ParentAsWritten(path) == r + "/" + n + "/"
            && ParentFolder(path) == n + r + "/"
            && ParentAsWritten(path) != ParentFolder(path)
  {
    var path := n + r + "/" + n;
    var t := r + "/" + n;
    LastSegment(n + r, n);
    assert path == n + t;
    Halves(n, t);
    FindAtStart(path, n);
    assert RemoveFirst(path, n) == t;
    NoTrailingSlash(t);
    assert |t + "/"| != |n + r + "/"|;
  }

  /** A text whose last character is not '/' does not end with "/". */
  lemma NoTrailingSlash(t: string)
    requires t != [] && t[|t| - 1] != '/'
    ensures !EndsWith(t, "/")
  {
  }

  /** The answer of `handleFolderCreation`: no folder (null), a folder, or a thrown `createFolder`. */
  datatype FolderChoice = NoFolder | InFolder(path: string) | FolderFailed

  /** The folder name derived from the file (`.pdf` dropped, dots made dashes). */
  function FolderName(path: string): (r: string)
    ensures r == "" <==> CalculateFolderPath(path) == ""
  {
    DotsToDashes(AfterLast(ReplacePdf(path, ""), '/'))
  }

  /**
   * `handleFolderCreation`: no folder when the derived name is empty; the
   * file's own folder when no folder is to be made; when the conversion
   * folder exists, the user is asked whether to use it (`answer`); otherwise
   * it is created. Returns the vault, the choice and whether the user was asked.
   */
  function HandleFolderCreationIn(st: Store, s: Settings, path: string, answer: bool): (r: (Store, FolderChoice, bool))
    ensures FolderName(path) == "" ==> r == (st, NoFolder, false)
    ensures !s.createFolder && FolderName(path) != "" ==> r == (st, InFolder(ParentAsWritten(path)), false)
    ensures r.2 <==> s.createFolder && FolderName(path) != "" && st.IsFolder(CalculateFolderPath(path))
    ensures r.2 ==> r.0 == st && r.1 == (if answer then InFolder(CalculateFolderPath(path)) else NoFolder)
    ensures r.1 == FolderFailed <==> s.createFolder && FolderName(path) != "" && st.IsFile(CalculateFolderPath(path))
    ensures r.1 == FolderFailed ==> r.0 == st
    ensures s.createFolder && r.1.InFolder? ==> r.1.path == CalculateFolderPath(path) && r.0.IsFolder(r.1.path)
  {
    if FolderName(path) == "" then (st, NoFolder, false)
    else if !s.createFolder then (st, InFolder(ParentAsWritten(path)), false)
    else
      var folder := CalculateFolderPath(path);
      if st.IsFolder(folder) then (st, if answer then InFolder(folder) else NoFolder, true)
      else
        var (st1, ok) := CreateFolderIn(st, folder);
        (st1, if ok then InFolder(folder) else FolderFailed, false)
  }

  /** Once the folder is there, a second run asks, and with OK gives the same folder and changes nothing. */
  lemma FolderCreationSettles(st: Store, s: Settings, path: string, answer: bool)
    requires s.createFolder
    requires HandleFolderCreationIn(st, s, path, answer).1.InFolder?
    ensures var (st1, choice, _) := HandleFolderCreationIn(st, s, path, answer);
            HandleFolderCreationIn(st1, s, path, true) == (st1, choice, true)
  {
  }

  method HandleFolderCreation(vault: Vault, s: Settings, path: string, answer: bool)
    returns (choice: FolderChoice, asked: bool)
    modifies vault
    ensures (vault.State(), choice, asked) == HandleFolderCreationIn(old(vault.State()), s, path, answer)
  {
    asked := false;
    var folderName := FolderName(path);
    if folderName == "" {
      return NoFolder, false;
    }
    var folderPath := CalculateFolderPath(path);
    var present := vault.IsFolder(folderPath);
    if !s.createFolder {
      return InFolder(ParentAsWritten(path)), false;
    }
    if present {
      asked := true;
      choice := if answer then InFolder(folderPath) else NoFolder;
    } else {
      var ok := vault.CreateFolder(folderPath);
      choice := if ok then InFolder(folderPath) else FolderFailed;
    }
  }

  // ---------------------------------------------------------------------
  // convertPDFContent
  // ---------------------------------------------------------------------

  /**
   * What `convertPDFContent` makes of the server's reply: the JSON, or an
   * error for an empty answer. The request is made without `throw: false`,
   * so `requestUrl` itself rejects a status of 400 or more before the
   * source's own "HTTP error! status" check is reached: that status throws
   * the runtime's error (None), as a failed request or an unreadable body does.
   */
  function ContentOutcome(reply: Reply): (r: MarkerDocker.Attempt)
    ensures reply.Reply? && reply.status >= 400 ==> r == MarkerDocker.Thrown(None)
    ensures r.Thrown? && r.message.Some? <==> reply.Reply? && reply.status < 400 && reply.json.Some?
                                              && (!Truthy(reply.json.value) || MarkerDocker.NoKeys(reply.json.value))
    ensures r.Answer? <==> reply.Reply? && reply.status < 400 && reply.json.Some?
                           && Truthy(reply.json.value) && !MarkerDocker.NoKeys(reply.json.value)
    ensures r.Answer? ==> r.json == reply.json.value
  {
    match reply
    case Failed => MarkerDocker.Thrown(None)
    case Reply(status, _, json) =>
      if status >= 400 then MarkerDocker.Thrown(None)
      else if json.None? then MarkerDocker.Thrown(None)
      else if !Truthy(json.value) || MarkerDocker.NoKeys(json.value) then MarkerDocker.Thrown(Some("No data returned from Marker API"))
      else MarkerDocker.Answer(json.value)
  }

  /** Below 400 the reply is judged as by the self-hosted converter class; only the error text differs. */
  lemma ContentOutcomeAgreesBelow400(reply: Reply)
    requires !(reply.Reply? && reply.status >= 400)
    ensures ContentOutcome(reply) == MarkerDocker.AttemptOutcome(reply)
  {
  }

  /**
   * `convertPDFContent`: the PDF uploaded as `pdf_file`, with no retry.
   * Returns the outcome and the body sent, which is the converter class's
   * first upload byte for byte.
   */
  method ConvertPDFContent(s: Settings, content: seq<byte>, boundary: string, reply: Reply)
    returns (r: MarkerDocker.Attempt, body: seq<byte>)
    ensures body == Flatten(MarkerDocker.MarkerParts(boundary, "pdf_file", content, MarkerDocker.ExtractImages(s)))
    ensures r == ContentOutcome(reply)
  {
    var parts: seq<Part> := [];
    parts := parts + [TextPart(FileHead(boundary, "pdf_file", "document.pdf", "application/pdf"))];
    parts := parts + [BytePart(content)];
    parts := parts + [TextPart("\r\n")];
    parts := parts + [TextPart(FieldPart(boundary, "extract_images", if s.extractContent != "text" then "true" else "false"))];
    parts := parts + [TextPart(Close(boundary))];
    assert parts == MarkerDocker.MarkerParts(boundary, "pdf_file", content, MarkerDocker.ExtractImages(s));
    var buffer := Combine(parts);
    body := buffer[..];
    r := ContentOutcome(reply);
  }

  // ---------------------------------------------------------------------
  // pollForConversionResult
  // ---------------------------------------------------------------------

  /** The retries after the first GET. */
  const PollRetries: nat := 300

  /**
   * The data one GET yields; None when the step throws: the request fails,
   * the body is not JSON, or the data is null or undefined (reading its
   * `detail` or its `status` throws a TypeError).
   */
  function Fetched(reply: Reply): (r: Option<Value>)
    ensures r.Some? ==> !r.value.Nullish()
  {
    if reply.Reply? && reply.json.Some? && !reply.json.value.Nullish() then Some(reply.json.value) else None
  }

  /**
   * Polling from the `i`-th GET with `retries` left: stop at data whose
   * status is 'complete' or when no retry is left, and return that data.
   */
  function PollFrom(replies: seq<Reply>, i: nat, retries: nat): Option<Value>
    requires i + retries < |replies|
    decreases retries
  {
    match Fetched(replies[i])
    case None => None
    case Some(data) => if Completed(data) || retries == 0 then Some(data) else PollFrom(replies, i + 1, retries - 1)
  }

  /** `pollForConversionResult` over the answers to its GETs (None: it throws). */
  function PollResult(replies: seq<Reply>): Option<Value>
    requires PollRetries < |replies|
  {
    PollFrom(replies, 0, PollRetries)
  }

  /**
   * `pollForConversionResult`: the first GET, then one GET per retry while
   * the data is not complete. Returns the data (None when a step throws) and
   * the number of GETs made.
   */
  method PollForConversionResult(replies: seq<Reply>) returns (r: Option<Value>, requests: nat)
    requires |replies| == PollRetries + 1
    ensures r == PollResult(replies)
    ensures 1 <= requests <= PollRetries + 1
    ensures r.Some? && !Completed(r.value) ==> requests == PollRetries + 1
  {
    var reply := replies[0];
    requests := 1;
    if reply.Failed? || reply.json.None? || reply.json.value.Nullish() {
      return None, requests;
    }
    var data := reply.json.value;
    var maxRetries := PollRetries;
    while !Completed(data) && maxRetries > 0
      invariant 0 <= maxRetries <= PollRetries
      invariant requests == PollRetries - maxRetries + 1
      invariant Fetched(replies[requests - 1]) == Some(data)
      invariant PollResult(replies) == PollFrom(replies, requests - 1, maxRetries)
      decreases maxRetries
    {
      maxRetries := maxRetries - 1;
      reply := replies[PollRetries - maxRetries];
      requests := requests + 1;
      if reply.Failed? || reply.json.None? || reply.json.value.Nullish() {
        return None, requests;
      }
      data := reply.json.value;
    }
    r := Some(data);
  }

  /** Data that keeps polling going: readable, not null, not complete. */
  predicate StillRunning(reply: Reply) {
    Fetched(reply).Some? && !Completed(Fetched(reply).value)
  }

  lemma {:induction false} PollFromStops(replies: seq<Reply>, i: nat, retries: nat, k: nat)
    requires i + retries < |replies| && i <= k <= i + retries
    requires forall j | i <= j < k :: StillRunning(replies[j])
    requires k < i + retries ==> !StillRunning(replies[k])
    ensures PollFrom(replies, i, retries) == Fetched(replies[k])
    decreases retries
  {
    if k > i {
      assert StillRunning(replies[i]);
      PollFromStops(replies, i + 1, retries - 1, k);
    }
  }

  /**
   * Polling returns what the k-th GET yields, where k is the first GET whose
   * data is complete, unreadable or null, or the last GET when every earlier
   * one is still running: after 301 GETs the incomplete data is returned as
   * it is, with no error.
   */
  lemma PollStopsAt(replies: seq<Reply>, k: nat)
    requires |replies| == PollRetries + 1 && k <= PollRetries
    requires forall j | 0 <= j < k :: StillRunning(replies[j])
    requires k < PollRetries ==> !StillRunning(replies[k])
    ensures PollResult(replies) == Fetched(replies[k])
  {
    PollFromStops(replies, 0, PollRetries, k);
  }

  /**
   * When the k-th GET (before the last) is the first to find the conversion
   * complete and every earlier one was readable, this poll and the datalab
   * converter class's poll return the same data.
   */
  lemma PollAgreesWithDatalab(replies: seq<Reply>, k: nat)
    requires |replies| == PollRetries + 1 && k < PollRetries
    requires forall j | 0 <= j < k :: StillRunning(replies[j])
    requires Fetched(replies[k]).Some? && Completed(Fetched(replies[k]).value)
    ensures PollResult(replies) == Some(replies[k].json.value)
    ensures Datalab.PollSpec(replies) == Datalab.Complete(replies[k].json.value)
  {
    PollStopsAt(replies, k);
    assert forall j | 0 <= j < k :: Datalab.Pending(replies[j]) by {
      forall j | 0 <= j < k ensures Datalab.Pending(replies[j]) {
        assert StillRunning(replies[j]);
      }
    }
    if k > 0 {
      assert StillRunning(replies[0]);
    }
    Datalab.PollFindsFirstComplete(replies, k);
  }

  // ---------------------------------------------------------------------
  // processConversionResult: the shapes of a result
  // ---------------------------------------------------------------------

  const MalformedNotice := "Error, malformed data returned"
  const ParseFailedNotice := "Error, parsing data failed"

  /**
   * What the opening `if` chain makes of the data: the result to write out,
   * a rejected array of several items, an unrecognised shape, or a TypeError
   * (reading a property of null or undefined).
   */
  datatype Normalised = Normal(data: Value) | Malformed | Unparsed | NormaliseThrew

  /**
   * The opening chain, first match wins: a one-item array with a `result`
   * gives that result; a longer array is rejected; a `result` is unwrapped;
   * a successful answer with a string `output` gets it as `markdown` (and
   * `metadata` copied to `meta` when only `metadata` is set); a one-item
   * array gives its item; anything else is not understood.
   */
  function Normalise(data: Value): (r: Normalised)
    ensures r.Normal? ==> !r.data.Nullish()
    ensures r == Malformed <==> data.Arr? && |data.items| > 1
  {
    if data.Arr? && |data.items| == 1 && data.items[0].Nullish() then NormaliseThrew
    else if data.Arr? && |data.items| == 1 && !Prop(data.items[0], "result").Nullish() then Normal(Prop(data.items[0], "result"))
    else if data.Arr? && |data.items| > 1 then Malformed
    else if data.Nullish() then NormaliseThrew
    else if !Prop(data, "result").Nullish() then Normal(Prop(data, "result"))
    else if Truthy(Prop(data, "success")) && Prop(data, "output").Str? then
      var withMarkdown := Put(data.members, "markdown", Prop(data, "output"));
      if Truthy(Prop(data, "metadata")) && !Truthy(Prop(data, "meta"))
      then Normal(Obj(Put(withMarkdown, "meta", Prop(data, "metadata"))))
      else Normal(Obj(withMarkdown))
    else if data.Arr? && |data.items| == 1 then Normal(data.items[0])
    else Unparsed
  }

  /** The metadata the run writes: `data.meta || data.metadata`. */
  function MetadataOf(d: Value): Value {
    Or(Prop(d, "meta"), Prop(d, "metadata"))
  }

  /**
   * A plain answer with a string `output`: the output becomes the markdown,
   * no other member changes except `meta`, and the copy into `meta` does not
   * change the metadata written.
   */
  lemma NormaliseOutput(data: Value)
    requires data.Obj? && Prop(data, "result").Nullish()
    requires Truthy(Prop(data, "success")) && Prop(data, "output").Str?
    ensures Normalise(data).Normal?
    ensures var d := Normalise(data).data;
            && Prop(d, "markdown") == Prop(data, "output")
            && MetadataOf(d) == MetadataOf(data)
            && forall k | k != "markdown" && k != "meta" :: Prop(d, k) == Prop(data, k)
  {
    var ms := data.members;
    var w := Put(ms, "markdown", Prop(data, "output"));
    LookupPut(ms, "markdown", Prop(data, "output"), "meta");
    LookupPut(ms, "markdown", Prop(data, "output"), "metadata");
    var d := Normalise(data).data;
    if Truthy(Prop(data, "metadata")) && !Truthy(Prop(data, "meta")) {
      LookupPut(w, "meta", Prop(data, "metadata"), "markdown");
      LookupPut(w, "meta", Prop(data, "metadata"), "metadata");
    }
    forall k | k != "markdown" && k != "meta" ensures Prop(d, k) == Prop(data, k) {
      LookupPut(ms, "markdown", Prop(data, "output"), k);
      LookupPut(w, "meta", Prop(data, "metadata"), k);
    }
  }

  /** A one-item array gives the item's `result` when it has one and the item itself otherwise. */
  lemma NormaliseSingleton(x: Value)
    requires !x.Nullish()
    ensures Normalise(Arr([x])) == Normal(if Prop(x, "result").Nullish() then x else Prop(x, "result"))
  {
  }

  /** An object with a `result` gives that result, whatever else it holds. */
  lemma NormaliseResult(data: Value)
    requires data.Obj? && !Prop(data, "result").Nullish()
    ensures Normalise(data) == Normal(Prop(data, "result"))
  {
  }

  // ---------------------------------------------------------------------
  // processConversionResult: the steps
  // ---------------------------------------------------------------------

  const ImagesSavedNotice := "Image files created successfully"

  /**
   * The markdown step: unless the mode is 'images', `markdown` is written,
   * even when it is empty. A value that is not a string makes it throw.
   */
  function MarkdownStep(st: Store, s: Settings, d: Value, folder: string, path: string): (r: (Store, seq<string>, bool))
    ensures s.ImagesOnly() ==> r == (st, [], true)
    ensures !s.ImagesOnly() && !Prop(d, "markdown").Str? ==> r == (st, [], false)
    ensures !s.ImagesOnly() && Prop(d, "markdown").Str? ==>
              var target := folder + MarkdownFileName(path);
              && (r.2 <==> !st.IsFolder(target))
              && (r.2 ==> r.0.entries == st.entries[Key(target) := TextFile(TransformMarkdown(s, BaseName(path), Prop(d, "markdown").s))]
                          && r.1 == ["Markdown file created: " + MarkdownFileName(path)])
              && (!r.2 ==> r.0 == st)
  {
    var md := Prop(d, "markdown");
    if s.ImagesOnly() then (st, [], true)
    else if !md.Str? then (st, [], false)
    else
      var (st1, ok) := MarkdownIn(st, s, md.s, folder, path);
      (st1, if ok then ["Markdown file created: " + MarkdownFileName(path)] else [], ok)
  }

  /** For a non-empty markdown string the step is the converter classes' markdown stage. */
  lemma MarkdownStepAgrees(st: Store, s: Settings, d: Value, folder: string, path: string)
    requires Prop(d, "markdown").Str? && Prop(d, "markdown").s != ""
    ensures MarkdownStep(st, s, d, folder, path) == Converter.MarkdownStage(st, s, d, folder, path)
  {
  }

  /** An empty markdown string is still written here, where the converter classes skip it. */
  lemma EmptyMarkdownWritten(st: Store, s: Settings, d: Value, folder: string, path: string)
    requires Prop(d, "markdown") == Str("") && !s.ImagesOnly()
    requires !st.IsFolder(folder + MarkdownFileName(path))
    ensures MarkdownStep(st, s, d, folder, path).0.IsFile(folder + MarkdownFileName(path))
    ensures Converter.MarkdownStage(st, s, d, folder, path).0 == st
  {
  }

  /**
   * The loop of `createImageFiles` here: an existing file is overwritten, a
   * new one created, and the first save that throws ends the loop.
   */
  function SaveUntilFailure(st: Store, s: Settings, images: seq<Member>, folder: string, path: string): (r: (Store, bool))
    decreases |images|
  {
    if images == [] then (st, true)
    else
      var (st1, ok) := SaveUntilFailure(st, s, images[..|images| - 1], folder, path);
      if !ok then (st1, false)
      else SaveImageIn(st1, ImageTarget(s, folder, path, Last(images).key), Display(Last(images).val))
  }

  /**
   * The loop gets through exactly when no target is a folder, and then it
   * leaves the vault as the converter classes' loop, which catches each failure, does.
   */
  lemma {:induction false} SaveUntilFailureAgrees(st: Store, s: Settings, images: seq<Member>, folder: string, path: string)
    ensures SaveUntilFailure(st, s, images, folder, path).1
        <==> forall j | 0 <= j < |images| :: !st.IsFolder(ImageTarget(s, folder, path, images[j].key))
    ensures SaveUntilFailure(st, s, images, folder, path).1 ==>
              SaveUntilFailure(st, s, images, folder, path).0 == ImagesIn(st, s, images, folder, path).0
    decreases |images|
  {
    if images != [] {
      var init := images[..|images| - 1];
      assert forall j | 0 <= j < |init| :: init[j] == images[j];
      SaveUntilFailureAgrees(st, s, init, folder, path);
      ImagesKeepFolders(st, s, init, folder, path);
      var t := ImageTarget(s, folder, path, Last(images).key);
      var st1 := ImagesIn(st, s, init, folder, path).0;
      assert st1.IsFolder(t) <==> st.IsFolder(t);
    }
  }

  /** The image subfolder is used when it is wanted and there are images. */
  predicate UsesAssetFolder(s: Settings, images: Value) {
    s.createAssetSubfolder && Truthy(images) && |Js.Entries(images).value| > 0
  }

  /**
   * The image step: unless the mode is 'text', "assets/" is created when the
   * subfolder is used and no folder is there, then every image is saved.
   * Images that are null or undefined make `Object.entries` throw.
   */
  function ImagesStep(st: Store, s: Settings, d: Value, folder: string, path: string): (r: (Store, seq<string>, bool))
    ensures s.TextOnly() ==> r == (st, [], true)
    ensures !s.TextOnly() && Prop(d, "images").Nullish() ==> r == (st, [], false)
    ensures !s.TextOnly() && UsesAssetFolder(s, Prop(d, "images")) && st.IsFile(folder + "assets") ==> r == (st, [], false)
    ensures !s.TextOnly() ==> (r.2 <==> r.1 == [ImagesSavedNotice])
  {
    var imgs := Prop(d, "images");
    if s.TextOnly() then (st, [], true)
    else if imgs.Nullish() then (st, [], false)
    else
      var sub := UsesAssetFolder(s, imgs);
      var into := if sub then folder + "assets/" else folder;
      var images := Js.Entries(imgs).value;
      assert Key(folder + "assets/") == folder + "assets" by {
        assert (folder + "assets/")[..|folder| + 6] == folder + "assets";
      }
      var (st1, ok) := if sub && !st.IsFolder(folder + "assets") then CreateFolderIn(st, folder + "assets/") else (st, true);
      if !ok then (st1, [], false)
      else
        var (st2, saved) := SaveUntilFailure(st1, s, images, into, path);
        (st2, if saved then [ImagesSavedNotice] else [], saved)
  }

  /**
   * For images with non-empty names, the image step gets through exactly
   * when "assets" is not a file (where the subfolder is used) and no
   * image's target is a folder.
   */
  lemma ImagesStepOutcome(st: Store, s: Settings, d: Value, folder: string, path: string)
    requires !s.TextOnly() && !Prop(d, "images").Nullish()
    requires forall j | 0 <= j < |Js.Entries(Prop(d, "images")).value| :: Js.Entries(Prop(d, "images")).value[j].key != ""
    ensures var into := if UsesAssetFolder(s, Prop(d, "images")) then folder + "assets/" else folder;
            var images := Js.Entries(Prop(d, "images")).value;
            ImagesStep(st, s, d, folder, path).2
            <==> !(UsesAssetFolder(s, Prop(d, "images")) && st.IsFile(folder + "assets"))
                 && forall j | 0 <= j < |images| :: !st.IsFolder(ImageTarget(s, into, path, images[j].key))
  {
    var imgs := Prop(d, "images");
    var sub := UsesAssetFolder(s, imgs);
    var into := if sub then folder + "assets/" else folder;
    var images := Js.Entries(imgs).value;
    assert Key(folder + "assets/") == folder + "assets" by {
      assert (folder + "assets/")[..|folder| + 6] == folder + "assets";
    }
    if !(sub && st.IsFile(folder + "assets")) {
      var st1 := if sub && !st.IsFolder(folder + "assets") then CreateFolderIn(st, folder + "assets/").0 else st;
      ImagesFolderUnchanged(st, s, images, folder, into, path, sub);
      SaveUntilFailureAgrees(st1, s, images, into, path);
    }
  }

  /** Creating "assets/" makes no target of a named image a folder. */
  lemma ImagesFolderUnchanged(st: Store, s: Settings, images: seq<Member>, folder: string, into: string, path: string, sub: bool)
    requires into == if sub then folder + "assets/" else folder
    requires sub ==> s.createAssetSubfolder
    requires sub && !st.IsFolder(folder + "assets") ==> CreateFolderIn(st, folder + "assets/").1
    requires forall j | 0 <= j < |images| :: images[j].key != ""
    ensures var st1 := if sub && !st.IsFolder(folder + "assets") then CreateFolderIn(st, folder + "assets/").0 else st;
            forall j | 0 <= j < |images| ::
              st1.IsFolder(ImageTarget(s, into, path, images[j].key)) <==> st.IsFolder(ImageTarget(s, into, path, images[j].key))
  {
    if sub && !st.IsFolder(folder + "assets") {
      assert Key(folder + "assets/") == folder + "assets" by {
        assert (folder + "assets/")[..|folder| + 6] == folder + "assets";
      }
      forall j | 0 <= j < |images|
        ensures Key(ImageTarget(s, into, path, images[j].key)) != folder + "assets"
      {
        var name := ImageName(s, path, images[j].key);
        assert |name| > 0;
        var t := ImageTarget(s, into, path, images[j].key);
        assert t == folder + "assets/" + name;
        assert |t| >= |folder| + 8;
      }
    }
  }

  /** The metadata step: `meta || metadata` goes to the frontmatter when `writeMetadata` is set. */
  function MetadataStep(st: Store, s: Settings, d: Value, folder: string, path: string, hostOk: bool): (r: (Store, bool))
    ensures r.0.entries == st.entries
    ensures !s.writeMetadata ==> r == (st, true)
    ensures s.writeMetadata ==> r == AddMetadataIn(st, MetadataOf(d), folder, path, hostOk)
  {
    if s.writeMetadata then AddMetadataIn(st, MetadataOf(d), folder, path, hostOk) else (st, true)
  }

  /** The run after the image step, and after the metadata step. */
  datatype Run = Run(st: Store, notices: seq<string>, threw: bool, current: string)

  /**
   * The move and the deletion: a move that throws ends the run before the
   * deletion; the deletion catches its own failure.
   */
  function FinishIn(st: Store, s: Settings, folder: string, path: string): (r: Run)
    ensures s.movePDFtoFolder && !RenameIn(st, path, folder + BaseName(path)).1 ==> r == Run(st, [], true, path)
    ensures !r.threw ==> r.current == (if s.movePDFtoFolder then folder + BaseName(path) else path)
  {
    var target := folder + BaseName(path);
    var (st1, moved) := if s.movePDFtoFolder then RenameIn(st, path, target) else (st, true);
    if !moved then Run(st, [], true, path)
    else
      var current := if s.movePDFtoFolder then target else path;
      if s.deleteOriginal then
        var (st2, texts) := DeleteOriginalIn(st1, current);
        Run(st2, texts, false, current)
      else Run(st1, [], false, current)
  }

  /** When the move succeeds or is not asked for, this is the converter classes' last stage. */
  lemma FinishAgreesWhenMoved(st: Store, s: Settings, folder: string, path: string)
    requires s.movePDFtoFolder ==> RenameIn(st, path, folder + BaseName(path)).1
    ensures var r := FinishIn(st, s, folder, path);
            var c := Converter.FinishStage(st, s, folder, path);
            !r.threw && r.st == c.0 && r.notices == c.1 && r.current == c.2
  {
  }

  /** With `deleteOriginal`, a run that gets through leaves no file where the original ended up. */
  lemma FinishLeavesNoOriginal(st: Store, s: Settings, folder: string, path: string)
    requires s.deleteOriginal && !FinishIn(st, s, folder, path).threw
    ensures !FinishIn(st, s, folder, path).st.IsFile(FinishIn(st, s, folder, path).current)
  {
  }

  /** `r` with `texts` posted before its notices. */
  function Said(texts: seq<string>, r: Run): Run {
    r.(notices := texts + r.notices)
  }

  /** `processConversionResult` of src/utils.ts. */
  function ProcessIn(st: Store, s: Settings, data: Value, folder: string, path: string, hostOk: bool): (r: Run)
    ensures !Normalise(data).Normal? ==> r.st == st
  {
    match Normalise(data)
    case NormaliseThrew => Run(st, [], true, path)
    case Malformed => Run(st, [MalformedNotice], false, path)
    case Unparsed => Run(st, [ParseFailedNotice], false, path)
    case Normal(d) => Materialise(st, s, d, folder, path, hostOk)
  }

  /** From the markdown step on. */
  function Materialise(st: Store, s: Settings, d: Value, folder: string, path: string, hostOk: bool): Run {
    var (st1, texts, ok) := MarkdownStep(st, s, d, folder, path);
    if !ok then Run(st1, texts, true, path)
    else Said(texts, AfterMarkdown(st1, s, d, folder, path, hostOk))
  }

  /** From the image step on. */
  function AfterMarkdown(st: Store, s: Settings, d: Value, folder: string, path: string, hostOk: bool): Run {
    var (st1, texts, ok) := ImagesStep(st, s, d, folder, path);
    if !ok then Run(st1, texts, true, path)
    else Said(texts, AfterImages(st1, s, d, folder, path, hostOk))
  }

  /** From the metadata step on. */
  function AfterImages(st: Store, s: Settings, d: Value, folder: string, path: string, hostOk: bool): Run {
    var (st1, ok) := MetadataStep(st, s, d, folder, path, hostOk);
    if !ok then Run(st1, [], true, path)
    else FinishIn(st1, s, folder, path)
  }

  /** A result that is not understood posts its notice and leaves the vault alone. */
  lemma UnderstoodOrUntouched(st: Store, s: Settings, data: Value, folder: string, path: string, hostOk: bool)
    requires !Normalise(data).Normal?
    ensures ProcessIn(st, s, data, folder, path, hostOk).st == st
    ensures ProcessIn(st, s, data, folder, path, hostOk).threw <==> Normalise(data) == NormaliseThrew
  {
  }

  /** A move that throws leaves the original where it was, and nothing is trashed. */
  lemma FailedMoveKeepsOriginal(st: Store, s: Settings, d: Value, folder: string, path: string, hostOk: bool)
    requires s.movePDFtoFolder && st.IsFile(path)
    requires MetadataStep(st, s, d, folder, path, hostOk).1
    requires !RenameIn(MetadataStep(st, s, d, folder, path, hostOk).0, path, folder + BaseName(path)).1
    ensures var r := AfterImages(st, s, d, folder, path, hostOk);
            r.threw && r.st.IsFile(path) && r.current == path
  {
  }

  // ---------------------------------------------------------------------
  // processConversionResult on the vault
  // ---------------------------------------------------------------------

  /** `createImageFiles` of src/utils.ts: the images saved one by one until one throws. */
  method SaveImages(vault: Vault, s: Settings, images: seq<Member>, folder: string, path: string) returns (ok: bool)
    modifies vault
    ensures (vault.State(), ok) == SaveUntilFailure(old(vault.State()), s, images, folder, path)
  {
    ok := true;
    var i := 0;
    while i < |images|
      invariant 0 <= i <= |images|
      invariant (vault.State(), true) == SaveUntilFailure(old(vault.State()), s, images[..i], folder, path)
    {
      SaveStep(old(vault.State()), s, images, i, folder, path);
      ok := SaveImage(vault, ImageTarget(s, folder, path, images[i].key), Display(images[i].val));
      if !ok {
        SaveStopsAtFailure(old(vault.State()), s, images, i + 1, folder, path);
        return;
      }
      i := i + 1;
    }
    assert images[..i] == images;
  }

  /** One more image, after a prefix that got through. */
  lemma SaveStep(st: Store, s: Settings, images: seq<Member>, i: nat, folder: string, path: string)
    requires i < |images|
    requires SaveUntilFailure(st, s, images[..i], folder, path).1
    ensures SaveUntilFailure(st, s, images[..i + 1], folder, path)
            == SaveImageIn(SaveUntilFailure(st, s, images[..i], folder, path).0,
                           ImageTarget(s, folder, path, images[i].key), Display(images[i].val))
  {
    assert images[..i + 1][..i] == images[..i];
  }

  /** Once the loop has failed, the images after the failure change nothing. */
  lemma {:induction false} SaveStopsAtFailure(st: Store, s: Settings, images: seq<Member>, k: nat, folder: string, path: string)
    requires k <= |images|
    requires !SaveUntilFailure(st, s, images[..k], folder, path).1
    ensures SaveUntilFailure(st, s, images, folder, path) == SaveUntilFailure(st, s, images[..k], folder, path)
    decreases |images| - k
  {
    if k < |images| {
      var init := images[..|images| - 1];
      assert init[..k] == images[..k];
      SaveStopsAtFailure(st, s, init, k, folder, path);
    } else {
      assert images[..k] == images;
    }
  }

  method WriteImages(vault: Vault, s: Settings, d: Value, folder: string, path: string) returns (texts: seq<string>, ok: bool)
    modifies vault
    ensures (vault.State(), texts, ok) == ImagesStep(old(vault.State()), s, d, folder, path)
  {
    texts, ok := [], true;
    if s.TextOnly() {
      return;
    }
    var imgs := Prop(d, "images");
    if imgs.Nullish() {
      return [], false;
    }
    var images := Js.Entries(imgs).value;
    var imageFolderPath := folder;
    if s.createAssetSubfolder && Truthy(imgs) && |images| > 0 {
      if !vault.IsFolder(folder + "assets") {
        ok := vault.CreateFolder(folder + "assets/");
        if !ok {
          return;
        }
      }
      imageFolderPath := imageFolderPath + "assets/";
    }
    ok := SaveImages(vault, s, images, imageFolderPath, path);
    texts := if ok then [ImagesSavedNotice] else [];
  }

  method Finish(vault: Vault, s: Settings, folder: string, path: string)
    returns (notices: seq<string>, threw: bool, current: string)
    modifies vault
    ensures Run(vault.State(), notices, threw, current) == FinishIn(old(vault.State()), s, folder, path)
  {
    notices, threw, current := [], false, path;
    if s.movePDFtoFolder {
      var newFilePath := folder + BaseName(path);
      var moved := vault.Rename(current, newFilePath);
      if !moved {
        threw := true;
        return;
      }
      current := newFilePath;
    }
    if s.deleteOriginal {
      notices := DeleteOriginalFile(vault, current);
    }
  }

  /**
   * `processConversionResult` of src/utils.ts, step by step on the vault.
   * Returns the notices, whether it threw, and where the original now is.
   */
  method ProcessConversionResult(vault: Vault, s: Settings, data: Value, folder: string, path: string, hostOk: bool)
    returns (notices: seq<string>, threw: bool, current: string)
    modifies vault
    ensures Run(vault.State(), notices, threw, current) == ProcessIn(old(vault.State()), s, data, folder, path, hostOk)
  {
    current := path;
    var normal := Normalise(data);
    if !normal.Normal? {
      notices := if normal == Malformed then [MalformedNotice] else if normal == Unparsed then [ParseFailedNotice] else [];
      threw := normal == NormaliseThrew;
      return;
    }
    var mdTexts, ok := WriteMarkdownFile(vault, s, normal.data, folder, path);
    if !ok {
      notices, threw := mdTexts, true;
      return;
    }
    var rest;
    rest, threw, current := WriteRest(vault, s, normal.data, folder, path, hostOk);
    notices := mdTexts + rest;
  }

  /** The steps after the markdown step. */
  method WriteRest(vault: Vault, s: Settings, d: Value, folder: string, path: string, hostOk: bool)
    returns (notices: seq<string>, threw: bool, current: string)
    modifies vault
    ensures Run(vault.State(), notices, threw, current) == AfterMarkdown(old(vault.State()), s, d, folder, path, hostOk)
  {
    current := path;
    var imageTexts, ok := WriteImages(vault, s, d, folder, path);
    if !ok {
      notices, threw := imageTexts, true;
      return;
    }
    var finishTexts;
    finishTexts, threw, current := WriteAfterImages(vault, s, d, folder, path, hostOk);
    notices := imageTexts + finishTexts;
  }

  /** The steps after the image step. */
  method WriteAfterImages(vault: Vault, s: Settings, d: Value, folder: string, path: string, hostOk: bool)
    returns (notices: seq<string>, threw: bool, current: string)
    modifies vault
    ensures Run(vault.State(), notices, threw, current) == AfterImages(old(vault.State()), s, d, folder, path, hostOk)
  {
    if s.writeMetadata {
      var ok := AddMetadataToMarkdownFile(vault, MetadataOf(d), folder, path, hostOk);
      if !ok {
        return [], true, path;
      }
    }
    notices, threw, current := Finish(vault, s, folder, path);
  }

  method WriteMarkdownFile(vault: Vault, s: Settings, d: Value, folder: string, path: string) returns (texts: seq<string>, ok: bool)
    modifies vault
    ensures (vault.State(), texts, ok) == MarkdownStep(old(vault.State()), s, d, folder, path)
  {
    texts, ok := [], true;
    if s.ImagesOnly() {
      return;
    }
    var md := Prop(d, "markdown");
    if !md.Str? {
      return [], false;
    }
    ok, texts := CreateMarkdownFile(vault, s, md.s, folder, path);
  }

  // ---------------------------------------------------------------------
  // MarkerOkayCancelDialog
  // ---------------------------------------------------------------------

  /** What the user does with an open dialog: a button, or closing it some other way (Escape). */
  datatype Press = OkButton | CancelButton | Dismiss

  /**
   * The values the dialog hands to `onResolve`, as written: the first event
   * decides, a button answers true or false, and a dismissal only marks the
   * dialog resolved, so nothing is ever handed over.
   */
  function ResolutionsAsWritten(events: seq<Press>): (r: seq<bool>)
    ensures |r| <= 1
  {
    if events == [] then []
    else match events[0]
      case OkButton => [true]
      case CancelButton => [false]
      case Dismiss => []
  }

  /**
   * The values handed to `onResolve` as the comment in `onClose` intends:
   * a dismissal answers false.
   */
  function Resolutions(events: seq<Press>): (r: seq<bool>)
    ensures |r| <= 1
  {
    if events == [] then []
    else match events[0]
      case OkButton => [true]
      case CancelButton => [false]
      case Dismiss => [false]
  }

  /** A dialog closed with Escape never answers: the caller's promise stays pending. */
  lemma DismissNeverAnswers(rest: seq<Press>)
    ensures ResolutionsAsWritten([Dismiss] + rest) == []
  {
  }

  /**
   * As intended, every dialog the user has acted on answers exactly once,
   * with true only for OK; the buttons behave as written.
   */
  lemma EveryDialogAnswers(events: seq<Press>)
    requires events != []
    ensures |Resolutions(events)| == 1
    ensures Resolutions(events) == [true] <==> events[0] == OkButton
    ensures events[0] != Dismiss ==> Resolutions(events) == ResolutionsAsWritten(events)
  {
  }

  /** `MarkerOkayCancelDialog`: the buttons resolve once; closing marks it resolved. */
  class OkayCancelDialog {
    var result: Option<bool>
    var resolved: bool
    /** The values passed to `onResolve`, in order. */
    var resolutions: seq<bool>
    ghost var events: seq<Press>

    ghost predicate Valid()
      reads this
    {
      && resolved == (events != [])
      && resolutions == ResolutionsAsWritten(events)
      && result == (if events == [] || events[0] == Dismiss then None else Some(events[0] == OkButton))
    }

    constructor()
      ensures Valid() && events == []
      ensures result == None && !resolved && resolutions == []
    {
      result, resolved, resolutions := None, false, [];
      events := [];
    }

    /** The OK button: resolves with true unless already resolved. */
    method PressOk()
      requires Valid()
      modifies this
      ensures Valid() && events == old(events) + [OkButton]
      ensures old(resolved) ==> result == old(result) && resolutions == old(resolutions)
      ensures !old(resolved) ==> result == Some(true) && resolutions == [true]
    {
      if !resolved {
        resolved := true;
        result := Some(true);
        resolutions := resolutions + [true];
      }
      events := events + [OkButton];
    }

    /** The Cancel button: resolves with false unless already resolved. */
    method PressCancel()
      requires Valid()
      modifies this
      ensures Valid() && events == old(events) + [CancelButton]
      ensures old(resolved) ==> result == old(result) && resolutions == old(resolutions)
      ensures !old(resolved) ==> result == Some(false) && resolutions == [false]
    {
      if !resolved {
        resolved := true;
        result := Some(false);
        resolutions := resolutions + [false];
      }
      events := events + [CancelButton];
    }

    /** `onClose` after Escape: marks the dialog resolved and hands nothing to `onResolve`. */
    method Close()
      requires Valid()
      modifies this
      ensures Valid() && events == old(events) + [Dismiss]
      ensures resolved && result == old(result) && resolutions == old(resolutions)
    {
      if !resolved {
        resolved := true;
      }
      events := events + [Dismiss];
    }
  }
}