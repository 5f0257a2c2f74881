/**
 * `DatalabConverter` (src/converters/datalabConverter.ts): the gates before
 * a conversion, the multipart request, the submission, the polling loop and
 * the mapping of the final answer into a conversion result.
 */
module Datalab {
  import opened Wrappers
  import opened Text
  import opened Js
  import opened Settings
  import opened Host
  import opened Multipart
  import opened Http
  import opened FileUtils
  import opened Converter

  // ---------------------------------------------------------------------
  // testConnection and the gates of convert
  // ---------------------------------------------------------------------

  /**
   * `testConnection`: no request without an API key; otherwise true exactly
   * when /user_health answers 200 with `status: 'ok'`. Returns the verdict
   * and whether a request was made.
   */
  function TestConnection(s: Settings, reply: Reply): (r: (bool, bool))
    ensures !Filled(s.apiKey) ==> r == (false, false)
    ensures Filled(s.apiKey) ==> r.1
    ensures r.0 <==> Filled(s.apiKey) && reply.Reply? && reply.status == 200 && reply.json.Some?
                     && Prop(reply.json.value, "status") == Str("ok")
  {
    if !Filled(s.apiKey) then (false, false)
    else
      match reply
      case Failed => (false, true)
      case Reply(status, _, json) =>
        if status != 200 || json.None? then (false, true)
        else (Prop(json.value, "status") == Str("ok"), true)
  }

  /** The gates of `convert`: the folder and overwrite gates, then the API key. */
  function ConvertGate(s: Settings, path: string, connected: bool, hasFiles: bool, answer: bool): (r: Gate)
    ensures PreparedFolder(s, path, connected).None? ==> r == Stop(false)
    ensures r == Stop(true) <==> PreparedFolder(s, path, connected).Some? && WritesImages(s) && hasFiles && !answer
    ensures r.Proceed? <==> PreparedFolder(s, path, connected).Some? && !(WritesImages(s) && hasFiles && !answer)
                            && Filled(s.apiKey)
    ensures r.Proceed? ==> r.folder == CalculateFolderPath(path)
  {
    var g := OverwriteGate(s, path, connected, hasFiles, answer);
    if g.Proceed? && !Filled(s.apiKey) then Stop(false) else g
  }

  // ---------------------------------------------------------------------
  // The form fields
  // ---------------------------------------------------------------------

  /** A form field; a null or undefined value is not sent. */
  datatype FormField = FormField(name: string, value: Value)

  /** The fields every request carries, in order. */
  function BaseFields(s: Settings): seq<FormField> {
    [ FormField("langs", Str(s.langs.GetOr("en"))),
      FormField("force_ocr", Bool(s.forceOCR == Some(true))),
      FormField("paginate", Bool(s.paginate == Some(true))),
      FormField("disable_image_extraction", Bool(s.TextOnly())),
      FormField("output_format", Str("markdown")) ]
  }

  /** An optional field: present when its value is. */
  function Optional(name: string, value: Option<Value>): seq<FormField> {
    if value.Some? then [FormField(name, value.value)] else []
  }

  /** `max_pages` only when `maxPages` is truthy (set and not 0). */
  function MaxPagesValue(s: Settings): Option<Value> {
    if s.maxPages.Some? && s.maxPages.value != 0 then Some(Num(s.maxPages.value)) else None
  }

  /** A boolean setting compared `!== undefined`. */
  function Defined(b: Option<bool>): Option<Value> {
    if b.Some? then Some(Bool(b.value)) else None
  }

  /** The optional fields, in the order they are pushed. */
  function OptionalFields(s: Settings): seq<FormField> {
    Optional("max_pages", MaxPagesValue(s))
    + Optional("strip_existing_ocr", Defined(s.stripExistingOCR))
    + Optional("use_llm", Defined(s.useLLM))
    + Optional("skip_cache", Defined(s.skipCache))
  }

  /** `if (<set>) fields.push({ name, value })`. */
  method PushIfSet(fields: seq<FormField>, name: string, value: Option<Value>) returns (r: seq<FormField>)
    ensures r == fields + Optional(name, value)
  {
    r := fields;
    if value.Some? {
      r := r + [FormField(name, value.value)];
    }
  }

  /** `createMultipartFormData`'s field list: the base fields, then the optional ones that are set. */
  method CreateFields(s: Settings) returns (fields: seq<FormField>)
    ensures fields == BaseFields(s) + OptionalFields(s)
  {
    fields := [ FormField("langs", Str(if s.langs.Some? then s.langs.value else "en")),
                FormField("force_ocr", Bool(s.forceOCR == Some(true))),
                FormField("paginate", Bool(s.paginate == Some(true))),
                FormField("disable_image_extraction", Bool(s.extractContent == "text")),
                FormField("output_format", Str("markdown")) ];
    assert fields == BaseFields(s);
    fields := PushIfSet(fields, "max_pages", MaxPagesValue(s));
    fields := PushIfSet(fields, "strip_existing_ocr", Defined(s.stripExistingOCR));
    fields := PushIfSet(fields, "use_llm", Defined(s.useLLM));
    fields := PushIfSet(fields, "skip_cache", Defined(s.skipCache));
  }

  function Names(fields: seq<FormField>): (r: seq<string>)
    ensures |r| == |fields| && forall i | 0 <= i < |fields| :: r[i] == fields[i].name
  {
    seq(|fields|, i requires 0 <= i < |fields| => fields[i].name)
  }

  function NamesOf(name: string, value: Option<Value>): seq<string> {
    if value.Some? then [name] else []
  }

  lemma NamesAppend(a: seq<FormField>, b: seq<FormField>)
    ensures Names(a + b) == Names(a) + Names(b)
  {
  }

  lemma NamesOptional(name: string, value: Option<Value>)
    ensures Names(Optional(name, value)) == NamesOf(name, value)
  {
  }

  const BaseNames: seq<string> := ["langs", "force_ocr", "paginate", "disable_image_extraction", "output_format"]

  /**
   * The field names: always the five base fields first, then each optional
   * field exactly when its setting is present, in a fixed order.
   */
  lemma FieldOrder(s: Settings)
    ensures Names(BaseFields(s) + OptionalFields(s))
            == BaseNames
               + NamesOf("max_pages", MaxPagesValue(s))
               + NamesOf("strip_existing_ocr", Defined(s.stripExistingOCR))
               + NamesOf("use_llm", Defined(s.useLLM))
               + NamesOf("skip_cache", Defined(s.skipCache))
  {
    var a := Optional("max_pages", MaxPagesValue(s));
    var b := Optional("strip_existing_ocr", Defined(s.stripExistingOCR));
    var c := Optional("use_llm", Defined(s.useLLM));
    var d := Optional("skip_cache", Defined(s.skipCache));
    var base := BaseFields(s);
    NamesAppend(base, a + b + c + d);
    NamesAppend(a + b + c, d);
    NamesAppend(a + b, c);
    NamesAppend(a, b);
    assert Names(base) == BaseNames;
    NamesOptional("max_pages", MaxPagesValue(s));
    NamesOptional("strip_existing_ocr", Defined(s.stripExistingOCR));
    NamesOptional("use_llm", Defined(s.useLLM));
    NamesOptional("skip_cache", Defined(s.skipCache));
  }

  /** Membership in a concatenation of five sequences. */
  lemma InFive<T>(x: T, a: seq<T>, b: seq<T>, c: seq<T>, d: seq<T>, e: seq<T>)
    ensures x in a + b + c + d + e <==> x in a || x in b || x in c || x in d || x in e
  {
  }

  /** `max_pages` is sent exactly when `maxPages` is truthy, the other optional fields when defined. */
  lemma OptionalFieldPresence(s: Settings)
    ensures var ns := Names(BaseFields(s) + OptionalFields(s));
            && ("max_pages" in ns <==> s.maxPages.Some? && s.maxPages.value != 0)
            && ("strip_existing_ocr" in ns <==> s.stripExistingOCR.Some?)
            && ("use_llm" in ns <==> s.useLLM.Some?)
            && ("skip_cache" in ns <==> s.skipCache.Some?)
  {
    FieldOrder(s);
    var a := NamesOf("max_pages", MaxPagesValue(s));
    var b := NamesOf("strip_existing_ocr", Defined(s.stripExistingOCR));
    var c := NamesOf("use_llm", Defined(s.useLLM));
    var d := NamesOf("skip_cache", Defined(s.skipCache));
    InFive("max_pages", BaseNames, a, b, c, d);
    InFive("strip_existing_ocr", BaseNames, a, b, c, d);
    InFive("use_llm", BaseNames, a, b, c, d);
    InFive("skip_cache", BaseNames, a, b, c, d);
  }

  /** The value a field part carries: `${field.value}`. */
  function FieldText(f: FormField): string {
    Display(f.value)
  }

  /** `disable_image_extraction` is "true" exactly in 'text' mode. */
  lemma ImageExtractionField(s: Settings)
    ensures BaseFields(s)[3].name == "disable_image_extraction"
    ensures FieldText(BaseFields(s)[3]) == (if s.TextOnly() then "true" else "false")
  {
  }

  // ---------------------------------------------------------------------
  // The request body
  // ---------------------------------------------------------------------

  const PdfType := "application/pdf"
  const WordType := "application/vnd.openxmlformats-officedocument.wordprocessingml.document"
  const PresentationType := "application/vnd.openxmlformats-officedocument.presentationml.presentation"
  const JpegType := "image/jpeg"
  const PngType := "image/png"
  const WebpType := "image/webp"
  const GenericType := "application/octet-stream"

  /** `getContentTypeForFile`: the MIME type for a file extension. */
  function ContentType(ext: string): string {
    if ext == "pdf" then PdfType
    else if ext == "docx" || ext == "doc" then WordType
    else if ext == "pptx" || ext == "ppt" then PresentationType
    else if ext == "jpg" || ext == "jpeg" then JpegType
    else if ext == "png" then PngType
    else if ext == "webp" then WebpType
    else GenericType
  }

  /** The extensions the table names. */
  predicate KnownExtension(ext: string) {
    ext == "pdf" || ext == "docx" || ext == "doc" || ext == "pptx" || ext == "ppt"
    || ext == "jpg" || ext == "jpeg" || ext == "png" || ext == "webp"
  }

  /** The specific types are told apart by their lengths. */
  lemma TypeLengths()
    ensures |PdfType| == 15 && |WordType| == 71 && |PresentationType| == 73
    ensures |JpegType| == 10 && |PngType| == 9 && |WebpType| == 10 && |GenericType| == 24
  {
  }

  /** Every extension outside the known ones, and only those, gets the generic type. */
  lemma ContentTypeGeneric(ext: string)
    ensures ContentType(ext) == GenericType <==> !KnownExtension(ext)
  {
    TypeLengths();
  }

  /** Word and PowerPoint documents share one type per family, whatever their generation. */
  lemma ContentTypeFamilies()
    ensures ContentType("doc") == ContentType("docx") != ContentType("pptx") == ContentType("ppt")
    ensures ContentType("jpg") == ContentType("jpeg") == "image/jpeg"
  {
    TypeLengths();
  }

  /** The text parts of the fields that are sent (null and undefined values are skipped). */
  function FieldTexts(boundary: string, fields: seq<FormField>): seq<string> {
    if |fields| == 0 then []
    else
      var f := Last(fields);
      FieldTexts(boundary, fields[..|fields| - 1])
      + (if f.value.Nullish() then [] else [FieldPart(boundary, f.name, FieldText(f))])
  }

  /** `buildMultipartRequest`'s parts: file head, file bytes, CRLF, the fields, the close delimiter. */
  function RequestParts(boundary: string, name: string, ext: string, content: seq<byte>, fields: seq<FormField>): seq<Part> {
    [TextPart(FileHead(boundary, "file", name, ContentType(ext))), BytePart(content), TextPart("\r\n")]
    + Texts(FieldTexts(boundary, fields))
    + [TextPart(Close(boundary))]
  }

  /** The pushes of `buildMultipartRequest`. */
  method BuildParts(boundary: string, name: string, ext: string, content: seq<byte>, fields: seq<FormField>)
    returns (parts: seq<Part>)
    ensures parts == RequestParts(boundary, name, ext, content, fields)
  {
    var head := [TextPart(FileHead(boundary, "file", name, ContentType(ext))), BytePart(content), TextPart("\r\n")];
    parts := head;
    for i := 0 to |fields|
      invariant parts == head + Texts(FieldTexts(boundary, fields[..i]))
    {
      var f := fields[i];
      assert fields[..i + 1][..i] == fields[..i];
      if !(f.value.Null? || f.value.Undefined?) {
        parts := parts + [TextPart(FieldPart(boundary, f.name, Display(f.value)))];
      }
    }
    assert fields[..|fields|] == fields;
    parts := parts + [TextPart(Close(boundary))];
  }

  /** `buildMultipartRequest` with `combinePartsToArrayBuffer`. */
  method BuildMultipartRequest(boundary: string, name: string, ext: string, content: seq<byte>, fields: seq<FormField>)
    returns (body: array<byte>)
    ensures fresh(body)
    ensures body[..] == Flatten(RequestParts(boundary, name, ext, content, fields))
  {
    var parts := BuildParts(boundary, name, ext, content, fields);
    body := Combine(parts);
  }

  /**
   * The body's layout: the file part's header, the file's bytes right after
   * it, then CRLF, the field parts and the close delimiter as text.
   */
  lemma RequestLayout(boundary: string, name: string, ext: string, content: seq<byte>, fields: seq<FormField>)
    ensures Flatten(RequestParts(boundary, name, ext, content, fields))
            == Encode(FileHead(boundary, "file", name, ContentType(ext))) + content
               + Encode("\r\n" + Concat(FieldTexts(boundary, fields)) + Close(boundary))
  {
    var fs := FieldTexts(boundary, fields);
    var ts := ["\r\n"] + fs + [Close(boundary)];
    TextsAppend(["\r\n"] + fs, [Close(boundary)]);
    TextsAppend(["\r\n"], fs);
    assert Texts(ts) == [TextPart("\r\n")] + Texts(fs) + [TextPart(Close(boundary))];
    var head := [TextPart(FileHead(boundary, "file", name, ContentType(ext))), BytePart(content)];
    assert RequestParts(boundary, name, ext, content, fields) == head + Texts(ts);
    FileBodyLayout(FileHead(boundary, "file", name, ContentType(ext)), content, ts);
    ConcatAround("\r\n", FieldTexts(boundary, fields), Close(boundary));
  }

  /** None of the fields `createMultipartFormData` builds is dropped: each becomes one part, in order. */
  lemma {:induction false} AllFieldsSent(boundary: string, fields: seq<FormField>)
    requires forall i | 0 <= i < |fields| :: !fields[i].value.Nullish()
    ensures FieldTexts(boundary, fields) == seq(|fields|, i requires 0 <= i < |fields| => FieldPart(boundary, fields[i].name, FieldText(fields[i])))
    decreases |fields|
  {
    if |fields| > 0 {
      AllFieldsSent(boundary, fields[..|fields| - 1]);
    }
  }

  lemma BuiltFieldsAreSet(s: Settings)
    ensures forall i | 0 <= i < |BaseFields(s) + OptionalFields(s)| :: !(BaseFields(s) + OptionalFields(s))[i].value.Nullish()
  {
  }

  // ---------------------------------------------------------------------
  // Submission and the final answer
  // ---------------------------------------------------------------------

  /**
   * `submitConversionRequest`'s answer: the check URL on a 200 reply that
   * carries a truthy `request_check_url`, None otherwise (a failed request,
   * a body that is not JSON, null JSON, another status).
   */
  function SubmitOutcome(reply: Reply): (r: Option<string>)
    ensures r.Some? <==> reply.Reply? && reply.status == 200 && reply.json.Some?
                         && Truthy(Prop(reply.json.value, "request_check_url"))
  {
    match reply
    case Failed => None
    case Reply(status, _, json) =>
      if status != 200 || json.None? then None
      else
        var url := Prop(json.value, "request_check_url");
        if Truthy(url) then Some(Display(url)) else None
  }

  /** The notice for a reply other than 200: the API's `error`, or the status. */
  function RejectionNotice(status: int, data: Value): string
    requires !data.Nullish()
  {
    "Datalab conversion failed: " + Display(Or(Prop(data, "error"), Str("HTTP " + IntToString(status))))
  }

  /** With no `error` in the answer, the notice names the HTTP status. */
  lemma RejectionNamesStatus(status: int, data: Value)
    requires !data.Nullish() && !Truthy(Prop(data, "error"))
    ensures RejectionNotice(status, data) == "Datalab conversion failed: HTTP " + IntToString(status)
  {
  }

  /**
   * `handleConversionResponse`'s conversion result: `success` is whether the
   * status is 'complete'; on success the missing fields default to '', {}, {}.
   */
  function FinalResult(api: Value): (r: Value)
    ensures r.Obj?
  {
    var complete := Completed(api);
    var error := Or(Prop(api, "error"), if complete then Undefined else Str("Conversion failed or timed out"));
    var base := [Member("success", Bool(complete)), Member("error", error)];
    if complete then
      Obj(base + [ Member("markdown", Or(Prop(api, "markdown"), Str(""))),
                   Member("images", Or(Prop(api, "images"), Obj([]))),
                   Member("metadata", Or(Prop(api, "metadata"), Obj([]))) ])
    else Obj(base)
  }

  /** The result's fields as the materialiser reads them. */
  lemma FinalResultFields(api: Value)
    ensures Prop(FinalResult(api), "success") == Bool(Completed(api))
    ensures !Completed(api) ==> Truthy(Prop(FinalResult(api), "error"))
    ensures Completed(api) ==>
              && Prop(FinalResult(api), "markdown") == Or(Prop(api, "markdown"), Str(""))
              && Prop(FinalResult(api), "images") == Or(Prop(api, "images"), Obj([]))
              && Prop(FinalResult(api), "metadata") == Or(Prop(api, "metadata"), Obj([]))
  {
    var ms := FinalResult(api).members;
    LookupFirst(ms, "success", 0);
    LookupFirst(ms, "error", 1);
    if Completed(api) {
      LookupFirst(ms, "markdown", 2);
      LookupFirst(ms, "images", 3);
      LookupFirst(ms, "metadata", 4);
    }
  }

  // ---------------------------------------------------------------------
  // pollForConversionResult
  // ---------------------------------------------------------------------

  /** The retry budget after the first GET. */
  const MaxRetries: nat := 300

  /** Why polling threw. */
  datatype PollFailure = RequestError | InvalidFormat | StatusOfNothing | TimedOut

  datatype PollResult = Complete(data: Value) | PollError(failure: PollFailure)

  /**
   * The data after one retry: a reply whose JSON was read replaces it, even
   * when it reports an error; a failed request or an unreadable body leaves it.
   */
  function Next(reply: Reply, data: Value): Value {
    if reply.Reply? && reply.json.Some? then reply.json.value else data
  }

  /**
   * The loop from the test of its condition with `retries` left; `replies[k]`
   * answers the k-th GET (0 is the one before the loop). Reading `status` of
   * null or undefined throws; the loop ends at 'complete' or an empty budget,
   * and an empty budget throws the timeout.
   */
  function Loop(replies: seq<Reply>, data: Value, retries: nat): PollResult
    requires retries <= MaxRetries < |replies|
    decreases retries
  {
    if data.Nullish() then PollError(StatusOfNothing)
    else if Completed(data) && retries > 0 then Complete(data)
    else if retries == 0 then PollError(TimedOut)
    else Loop(replies, Next(replies[MaxRetries - retries + 1], data), retries - 1)
  }

  /** `pollForConversionResult` over the replies to its GETs. */
  function PollSpec(replies: seq<Reply>): (r: PollResult)
    requires MaxRetries < |replies|
    ensures replies[0].Reply? && replies[0].json.Some? && Completed(replies[0].json.value)
            ==> r == Complete(replies[0].json.value)
  {
    match replies[0]
    case Failed => PollError(RequestError)
    case Reply(_, _, json) => if json.None? then PollError(InvalidFormat) else Loop(replies, json.value, MaxRetries)
  }

  /** `pollForConversionResult`: the first GET, then up to `MaxRetries` more. */
  method Poll(replies: seq<Reply>) returns (r: PollResult)
    requires |replies| == MaxRetries + 1
    ensures r == PollSpec(replies)
  {
    if replies[0].Failed? {
      return PollError(RequestError);
    }
    if replies[0].json.None? {
      return PollError(InvalidFormat);
    }
    var data := replies[0].json.value;
    var maxRetries := MaxRetries;
    while !data.Nullish() && !Completed(data) && maxRetries > 0
      invariant 0 <= maxRetries <= MaxRetries
      invariant PollSpec(replies) == Loop(replies, data, maxRetries)
      decreases maxRetries
    {
      maxRetries := maxRetries - 1;
      var reply := replies[MaxRetries - maxRetries];
      if reply.Reply? && reply.json.Some? {
        data := reply.json.value;
      }
    }
    if data.Nullish() {
      return PollError(StatusOfNothing);
    }
    if maxRetries <= 0 {
      return PollError(TimedOut);
    }
    r := Complete(data);
  }

  /** A returned response is always complete. */
  lemma {:induction false} LoopComplete(replies: seq<Reply>, data: Value, retries: nat)
    requires retries <= MaxRetries < |replies|
    ensures Loop(replies, data, retries).Complete? ==> Completed(Loop(replies, data, retries).data)
    decreases retries
  {
    if !data.Nullish() && !(Completed(data) && retries > 0) && retries > 0 {
      LoopComplete(replies, Next(replies[MaxRetries - retries + 1], data), retries - 1);
    }
  }

  lemma PollComplete(replies: seq<Reply>)
    requires MaxRetries < |replies|
    ensures PollSpec(replies).Complete? ==> Completed(PollSpec(replies).data)
  {
    if replies[0].Reply? && replies[0].json.Some? {
      LoopComplete(replies, replies[0].json.value, MaxRetries);
    }
  }

  /** A reply that lets polling go on: a failure, an unreadable body, or an answer still pending. */
  predicate Pending(reply: Reply) {
    reply.Failed? || reply.json.None? || (!reply.json.value.Nullish() && !Completed(reply.json.value))
  }

  lemma {:induction false} LoopTimesOut(replies: seq<Reply>, data: Value, retries: nat)
    requires retries <= MaxRetries < |replies|
    requires !data.Nullish() && !Completed(data)
    requires forall k | MaxRetries - retries < k < MaxRetries :: Pending(replies[k])
    requires !Next(replies[MaxRetries], data).Nullish()
    ensures Loop(replies, data, retries) == PollError(TimedOut)
    decreases retries
  {
    if retries > 1 {
      LoopTimesOut(replies, Next(replies[MaxRetries - retries + 1], data), retries - 1);
    } else if retries == 1 {
      var last := Next(replies[MaxRetries], data);
      assert Loop(replies, data, 1) == Loop(replies, last, 0);
    }
  }

  /**
   * The budget runs out when none of the first GET and the 299 retries after
   * it finds the conversion complete, and then polling throws the timeout,
   * even when the 300th retry finds it complete. Errors on the way (failed
   * requests, unreadable bodies, reported errors) only use up retries.
   */
  lemma PollTimesOut(replies: seq<Reply>)
    requires |replies| == MaxRetries + 1
    requires replies[0].Reply? && replies[0].json.Some? && Pending(replies[0])
    requires forall k | 0 < k < MaxRetries :: Pending(replies[k])
    requires !(replies[MaxRetries].Reply? && replies[MaxRetries].json.Some? && replies[MaxRetries].json.value.Nullish())
    ensures PollSpec(replies) == PollError(TimedOut)
  {
    var d0 := replies[0].json.value;
    PendingKeepsData(replies, d0);
    LoopTimesOut(replies, d0, MaxRetries);
  }

  /**
   * At every retry, a request that throws or a body that cannot be read
   * keeps the data already held, and polling goes on; a body that is read
   * replaces it. So when the data held is an answer and the last reply is
   * not a null or undefined body, the last retry does not read from nothing.
   */
  lemma PendingKeepsData(replies: seq<Reply>, data: Value)
    requires MaxRetries < |replies|
    ensures forall k | 0 < k <= MaxRetries ::
              !(replies[k].Reply? && replies[k].json.Some?) ==> Next(replies[k], data) == data
    ensures forall k | 0 < k <= MaxRetries ::
              replies[k].Reply? && replies[k].json.Some? ==> Next(replies[k], data) == replies[k].json.value
    ensures !data.Nullish()
            && !(replies[MaxRetries].Reply? && replies[MaxRetries].json.Some? && replies[MaxRetries].json.value.Nullish())
            ==> !Next(replies[MaxRetries], data).Nullish()
  {
  }

  lemma {:induction false} LoopFinds(replies: seq<Reply>, data: Value, retries: nat, k: nat)
    requires retries <= MaxRetries < |replies|
    requires !data.Nullish() && 0 < retries
    requires MaxRetries - retries <= k < MaxRetries
    requires forall j | MaxRetries - retries < j < k :: Pending(replies[j])
    requires k == MaxRetries - retries ==> Completed(data)
    requires k > MaxRetries - retries ==>
               !Completed(data) && replies[k].Reply? && replies[k].json.Some? && Completed(replies[k].json.value)
    ensures Loop(replies, data, retries) == Complete(if k == MaxRetries - retries then data else replies[k].json.value)
    decreases retries
  {
    if k > MaxRetries - retries {
      var next := Next(replies[MaxRetries - retries + 1], data);
      assert !next.Nullish() by {
        if MaxRetries - retries + 1 < k {
          assert Pending(replies[MaxRetries - retries + 1]);
        }
      }
      if MaxRetries - retries + 1 < k {
        assert Pending(replies[MaxRetries - retries + 1]);
        LoopFinds(replies, next, retries - 1, k);
      } else {
        assert next == replies[k].json.value;
      }
    }
  }

  /**
   * When the k-th GET (k below the budget) is the first to find the
   * conversion complete, polling returns that answer.
   */
  lemma PollFindsFirstComplete(replies: seq<Reply>, k: nat)
    requires |replies| == MaxRetries + 1 && k < MaxRetries
    requires replies[0].Reply? && replies[0].json.Some? && !replies[0].json.value.Nullish()
    requires forall j | 0 <= j < k :: Pending(replies[j])
    requires replies[k].Reply? && replies[k].json.Some? && Completed(replies[k].json.value)
    ensures PollSpec(replies) == Complete(replies[k].json.value)
  {
    var d0 := replies[0].json.value;
    if k > 0 {
      assert Pending(replies[0]);
    }
    LoopFinds(replies, d0, MaxRetries, k);
  }

  // ---------------------------------------------------------------------
  // convert
  // ---------------------------------------------------------------------

  /**
   * `convert`, from the gates to the materialisation. `probe` answers the
   * connection test, `answer` the overwrite prompt, `content` is the file
   * read (None when reading throws), `submitted` answers the upload and
   * `polls` the status checks. Returns the verdict and the body sent, if any.
   */
  method Convert(vault: Vault, s: Settings, path: string, probe: Reply, answer: bool,
                 content: Option<seq<byte>>, boundary: string, submitted: Reply, polls: seq<Reply>, hostOk: bool)
    returns (ok: bool, sent: Option<seq<byte>>)
    requires |polls| == MaxRetries + 1
    modifies vault
    ensures var gate := ConvertGate(s, path, TestConnection(s, probe).0,
                                    HasFilesUnder(old(vault.State()), CalculateFolderPath(path)), answer);
            && (gate.Stop? ==> ok == gate.result && sent.None? && vault.State() == old(vault.State()))
            && (sent.Some? <==> gate.Proceed? && content.Some?)
            && (sent.Some? ==> sent.value == Flatten(RequestParts(boundary, BaseName(path), Extension(path), content.value,
                                                                  BaseFields(s) + OptionalFields(s))))
            && (gate.Proceed? ==>
                  && (ok <==> content.Some? && SubmitOutcome(submitted).Some? && PollSpec(polls).Complete?)
                  && (ok ==> vault.State() == ProcessIn(old(vault.State()), s, FinalResult(PollSpec(polls).data),
                                                         gate.folder, path, hostOk).st)
                  && (!ok ==> vault.State() == old(vault.State())))
  {
    sent := None;
    var connected := TestConnection(s, probe).0;
    var folder := PreparedFolder(s, path, connected);
    if folder.None? {
      return false, None;
    }
    if s.extractContent == "images" || s.extractContent == "all" {
      var proceed, _ := CheckForExistingFiles(vault, folder.value, answer);
      if !proceed {
        return true, None;
      }
    }
    if !Filled(s.apiKey) {
      return false, None;
    }
    ok, sent := Upload(vault, s, path, folder.value, content, boundary, submitted, polls, hostOk);
  }

  /**
   * `convert` past its gates: the file is read, the request built and
   * submitted, the status polled and the final answer materialised.
   */
  method Upload(vault: Vault, s: Settings, path: string, folder: string, content: Option<seq<byte>>,
                boundary: string, submitted: Reply, polls: seq<Reply>, hostOk: bool)
    returns (ok: bool, sent: Option<seq<byte>>)
    requires |polls| == MaxRetries + 1
    modifies vault
    ensures sent.Some? <==> content.Some?
    ensures sent.Some? ==> sent.value == Flatten(RequestParts(boundary, BaseName(path), Extension(path), content.value,
                                                              BaseFields(s) + OptionalFields(s)))
    ensures ok <==> content.Some? && SubmitOutcome(submitted).Some? && PollSpec(polls).Complete?
    ensures ok ==> vault.State() == ProcessIn(old(vault.State()), s, FinalResult(PollSpec(polls).data), folder, path, hostOk).st
    ensures !ok ==> vault.State() == old(vault.State())
  {
    if content.None? {
      return false, None;
    }
    var fields := CreateFields(s);
    var body := BuildMultipartRequest(boundary, BaseName(path), Extension(path), content.value, fields);
    sent := Some(body[..]);
    var url := SubmitOutcome(submitted);
    if url.None? {
      return false, sent;
    }
    var polled := Poll(polls);
    if polled.PollError? {
      return false, sent;
    }
    var result := FinalResult(polled.data);
    var _, _, _ := ProcessConversionResult(vault, s, result, folder, path, hostOk);
    ok := true;
  }
}
