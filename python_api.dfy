/**
 * `PythonAPIConverter` (src/converters/markerPythonApi.ts): the Marker
 * Python server is handed the file's path in a JSON request, and its answer
 * is mapped into a conversion result. After the shared materialisation the
 * converter moves and deletes the original once more on its own.
 *
 * The request itself is not modelled: its reply is an input. The file's
 * absolute path (`getFullPath`) is a parameter.
 */
module PythonApi {
  import opened Wrappers
  import opened Text
  import opened Js
  import opened Settings
  import opened Host
  import opened Http
  import opened FileUtils
  import opened Converter

  /** `testConnection`: true exactly when `GET /` answers 200. */
  function TestConnection(reply: Reply): (r: bool)
    ensures r <==> reply.Reply? && reply.status == 200
  {
    match reply
    case Failed => false
    case Reply(status, _, _) => status == 200
  }

  // ---------------------------------------------------------------------
  // The request
  // ---------------------------------------------------------------------

  /** The object whose JSON text is the request body. */
  function RequestObject(s: Settings, realPath: string): Value {
    Obj([ Member("filepath", Str(realPath)),
          Member("page_range", Str("")),
          Member("languages", Str(s.langs.GetOr("en"))),
          Member("force_ocr", Bool(s.forceOCR.GetOr(false))),
          Member("paginate_output", Bool(s.paginate.GetOr(false))),
          Member("output_format", Str("markdown")) ])
  }

  /** `JSON.stringify` of the request object. */
  function RequestBody(s: Settings, realPath: string): string {
    Stringify(RequestObject(s, realPath)).value
  }

  /**
   * The request's fields: `languages` defaults to 'en' only when unset (an
   * empty setting is sent as it is), the two flags default to false.
   */
  lemma RequestFields(s: Settings, realPath: string)
    ensures var o := RequestObject(s, realPath);
            && Prop(o, "filepath") == Str(realPath)
            && Prop(o, "page_range") == Str("")
            && Prop(o, "languages") == Str(if s.langs.Some? then s.langs.value else "en")
            && Prop(o, "force_ocr") == Bool(s.forceOCR == Some(true))
            && Prop(o, "paginate_output") == Bool(s.paginate == Some(true))
            && Prop(o, "output_format") == Str("markdown")
  {
    var ms := RequestObject(s, realPath).members;
    LookupFirst(ms, "filepath", 0);
    LookupFirst(ms, "page_range", 1);
    LookupFirst(ms, "languages", 2);
    LookupFirst(ms, "force_ocr", 3);
    LookupFirst(ms, "paginate_output", 4);
    LookupFirst(ms, "output_format", 5);
  }

  // ---------------------------------------------------------------------
  // A reply other than 200
  // ---------------------------------------------------------------------

  /** `text.substring(0, 100)`. */
  function Snippet(text: string): (r: string)
    ensures |r| <= 100 && r <= text
    ensures |text| <= 100 ==> r == text
  {
    if |text| <= 100 then text else text[..100]
  }

  /** The message when the error body cannot be read: the status and the start of the body. */
  function UnreadableMessage(status: int, text: string): string {
    "HTTP " + IntToString(status) + " - " + (if text != "" then Snippet(text) else "No response details")
  }

  /** `detail.map(err => err.msg).join('; ')`; each `msg` shown as `join` shows it. */
  function DetailMessages(items: seq<Value>): string {
    Join(seq(|items|, i requires 0 <= i < |items| =>
           var m := Prop(items[i], "msg"); if m.Nullish() then "" else Display(m)), "; ")
  }

  /** `x.length > 0` for the `length` of an object: a positive number, or true. */
  predicate PositiveLength(v: Value) {
    (v.Num? && v.n > 0) || (v.Bool? && v.b)
  }

  /**
   * The error message for a reply other than 200. `json` is the body read as
   * JSON (None when it does not parse). Reading `detail` of null, calling
   * `map` on a `detail` that is not an array, or reading `msg` of a null
   * entry throws, and the `catch` falls back to the status and the body.
   */
  function ErrorMessage(status: int, text: string, json: Option<Value>): (r: string)
    ensures !(json.Some? && !json.value.Nullish() && Prop(json.value, "detail").Arr? && |Prop(json.value, "detail").items| > 0)
            ==> StartsWith(r, "HTTP " + IntToString(status))
  {
    var fallback := UnreadableMessage(status, text);
    if json.None? || json.value.Nullish() then fallback
    else
      var detail := Prop(json.value, "detail");
      if !Truthy(detail) then "HTTP " + IntToString(status)
      else match detail
        case Arr(items) =>
          if |items| == 0 then "HTTP " + IntToString(status)
          else if exists i | 0 <= i < |items| :: items[i].Nullish() then fallback
          else DetailMessages(items)
        case Str(_) => fallback
        case Obj(_) => if PositiveLength(Prop(detail, "length")) then fallback else "HTTP " + IntToString(status)
        case _ => "HTTP " + IntToString(status)
  }

  function FailureNotice(message: string): string {
    "Python API conversion failed: " + message
  }

  /** A validation error's messages are reported joined by '; '. */
  lemma DetailReported(status: int, text: string, data: Value, items: seq<Value>)
    requires data.Obj? && Prop(data, "detail") == Arr(items) && |items| > 0
    requires forall i | 0 <= i < |items| :: !items[i].Nullish()
    ensures ErrorMessage(status, text, Some(data)) == DetailMessages(items)
  {
  }

  /** Without a non-empty `detail`, the message is the status. */
  lemma NoDetailReported(status: int, text: string, data: Value)
    requires !data.Nullish()
    requires var d := Prop(data, "detail"); !Truthy(d) || d == Arr([])
    ensures ErrorMessage(status, text, Some(data)) == "HTTP " + IntToString(status)
  {
  }

  /** An unreadable error body is reported by its status and at most its first 100 characters. */
  lemma UnreadableReported(status: int, text: string)
    requires text != ""
    ensures var m := ErrorMessage(status, text, None);
            var head := "HTTP " + IntToString(status) + " - ";
            && StartsWith(m, head)
            && m[|head|..] <= text
            && |m| <= |head| + 100
  {
    var head := "HTTP " + IntToString(status) + " - ";
    var m := ErrorMessage(status, text, None);
    assert m == head + Snippet(text);
    assert m[..|head|] == head;
    assert m[|head|..] == Snippet(text);
  }

  // ---------------------------------------------------------------------
  // A 200 reply
  // ---------------------------------------------------------------------

  /** The conversion result built from the server's answer (not null). */
  function MapResponse(data: Value): (r: Value)
    requires !data.Nullish()
    ensures Truthy(Prop(r, "success")) <==> Truthy(Prop(data, "success"))
  {
    var ms := [ Member("success", Or(Prop(data, "success"), Bool(false))),
                Member("markdown", Or(Prop(data, "output"), Str(""))),
                Member("images", Or(Prop(data, "images"), Obj([]))),
                Member("metadata", Or(Prop(data, "metadata"), Obj([]))) ];
    LookupFirst(ms, "success", 0);
    Obj(ms)
  }

  /** The mapped result, field by field; it fails exactly when the server's `success` is falsy. */
  lemma MapResponseFields(data: Value)
    requires !data.Nullish()
    ensures var r := MapResponse(data);
            && (Unsuccessful(r) <==> !Truthy(Prop(data, "success")))
            && Prop(r, "success") == (if Truthy(Prop(data, "success")) then Prop(data, "success") else Bool(false))
            && Prop(r, "markdown") == (if Truthy(Prop(data, "output")) then Prop(data, "output") else Str(""))
            && Prop(r, "images") == (if Truthy(Prop(data, "images")) then Prop(data, "images") else Obj([]))
            && Prop(r, "metadata") == (if Truthy(Prop(data, "metadata")) then Prop(data, "metadata") else Obj([]))
  {
    var ms := MapResponse(data).members;
    LookupFirst(ms, "success", 0);
    LookupFirst(ms, "markdown", 1);
    LookupFirst(ms, "images", 2);
    LookupFirst(ms, "metadata", 3);
  }

  const UnknownErrorNotice := "Python API conversion failed: Unknown conversion error"
  const ParseErrorNotice := "Error parsing Python API response. Check console for details."

  /**
   * The converter's own post-actions on the original where it now is
   * (`current`): the rename into the folder when `movePDFtoFolder` is set,
   * then the deletion when `deleteOriginal` is set. A rename that throws
   * skips the deletion. Returns the vault and whether both went through.
   */
  function PostActionsIn(st: Store, s: Settings, folder: string, path: string, current: string): (r: (Store, bool))
    ensures !s.movePDFtoFolder && !s.deleteOriginal ==> r == (st, true)
  {
    var (st1, moved) := if s.movePDFtoFolder then RenameIn(st, current, folder + BaseName(path)) else (st, true);
    if !moved then (st1, false)
    else
      var now := if s.movePDFtoFolder then folder + BaseName(path) else current;
      if s.deleteOriginal then (DeleteOriginalIn(st1, now).0, true) else (st1, true)
  }

  /** What `convert` leaves: the vault, the answer, and the failure notice if one was posted. */
  datatype Run = Run(st: Store, ok: bool, notice: Option<string>)

  /**
   * `convert` once the folder is known: the reply to the POST decides. A
   * request that gets no reply throws into the outer `catch`, which posts
   * the failure notice (its runtime message is not modelled). A
   * 200 reply whose body does not parse, or parses to null, ends in the
   * parse-error notice, as does a post-action that throws.
   */
  function ConvertIn(st: Store, s: Settings, folder: string, path: string, reply: Reply, hostOk: bool): (r: Run)
    ensures r.ok <==> r.notice.None?
  {
    match reply
    case Failed => Run(st, false, Some(FailureNotice("")))
    case Reply(status, text, json) =>
      if status != 200 then Run(st, false, Some(FailureNotice(ErrorMessage(status, text, json))))
      else if json.None? || json.value.Nullish() then Run(st, false, Some(ParseErrorNotice))
      else
        var result := MapResponse(json.value);
        if Unsuccessful(result) then Run(st, false, Some(UnknownErrorNotice))
        else
          var rep := ProcessIn(st, s, result, folder, path, hostOk);
          var (st1, ok) := PostActionsIn(rep.st, s, folder, path, rep.current);
          Run(st1, ok, if ok then None else Some(ParseErrorNotice))
  }

  /**
   * `convert`: `prepareConversion` (the probe's answer is the connection
   * test), then the POST with its reply, then the mapping, the shared
   * materialisation and the post-actions. Returns the answer, the body sent
   * and the failure notice.
   */
  method Convert(vault: Vault, s: Settings, path: string, realPath: string, probe: Reply, reply: Reply, hostOk: bool)
    returns (ok: bool, body: Option<string>, notice: Option<string>)
    modifies vault
    ensures var folder := PreparedFolder(s, path, TestConnection(probe));
            && (folder.None? ==> !ok && body.None? && notice.None? && vault.State() == old(vault.State()))
            && (folder.Some? ==>
                  && body == Some(RequestBody(s, realPath))
                  && Run(vault.State(), ok, notice) == ConvertIn(old(vault.State()), s, folder.value, path, reply, hostOk))
  {
    body, notice := None, None;
    var folder := PreparedFolder(s, path, TestConnection(probe));
    if folder.None? {
      return false, body, notice;
    }
    body := Some(RequestBody(s, realPath));
    if reply.Failed? {
      return false, body, Some(FailureNotice(""));
    }
    if reply.status != 200 {
      notice := Some(FailureNotice(ErrorMessage(reply.status, reply.text, reply.json)));
      return false, body, notice;
    }
    if reply.json.None? || reply.json.value.Nullish() {
      return false, body, Some(ParseErrorNotice);
    }
    var result := MapResponse(reply.json.value);
    if Unsuccessful(result) {
      return false, body, Some(UnknownErrorNotice);
    }
    var _, _, current := ProcessConversionResult(vault, s, result, folder.value, path, hostOk);
    if s.movePDFtoFolder {
      var moved := vault.Rename(current, folder.value + BaseName(path));
      if !moved {
        return false, body, Some(ParseErrorNotice);
      }
      current := folder.value + BaseName(path);
    }
    if s.deleteOriginal {
      var _ := DeleteOriginalFile(vault, current);
    }
    ok := true;
  }

  // ---------------------------------------------------------------------
  // What a run does
  // ---------------------------------------------------------------------

  /** No reply, a reply other than 200, or a falsy `success` writes nothing, answers false and posts a notice. */
  lemma FailuresWriteNothing(st: Store, s: Settings, folder: string, path: string, reply: Reply, hostOk: bool)
    requires reply.Failed? || reply.status != 200
             || (reply.json.Some? && !reply.json.value.Nullish() && !Truthy(Prop(reply.json.value, "success")))
    ensures var r := ConvertIn(st, s, folder, path, reply, hostOk);
            !r.ok && r.st == st && r.notice.Some?
  {
    if reply.Reply? && reply.status == 200 {
      MapResponseFields(reply.json.value);
    }
  }

  /**
   * Without `movePDFtoFolder` a successful answer is materialised and the
   * run answers true; the second deletion finds nothing once the run
   * completed.
   */
  lemma SuccessWithoutMove(st: Store, s: Settings, folder: string, path: string, data: Value, text: string, hostOk: bool)
    requires !s.movePDFtoFolder
    requires !data.Nullish() && Truthy(Prop(data, "success"))
    ensures var rep := ProcessIn(st, s, MapResponse(data), folder, path, hostOk);
            var r := ConvertIn(st, s, folder, path, Reply(200, text, Some(data)), hostOk);
            && r.ok && r.notice.None?
            && (rep.outcome == Done ==> r.st == rep.st)
  {
    ConvertedReply(st, s, folder, path, data, text, hostOk);
    var result := MapResponse(data);
    var rep := ProcessIn(st, s, result, folder, path, hostOk);
    if rep.outcome == Done && s.deleteOriginal {
      CompletedRunLeavesNoOriginal(st, s, result, folder, path, hostOk);
    }
  }

  lemma CompletedRunLeavesNoOriginal(st: Store, s: Settings, data: Value, folder: string, path: string, hostOk: bool)
    requires s.deleteOriginal
    requires ProcessIn(st, s, data, folder, path, hostOk).outcome == Done
    ensures var rep := ProcessIn(st, s, data, folder, path, hostOk);
            !rep.st.IsFile(rep.current)
  {
    var (st1, _) := EnsureFolderIn(st, folder);
    var (st2, _, _) := MarkdownStage(st1, s, data, folder, path);
    var (st3, _, _) := ImagesStage(st2, s, data, folder, path);
    var (st4, _) := MetadataStage(st3, s, data, folder, path, hostOk);
    FinishLeavesNoOriginal(st4, s, folder, path);
  }

  /** Renaming a file onto its own path is refused: the target is taken. */
  lemma RenameOntoItselfFails(st: Store, p: string)
    ensures !RenameIn(st, p, p).1
  {
  }

  /** A 200 reply with a truthy `success` is materialised, then the post-actions decide. */
  lemma ConvertedReply(st: Store, s: Settings, folder: string, path: string, data: Value, text: string, hostOk: bool)
    requires !data.Nullish() && Truthy(Prop(data, "success"))
    ensures var rep := ProcessIn(st, s, MapResponse(data), folder, path, hostOk);
            var post := PostActionsIn(rep.st, s, folder, path, rep.current);
            ConvertIn(st, s, folder, path, Reply(200, text, Some(data)), hostOk)
            == Run(post.0, post.1, if post.1 then None else Some(ParseErrorNotice))
  {
    MapResponseFields(data);
  }

  /**
   * With `movePDFtoFolder` set, a completed materialisation has already
   * moved (or failed to move, or trashed) the original, so the converter's
   * own rename is refused and `convert` answers false with the parse-error
   * notice, although the result was written.
   */
  lemma CompletedMoveReportedAsFailure(st: Store, s: Settings, folder: string, path: string, data: Value,
                                       text: string, hostOk: bool)
    requires s.movePDFtoFolder
    requires !data.Nullish() && Truthy(Prop(data, "success"))
    requires ProcessIn(st, s, MapResponse(data), folder, path, hostOk).outcome == Done
    ensures var r := ConvertIn(st, s, folder, path, Reply(200, text, Some(data)), hostOk);
            !r.ok && r.notice == Some(ParseErrorNotice)
            && r.st == ProcessIn(st, s, MapResponse(data), folder, path, hostOk).st
  {
    ConvertedReply(st, s, folder, path, data, text, hostOk);
    var result := MapResponse(data);
    var (st1, _) := EnsureFolderIn(st, folder);
    var (st2, _, _) := MarkdownStage(st1, s, result, folder, path);
    var (st3, _, _) := ImagesStage(st2, s, result, folder, path);
    var (st4, _) := MetadataStage(st3, s, result, folder, path, hostOk);
    var target := folder + BaseName(path);
    var (st5, moved) := RenameIn(st4, path, target);
    if moved {
      RenameOntoItselfFails(ProcessIn(st, s, result, folder, path, hostOk).st, target);
    }
  }
}
