/**
 * The plugin class of the first generation (src/main.ts): which files the
 * file menu and the command offer to convert, the title of the menu item,
 * and the dispatch of a conversion to the entry point of the configured
 * back end.
 *
 * Registration with the host (commands, menu events, the settings tab) is
 * not modelled; what the callbacks decide is.
 */
module Plugin {
  import opened Wrappers
  import opened Text
  import opened Js
  import opened Settings
  import opened Host
  import opened Http
  import opened FileUtils
  import Utils
  import Conversion

  // ---------------------------------------------------------------------
  // isValidFile and getMenuItemTitle
  // ---------------------------------------------------------------------

  /** The extensions offered for conversion: five document types for datalab, PDF alone otherwise. */
  function AllowedExtensions(s: Settings): seq<string> {
    if s.apiEndpoint == "datalab" then ["pdf", "docx", "pptx", "ppt", "doc"] else ["pdf"]
  }

  /** `isValidFile`: the file's extension is one of the allowed ones. */
  predicate IsValidFile(s: Settings, path: string) {
    Extension(path) in AllowedExtensions(s)
  }

  /** PDF files are always offered; the Office types only with datalab, and nothing else ever. */
  lemma ValidFiles(s: Settings, path: string)
    ensures IsValidFile(s, path) <==>
              Extension(path) == "pdf"
              || (s.apiEndpoint == "datalab" && Extension(path) in {"docx", "doc", "pptx", "ppt"})
  {
  }

  const DefaultTitle := "Convert to MD"

  /** The titles by extension. */
  const Titles: map<string, string> := map[
    "pdf" := "Convert PDF to MD",
    "docx" := "Convert DOCX to MD",
    "pptx" := "Convert PPTX to MD",
    "ppt" := "Convert PPT to MD",
    "doc" := "Convert DOC to MD"]

  /** `getMenuItemTitle`: the title for the file's extension, the generic one for any other. */
  function MenuItemTitle(path: string): (r: string)
    ensures r == DefaultTitle <==> Extension(path) !in Titles
  {
    var ext := Extension(path);
    if ext in Titles then Titles[ext] else DefaultTitle
  }

  /** ASCII upper case. */
  function Upper(s: string): (r: string)
    ensures |r| == |s|
  {
    if |s| == 0 then ""
    else Upper(s[..|s| - 1]) + [if 'a' <= Last(s) <= 'z' then (Last(s) as int - 32) as char else Last(s)]
  }

  lemma UpperThree(a: char, b: char, c: char)
    requires 'a' <= a <= 'z' && 'a' <= b <= 'z' && 'a' <= c <= 'z'
    ensures Upper([a, b, c]) == [(a as int - 32) as char, (b as int - 32) as char, (c as int - 32) as char]
  {
    var A, B, C := (a as int - 32) as char, (b as int - 32) as char, (c as int - 32) as char;
    assert [a][..0] == [];
    assert Upper([a]) == [A];
    assert [a, b][..1] == [a];
    assert Upper([a, b]) == Upper([a]) + [B];
    assert [a, b, c][..2] == [a, b];
    assert Upper([a, b, c]) == Upper([a, b]) + [C];
  }

  lemma UpperFour(a: char, b: char, c: char, d: char)
    requires 'a' <= a <= 'z' && 'a' <= b <= 'z' && 'a' <= c <= 'z' && 'a' <= d <= 'z'
    ensures Upper([a, b, c, d]) == [(a as int - 32) as char, (b as int - 32) as char, (c as int - 32) as char, (d as int - 32) as char]
  {
    assert [a, b, c, d][..3] == [a, b, c];
    UpperThree(a, b, c);
    assert Upper([a, b, c, d]) == Upper([a, b, c]) + [(d as int - 32) as char];
  }

  /** Each title names its extension in capitals. */
  lemma TitlesNameTypes()
    ensures forall ext | ext in Titles :: Titles[ext] == "Convert " + Upper(ext) + " to MD"
  {
    UpperThree('p', 'd', 'f');
    UpperThree('p', 'p', 't');
    UpperThree('d', 'o', 'c');
    UpperFour('d', 'o', 'c', 'x');
    UpperFour('p', 'p', 't', 'x');
  }

  /**
   * Every file that is offered gets a title naming its own type, in capitals,
   * whatever the back end.
   */
  lemma TitleNamesType(s: Settings, path: string)
    requires IsValidFile(s, path)
    ensures MenuItemTitle(path) == "Convert " + Upper(Extension(path)) + " to MD"
  {
    TitlesNameTypes();
  }

  // ---------------------------------------------------------------------
  // The file menu and the command
  // ---------------------------------------------------------------------

  /** A menu item: its icon and its title. */
  datatype MenuItem = MenuItem(icon: string, title: string)

  /** The `file-menu` handler: one item for a file that may be converted, none otherwise. */
  function FileMenu(st: Store, s: Settings, path: string): (r: seq<MenuItem>)
    ensures |r| <= 1
    ensures |r| == 1 <==> st.IsFile(path) && IsValidFile(s, path)
  {
    if !st.IsFile(path) || !IsValidFile(s, path) then []
    else [MenuItem("pdf-file", MenuItemTitle(path))]
  }

  /**
   * The command's `checkCallback`: false without an active file or for one
   * that may not be converted; true when only checking; otherwise the
   * conversion is started and the callback falls off its end (undefined).
   * The second component is the file handed to `convertFile`, if any.
   */
  function CommandCheck(s: Settings, activeFile: Option<string>, checking: bool): (r: (Value, Option<string>))
    ensures r.1.Some? <==> !checking && activeFile.Some? && IsValidFile(s, activeFile.value)
    ensures r.1.Some? ==> r.1 == activeFile && r.0 == Undefined
    ensures checking ==> r.0 == Bool(activeFile.Some? && IsValidFile(s, activeFile.value))
  {
    if activeFile.None? || !IsValidFile(s, activeFile.value) then (Bool(false), None)
    else if checking then (Bool(true), None)
    else (Undefined, activeFile)
  }

  /** The command is offered for the active file exactly when its menu item would be. */
  lemma CommandAgreesWithMenu(st: Store, s: Settings, path: string)
    requires st.IsFile(path)
    ensures CommandCheck(s, Some(path), true).0 == Bool(|FileMenu(st, s, path)| == 1)
  {
  }

  // ---------------------------------------------------------------------
  // convertFile
  // ---------------------------------------------------------------------

  /** The replies and answers one conversion meets, whichever back end runs it. */
  datatype World = World(
    probeBoundary: string,
    probe: Reply,
    folderAnswer: bool,
    overwriteAnswer: bool,
    content: Option<seq<byte>>,
    boundary: string,
    reply: Reply,
    polls: seq<Reply>,
    realPath: string,
    hostOk: bool)

  /** The back end `convertFile` hands a file to. */
  datatype Backend = DatalabApi | SelfHosted | PythonServer | NoBackend

  function Dispatch(s: Settings): (r: Backend)
    ensures r == NoBackend <==> s.apiEndpoint !in {"datalab", "selfhosted", "python-api"}
  {
    if s.apiEndpoint == "datalab" then DatalabApi
    else if s.apiEndpoint == "selfhosted" then SelfHosted
    else if s.apiEndpoint == "python-api" then PythonServer
    else NoBackend
  }

  /** `convertFile`: the conversion the configured back end performs. */
  function ConvertFileIn(st: Store, s: Settings, path: string, w: World): Conversion.Conversion
    requires |w.polls| == Utils.PollRetries + 1
  {
    match Dispatch(s)
    case DatalabApi =>
      Conversion.DatalabIn(st, s, path, w.probe, w.folderAnswer, w.overwriteAnswer, w.content, w.reply, w.polls, w.hostOk)
    case SelfHosted =>
      Conversion.PdfToMdIn(st, s, path, w.probe, w.folderAnswer, w.overwriteAnswer, w.content, w.reply, w.hostOk)
    case PythonServer =>
      Conversion.PythonIn(st, s, path, w.probe, w.folderAnswer, w.reply, w.hostOk)
    case NoBackend => Conversion.Conversion(st, [])
  }

  /**
   * Whatever the back end, a conversion whose probe fails stops with the
   * probe's one notice and changes nothing; so does one whose settings
   * fail the check.
   */
  lemma FailedProbeChangesNothing(st: Store, s: Settings, path: string, w: World)
    requires |w.polls| == Utils.PollRetries + 1
    requires !Utils.CheckSettings(s).0 || !Utils.Connection(s, w.probe, true).0
    ensures var r := ConvertFileIn(st, s, path, w);
            r.st == st && |r.notices| <= 1
            && (Dispatch(s) != NoBackend ==> |r.notices| == 1)
  {
  }

  /**
   * `convertFile` on the vault; the answer of the entry point is not used.
   * Returns the notices posted.
   */
  method ConvertFile(vault: Vault, s: Settings, path: string, w: World) returns (notices: seq<Conversion.Notice>)
    requires |w.polls| == Utils.PollRetries + 1
    modifies vault
    ensures Conversion.Conversion(vault.State(), notices) == ConvertFileIn(old(vault.State()), s, path, w)
  {
    notices := [];
    if s.apiEndpoint == "datalab" {
      var answer, body;
      answer, notices, body := Conversion.ConvertWithDatalab(vault, s, path, w.probeBoundary, w.probe, w.folderAnswer,
        w.overwriteAnswer, w.content, w.boundary, w.reply, w.polls, w.hostOk);
    } else if s.apiEndpoint == "selfhosted" {
      var answer, body;
      answer, notices, body := Conversion.ConvertPDFToMD(vault, s, path, w.probeBoundary, w.probe, w.folderAnswer,
        w.overwriteAnswer, w.content, w.boundary, w.reply, w.hostOk);
    } else if s.apiEndpoint == "python-api" {
      var answer, request;
      answer, notices, request := Conversion.ConvertWithPythonAPI(vault, s, path, w.realPath, w.probeBoundary, w.probe,
        w.folderAnswer, w.reply, w.hostOk);
    }
  }

  /**
   * The command's callback on the vault: the answer it returns and the
   * notices of the conversion it starts, if it starts one.
   */
  method RunCommand(vault: Vault, s: Settings, activeFile: Option<string>, checking: bool, w: World)
    returns (answer: Value, notices: seq<Conversion.Notice>)
    requires |w.polls| == Utils.PollRetries + 1
    modifies vault
    ensures answer == CommandCheck(s, activeFile, checking).0
    ensures CommandCheck(s, activeFile, checking).1.None? ==> vault.State() == old(vault.State()) && notices == []
    ensures CommandCheck(s, activeFile, checking).1.Some? ==>
              Conversion.Conversion(vault.State(), notices) == ConvertFileIn(old(vault.State()), s, activeFile.value, w)
  {
    notices := [];
    if activeFile.None? || !IsValidFile(s, activeFile.value) {
      return Bool(false), [];
    }
    if checking {
      return Bool(true), [];
    }
    notices := ConvertFile(vault, s, activeFile.value, w);
    answer := Undefined;
  }
}
