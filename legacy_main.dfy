/**
 * The oldest generation of the plugin, the single class of the root
 * main.ts: its file-menu filter and command check, its own settings check
 * and connection test, its choice of folder, the two conversions, the
 * polling loop, and `processConversionResult`, which iterates over the
 * result as an array of converted documents.
 *
 * Its `createMarkdownFile`, `addMetadataToMarkdownFile`,
 * `generateFrontmatter` and `deleteOriginalFile` are the same code as in
 * src/utils/fileUtils.ts, and its `createImageFiles` behaves as the one of
 * src/utils.ts; the steps below reuse those models.
 *
 * A `requestUrl` call without `throw: false` throws for a status of 400 or
 * more (the host's default); `fetch` never does.
 */
module Legacy {
  import opened Wrappers
  import opened Text
  import opened Js
  import opened Settings
  import opened Host
  import opened Http
  import opened FileUtils
  import Utils
  import Conversion
  import Plugin
  import Datalab
  import Multipart

  // ---------------------------------------------------------------------
  // The file menu and the command
  // ---------------------------------------------------------------------

  /** The file-menu filter, on the file's name: a PDF, or for datalab one of the four Office types. */
  predicate Offered(s: Settings, name: string) {
    || EndsWith(name, ".pdf")
    || (s.apiEndpoint == "datalab"
        && (EndsWith(name, ".docx") || EndsWith(name, ".pptx") || EndsWith(name, ".ppt") || EndsWith(name, ".doc")))
  }

  /** The title chosen by the `switch` on `name.split('.').pop()`; none for any other piece. */
  function ItemTitle(name: string): Option<string> {
    var ext := AfterLast(name, '.');
    if ext in Plugin.Titles then Some(Plugin.Titles[ext]) else None
  }

  /** A menu item: its icon and its title, if one was set. */
  datatype Item = Item(icon: string, title: Option<string>)

  /**
   * The `file-menu` handler: one item for any entry, file or folder, whose
   * name passes the filter.
   */
  function FileMenu(st: Store, s: Settings, path: string): (r: seq<Item>)
    ensures |r| == 1 <==> st.Exists(path) && Offered(s, BaseName(path))
    ensures |r| <= 1
  {
    if st.Exists(path) && Offered(s, BaseName(path)) then [Item("pdf-file", ItemTitle(BaseName(path)))] else []
  }

  /** A name ends in "." + `ext` exactly when `ext` is what follows its last dot. */
  lemma DotSuffix(name: string, ext: string)
    requires forall i | 0 <= i < |ext| :: ext[i] != '.'
    ensures EndsWith(name, "." + ext) <==> '.' in name && AfterLast(name, '.') == ext
  {
    if EndsWith(name, "." + ext) {
      var j := |name| - |ext| - 1;
      assert name[j..] == "." + ext;
      assert name[j] == '.';
      assert name[j + 1..] == ext;
      forall k | j + 1 <= k < |name| ensures name[k] != '.' {
        assert name[k] == ext[k - j - 1];
      }
      assert '.' !in name[j + 1..];
      LastIndexOfUnique(name, '.', j);
    }
    if '.' in name && AfterLast(name, '.') == ext {
      var j := LastIndexOf(name, '.');
      assert name[j + 1..] == ext;
      assert name[|name| - |ext| - 1..] == [name[j]] + name[j + 1..];
    }
  }

  /** A name ends in "." + `ext`, for an extension without dots, exactly when that is the path's extension. */
  lemma EndsWithExtension(path: string, ext: string)
    requires ext != [] && forall i | 0 <= i < |ext| :: ext[i] != '.'
    ensures EndsWith(BaseName(path), "." + ext) <==> Extension(path) == ext
    ensures Extension(path) == ext ==> AfterLast(BaseName(path), '.') == ext
  {
    DotSuffix(BaseName(path), ext);
  }

  /** The filter on names offers a file exactly when the later `isValidFile` does. */
  lemma OfferedIsValid(s: Settings, path: string)
    ensures Offered(s, BaseName(path)) <==> Plugin.IsValidFile(s, path)
  {
    var name, e := BaseName(path), Extension(path);
    assert "." + "pdf" == ".pdf";
    EndsWithExtension(path, "pdf");
    if s.apiEndpoint == "datalab" {
      assert "." + "docx" == ".docx";
      EndsWithExtension(path, "docx");
      assert "." + "pptx" == ".pptx";
      EndsWithExtension(path, "pptx");
      assert "." + "ppt" == ".ppt";
      EndsWithExtension(path, "ppt");
      assert "." + "doc" == ".doc";
      EndsWithExtension(path, "doc");
      assert Plugin.IsValidFile(s, path) <==> e == "pdf" || e == "docx" || e == "pptx" || e == "ppt" || e == "doc";
    } else {
      assert Plugin.IsValidFile(s, path) <==> e == "pdf";
    }
  }

  /** An offered name gets the title the later generation gives it. */
  lemma OfferedTitle(s: Settings, path: string)
    requires Offered(s, BaseName(path))
    ensures ItemTitle(BaseName(path)) == Some(Plugin.MenuItemTitle(path))
  {
    OfferedIsValid(s, path);
    var e := Extension(path);
    assert e in Plugin.AllowedExtensions(s);
    assert e == "pdf" || e == "docx" || e == "pptx" || e == "ppt" || e == "doc";
    assert e in Plugin.Titles;
    assert '.' in BaseName(path);
  }

  /**
   * For files, the filter offers exactly what the later `isValidFile` offers,
   * under the same title.
   */
  lemma MenuAgreesOnFiles(st: Store, s: Settings, path: string)
    requires st.IsFile(path)
    ensures |FileMenu(st, s, path)| == |Plugin.FileMenu(st, s, path)|
    ensures |FileMenu(st, s, path)| == 1 ==> FileMenu(st, s, path)[0].title == Some(Plugin.FileMenu(st, s, path)[0].title)
  {
    OfferedIsValid(s, path);
    if Offered(s, BaseName(path)) {
      OfferedTitle(s, path);
    }
  }

  /**
   * A folder whose name ends in ".pdf" gets an item too, which the later
   * filter refuses; clicking it converts nothing.
   */
  lemma MenuOffersFolders(st: Store, s: Settings, path: string)
    requires st.IsFolder(path) && EndsWith(BaseName(path), ".pdf")
    ensures |FileMenu(st, s, path)| == 1 && Plugin.FileMenu(st, s, path) == []
    ensures ClickTarget(st, s, path).None?
  {
  }

  /** The conversion a click or the command starts. */
  datatype Target = ToDatalab | ToMarker

  /** The item's click handler: files only; datalab, or the self-hosted conversion for any other back end. */
  function ClickTarget(st: Store, s: Settings, path: string): Option<Target> {
    if !st.IsFile(path) then None
    else Some(if s.apiEndpoint == "datalab" then ToDatalab else ToMarker)
  }

  /**
   * The command's `checkCallback`, on the active file's path: the answer,
   * and the conversion started, if any.
   */
  function CommandCheck(s: Settings, activeFile: Option<string>, checking: bool): (r: (Value, Option<Target>))
    ensures r.1.Some? ==> r.1 == Some(if s.apiEndpoint == "datalab" then ToDatalab else ToMarker)
  {
    var ext := if activeFile.Some? then Some(Extension(activeFile.value)) else None;
    var allowed := if s.apiEndpoint == "datalab" then ext.Some? && ext.value in {"pdf", "docx", "pptx", "ppt", "doc"}
                   else ext == Some("pdf");
    if !allowed then (Bool(false), None)
    else if checking then (Bool(true), None)
    else (Undefined, Some(if s.apiEndpoint == "datalab" then ToDatalab else ToMarker))
  }

  /**
   * The command answers as the later one does; only a Python back end is
   * handed to the self-hosted conversion here.
   */
  lemma CommandAgrees(s: Settings, activeFile: Option<string>, checking: bool)
    ensures CommandCheck(s, activeFile, checking).0 == Plugin.CommandCheck(s, activeFile, checking).0
    ensures CommandCheck(s, activeFile, checking).1.Some? <==> Plugin.CommandCheck(s, activeFile, checking).1.Some?
  {
  }

  // ---------------------------------------------------------------------
  // checkSettings and testConnection
  // ---------------------------------------------------------------------

  const ModeNotice := "Err: Invalid content extraction setting for Marker, check settings"

  /** `checkSettings`: the Marker endpoint must be set and the mode one of the three. */
  function CheckSettings(s: Settings): (r: (bool, seq<string>))
    ensures r.0 <==> s.markerEndpoint != "" && ValidMode(s.extractContent)
    ensures r.0 ==> r.1 == []
    ensures !r.0 ==> |r.1| == 1
  {
    if s.markerEndpoint == "" then (false, [Utils.EndpointNotice])
    else if s.extractContent != "text" && s.extractContent != "images" && s.extractContent != "all" then (false, [ModeNotice])
    else (true, [])
  }

  /** The verdict is the later generation's. */
  lemma CheckSettingsAgrees(s: Settings)
    ensures CheckSettings(s).0 == Utils.CheckSettings(s).0
  {
  }

  /**
   * `testConnection`: the datalab health check (a status of 400 or more
   * throws and is caught), or a probe upload to the Marker server for any
   * other back end.
   */
  function Connection(s: Settings, reply: Reply, silent: bool): (r: (bool, seq<string>))
    ensures r.0 ==> r.1 == Utils.Connected(silent)
    ensures !r.0 ==> |r.1| == 1
  {
    if s.apiEndpoint == "datalab" then
      if !Filled(s.apiKey) then (false, ["Err: Datalab API key not set"])
      else
        match reply
        case Failed => (false, ["Error connecting to Datalab Marker API"])
        case Reply(status, _, json) =>
          if status >= 400 then (false, ["Error connecting to Datalab Marker API"])
          else if status != 200 then (false, ["Error connecting to Datalab Marker API: " + IntToString(status)])
          else if json.Some? && Prop(json.value, "status") == Str("ok") then (true, Utils.Connected(silent))
          else (false, ["Error connecting to Datalab Marker API"])
    else
      match reply
      case Failed => (false, ["Error connecting to Marker API"])
      case Reply(status, _, _) =>
        if status != 200 then (false, ["Error connecting to Marker API: " + IntToString(status)])
        else (true, Utils.Connected(silent))
  }

  /**
   * For datalab and a self-hosted server the verdict and the notices are
   * the later generation's; any other back end is probed as a self-hosted
   * server.
   */
  lemma ConnectionAgrees(s: Settings, reply: Reply, silent: bool)
    ensures s.apiEndpoint in {"datalab", "selfhosted"} ==> Connection(s, reply, silent) == Utils.Connection(s, reply, silent)
    ensures s.apiEndpoint != "datalab" ==> Connection(s, reply, silent) == Utils.Connection(s.(apiEndpoint := "selfhosted"), reply, silent)
  {
  }

  // ---------------------------------------------------------------------
  // handleFolderCreation
  // ---------------------------------------------------------------------

  /** The folder the file sits in, as its path's prefix: "" at the vault root, else ending in '/'. */
  function KeptFolder(path: string): (r: string)
    ensures r + BaseName(path) == path
  {
    var name := BaseName(path);
    if '/' in path then
      var l := LastIndexOf(path, '/');
      assert path[..l + 1] + path[l + 1..] == path;
      path[..l + 1]
    else path[..0]
  }

  /** Below the root the kept folder is the later generation's parent folder; at the root it is empty. */
  lemma KeptFolderIsParent(path: string)
    ensures '/' in path ==> KeptFolder(path) == Utils.ParentFolder(path)
    ensures '/' !in path ==> KeptFolder(path) == ""
  {
    if '/' in path {
      var l := LastIndexOf(path, '/');
      assert path[..l + 1] == path[..l] + [path[l]];
    }
  }

  /** `activeFile.path.replace(activeFile.name, '')`, as written: the name's first occurrence goes. */
  function KeptFolderAsWritten(path: string): (r: string)
    ensures |r| + |BaseName(path)| == |path|
  {
    var name := BaseName(path);
    var k := |KeptFolder(path)|;
    assert path[k..] == name;
    assert Text.OccursAt(path, name, k);
    Utils.RemoveFirst(path, name)
  }

  /**
   * The first-occurrence removal cuts the wrong piece from a path whose
   * folder starts with the file's name: "old.pdf-files/old.pdf" keeps
   * "-files/old.pdf" instead of "old.pdf-files/".
   */
  lemma KeptFolderAsWrittenWrong(n: string, r: string)
    requires n != []
    requires forall i | 0 <= i < |n| :: n[i] != '/'
    ensures var path := n + r + "/" + n;
            && KeptFolderAsWritten(path) == r + "/" + n
            && KeptFolder(path) == n + r + "/"
            && KeptFolderAsWritten(path) != KeptFolder(path)
  {
    var path := n + r + "/" + n;
    Utils.LastSegment(n + r, n);
    assert path[..|n|] == n;
    Utils.FindAtStart(path, n);
    assert path[|n|..] == r + "/" + n;
    assert '/' in path by { assert path[|n + r|] == '/'; }
    KeptFolderIsParent(path);
    assert Last(r + "/" + n) == Last(n) != '/';
  }

  /** Where the name occurs only at the end of the path, the two agree. */
  lemma KeptFolderAsWrittenAgrees(path: string)
    ensures Utils.NameOnlyAtEnd(path) ==> KeptFolderAsWritten(path) == KeptFolder(path)
  {
    if Utils.NameOnlyAtEnd(path) {
      var name := BaseName(path);
      var k := |path| - |name|;
      assert path[k..] == name;
      assert Text.OccursAt(path, name, k);
      assert Utils.FindFrom(path, name, 0) == Some(k);
      assert path[k + |name|..] == [];
    }
  }

  /** At the vault root the name is the whole path, and the replacement leaves nothing. */
  lemma KeptFolderAsWrittenAtRoot(path: string)
    requires '/' !in path
    ensures KeptFolderAsWritten(path) == ""
  {
    KeptFolderIsParent(path);
    assert BaseName(path) == path;
    Utils.FindAtStart(path, path);
  }

  /**
   * `handleFolderCreation`: as the later generation's when a folder is to
   * be made; otherwise the path with the file's name removed where it
   * first occurs, without a '/' added. That is the folder the file sits in
   * when the name occurs nowhere else in the path.
   */
  function HandleFolderCreationIn(st: Store, s: Settings, path: string, answer: bool): (r: (Store, Utils.FolderChoice))
    ensures s.createFolder ==> r == (Utils.HandleFolderCreationIn(st, s, path, answer).0, Utils.HandleFolderCreationIn(st, s, path, answer).1)
    ensures !s.createFolder ==> r.0 == st
    ensures !s.createFolder && Utils.FolderName(path) != "" ==> r.1 == Utils.InFolder(KeptFolderAsWritten(path))
    ensures !s.createFolder && r.1.InFolder? && Utils.NameOnlyAtEnd(path) ==> r.1.path + BaseName(path) == path
  {
    if Utils.FolderName(path) == "" then (st, Utils.NoFolder)
    else if !s.createFolder then
      KeptFolderAsWrittenAgrees(path);
      (st, Utils.InFolder(KeptFolderAsWritten(path)))
    else
      var (st1, choice, _) := Utils.HandleFolderCreationIn(st, s, path, answer);
      (st1, choice)
  }

  method HandleFolderCreation(vault: Vault, s: Settings, path: string, answer: bool) returns (choice: Utils.FolderChoice)
    modifies vault
    ensures (vault.State(), choice) == HandleFolderCreationIn(old(vault.State()), s, path, answer)
  {
    if Utils.FolderName(path) == "" {
      return Utils.NoFolder;
    }
    if !s.createFolder {
      return Utils.InFolder(KeptFolderAsWritten(path));
    }
    var asked;
    choice, asked := Utils.HandleFolderCreation(vault, s, path, answer);
  }

  // ---------------------------------------------------------------------
  // The common start of both conversions
  // ---------------------------------------------------------------------

  /**
   * The settings check, the silent connection test, the folder (an empty
   * or missing one ends the conversion quietly), then the overwrite dialog
   * in the modes that write images.
   */
  function BeginIn(st: Store, s: Settings, path: string, probe: Reply, folderAnswer: bool, overwriteAnswer: bool)
    : (r: (Store, Conversion.Start))
    ensures !CheckSettings(s).0 ==> r == (st, Conversion.Halted(CheckSettings(s).1))
    ensures r.1.Ready? ==> r.1.folder != "" && HandleFolderCreationIn(st, s, path, folderAnswer).1 == Utils.InFolder(r.1.folder)
    ensures !s.createFolder ==> r.0 == st
  {
    var (ok, texts) := CheckSettings(s);
    if !ok then (st, Conversion.Halted(texts))
    else
      var (connected, said) := Connection(s, probe, true);
      if !connected then (st, Conversion.Halted(said))
      else
        var (st1, choice) := HandleFolderCreationIn(st, s, path, folderAnswer);
        match choice
        case NoFolder => (st1, Conversion.Halted([]))
        case FolderFailed => (st1, Conversion.Faulted)
        case InFolder(folder) =>
          if folder == "" then (st1, Conversion.Halted([]))
          else if Conversion.ChecksOverwrite(s) && HasFilesUnder(st1, folder) && !overwriteAnswer then (st1, Conversion.Halted([]))
          else (st1, Conversion.Ready(folder))
  }

  /** A file at the vault root is never converted when no folder is to be made: its folder is empty. */
  lemma RootFileStops(st: Store, s: Settings, path: string, probe: Reply, folderAnswer: bool, overwriteAnswer: bool)
    requires !s.createFolder && '/' !in path
    ensures BeginIn(st, s, path, probe, folderAnswer, overwriteAnswer) == (st, Conversion.Halted([]))
            || BeginIn(st, s, path, probe, folderAnswer, overwriteAnswer).1.notices != []
  {
    KeptFolderAsWrittenAtRoot(path);
  }

  method Begin(vault: Vault, s: Settings, path: string, probe: Reply, folderAnswer: bool, overwriteAnswer: bool)
    returns (b: Conversion.Start)
    modifies vault
    ensures (vault.State(), b) == BeginIn(old(vault.State()), s, path, probe, folderAnswer, overwriteAnswer)
  {
    var checked := CheckSettings(s);
    if !checked.0 {
      return Conversion.Halted(checked.1);
    }
    var connected := Connection(s, probe, true);
    if !connected.0 {
      return Conversion.Halted(connected.1);
    }
    var choice := HandleFolderCreation(vault, s, path, folderAnswer);
    match choice
    case NoFolder => b := Conversion.Halted([]);
    case FolderFailed => b := Conversion.Faulted;
    case InFolder(folder) =>
      if folder == "" {
        return Conversion.Halted([]);
      }
      b := Conversion.Ready(folder);
      if Conversion.ChecksOverwrite(s) {
        var proceed, shown := CheckForExistingFiles(vault, folder, overwriteAnswer);
        if !proceed {
          b := Conversion.Halted([]);
        }
      }
  }

  // ---------------------------------------------------------------------
  // processConversionResult: one pass per converted document
  // ---------------------------------------------------------------------

  /**
   * What `for (const converted of data)` iterates over, as written: the
   * items of an array, the characters of a string; anything else is not
   * iterable and throws.
   */
  function ElementsAsWritten(data: Value): (r: Option<seq<Value>>)
    ensures r.Some? <==> data.Arr? || data.Str?
    ensures data.Arr? ==> r == Some(data.items)
    ensures data.Str? ==> |r.value| == |data.s|
  {
    match data
    case Arr(items) => Some(items)
    case Str(t) => Some(seq(|t|, i requires 0 <= i < |t| => Str([t[i]])))
    case _ => None
  }

  /** The documents to materialise: as written, except that a single result object is one document. */
  function Elements(data: Value): (r: Option<seq<Value>>)
    ensures data.Obj? ==> r == Some([data])
    ensures !data.Obj? ==> r == ElementsAsWritten(data)
  {
    if data.Obj? then Some([data]) else ElementsAsWritten(data)
  }

  /**
   * A finished Datalab poll result is an object (its `status` is read), so
   * as written the loop throws on it before anything is written.
   */
  lemma CompletedResultNotIterable(v: Value)
    requires Completed(v)
    ensures ElementsAsWritten(v).None?
    ensures Elements(v) == Some([v])
  {
  }

  /**
   * One document: the markdown, the images and the metadata steps of
   * src/utils.ts, then the move of the original from where it now is.
   * The first step that throws ends the pass.
   */
  function Element(st: Store, s: Settings, d: Value, folder: string, path: string, current: string, hostOk: bool): (r: Utils.Run)
    ensures !r.threw ==> r.current == MovedTo(s, folder, path, current)
  {
    var (st1, texts, ok) := Utils.MarkdownStep(st, s, d, folder, path);
    if !ok then Utils.Run(st1, texts, true, current)
    else Utils.Said(texts, ElementImages(st1, s, d, folder, path, current, hostOk))
  }

  /** Where the original is after a pass that went through. */
  function MovedTo(s: Settings, folder: string, path: string, current: string): string {
    if s.movePDFtoFolder then folder + BaseName(path) else current
  }

  /** From the image step on. */
  function ElementImages(st: Store, s: Settings, d: Value, folder: string, path: string, current: string, hostOk: bool): (r: Utils.Run)
    ensures !r.threw ==> r.current == MovedTo(s, folder, path, current)
  {
    var (st1, texts, ok) := Utils.ImagesStep(st, s, d, folder, path);
    if !ok then Utils.Run(st1, texts, true, current)
    else Utils.Said(texts, ElementMetadata(st1, s, d, folder, path, current, hostOk))
  }

  /** From the metadata step on. */
  function ElementMetadata(st: Store, s: Settings, d: Value, folder: string, path: string, current: string, hostOk: bool): (r: Utils.Run)
    ensures !r.threw ==> r.current == MovedTo(s, folder, path, current)
  {
    var (st1, ok) := Utils.MetadataStep(st, s, d, folder, path, hostOk);
    if !ok then Utils.Run(st1, [], true, current)
    else Move(st1, s, folder, path, current)
  }

  /** `app.vault.rename(originalFile, folderPath + originalFile.name)`, when asked for; a failed rename throws. */
  function Move(st: Store, s: Settings, folder: string, path: string, current: string): (r: Utils.Run)
    ensures !r.threw ==> r.current == MovedTo(s, folder, path, current)
    ensures r.notices == []
  {
    if !s.movePDFtoFolder then Utils.Run(st, [], false, current)
    else
      var (st1, moved) := RenameIn(st, current, folder + BaseName(path));
      Utils.Run(st1, [], !moved, if moved then folder + BaseName(path) else current)
  }

  /** The loop over the documents, stopped by the first pass that throws. */
  function Loop(st: Store, s: Settings, items: seq<Value>, folder: string, path: string, hostOk: bool): (r: Utils.Run)
    decreases |items|
  {
    if items == [] then Utils.Run(st, [], false, path)
    else
      var r := Loop(st, s, items[..|items| - 1], folder, path, hostOk);
      if r.threw then r
      else
        var e := Element(r.st, s, Last(items), folder, path, r.current, hostOk);
        Utils.Run(e.st, r.notices + e.notices, e.threw, e.current)
  }

  /** `if (this.settings.deleteOriginal)` after the loop: the original is trashed from where it now is. */
  function ThenDelete(r: Utils.Run, s: Settings): Utils.Run {
    if r.threw || !s.deleteOriginal then r
    else
      var (st1, texts) := DeleteOriginalIn(r.st, r.current);
      Utils.Run(st1, r.notices + texts, false, r.current)
  }

  /**
   * `processConversionResult`, as written: the loop over what `for...of`
   * iterates, then the deletion of the original, once. Data that cannot be
   * iterated throws before anything is written.
   */
  function ProcessIn(st: Store, s: Settings, data: Value, folder: string, path: string, hostOk: bool): (r: Utils.Run)
    ensures ElementsAsWritten(data).None? ==> r == Utils.Run(st, [], true, path)
  {
    match ElementsAsWritten(data)
    case None => Utils.Run(st, [], true, path)
    case Some(items) => ThenDelete(Loop(st, s, items, folder, path, hostOk), s)
  }

  /** `processConversionResult` as intended: a single result object is materialised as one document. */
  function ProcessIntendedIn(st: Store, s: Settings, data: Value, folder: string, path: string, hostOk: bool): (r: Utils.Run)
    ensures !data.Obj? ==> r == ProcessIn(st, s, data, folder, path, hostOk)
    ensures data.Obj? ==> r == ProcessIn(st, s, Arr([data]), folder, path, hostOk)
  {
    match Elements(data)
    case None => Utils.Run(st, [], true, path)
    case Some(items) => ThenDelete(Loop(st, s, items, folder, path, hostOk), s)
  }

  /** A loop that threw at some prefix stays as it was there. */
  lemma {:induction false} LoopStopsAtThrow(st: Store, s: Settings, items: seq<Value>, k: nat, folder: string, path: string, hostOk: bool)
    requires k <= |items|
    requires Loop(st, s, items[..k], folder, path, hostOk).threw
    ensures Loop(st, s, items, folder, path, hostOk) == Loop(st, s, items[..k], folder, path, hostOk)
    decreases |items| - k
  {
    if k < |items| {
      var next := items[..k + 1];
      assert next[..k] == items[..k];
      LoopStopsAtThrow(st, s, items, k + 1, folder, path, hostOk);
    } else {
      assert items[..k] == items;
    }
  }

  /**
   * With `movePDFtoFolder`, a loop over documents that went through has
   * moved the original into the folder.
   */
  lemma {:induction false} LoopMovesOriginal(st: Store, s: Settings, items: seq<Value>, folder: string, path: string, hostOk: bool)
    requires s.movePDFtoFolder && items != []
    requires !Loop(st, s, items, folder, path, hostOk).threw
    ensures Loop(st, s, items, folder, path, hostOk).current == folder + BaseName(path)
  {
  }

  /** A pass that starts with the original already in the folder throws at the move. */
  lemma PassFromFolderThrows(st: Store, s: Settings, d: Value, folder: string, path: string, hostOk: bool)
    requires s.movePDFtoFolder
    ensures Element(st, s, d, folder, path, folder + BaseName(path), hostOk).threw
  {
    var target := folder + BaseName(path);
    var (st1, _, ok1) := Utils.MarkdownStep(st, s, d, folder, path);
    if ok1 {
      var (st2, _, ok2) := Utils.ImagesStep(st1, s, d, folder, path);
      if ok2 {
        var (st3, ok3) := Utils.MetadataStep(st2, s, d, folder, path, hostOk);
        if ok3 {
          Conversion.RenameOntoItselfFails(st3, target);
          assert Move(st3, s, folder, path, target).threw;
        }
      }
    }
  }

  /**
   * With `movePDFtoFolder`, a result of two documents or more always ends in
   * an error: the second pass moves the original onto the path it was moved
   * to by the first, and that rename throws. The deletion never happens.
   */
  lemma {:induction false} SecondMoveThrows(st: Store, s: Settings, items: seq<Value>, folder: string, path: string, hostOk: bool)
    requires s.movePDFtoFolder && |items| >= 2
    ensures Loop(st, s, items, folder, path, hostOk).threw
    decreases |items|
  {
    var init := items[..|items| - 1];
    if |init| >= 2 {
      SecondMoveThrows(st, s, init, folder, path, hostOk);
    } else {
      var r := Loop(st, s, init, folder, path, hostOk);
      if !r.threw {
        LoopMovesOriginal(st, s, init, folder, path, hostOk);
        PassFromFolderThrows(r.st, s, Last(items), folder, path, hostOk);
      }
    }
  }

  /** The deletion after a pass whose notices come first is the deletion after the rest. */
  lemma ThenDeleteSaid(texts: seq<string>, r: Utils.Run, s: Settings)
    ensures ThenDelete(Utils.Said(texts, r), s) == Utils.Said(texts, ThenDelete(r, s))
  {
    if !r.threw && s.deleteOriginal {
      var (st1, more) := DeleteOriginalIn(r.st, r.current);
      assert (texts + r.notices) + more == texts + (r.notices + more);
    }
  }

  /** The move of the original from its own path, then the deletion, is the later generation's last stage. */
  lemma MoveAgrees(st: Store, s: Settings, folder: string, path: string)
    ensures ThenDelete(Move(st, s, folder, path, path), s) == Utils.FinishIn(st, s, folder, path)
  {
  }

  lemma MetadataAgrees(st: Store, s: Settings, d: Value, folder: string, path: string, hostOk: bool)
    ensures ThenDelete(ElementMetadata(st, s, d, folder, path, path, hostOk), s) == Utils.AfterImages(st, s, d, folder, path, hostOk)
  {
    var (st1, ok) := Utils.MetadataStep(st, s, d, folder, path, hostOk);
    if ok {
      MoveAgrees(st1, s, folder, path);
    }
  }

  lemma ImagesAgree(st: Store, s: Settings, d: Value, folder: string, path: string, hostOk: bool)
    ensures ThenDelete(ElementImages(st, s, d, folder, path, path, hostOk), s) == Utils.AfterMarkdown(st, s, d, folder, path, hostOk)
  {
    var (st1, texts, ok) := Utils.ImagesStep(st, s, d, folder, path);
    if ok {
      MetadataAgrees(st1, s, d, folder, path, hostOk);
      ThenDeleteSaid(texts, ElementMetadata(st1, s, d, folder, path, path, hostOk), s);
    }
  }

  /**
   * A result of exactly one document is materialised as the later
   * generation materialises a result it has understood.
   */
  lemma OneDocumentAgrees(st: Store, s: Settings, d: Value, folder: string, path: string, hostOk: bool)
    ensures ProcessIn(st, s, Arr([d]), folder, path, hostOk) == Utils.Materialise(st, s, d, folder, path, hostOk)
  {
    LoopOfOne(st, s, d, folder, path, hostOk);
    ElementAgrees(st, s, d, folder, path, hostOk);
  }

  /** A loop over one element is one pass from the original's own path. */
  lemma LoopOfOne(st: Store, s: Settings, d: Value, folder: string, path: string, hostOk: bool)
    ensures Loop(st, s, [d], folder, path, hostOk) == Element(st, s, d, folder, path, path, hostOk)
  {
    assert [d][..0] == [];
    var e := Element(st, s, d, folder, path, path, hostOk);
    assert [] + e.notices == e.notices;
  }

  /** One pass from the original's own path, then the deletion, is the later generation's materialisation. */
  lemma ElementAgrees(st: Store, s: Settings, d: Value, folder: string, path: string, hostOk: bool)
    ensures ThenDelete(Element(st, s, d, folder, path, path, hostOk), s) == Utils.Materialise(st, s, d, folder, path, hostOk)
  {
    var (st1, texts, ok) := Utils.MarkdownStep(st, s, d, folder, path);
    if ok {
      ImagesAgree(st1, s, d, folder, path, hostOk);
      ThenDeleteSaid(texts, ElementImages(st1, s, d, folder, path, path, hostOk), s);
    }
  }

  /** One pass on the vault. */
  method WriteElement(vault: Vault, s: Settings, d: Value, folder: string, path: string, current: string, hostOk: bool)
    returns (notices: seq<string>, threw: bool, now: string)
    modifies vault
    ensures Utils.Run(vault.State(), notices, threw, now) == Element(old(vault.State()), s, d, folder, path, current, hostOk)
  {
    var texts, ok := Utils.WriteMarkdownFile(vault, s, d, folder, path);
    if !ok {
      return texts, true, current;
    }
    var more;
    more, threw, now := WriteElementImages(vault, s, d, folder, path, current, hostOk);
    notices := texts + more;
  }

  method WriteElementImages(vault: Vault, s: Settings, d: Value, folder: string, path: string, current: string, hostOk: bool)
    returns (notices: seq<string>, threw: bool, now: string)
    modifies vault
    ensures Utils.Run(vault.State(), notices, threw, now) == ElementImages(old(vault.State()), s, d, folder, path, current, hostOk)
  {
    var texts, ok := Utils.WriteImages(vault, s, d, folder, path);
    if !ok {
      return texts, true, current;
    }
    var more;
    more, threw, now := WriteElementMetadata(vault, s, d, folder, path, current, hostOk);
    notices := texts + more;
  }

  method WriteElementMetadata(vault: Vault, s: Settings, d: Value, folder: string, path: string, current: string, hostOk: bool)
    returns (notices: seq<string>, threw: bool, now: string)
    modifies vault
    ensures Utils.Run(vault.State(), notices, threw, now) == ElementMetadata(old(vault.State()), s, d, folder, path, current, hostOk)
  {
    if s.writeMetadata {
      var ok := AddMetadataToMarkdownFile(vault, Utils.MetadataOf(d), folder, path, hostOk);
      if !ok {
        return [], true, current;
      }
    }
    notices, threw, now := MoveOriginal(vault, s, folder, path, current);
  }

  method MoveOriginal(vault: Vault, s: Settings, folder: string, path: string, current: string)
    returns (notices: seq<string>, threw: bool, now: string)
    modifies vault
    ensures Utils.Run(vault.State(), notices, threw, now) == Move(old(vault.State()), s, folder, path, current)
  {
    notices, threw, now := [], false, current;
    if s.movePDFtoFolder {
      var newFilePath := folder + BaseName(path);
      var moved := vault.Rename(current, newFilePath);
      threw := !moved;
      if moved {
        now := newFilePath;
      }
    }
  }

  /** `processConversionResult` on the vault. */
  method ProcessConversionResult(vault: Vault, s: Settings, data: Value, folder: string, path: string, hostOk: bool)
    returns (notices: seq<string>, threw: bool, current: string)
    modifies vault
    ensures Utils.Run(vault.State(), notices, threw, current) == ProcessIn(old(vault.State()), s, data, folder, path, hostOk)
  {
    notices, threw, current := [], false, path;
    var elements := ElementsAsWritten(data);
    if elements.None? {
      threw := true;
      return;
    }
    var texts;
    texts, threw, current := WriteElements(vault, s, elements.value, folder, path, hostOk);
    notices := texts;
    if !threw && s.deleteOriginal {
      texts := DeleteOriginalFile(vault, current);
      notices := notices + texts;
    }
  }

  /** The `for...of` loop of `processConversionResult`. */
  method WriteElements(vault: Vault, s: Settings, items: seq<Value>, folder: string, path: string, hostOk: bool)
    returns (notices: seq<string>, threw: bool, current: string)
    modifies vault
    ensures Utils.Run(vault.State(), notices, threw, current) == Loop(old(vault.State()), s, items, folder, path, hostOk)
  {
    notices, threw, current := [], false, path;
    for i := 0 to |items|
      invariant Utils.Run(vault.State(), notices, false, current) == Loop(old(vault.State()), s, items[..i], folder, path, hostOk)
    {
      assert items[..i + 1][..i] == items[..i];
      var texts, failed, now := WriteElement(vault, s, items[i], folder, path, current, hostOk);
      notices, current := notices + texts, now;
      if failed {
        threw := true;
        LoopStopsAtThrow(old(vault.State()), s, items, i + 1, folder, path, hostOk);
        return;
      }
    }
    assert items[..|items|] == items;
  }

  // ---------------------------------------------------------------------
  // pollForConversionResult
  // ---------------------------------------------------------------------

  /** A reply as `requestUrl` hands it over by default: a status of 400 or more throws. */
  function Defaulted(reply: Reply): (r: Reply)
    ensures r.Reply? ==> r.status < 400
  {
    if reply.Reply? && reply.status >= 400 then Failed else reply
  }

  function DefaultedAll(replies: seq<Reply>): (r: seq<Reply>)
    ensures |r| == |replies| && forall i | 0 <= i < |replies| :: r[i] == Defaulted(replies[i])
  {
    seq(|replies|, i requires 0 <= i < |replies| => Defaulted(replies[i]))
  }

  /**
   * `pollForConversionResult`: the later generation's loop, with a status
   * of 400 or more throwing.
   */
  method PollForConversionResult(replies: seq<Reply>) returns (r: Option<Value>, requests: nat)
    requires |replies| == Utils.PollRetries + 1
    ensures r == Utils.PollResult(DefaultedAll(replies))
    ensures 1 <= requests <= Utils.PollRetries + 1
  {
    r, requests := Utils.PollForConversionResult(DefaultedAll(replies));
  }

  /**
   * At most 300 retries: when every reply is readable and none complete, the
   * loop makes all 301 GETs and returns the last data, unfinished.
   */
  lemma PollReturnsLast(replies: seq<Reply>)
    requires |replies| == Utils.PollRetries + 1
    requires forall i | 0 <= i < |replies| :: Utils.StillRunning(replies[i]) && replies[i].status < 400
    ensures Utils.PollResult(DefaultedAll(replies)) == Utils.Fetched(replies[Utils.PollRetries])
  {
    var ds := DefaultedAll(replies);
    assert forall i | 0 <= i < |ds| :: ds[i] == replies[i];
    assert ds == replies;
    Utils.PollStopsAt(replies, Utils.PollRetries);
  }

  // ---------------------------------------------------------------------
  // convertPDFToMD
  // ---------------------------------------------------------------------

  /** `convertPDFContent` with `fetch`: a status outside 200-299 or a body that is not JSON throws. */
  function ContentOutcome(reply: Reply): (r: Option<Value>)
    ensures r.Some? <==> reply.Reply? && 200 <= reply.status < 300 && reply.json.Some?
  {
    if reply.Reply? && 200 <= reply.status < 300 && reply.json.Some? then reply.json else None
  }

  /** `convertPDFToMD`: as the later generation's, with this generation's steps. */
  function PdfToMdIn(st: Store, s: Settings, path: string, probe: Reply, folderAnswer: bool, overwriteAnswer: bool,
                     content: Option<seq<byte>>, reply: Reply, hostOk: bool): (r: Conversion.Conversion)
    ensures !CheckSettings(s).0 ==> r == Conversion.Conversion(st, Conversion.Says(CheckSettings(s).1))
  {
    var (st1, b) := BeginIn(st, s, path, probe, folderAnswer, overwriteAnswer);
    PdfFromStart(st1, s, path, b, content, reply, hostOk)
  }

  /** Once the start is decided. */
  function PdfFromStart(st: Store, s: Settings, path: string, b: Conversion.Start, content: Option<seq<byte>>,
                        reply: Reply, hostOk: bool): Conversion.Conversion
  {
    match b
    case Halted(texts) => Conversion.Conversion(st, Conversion.Says(texts))
    case Faulted => Conversion.Conversion(st, [Conversion.Say(Conversion.PdfErrorNotice)])
    case Ready(folder) =>
      if content.None? then Conversion.Conversion(st, [Conversion.Say(Conversion.PdfErrorNotice)])
      else PdfConverted(st, s, path, folder, reply, hostOk)
  }

  /** From the progress notice on. */
  function PdfConverted(st: Store, s: Settings, path: string, folder: string, reply: Reply, hostOk: bool): Conversion.Conversion {
    var started := [Conversion.Say(Conversion.PdfProgress(s))];
    match ContentOutcome(reply)
    case None => Conversion.Conversion(st, started + [Conversion.Say(Conversion.PdfErrorNotice)])
    case Some(data) =>
      var run := ProcessIn(st, s, data, folder, path, hostOk);
      Conversion.Conversion(run.st, started + Conversion.Says(run.notices)
        + [Conversion.Say(if run.threw then Conversion.PdfErrorNotice else Conversion.PdfDoneNotice)])
  }

  /**
   * Once the file is read the conversion ends in exactly one verdict: the
   * completion notice when the server answered with JSON and every pass went
   * through (the vault is then what `processConversionResult` made of it),
   * the error notice otherwise.
   */
  lemma PdfVerdict(st: Store, s: Settings, path: string, folder: string, reply: Reply, hostOk: bool)
    ensures var r := PdfConverted(st, s, path, folder, reply, hostOk);
            && Last(r.notices) in {Conversion.Say(Conversion.PdfDoneNotice), Conversion.Say(Conversion.PdfErrorNotice)}
            && (Last(r.notices) == Conversion.Say(Conversion.PdfDoneNotice) <==>
                  ContentOutcome(reply).Some? && !ProcessIn(st, s, ContentOutcome(reply).value, folder, path, hostOk).threw)
            && (ContentOutcome(reply).Some? ==> r.st == ProcessIn(st, s, ContentOutcome(reply).value, folder, path, hostOk).st)
            && (ContentOutcome(reply).None? ==> r.st == st)
            && (ContentOutcome(reply).Some? && ContentOutcome(reply).value.Obj? ==>
                  Last(r.notices) == Conversion.Say(Conversion.PdfErrorNotice) && r.st == st)
  {
  }

  method ConvertPDFToMD(vault: Vault, s: Settings, path: string, probe: Reply, folderAnswer: bool, overwriteAnswer: bool,
                        content: Option<seq<byte>>, reply: Reply, hostOk: bool)
    returns (result: bool, notices: seq<Conversion.Notice>)
    modifies vault
    ensures result == CheckSettings(s).0
    ensures Conversion.Conversion(vault.State(), notices)
            == PdfToMdIn(old(vault.State()), s, path, probe, folderAnswer, overwriteAnswer, content, reply, hostOk)
  {
    result := CheckSettings(s).0;
    var b := Begin(vault, s, path, probe, folderAnswer, overwriteAnswer);
    notices := ContinuePdf(vault, s, path, b, content, reply, hostOk);
  }

  method ContinuePdf(vault: Vault, s: Settings, path: string, b: Conversion.Start, content: Option<seq<byte>>,
                     reply: Reply, hostOk: bool)
    returns (notices: seq<Conversion.Notice>)
    modifies vault
    ensures Conversion.Conversion(vault.State(), notices) == PdfFromStart(old(vault.State()), s, path, b, content, reply, hostOk)
  {
    match b
    case Halted(texts) => notices := Conversion.Says(texts);
    case Faulted => notices := [Conversion.Say(Conversion.PdfErrorNotice)];
    case Ready(folder) =>
      if content.None? {
        notices := [Conversion.Say(Conversion.PdfErrorNotice)];
      } else {
        notices := ConvertContent(vault, s, path, folder, reply, hostOk);
      }
  }

  /** From the progress notice on, on the vault. */
  method ConvertContent(vault: Vault, s: Settings, path: string, folder: string, reply: Reply, hostOk: bool)
    returns (notices: seq<Conversion.Notice>)
    modifies vault
    ensures Conversion.Conversion(vault.State(), notices) == PdfConverted(old(vault.State()), s, path, folder, reply, hostOk)
  {
    notices := [Conversion.Say(Conversion.PdfProgress(s))];
    var data := ContentOutcome(reply);
    if data.None? {
      notices := notices + [Conversion.Say(Conversion.PdfErrorNotice)];
    } else {
      var texts, threw, current := ProcessConversionResult(vault, s, data.value, folder, path, hostOk);
      notices := notices + Conversion.Says(texts)
                 + [Conversion.Say(if threw then Conversion.PdfErrorNotice else Conversion.PdfDoneNotice)];
    }
  }

  // ---------------------------------------------------------------------
  // convertWithDatalab
  // ---------------------------------------------------------------------

  /** An entry of the form: the file, or a text field. */
  datatype FormEntry = FileEntry(name: string, contentType: string, fileName: string) | TextEntry(name: string, value: string)

  /** The file entry for the extension: its field is named after the type's family; none for any other type. */
  function FileEntries(ext: string, fileName: string): seq<FormEntry> {
    if ext == "pdf" then [FileEntry("pdf_file", Conversion.LegacyContentType(ext), fileName)]
    else if ext == "docx" || ext == "doc" then [FileEntry("docx_file", Conversion.LegacyContentType(ext), fileName)]
    else if ext == "pptx" || ext == "ppt" then [FileEntry("pptx_file", Conversion.LegacyContentType(ext), fileName)]
    else []
  }

  /** The four text fields, in the order they are appended. */
  function FieldEntries(s: Settings): seq<FormEntry> {
    [ TextEntry("extract_images", if s.extractContent != "text" then "true" else "false"),
      TextEntry("langs", s.langs.GetOr("en")),
      TextEntry("force_ocr", Conversion.Flag(s.forceOCR)),
      TextEntry("paginate", Conversion.Flag(s.paginate)) ]
  }

  /** The form: the file entry, then the four fields. */
  function FormEntries(s: Settings, path: string): seq<FormEntry> {
    FileEntries(Extension(path), BaseName(path)) + FieldEntries(s)
  }

  /** The document types the form has a file entry for. */
  predicate DocumentType(ext: string) {
    ext == "pdf" || ext == "docx" || ext == "doc" || ext == "pptx" || ext == "ppt"
  }

  /**
   * Only a file of the five document types is sent, with the type the later
   * generation sends it with.
   */
  lemma FileEntriesAgree(ext: string, fileName: string)
    ensures |FileEntries(ext, fileName)| == 1 <==> DocumentType(ext)
    ensures !DocumentType(ext) ==> FileEntries(ext, fileName) == []
    ensures DocumentType(ext) ==> FileEntries(ext, fileName)[0].contentType == Datalab.ContentType(ext)
                                  && FileEntries(ext, fileName)[0].fileName == fileName
  {
    if ext == "pdf" {
    } else if ext == "docx" || ext == "doc" {
      Conversion.LegacyContentTypeAgrees(ext);
    } else if ext == "pptx" || ext == "ppt" {
      Conversion.LegacyContentTypeAgrees(ext);
    }
  }

  /** After the file entry come four fields carrying the later generation's four field values. */
  lemma FormFieldsAgree(boundary: string, s: Settings, path: string)
    ensures var es := FormEntries(s, path);
            var k := |FileEntries(Extension(path), BaseName(path))|;
            && |es| == k + 4
            && forall i | 0 <= i < 4 :: es[k + i].TextEntry? && Conversion.DatalabFieldTexts(boundary, s)[i]
                                         == Multipart.FieldPart(boundary, es[k + i].name, es[k + i].value)
  {
    var fields := FieldEntries(s);
    Halves(FileEntries(Extension(path), BaseName(path)), fields);
    var ts := Conversion.DatalabFieldTexts(boundary, s);
    assert forall i | 0 <= i < 4 :: fields[i].TextEntry? && ts[i] == Multipart.FieldPart(boundary, fields[i].name, fields[i].value);
  }

  /** What the upload's reply leads to: data to poll for, a refusal with its message, or a throw. */
  datatype Submitted = Accepted(data: Value) | Refused(message: string) | SubmitThrew

  /**
   * The reply as written: `requestUrl` throws for a status of 400 or more,
   * so only a 200 with a JSON body gets through; any other status throws.
   */
  function SubmitAsWritten(reply: Reply): (r: Submitted)
    ensures !r.Refused?
    ensures r.Accepted? <==> reply.Reply? && reply.status == 200 && reply.json.Some?
  {
    match reply
    case Failed => SubmitThrew
    case Reply(status, _, json) =>
      if status >= 400 then SubmitThrew
      else if status == 200 && json.Some? then Accepted(json.value)
      else SubmitThrew
  }

  /**
   * The reply as the 422 branch intends it: a 422 posts the server's
   * `detail.msg`; reading it throws when the body is not JSON or its
   * `detail` is null or undefined.
   */
  function Submit(reply: Reply): (r: Submitted)
    ensures reply.Reply? && reply.status != 422 ==> r == SubmitAsWritten(reply)
  {
    match reply
    case Failed => SubmitThrew
    case Reply(status, _, json) =>
      if status == 422 then
        if json.None? || json.value.Nullish() || Prop(json.value, "detail").Nullish() then SubmitThrew
        else Refused("Failed! Err: " + Display(Prop(Prop(json.value, "detail"), "msg")))
      else SubmitAsWritten(reply)
  }

  /** As written, no reply is ever refused with the server's message: a 422 throws first. */
  lemma SubmitAsWrittenNeverRefuses(reply: Reply)
    ensures !SubmitAsWritten(reply).Refused?
    ensures reply.Reply? && reply.status == 422 ==> SubmitAsWritten(reply) == SubmitThrew
  {
  }

  /** With the 422 branch reachable, a 422 whose `detail` is readable posts its message and polls nothing. */
  lemma SubmitRefuses(reply: Reply)
    requires reply.Reply? && reply.status == 422 && reply.json.Some?
    requires !reply.json.value.Nullish() && !Prop(reply.json.value, "detail").Nullish()
    ensures Submit(reply) == Refused("Failed! Err: " + Display(Prop(Prop(reply.json.value, "detail"), "msg")))
  {
  }

  /**
   * `convertWithDatalab`: the upload's reply, then polling, then
   * `processConversionResult`. Anything that throws ends in the one error
   * notice; a refusal posts its message and nothing else.
   */
  function DatalabIn(st: Store, s: Settings, path: string, probe: Reply, folderAnswer: bool, overwriteAnswer: bool,
                     content: Option<seq<byte>>, reply: Reply, polls: seq<Reply>, hostOk: bool): (r: Conversion.Conversion)
    requires |polls| == Utils.PollRetries + 1
    ensures !CheckSettings(s).0 ==> r == Conversion.Conversion(st, Conversion.Says(CheckSettings(s).1))
  {
    var (st1, b) := BeginIn(st, s, path, probe, folderAnswer, overwriteAnswer);
    DatalabFromStart(st1, s, path, b, content, reply, polls, hostOk)
  }

  /** Once the start is decided. */
  function DatalabFromStart(st: Store, s: Settings, path: string, b: Conversion.Start, content: Option<seq<byte>>,
                            reply: Reply, polls: seq<Reply>, hostOk: bool): Conversion.Conversion
    requires |polls| == Utils.PollRetries + 1
  {
    match b
    case Halted(texts) => Conversion.Conversion(st, Conversion.Says(texts))
    case Faulted => Conversion.Conversion(st, [Conversion.Say(Conversion.PdfErrorNotice)])
    case Ready(folder) =>
      if content.None? then Conversion.Conversion(st, [Conversion.Say(Conversion.PdfErrorNotice)])
      else
        var r := DatalabSubmitted(st, s, path, folder, reply, polls, hostOk);
        Conversion.Conversion(r.st, [Conversion.Say(Conversion.FileProgress(s))] + r.notices)
  }

  /** From the upload's reply on (after the progress notice). */
  function DatalabSubmitted(st: Store, s: Settings, path: string, folder: string, reply: Reply, polls: seq<Reply>, hostOk: bool)
    : (r: Conversion.Conversion)
    requires |polls| == Utils.PollRetries + 1
    ensures !SubmitAsWritten(reply).Accepted? ==> r == Conversion.Conversion(st, [Conversion.Say(Conversion.PdfErrorNotice)])
    ensures |r.notices| > 0 && Last(r.notices) in {Conversion.Say(Conversion.PdfErrorNotice), Conversion.Say(Conversion.PdfDoneNotice)}
  {
    var submitted := SubmitAsWritten(reply);
    if !submitted.Accepted? then Conversion.Conversion(st, [Conversion.Say(Conversion.PdfErrorNotice)])
    else
      var data := submitted.data;
      var polled := Utils.PollResult(DefaultedAll(polls));
      if data.Nullish() || polled.None? then Conversion.Conversion(st, [Conversion.Say(Conversion.PdfErrorNotice)])
      else
        var run := ProcessIn(st, s, polled.value, folder, path, hostOk);
        Conversion.Conversion(run.st, Conversion.Says(run.notices)
          + [Conversion.Say(if run.threw then Conversion.PdfErrorNotice else Conversion.PdfDoneNotice)])
  }

  /**
   * As written, a Datalab run whose poll ends in a result object throws in
   * the loop: it ends in the error notice alone, with the vault as the
   * upload found it.
   */
  lemma CompletedRunFails(st: Store, s: Settings, path: string, folder: string, reply: Reply, polls: seq<Reply>, hostOk: bool)
    requires |polls| == Utils.PollRetries + 1
    requires Utils.PollResult(DefaultedAll(polls)).Some? && Utils.PollResult(DefaultedAll(polls)).value.Obj?
    ensures DatalabSubmitted(st, s, path, folder, reply, polls, hostOk) == Conversion.Conversion(st, [Conversion.Say(Conversion.PdfErrorNotice)])
  {
    var v := Utils.PollResult(DefaultedAll(polls)).value;
    assert ProcessIn(st, s, v, folder, path, hostOk) == Utils.Run(st, [], true, path);
    assert Conversion.Says([]) == [];
  }

  /**
   * As intended, a finished Datalab result is one document, materialised as
   * the later generation materialises a result it has understood.
   */
  lemma DatalabResultIsOneDocument(st: Store, s: Settings, v: Value, folder: string, path: string, hostOk: bool)
    requires Completed(v)
    ensures ProcessIntendedIn(st, s, v, folder, path, hostOk) == Utils.Materialise(st, s, v, folder, path, hostOk)
    ensures ProcessIn(st, s, v, folder, path, hostOk).threw
  {
    CompletedResultNotIterable(v);
    OneDocumentAgrees(st, s, v, folder, path, hostOk);
  }

  method ConvertWithDatalab(vault: Vault, s: Settings, path: string, probe: Reply, folderAnswer: bool, overwriteAnswer: bool,
                            content: Option<seq<byte>>, reply: Reply, polls: seq<Reply>, hostOk: bool)
    returns (result: bool, notices: seq<Conversion.Notice>, form: Option<seq<FormEntry>>)
    requires |polls| == Utils.PollRetries + 1
    modifies vault
    ensures result == CheckSettings(s).0
    ensures Conversion.Conversion(vault.State(), notices)
            == DatalabIn(old(vault.State()), s, path, probe, folderAnswer, overwriteAnswer, content, reply, polls, hostOk)
    ensures form.Some? ==> form.value == FormEntries(s, path)
  {
    result := CheckSettings(s).0;
    var b := Begin(vault, s, path, probe, folderAnswer, overwriteAnswer);
    notices, form := ContinueDatalab(vault, s, path, b, content, reply, polls, hostOk);
  }

  method ContinueDatalab(vault: Vault, s: Settings, path: string, b: Conversion.Start, content: Option<seq<byte>>,
                         reply: Reply, polls: seq<Reply>, hostOk: bool)
    returns (notices: seq<Conversion.Notice>, form: Option<seq<FormEntry>>)
    requires |polls| == Utils.PollRetries + 1
    modifies vault
    ensures Conversion.Conversion(vault.State(), notices)
            == DatalabFromStart(old(vault.State()), s, path, b, content, reply, polls, hostOk)
    ensures form.Some? ==> form.value == FormEntries(s, path)
  {
    form := None;
    match b
    case Halted(texts) => notices := Conversion.Says(texts);
    case Faulted => notices := [Conversion.Say(Conversion.PdfErrorNotice)];
    case Ready(folder) =>
      if content.None? {
        notices := [Conversion.Say(Conversion.PdfErrorNotice)];
      } else {
        form := Some(FormEntries(s, path));
        var rest := SubmitToDatalab(vault, s, path, folder, reply, polls, hostOk);
        notices := [Conversion.Say(Conversion.FileProgress(s))] + rest;
      }
  }

  method SubmitToDatalab(vault: Vault, s: Settings, path: string, folder: string, reply: Reply, polls: seq<Reply>, hostOk: bool)
    returns (notices: seq<Conversion.Notice>)
    requires |polls| == Utils.PollRetries + 1
    modifies vault
    ensures Conversion.Conversion(vault.State(), notices) == DatalabSubmitted(old(vault.State()), s, path, folder, reply, polls, hostOk)
  {
    var submitted := SubmitAsWritten(reply);
    if !submitted.Accepted? {
      return [Conversion.Say(Conversion.PdfErrorNotice)];
    }
    var data := submitted.data;
    if data.Nullish() {
      return [Conversion.Say(Conversion.PdfErrorNotice)];
    }
    var polled, requests := PollForConversionResult(polls);
    if polled.None? {
      return [Conversion.Say(Conversion.PdfErrorNotice)];
    }
    var texts, threw, current := ProcessConversionResult(vault, s, polled.value, folder, path, hostOk);
    notices := Conversion.Says(texts)
               + [Conversion.Say(if threw then Conversion.PdfErrorNotice else Conversion.PdfDoneNotice)];
  }
}
