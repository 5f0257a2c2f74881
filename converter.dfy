/**
 * `BaseConverter` (src/converter.ts): the gates before a conversion and the
 * materialisation of a conversion result into the vault, shared by the
 * current converter classes.
 *
 * The result is the untyped object the converters build (`success`,
 * `error`, `markdown`, `images`, `metadata`). The whole materialisation runs
 * in one `try`: an error thrown by a stage skips the stages after it and
 * posts a "failed to process" notice naming that stage.
 */
module Converter {
  import opened Wrappers
  import opened Text
  import opened Js
  import opened Settings
  import SettingsUtils
  import opened Host
  import opened FileUtils

  /** The stages whose errors escape to the outer `catch`. */
  datatype Stage = MakeFolder | WriteMarkdown | MakeAssets | WriteMetadata

  /**
   * A notice shown to the user; `ProcessingFailed(stage)` is
   * "Error: Failed to process conversion result - <message>" for the error
   * thrown by `stage`.
   */
  datatype Notice = Say(text: string) | ProcessingFailed(stage: Stage)

  datatype Outcome = Rejected | Aborted(stage: Stage) | Done

  /** The vault afterwards, the notices in order, how the run ended, and the original's path. */
  datatype Report = Report(st: Store, notices: seq<Notice>, outcome: Outcome, current: string)

  function Says(texts: seq<string>): (r: seq<Notice>)
    ensures |r| == |texts| && forall i | 0 <= i < |r| :: r[i] == Say(texts[i])
  {
    seq(|texts|, i requires 0 <= i < |texts| => Say(texts[i]))
  }

  const MoveFailedNotice := "Error: Failed to move original file to target folder"

  // ---------------------------------------------------------------------
  // prepareConversion
  // ---------------------------------------------------------------------

  /**
   * `prepareConversion`: the settings check, then the connection test
   * (`connected` is its answer), then the folder path. Returns the folder
   * path, or None, and whether the connection was tested.
   */
  function PrepareConversion(s: Settings, path: string, connected: bool): (r: (Option<string>, bool))
    ensures !ValidMode(s.extractContent) ==> r == (None, false)
    ensures ValidMode(s.extractContent) ==> r.1
    ensures r.0.Some? <==> ValidMode(s.extractContent) && connected
    ensures r.0.Some? ==> r.0.value == CalculateFolderPath(path)
  {
    if !SettingsUtils.CheckSettings(s).0 then (None, false)
    else if !connected then (None, true)
    else (Some(GetConversionFolderPath(path, None)), true)
  }

  /**
   * `if (!folderPath) return false;` in every converter: the folder the
   * conversion goes on with, None when `prepareConversion` gave null or ''.
   */
  function PreparedFolder(s: Settings, path: string, connected: bool): (r: Option<string>)
    ensures r.Some? <==> ValidMode(s.extractContent) && connected && CalculateFolderPath(path) != ""
    ensures r.Some? ==> r.value == CalculateFolderPath(path)
  {
    var f := PrepareConversion(s, path, connected).0;
    if f.Some? && f.value != "" then f else None
  }

  /** Where `convert` stops before submitting, with its answer, or the folder it goes on with. */
  datatype Gate = Stop(result: bool) | Proceed(folder: string)

  /** Modes in which `convert` asks before writing into a folder that has files. */
  predicate WritesImages(s: Settings) {
    s.extractContent == "images" || s.extractContent == "all"
  }

  /**
   * How the converters that write into an existing folder open `convert`:
   * `prepareConversion` (settings, then the connection), then in 'images'
   * and 'all' modes the overwrite prompt when the folder already holds files
   * (`hasFiles`), whose reply is `answer`. A declined prompt ends the
   * conversion with true.
   */
  function OverwriteGate(s: Settings, path: string, connected: bool, hasFiles: bool, answer: bool): (r: Gate)
    ensures PreparedFolder(s, path, connected).None? ==> r == Stop(false)
    ensures r == Stop(true) <==> PreparedFolder(s, path, connected).Some? && WritesImages(s) && hasFiles && !answer
    ensures r.Proceed? <==> PreparedFolder(s, path, connected).Some? && !(WritesImages(s) && hasFiles && !answer)
    ensures r.Proceed? ==> r.folder == CalculateFolderPath(path)
  {
    match PreparedFolder(s, path, connected)
    case None => Stop(false)
    case Some(folder) => if WritesImages(s) && hasFiles && !answer then Stop(true) else Proceed(folder)
  }

  // ---------------------------------------------------------------------
  // processConversionResult
  // ---------------------------------------------------------------------

  /** `Conversion failed: ${data?.error || 'Unknown error'}`. */
  function RejectedNotice(data: Value): string {
    "Conversion failed: " + Display(Or(Prop(data, "error"), Str("Unknown error")))
  }

  /** `!data || !data.success`. */
  predicate Unsuccessful(data: Value) {
    !Truthy(data) || !Truthy(Prop(data, "success"))
  }

  /**
   * The markdown stage: runs unless the mode is 'images' or `markdown` is
   * falsy (an empty string writes nothing). A markdown value that is not a
   * string makes it throw.
   */
  function MarkdownStage(st: Store, s: Settings, data: Value, folder: string, path: string): (r: (Store, seq<string>, bool))
    ensures var md := Prop(data, "markdown");
            var target := folder + MarkdownFileName(path);
            && (s.ImagesOnly() || !Truthy(md) ==> r == (st, [], true))
            && (!r.2 <==> !s.ImagesOnly() && Truthy(md) && (!md.Str? || st.IsFolder(target)))
            && (!r.2 ==> r.0 == st)
            && (!s.ImagesOnly() && Truthy(md) && r.2 ==>
                  md.Str? && md.s != "" &&
                  r.0.entries == st.entries[Key(target) := TextFile(TransformMarkdown(s, BaseName(path), md.s))] &&
                  r.1 == ["Markdown file created: " + MarkdownFileName(path)])
  {
    var md := Prop(data, "markdown");
    if s.ImagesOnly() || !Truthy(md) then (st, [], true)
    else if !md.Str? then (st, [], false)
    else
      var (st1, ok) := MarkdownIn(st, s, md.s, folder, path);
      (st1, if ok then ["Markdown file created: " + MarkdownFileName(path)] else [], ok)
  }

  /** The folder images are written to. */
  function ImageFolder(s: Settings, folder: string): string {
    if s.createAssetSubfolder then folder + "assets/" else folder
  }

  /** The image map when the image stage runs: not 'text' mode and a non-empty map. */
  function ImagesToWrite(s: Settings, data: Value): (r: Option<seq<Member>>)
    ensures r.None? <==> s.TextOnly() || !Truthy(Prop(data, "images")) || Js.Entries(Prop(data, "images")).value == []
    ensures r.Some? ==> r.value == Js.Entries(Prop(data, "images")).value
  {
    var imgs := Prop(data, "images");
    if s.TextOnly() || !Truthy(imgs) then None
    else
      var entries := Js.Entries(imgs).value;
      if |entries| == 0 then None else Some(entries)
  }

  /**
   * The image stage: with an asset subfolder, "assets/" is created unless a
   * folder is already there (creating it throws when a file is); then the
   * images are saved.
   */
  function ImagesStage(st: Store, s: Settings, data: Value, folder: string, path: string): (r: (Store, seq<string>, bool))
    ensures ImagesToWrite(s, data).None? ==> r == (st, [], true)
    ensures !r.2 <==> ImagesToWrite(s, data).Some? && s.createAssetSubfolder && st.IsFile(folder + "assets")
    ensures !r.2 ==> r.0 == st
    ensures ImagesToWrite(s, data).Some? && s.createAssetSubfolder && r.2 ==> r.0.IsFolder(folder + "assets")
    ensures ImagesToWrite(s, data).Some? && r.2 ==>
              var images := ImagesToWrite(s, data).value;
              var st1 := if s.createAssetSubfolder && !st.IsFolder(folder + "assets")
                         then st.(entries := st.entries[folder + "assets" := Folder],
                                  log := st.log + [MadeFolder(folder + "assets")])
                         else st;
              r.0 == ImagesIn(st1, s, images, ImageFolder(s, folder), path).0
  {
    match ImagesToWrite(s, data)
    case None => (st, [], true)
    case Some(images) =>
      assert Key(folder + "assets/") == folder + "assets" by {
        assert (folder + "assets/")[..|folder| + 6] == folder + "assets";
      }
      var (st1, ok) := if s.createAssetSubfolder && !st.IsFolder(folder + "assets")
                       then CreateFolderIn(st, folder + "assets/") else (st, true);
      if !ok then (st1, [], false)
      else
        var (st2, n) := ImagesIn(st1, s, images, ImageFolder(s, folder), path);
        ImagesKeepFolders(st1, s, images, ImageFolder(s, folder), path);
        (st2, [ImagesNotice(n, |images|)], true)
  }

  /** The metadata stage: runs when `writeMetadata` is set and `metadata` is truthy. */
  function MetadataStage(st: Store, s: Settings, data: Value, folder: string, path: string, hostOk: bool): (r: (Store, bool))
    ensures !(s.writeMetadata && Truthy(Prop(data, "metadata"))) ==> r == (st, true)
    ensures r.0.entries == st.entries
  {
    var meta := Prop(data, "metadata");
    if s.writeMetadata && Truthy(meta) then AddMetadataIn(st, meta, folder, path, hostOk) else (st, true)
  }

  /**
   * Moving and deleting the original: a failed move is caught and reported,
   * and deletion is attempted either way, on the file where it now is.
   */
  function FinishStage(st: Store, s: Settings, folder: string, path: string): (r: (Store, seq<string>, string))
  {
    var (st1, moved) := if s.movePDFtoFolder then RenameIn(st, path, folder + BaseName(path)) else (st, false);
    var current := if moved then folder + BaseName(path) else path;
    var moveNotices := if s.movePDFtoFolder && !moved then [MoveFailedNotice] else [];
    if s.deleteOriginal then
      var (st2, deleteNotices) := DeleteOriginalIn(st1, current);
      (st2, moveNotices + deleteNotices, current)
    else (st1, moveNotices, current)
  }

  /**
   * With `deleteOriginal` set, the original ends up in the trash whether or
   * not it was moved first, and nothing is left at the move target.
   */
  lemma DeleteAfterMove(st: Store, s: Settings, folder: string, path: string)
    requires s.deleteOriginal && st.IsFile(path)
    ensures var r := FinishStage(st, s, folder, path);
            r.0.entries == st.entries - {Key(path)} &&
            |r.1| > 0 && r.1[|r.1| - 1] == "Original PDF file deleted"
  {
    var to := folder + BaseName(path);
    if s.movePDFtoFolder && RenameIn(st, path, to).1 {
      var st1 := RenameIn(st, path, to).0;
      assert Key(to) != Key(path);
      assert st1.IsFile(to);
      assert (st.entries - {Key(path)})[Key(to) := st.entries[Key(path)]] - {Key(to)} == st.entries - {Key(path)};
    }
  }

  /** With `deleteOriginal` set, nothing is left where the original ended up. */
  lemma FinishLeavesNoOriginal(st: Store, s: Settings, folder: string, path: string)
    requires s.deleteOriginal
    ensures var r := FinishStage(st, s, folder, path);
            !r.0.IsFile(r.2)
  {
  }

  /** A failed move is reported, and the deletion that follows works on the original path. */
  lemma FailedMoveReported(st: Store, s: Settings, folder: string, path: string)
    requires s.movePDFtoFolder && !RenameIn(st, path, folder + BaseName(path)).1
    ensures var r := FinishStage(st, s, folder, path);
            && |r.1| > 0 && r.1[0] == MoveFailedNotice
            && r.2 == path
            && r.0 == (if s.deleteOriginal then DeleteOriginalIn(st, path).0 else st)
  {
  }

  /** A successful move without deletion leaves the original under the folder. */
  lemma MovedIntoFolder(st: Store, s: Settings, folder: string, path: string)
    requires s.movePDFtoFolder && !s.deleteOriginal && RenameIn(st, path, folder + BaseName(path)).1
    ensures var r := FinishStage(st, s, folder, path);
            && r.2 == folder + BaseName(path)
            && r.1 == []
            && r.0.IsFile(folder + BaseName(path)) && !r.0.Exists(path)
  {
  }

  /** The notices `texts` posted before the rest of the run `r`. */
  function Said(texts: seq<string>, r: Report): Report {
    r.(notices := Says(texts) + r.notices)
  }

  /** `processConversionResult`. */
  function ProcessIn(st: Store, s: Settings, data: Value, folder: string, path: string, hostOk: bool): (r: Report)
    ensures Unsuccessful(data) ==> r.st == st && r.outcome == Rejected
  {
    if Unsuccessful(data) then Report(st, [Say(RejectedNotice(data))], Rejected, path)
    else
      var (st1, ok1) := EnsureFolderIn(st, folder);
      if !ok1 then Report(st1, [ProcessingFailed(MakeFolder)], Aborted(MakeFolder), path)
      else Materialise(st1, s, data, folder, path, hostOk)
  }

  /** Everything after the conversion folder is ensured. */
  function Materialise(st: Store, s: Settings, data: Value, folder: string, path: string, hostOk: bool): Report {
    var (st1, texts, ok) := MarkdownStage(st, s, data, folder, path);
    if !ok then Report(st1, Says(texts) + [ProcessingFailed(WriteMarkdown)], Aborted(WriteMarkdown), path)
    else Said(texts, AfterMarkdown(st1, s, data, folder, path, hostOk))
  }

  /** Everything after the markdown stage. */
  function AfterMarkdown(st: Store, s: Settings, data: Value, folder: string, path: string, hostOk: bool): Report {
    var (st1, texts, ok) := ImagesStage(st, s, data, folder, path);
    if !ok then Report(st1, Says(texts) + [ProcessingFailed(MakeAssets)], Aborted(MakeAssets), path)
    else Said(texts, AfterImages(st1, s, data, folder, path, hostOk))
  }

  /** Everything after the image stage. */
  function AfterImages(st: Store, s: Settings, data: Value, folder: string, path: string, hostOk: bool): Report {
    var (st1, ok) := MetadataStage(st, s, data, folder, path, hostOk);
    if !ok then Report(st1, [ProcessingFailed(WriteMetadata)], Aborted(WriteMetadata), path)
    else
      var (st2, texts, current) := FinishStage(st1, s, folder, path);
      Report(st2, Says(texts), Done, current)
  }

  method WriteMarkdownStep(vault: Vault, s: Settings, data: Value, folder: string, path: string)
    returns (texts: seq<string>, ok: bool)
    modifies vault
    ensures (vault.State(), texts, ok) == MarkdownStage(old(vault.State()), s, data, folder, path)
  {
    texts, ok := [], true;
    var md := Prop(data, "markdown");
    if !s.ImagesOnly() && Truthy(md) {
      if !md.Str? {
        ok := false;
      } else {
        ok, texts := CreateMarkdownFile(vault, s, md.s, folder, path);
      }
    }
  }

  method WriteImagesStep(vault: Vault, s: Settings, data: Value, folder: string, path: string)
    returns (texts: seq<string>, ok: bool)
    modifies vault
    ensures (vault.State(), texts, ok) == ImagesStage(old(vault.State()), s, data, folder, path)
  {
    texts, ok := [], true;
    var images := ImagesToWrite(s, data);
    if images.Some? {
      var imageFolder := folder;
      if s.createAssetSubfolder {
        if !vault.IsFolder(folder + "assets") {
          ok := vault.CreateFolder(folder + "assets/");
          if !ok {
            return;
          }
        }
        imageFolder := imageFolder + "assets/";
      }
      var notice := CreateImageFiles(vault, s, images.value, imageFolder, path);
      texts := [notice];
    }
  }

  method FinishStep(vault: Vault, s: Settings, folder: string, path: string)
    returns (texts: seq<string>, current: string)
    modifies vault
    ensures (vault.State(), texts, current) == FinishStage(old(vault.State()), s, folder, path)
  {
    texts, current := [], path;
    if s.movePDFtoFolder {
      var newPath := folder + BaseName(path);
      var moved := vault.Rename(current, newPath);
      if moved {
        current := newPath;
      } else {
        texts := [MoveFailedNotice];
      }
    }
    if s.deleteOriginal {
      var deleted := DeleteOriginalFile(vault, current);
      texts := texts + deleted;
    }
  }

  /** `processConversionResult`, step by step on the vault. */
  method ProcessConversionResult(vault: Vault, s: Settings, data: Value, folder: string, path: string, hostOk: bool)
    returns (notices: seq<Notice>, outcome: Outcome, current: string)
    modifies vault
    ensures Report(vault.State(), notices, outcome, current) == ProcessIn(old(vault.State()), s, data, folder, path, hostOk)
  {
    current := path;
    if Unsuccessful(data) {
      notices, outcome := [Say(RejectedNotice(data))], Rejected;
      return;
    }
    var ok := CreateConversionFolder(vault, folder);
    if !ok {
      notices, outcome := [ProcessingFailed(MakeFolder)], Aborted(MakeFolder);
      return;
    }
    var markdownTexts, imageTexts, finishTexts;
    markdownTexts, ok := WriteMarkdownStep(vault, s, data, folder, path);
    if !ok {
      notices, outcome := Says(markdownTexts) + [ProcessingFailed(WriteMarkdown)], Aborted(WriteMarkdown);
      return;
    }
    imageTexts, ok := WriteImagesStep(vault, s, data, folder, path);
    if !ok {
      notices, outcome := Says(markdownTexts) + (Says(imageTexts) + [ProcessingFailed(MakeAssets)]), Aborted(MakeAssets);
      return;
    }
    var meta := Prop(data, "metadata");
    if s.writeMetadata && Truthy(meta) {
      ok := AddMetadataToMarkdownFile(vault, meta, folder, path, hostOk);
      if !ok {
        notices, outcome := Says(markdownTexts) + (Says(imageTexts) + [ProcessingFailed(WriteMetadata)]), Aborted(WriteMetadata);
        return;
      }
    }
    finishTexts, current := FinishStep(vault, s, folder, path);
    notices, outcome := Says(markdownTexts) + (Says(imageTexts) + Says(finishTexts)), Done;
  }

  // ---------------------------------------------------------------------
  // The order of the effects
  // ---------------------------------------------------------------------

  /**
   * The stage a logged mutation belongs to, numbered in the order the stages
   * run: conversion folder, markdown, assets folder, images, metadata,
   * move, delete.
   */
  function Rank(op: Op, folder: string): nat {
    match op
    case MadeFolder(p) => if p == Key(folder) then 0 else 2
    case Created(_, _) => 1
    case Modified(_, _) => 1
    case CreatedBinary(_, _) => 3
    case ModifiedBinary(_, _) => 3
    case FrontMatterAdded(_, _) => 4
    case Renamed(_, _) => 5
    case Trashed(_) => 6
  }

  /** `b` is `a` followed by mutations of stage `k` only. */
  ghost predicate Adds(a: seq<Op>, b: seq<Op>, folder: string, k: nat) {
    |a| <= |b| && b[..|a|] == a && forall i | |a| <= i < |b| :: Rank(b[i], folder) == k
  }

  /** `log` extends `base` by mutations in stage order, none of a stage after `k`. */
  ghost predicate OrderedFrom(log: seq<Op>, base: seq<Op>, folder: string, k: nat) {
    |base| <= |log| && log[..|base|] == base &&
    (forall i | |base| <= i < |log| :: Rank(log[i], folder) <= k) &&
    (forall i, j | |base| <= i < j < |log| :: Rank(log[i], folder) <= Rank(log[j], folder))
  }

  lemma AddsInOrder(a: seq<Op>, b: seq<Op>, base: seq<Op>, folder: string, k: nat, k2: nat)
    requires OrderedFrom(a, base, folder, k) && k <= k2 && Adds(a, b, folder, k2)
    ensures OrderedFrom(b, base, folder, k2)
  {
    assert forall i | 0 <= i < |a| :: b[i] == a[i] by {
      forall i | 0 <= i < |a| ensures b[i] == a[i] { assert b[..|a|][i] == b[i]; }
    }
    assert b[..|base|] == a[..|base|];
  }

  lemma FolderAdds(st: Store, folder: string)
    ensures Adds(st.log, EnsureFolderIn(st, folder).0.log, folder, 0)
  {
  }

  lemma MarkdownAdds(st: Store, s: Settings, data: Value, folder: string, path: string)
    ensures Adds(st.log, MarkdownStage(st, s, data, folder, path).0.log, folder, 1)
  {
  }

  lemma {:induction false} ImagesAdd(st: Store, s: Settings, images: seq<Member>, into: string, path: string, folder: string)
    ensures Adds(st.log, ImagesIn(st, s, images, into, path).0.log, folder, 3)
    decreases |images|
  {
    if images != [] {
      var st1 := ImagesIn(st, s, images[..|images| - 1], into, path).0;
      ImagesAdd(st, s, images[..|images| - 1], into, path, folder);
      AddsInOrder(st1.log, ImagesIn(st, s, images, into, path).0.log, st.log, folder, 3, 3);
    }
  }

  lemma ImagesStageInOrder(st: Store, base: seq<Op>, s: Settings, data: Value, folder: string, path: string)
    requires OrderedFrom(st.log, base, folder, 1)
    ensures OrderedFrom(ImagesStage(st, s, data, folder, path).0.log, base, folder, 3)
  {
    var r := ImagesStage(st, s, data, folder, path);
    match ImagesToWrite(s, data)
    case None =>
    case Some(images) =>
      var assets := folder + "assets";
      assert |assets| > |Key(folder)|;
      var st1 := if s.createAssetSubfolder && !st.IsFolder(assets)
                 then st.(entries := st.entries[assets := Folder], log := st.log + [MadeFolder(assets)])
                 else st;
      AddsInOrder(st.log, st1.log, base, folder, 1, 2);
      if r.2 {
        ImagesAdd(st1, s, images, ImageFolder(s, folder), path, folder);
        AddsInOrder(st1.log, r.0.log, base, folder, 2, 3);
      }
  }

  lemma FinishInOrder(st: Store, base: seq<Op>, s: Settings, folder: string, path: string)
    requires OrderedFrom(st.log, base, folder, 4)
    ensures OrderedFrom(FinishStage(st, s, folder, path).0.log, base, folder, 6)
  {
    var st1 := if s.movePDFtoFolder then RenameIn(st, path, folder + BaseName(path)).0 else st;
    AddsInOrder(st.log, st1.log, base, folder, 4, 5);
    AddsInOrder(st1.log, FinishStage(st, s, folder, path).0.log, base, folder, 5, 6);
  }

  lemma AfterImagesInOrder(st: Store, base: seq<Op>, s: Settings, data: Value, folder: string, path: string, hostOk: bool)
    requires OrderedFrom(st.log, base, folder, 3)
    ensures OrderedFrom(AfterImages(st, s, data, folder, path, hostOk).st.log, base, folder, 6)
  {
    var (st1, ok) := MetadataStage(st, s, data, folder, path, hostOk);
    AddsInOrder(st.log, st1.log, base, folder, 3, 4);
    if ok {
      FinishInOrder(st1, base, s, folder, path);
    } else {
      AddsInOrder(st1.log, st1.log, base, folder, 4, 6);
    }
  }

  lemma AfterMarkdownInOrder(st: Store, base: seq<Op>, s: Settings, data: Value, folder: string, path: string, hostOk: bool)
    requires OrderedFrom(st.log, base, folder, 1)
    ensures OrderedFrom(AfterMarkdown(st, s, data, folder, path, hostOk).st.log, base, folder, 6)
  {
    var (st1, texts, ok) := ImagesStage(st, s, data, folder, path);
    ImagesStageInOrder(st, base, s, data, folder, path);
    if ok {
      AfterImagesInOrder(st1, base, s, data, folder, path, hostOk);
    } else {
      AddsInOrder(st1.log, st1.log, base, folder, 3, 6);
    }
  }

  lemma MaterialiseInOrder(st: Store, base: seq<Op>, s: Settings, data: Value, folder: string, path: string, hostOk: bool)
    requires OrderedFrom(st.log, base, folder, 0)
    ensures OrderedFrom(Materialise(st, s, data, folder, path, hostOk).st.log, base, folder, 6)
  {
    var (st1, texts, ok) := MarkdownStage(st, s, data, folder, path);
    MarkdownAdds(st, s, data, folder, path);
    AddsInOrder(st.log, st1.log, base, folder, 0, 1);
    if ok {
      AfterMarkdownInOrder(st1, base, s, data, folder, path, hostOk);
    } else {
      AddsInOrder(st1.log, st1.log, base, folder, 1, 6);
    }
  }

  /**
   * The vault mutations of `processConversionResult` happen in the fixed
   * order folder, markdown, assets folder, images, metadata, move, delete.
   */
  lemma StageOrder(st: Store, s: Settings, data: Value, folder: string, path: string, hostOk: bool)
    ensures OrderedFrom(ProcessIn(st, s, data, folder, path, hostOk).st.log, st.log, folder, 6)
  {
    assert OrderedFrom(st.log, st.log, folder, 0);
    if !Unsuccessful(data) {
      var (st1, ok1) := EnsureFolderIn(st, folder);
      FolderAdds(st, folder);
      AddsInOrder(st.log, st1.log, st.log, folder, 0, 0);
      if ok1 {
        MaterialiseInOrder(st1, st.log, s, data, folder, path, hostOk);
      } else {
        AddsInOrder(st1.log, st1.log, st.log, folder, 0, 6);
      }
    } else {
      AddsInOrder(st.log, st.log, st.log, folder, 0, 6);
    }
  }

  /** A missing or unsuccessful result only posts its notice: the vault is untouched. */
  lemma RejectedChangesNothing(st: Store, s: Settings, data: Value, folder: string, path: string, hostOk: bool)
    requires Unsuccessful(data)
    ensures ProcessIn(st, s, data, folder, path, hostOk) == Report(st, [Say(RejectedNotice(data))], Rejected, path)
  {
  }

  /**
   * Nothing is written unless the conversion folder could be ensured: it fails
   * exactly when a file holds the folder's path, and then nothing changes.
   */
  lemma FolderEnsuredFirst(st: Store, s: Settings, data: Value, folder: string, path: string, hostOk: bool)
    requires !Unsuccessful(data)
    ensures var r := ProcessIn(st, s, data, folder, path, hostOk);
            && (r.outcome == Aborted(MakeFolder) <==> st.IsFile(folder))
            && (r.outcome == Aborted(MakeFolder) ==> r.st == st)
  {
  }
}
