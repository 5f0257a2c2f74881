/**
 * The file operations shared by the converter classes (src/utils/fileUtils.ts):
 * where a conversion's output goes, how the markdown, images and metadata are
 * written into the vault, and how the original PDF is trashed.
 *
 * A `TFile` is modelled by its path; its `name` is the last path segment.
 * Every operation that touches the vault is a method of `Host.Vault` proved
 * against a pure function on `Host.Store`; a host call that throws out of the
 * operation is reported by a `false` result.
 */
module FileUtils {
  import opened Wrappers
  import opened Text
  import opened Js
  import opened Settings
  import opened Patterns
  import opened Host

  // ---------------------------------------------------------------------
  // Names and folders
  // ---------------------------------------------------------------------

  /** `TFile.name`: the last segment of the path. */
  function BaseName(path: string): string {
    AfterLast(path, '/')
  }

  /** `TFile.extension`: what follows the last '.' of the name, or "" without one. */
  function Extension(path: string): string {
    var name := BaseName(path);
    if '.' in name then AfterLast(name, '.') else ""
  }

  /** `s.replace(/\./g, '-')`. */
  function DotsToDashes(s: string): (r: string)
    ensures |r| == |s|
  {
    seq(|s|, i requires 0 <= i < |s| => if s[i] == '.' then '-' else s[i])
  }

  /**
   * `calculateFolderPath`: the folder named after the PDF, next to it
   * ("a/doc.pdf" gives "a/doc/"); "" when the derived folder name is empty.
   */
  function CalculateFolderPath(path: string): (r: string)
    ensures r == "" <==> AfterLast(ReplacePdf(path, ""), '/') == ""
    ensures r != "" ==> r == BeforeLast(ReplacePdf(path, "/"), '/') + "/"
  {
    var names := Split(ReplacePdf(path, ""), '/');
    SplitLast(ReplacePdf(path, ""), '/');
    var folderName := DotsToDashes(Last(names));
    if folderName == "" then ""
    else
      var parts := Split(ReplacePdf(path, "/"), '/');
      JoinAllButLast(ReplacePdf(path, "/"), '/');
      Join(parts[..|parts| - 1], "/") + "/"
  }

  /** A PDF gets a folder of its own name beside it. */
  lemma FolderOfPdf(stem: string)
    requires AfterLast(stem, '/') != ""
    ensures CalculateFolderPath(stem + ".pdf") == stem + "/"
  {
    ReplacePdfOfPdfName(stem, "");
    ReplacePdfOfPdfName(stem, "/");
    assert stem + "" == stem;
    var s := stem + "/";
    assert s[|stem| + 1..] == [];
    LastIndexOfUnique(s, '/', |stem|);
    assert s[..|stem|] == stem;
  }

  /** Any other file (no ".pdf" before its last '.') gets the folder it already sits in. */
  lemma FolderOfOtherFile(path: string)
    requires PdfMatch(path).None?
    requires AfterLast(path, '/') != ""
    ensures CalculateFolderPath(path) == BeforeLast(path, '/') + "/"
  {
  }

  /** `existingPath || calculateFolderPath(file)`: a non-empty given path wins. */
  function GetConversionFolderPath(path: string, existing: Option<string>): (r: string)
    ensures existing.Some? && existing.value != "" ==> r == existing.value
    ensures existing.None? || existing.value == "" ==> r == CalculateFolderPath(path)
  {
    if existing.Some? && existing.value != "" then existing.value else CalculateFolderPath(path)
  }

  /** `originalFile.name.split('.')[0] + '.md'`. */
  function MarkdownFileName(path: string): (r: string)
    ensures r == BeforeFirst(BaseName(path), '.') + ".md"
  {
    SplitFirst(BaseName(path), '.');
    Split(BaseName(path), '.')[0] + ".md"
  }

  /**
   * The markdown as `createMarkdownFile` writes it: links moved into the asset
   * subfolder when there is one, through the replacement template as
   * written (a '$' pattern in the cleaned name is expanded), and image
   * references removed in 'text' mode. For a name without '$' the links
   * are the intended ones.
   */
  function TransformMarkdown(s: Settings, name: string, md: string): (r: string)
    ensures s.TextOnly() ==> RefFree(r)
    ensures !s.TextOnly() && !s.createAssetSubfolder ==> r == md
    ensures !s.TextOnly() && s.createAssetSubfolder && NoDollar(CleanImagePath(name)) ==> r == RewriteRefs(md, CleanImagePath(name))
  {
    var linked := if s.createAssetSubfolder then RewriteRefsAsWritten(md, CleanImagePath(name)) else md;
    if s.TextOnly() then StripRefs(linked) else linked
  }

  /**
   * With an asset subfolder, a reference `![alt](p)` points into "assets/"
   * when the cleaned name holds no '$' (`Patterns.DollarPathBreaksLink`
   * shows a name that breaks the link).
   */
  lemma TransformSimpleRef(s: Settings, name: string, pre: string, alt: string, p: string, post: string)
    requires s.createAssetSubfolder && !s.TextOnly() && NoDollar(CleanImagePath(name))
    requires SingleLine(pre + alt + p + post)
    requires forall j | 0 <= j :: !PairAt(pre, j, '!', '[')
    requires forall j | 0 <= j :: !PairAt(p, j, ']', '(')
    requires forall j | 0 <= j < |post| :: post[j] != ')'
    ensures TransformMarkdown(s, name, pre + "![" + alt + "](" + p + ")" + post)
         == pre + AssetLink(p, CleanImagePath(name)) + post
  {
    TransformWithAssets(s, name, pre + "![" + alt + "](" + p + ")" + post);
    RewriteSimpleRef(pre, alt, p, post, CleanImagePath(name));
  }

  lemma TransformWithAssets(s: Settings, name: string, md: string)
    requires s.createAssetSubfolder && !s.TextOnly() && NoDollar(CleanImagePath(name))
    ensures TransformMarkdown(s, name, md) == RewriteRefs(md, CleanImagePath(name))
  {
  }

  // ---------------------------------------------------------------------
  // Frontmatter
  // ---------------------------------------------------------------------

  /** The metadata keys that reach the frontmatter. */
  predicate FrontmatterKey(key: string) {
    key == "languages" || key == "filetype" || key == "ocr_stats" || key == "block_stats"
  }

  /** A statistics key whose value is flattened into one line per member. */
  predicate StatsKey(key: string) {
    key == "ocr_stats" || key == "block_stats"
  }

  /** The line of one statistic; None when `JSON.stringify(v).slice` throws. */
  function StatLine(m: Member): Option<string> {
    if m.key == "equations" then
      match EquationsText(m.val)
      case None => None
      case Some(t) => Some(m.key + ": " + t + "\n")
    else Some(m.key + ": " + Display(m.val) + "\n")
  }

  /** The lines of a statistics object, in enumeration order. */
  function StatLines(ms: seq<Member>): Option<string>
    decreases |ms|
  {
    if ms == [] then Some("")
    else
      match (StatLines(ms[..|ms| - 1]), StatLine(Last(ms)))
      case (Some(a), Some(b)) => Some(a + b)
      case _ => None
  }

  /** The lines one metadata member contributes; None when it throws a TypeError. */
  function MemberLines(m: Member): Option<string> {
    if !FrontmatterKey(m.key) then Some("")
    else if StatsKey(m.key) then
      match Js.Entries(m.val)
      case None => None
      case Some(stats) => StatLines(stats)
    else Some(m.key + ": " + Display(m.val) + "\n")
  }

  /** The lines of the metadata members, in enumeration order. */
  function FrontmatterLines(ms: seq<Member>): Option<string>
    decreases |ms|
  {
    if ms == [] then Some("")
    else
      match (FrontmatterLines(ms[..|ms| - 1]), MemberLines(Last(ms)))
      case (Some(a), Some(b)) => Some(a + b)
      case _ => None
  }

  /** `generateFrontmatter(metadata)`; None when it throws a TypeError. */
  function Frontmatter(metadata: Value): Option<string> {
    match Js.Entries(metadata)
    case None => None
    case Some(ms) =>
      match FrontmatterLines(ms)
      case None => None
      case Some(lines) => Some("---\n" + lines + "---\n")
  }

  /** The inner loop of `generateFrontmatter`: the lines of one statistics object. */
  method AppendStatLines(stats: seq<Member>) returns (r: Option<string>)
    ensures r == StatLines(stats)
  {
    var text := "";
    var j := 0;
    while j < |stats|
      invariant 0 <= j <= |stats|
      invariant StatLines(stats[..j]) == Some(text)
    {
      assert stats[..j + 1][..j] == stats[..j] && Last(stats[..j + 1]) == stats[j];
      var line := StatLine(stats[j]);
      if line.None? {
        StatLinesNoneExtends(stats, j + 1);
        return None;
      }
      text := text + line.value;
      j := j + 1;
    }
    assert stats[..j] == stats;
    r := Some(text);
  }

  /** The body of the outer loop: the lines of one metadata member. */
  method AppendMemberLines(m: Member) returns (more: Option<string>)
    ensures more == MemberLines(m)
  {
    if !FrontmatterKey(m.key) {
      more := Some("");
    } else if StatsKey(m.key) {
      var stats := Js.Entries(m.val);
      if stats.None? {
        more := None;
      } else {
        more := AppendStatLines(stats.value);
      }
    } else {
      more := Some(m.key + ": " + Display(m.val) + "\n");
    }
  }

  /** `generateFrontmatter`, loop for loop. */
  method GenerateFrontmatter(metadata: Value) returns (r: Option<string>)
    ensures r == Frontmatter(metadata)
  {
    var entries := Js.Entries(metadata);
    if entries.None? {
      return None;
    }
    var ms := entries.value;
    var lines := "";
    var i := 0;
    while i < |ms|
      invariant 0 <= i <= |ms|
      invariant FrontmatterLines(ms[..i]) == Some(lines)
    {
      assert ms[..i + 1][..i] == ms[..i] && Last(ms[..i + 1]) == ms[i];
      var more := AppendMemberLines(ms[i]);
      if more.None? {
        FrontmatterLinesNoneExtends(ms, i + 1);
        return None;
      }
      lines := lines + more.value;
      i := i + 1;
    }
    assert ms[..i] == ms;
    r := Some("---\n" + lines + "---\n");
  }

  lemma {:induction false} StatLinesNoneExtends(ms: seq<Member>, n: nat)
    requires n <= |ms| && StatLines(ms[..n]).None?
    ensures StatLines(ms).None?
    decreases |ms| - n
  {
    if n < |ms| {
      assert ms[..n + 1][..n] == ms[..n];
      StatLinesNoneExtends(ms, n + 1);
    } else {
      assert ms[..n] == ms;
    }
  }

  lemma {:induction false} FrontmatterLinesNoneExtends(ms: seq<Member>, n: nat)
    requires n <= |ms| && FrontmatterLines(ms[..n]).None?
    ensures FrontmatterLines(ms).None?
    decreases |ms| - n
  {
    if n < |ms| {
      assert ms[..n + 1][..n] == ms[..n];
      FrontmatterLinesNoneExtends(ms, n + 1);
    } else {
      assert ms[..n] == ms;
    }
  }

  /** Only the four frontmatter keys contribute; every other member is skipped. */
  function KnownMembers(ms: seq<Member>): (r: seq<Member>)
    ensures forall m | m in r :: FrontmatterKey(m.key)
    decreases |ms|
  {
    if ms == [] then []
    else if FrontmatterKey(Last(ms).key) then KnownMembers(ms[..|ms| - 1]) + [Last(ms)]
    else KnownMembers(ms[..|ms| - 1])
  }

  lemma {:induction false} FrontmatterIgnoresOtherKeys(ms: seq<Member>)
    ensures FrontmatterLines(ms) == FrontmatterLines(KnownMembers(ms))
    decreases |ms|
  {
    if ms != [] {
      var init := ms[..|ms| - 1];
      FrontmatterIgnoresOtherKeys(init);
      var k := KnownMembers(init);
      if FrontmatterKey(Last(ms).key) {
        assert (k + [Last(ms)])[..|k|] == k;
      } else {
        match FrontmatterLines(init)
        case None =>
        case Some(a) => assert a + "" == a;
      }
    }
  }

  /** A statistic whose `equations` value is undefined, the one `JSON.stringify` leaves without text. */
  predicate UndefinedEquations(m: Member) {
    m.key == "equations" && m.val.Undefined?
  }

  /** A statistic throws exactly when it is `equations` and undefined. */
  lemma StatLineFails(m: Member)
    ensures StatLine(m).None? <==> UndefinedEquations(m)
  {
  }

  /** The lines of a non-empty statistics object throw exactly when those before the last or the last one do. */
  lemma StatLinesSnoc(ms: seq<Member>)
    requires ms != []
    ensures StatLines(ms).None? <==> StatLines(ms[..|ms| - 1]).None? || UndefinedEquations(Last(ms))
  {
    StatLineFails(Last(ms));
  }

  /** Some statistic of `ms` is an undefined `equations`. */
  predicate HasUndefinedEquations(ms: seq<Member>) {
    exists j | 0 <= j < |ms| :: UndefinedEquations(ms[j])
  }

  /** A non-empty sequence has an undefined `equations` exactly when its front or its last does. */
  lemma HasUndefinedEquationsSnoc(ms: seq<Member>)
    requires ms != []
    ensures HasUndefinedEquations(ms) <==> HasUndefinedEquations(ms[..|ms| - 1]) || UndefinedEquations(Last(ms))
  {
    var init := ms[..|ms| - 1];
    if HasUndefinedEquations(init) {
      var j :| 0 <= j < |init| && UndefinedEquations(init[j]);
      assert ms[j] == init[j];
    } else if UndefinedEquations(Last(ms)) {
      assert ms[|init|] == Last(ms);
    } else {
      forall j | 0 <= j < |ms| ensures !UndefinedEquations(ms[j]) {
        if j < |init| { assert ms[j] == init[j]; }
      }
    }
  }

  /** The statistics lines throw exactly when one statistic is an undefined `equations`. */
  lemma {:induction false} StatLinesFail(ms: seq<Member>)
    ensures StatLines(ms).None? <==> HasUndefinedEquations(ms)
    decreases |ms|
  {
    if ms != [] {
      StatLinesFail(ms[..|ms| - 1]);
      StatLinesSnoc(ms);
      HasUndefinedEquationsSnoc(ms);
    }
  }

  /** The frontmatter lines throw exactly when one member's lines do. */
  lemma {:induction false} FrontmatterLinesFail(ms: seq<Member>)
    ensures FrontmatterLines(ms).None? <==> exists i | 0 <= i < |ms| :: MemberLines(ms[i]).None?
    decreases |ms|
  {
    if ms != [] {
      var init := ms[..|ms| - 1];
      FrontmatterLinesFail(init);
      assert FrontmatterLines(ms).None? <==> FrontmatterLines(init).None? || MemberLines(Last(ms)).None?;
      if FrontmatterLines(init).None? {
        var i :| 0 <= i < |init| && MemberLines(init[i]).None?;
        assert ms[i] == init[i];
      } else if MemberLines(Last(ms)).None? {
        assert ms[|init|] == Last(ms);
      } else {
        forall i | 0 <= i < |ms| ensures MemberLines(ms[i]).Some? {
          if i < |init| { assert ms[i] == init[i]; }
        }
      }
    }
  }

  /**
   * `generateFrontmatter` throws exactly when the metadata is null or
   * undefined, a statistics member is, or a statistics object holds an
   * undefined `equations`.
   */
  lemma FrontmatterFails(metadata: Value)
    ensures Frontmatter(metadata).None? <==>
      metadata.Nullish() ||
      exists i | 0 <= i < |Js.Entries(metadata).value| ::
        var m := Js.Entries(metadata).value[i];
        StatsKey(m.key) &&
        (m.val.Nullish() ||
         exists j | 0 <= j < |Js.Entries(m.val).value| ::
           Js.Entries(m.val).value[j].key == "equations" && Js.Entries(m.val).value[j].val.Undefined?)
  {
    if !metadata.Nullish() {
      var ms := Js.Entries(metadata).value;
      FrontmatterLinesFail(ms);
      forall i | 0 <= i < |ms|
        ensures MemberLines(ms[i]).None? <==>
          StatsKey(ms[i].key) &&
          (ms[i].val.Nullish() ||
           exists j | 0 <= j < |Js.Entries(ms[i].val).value| ::
             Js.Entries(ms[i].val).value[j].key == "equations" && Js.Entries(ms[i].val).value[j].val.Undefined?)
      {
        if StatsKey(ms[i].key) && !ms[i].val.Nullish() {
          var stats := Js.Entries(ms[i].val).value;
          StatLinesFail(stats);
        }
      }
    }
  }

  /** An `equations` statistic that is a flat object is written as `k:v` pairs without quotes. */
  lemma FlatEquationsLine(v: Value)
    requires FlatObject(v)
    ensures StatLine(Member("equations", v)) == Some("equations: " + FlatText(v.members) + "\n")
  {
    EquationsOfFlatObject(v);
    var m := Member("equations", v);
    assert EquationsText(m.val) == Some(FlatText(v.members));
    assert m.key + ": " == "equations: ";
  }

  // ---------------------------------------------------------------------
  // The conversion folder
  // ---------------------------------------------------------------------

  /**
   * `createConversionFolder`: the folder is created unless it is already
   * there; `createFolder` throws when a file holds the path.
   */
  function EnsureFolderIn(st: Store, folder: string): (r: (Store, bool))
    ensures r.1 <==> !st.IsFile(folder)
    ensures r.1 ==> r.0.IsFolder(folder)
    ensures st.IsFolder(folder) || !r.1 ==> r.0 == st
  {
    if st.IsFolder(folder) then (st, true) else CreateFolderIn(st, folder)
  }

  method CreateConversionFolder(vault: Vault, folder: string) returns (ok: bool)
    modifies vault
    ensures (vault.State(), ok) == EnsureFolderIn(old(vault.State()), folder)
  {
    if vault.IsFolder(folder) {
      ok := true;
    } else {
      ok := vault.CreateFolder(folder);
    }
  }

  /** Running it again changes nothing. */
  lemma EnsureFolderIdempotent(st: Store, folder: string)
    ensures var (st1, ok) := EnsureFolderIn(st, folder);
            EnsureFolderIn(st1, folder) == (st1, ok)
  {
  }

  /** Some file's path starts with `folder` (`getFiles().filter(...)` is non-empty). */
  predicate HasFilesUnder(st: Store, folder: string) {
    exists p | p in st.entries :: !st.entries[p].Folder? && StartsWith(p, folder)
  }

  /**
   * `checkForExistingFiles`: when files already sit under the folder the user
   * is asked (`answer` is the button pressed); otherwise the conversion goes on.
   * Returns whether to go on and whether the dialog was shown.
   */
  method CheckForExistingFiles(vault: Vault, folder: string, answer: bool) returns (proceed: bool, asked: bool)
    ensures asked <==> HasFilesUnder(vault.State(), folder)
    ensures proceed <==> !asked || answer
  {
    var paths := vault.FilePaths();
    asked := exists p | p in paths :: StartsWith(p, folder);
    proceed := if asked then answer else true;
  }

  // ---------------------------------------------------------------------
  // Images
  // ---------------------------------------------------------------------

  /** The vault name of image `key`: prefixed with the PDF's name in an asset subfolder. */
  function ImageName(s: Settings, path: string, key: string): string {
    if s.createAssetSubfolder then ImagePrefix(BaseName(path)) + key else key
  }

  function ImageTarget(s: Settings, folder: string, path: string, key: string): string {
    folder + ImageName(s, path, key)
  }

  /** One image: an existing file is overwritten in place, otherwise the file is created. */
  function SaveImageIn(st: Store, target: string, payload: string): (r: (Store, bool))
    ensures r.1 <==> !st.IsFolder(target)
    ensures r.1 ==> r.0.entries == st.entries[Key(target) := BinaryFile(payload)]
    ensures !r.1 ==> r.0 == st
  {
    if st.IsFile(target) then ModifyBinaryIn(st, target, payload)
    else CreateBinaryIn(st, target, payload)
  }

  /** The loop of `createImageFiles`: the vault afterwards and the number of images saved. */
  function ImagesIn(st: Store, s: Settings, images: seq<Member>, folder: string, path: string): (r: (Store, nat))
    ensures r.1 <= |images|
    decreases |images|
  {
    if images == [] then (st, 0)
    else
      var (st1, n) := ImagesIn(st, s, images[..|images| - 1], folder, path);
      var m := Last(images);
      var (st2, ok) := SaveImageIn(st1, ImageTarget(s, folder, path, m.key), Display(m.val));
      (st2, if ok then n + 1 else n)
  }

  /** The closing notice of `createImageFiles`. */
  function ImagesNotice(processed: nat, total: nat): string {
    if processed == total then NatToString(total) + " image files created successfully"
    else NatToString(processed) + " of " + NatToString(total) + " image files created (some failed)"
  }

  /** The body of the loop: `modifyBinary` on an existing file, `createBinary` otherwise. */
  method SaveImage(vault: Vault, target: string, payload: string) returns (ok: bool)
    modifies vault
    ensures (vault.State(), ok) == SaveImageIn(old(vault.State()), target, payload)
  {
    if vault.IsFile(target) {
      ok := vault.ModifyBinary(target, payload);
    } else {
      ok := vault.CreateBinary(target, payload);
    }
  }

  /**
   * `createImageFiles`: every image is saved in its own `try`, so one that
   * fails does not stop the others; the notice reports how many were saved.
   */
  method CreateImageFiles(vault: Vault, s: Settings, images: seq<Member>, folder: string, path: string)
    returns (notice: string)
    modifies vault
    ensures vault.State() == ImagesIn(old(vault.State()), s, images, folder, path).0
    ensures notice == ImagesNotice(ImagesIn(old(vault.State()), s, images, folder, path).1, |images|)
  {
    var processed := 0;
    var i := 0;
    while i < |images|
      invariant 0 <= i <= |images|
      invariant (vault.State(), processed) == ImagesIn(old(vault.State()), s, images[..i], folder, path)
    {
      assert images[..i + 1][..i] == images[..i] && Last(images[..i + 1]) == images[i];
      var ok := SaveImage(vault, ImageTarget(s, folder, path, images[i].key), Display(images[i].val));
      if ok {
        processed := processed + 1;
      }
      i := i + 1;
    }
    assert images[..i] == images;
    notice := ImagesNotice(processed, |images|);
  }

  /** Saving images never creates, removes or replaces a folder. */
  lemma {:induction false} ImagesKeepFolders(st: Store, s: Settings, images: seq<Member>, folder: string, path: string)
    ensures forall k :: k in ImagesIn(st, s, images, folder, path).0.entries && ImagesIn(st, s, images, folder, path).0.entries[k].Folder?
                    <==> k in st.entries && st.entries[k].Folder?
    decreases |images|
  {
    if images != [] {
      ImagesKeepFolders(st, s, images[..|images| - 1], folder, path);
    }
  }

  /** How many images have a target that is not a folder of `st`. */
  function Storable(st: Store, s: Settings, images: seq<Member>, folder: string, path: string): (n: nat)
    ensures n <= |images|
    decreases |images|
  {
    if images == [] then 0
    else
      var n := Storable(st, s, images[..|images| - 1], folder, path);
      if st.IsFolder(ImageTarget(s, folder, path, Last(images).key)) then n else n + 1
  }

  /** An image fails exactly when a folder already holds its target path. */
  lemma {:induction false} ImagesCount(st: Store, s: Settings, images: seq<Member>, folder: string, path: string)
    ensures ImagesIn(st, s, images, folder, path).1 == Storable(st, s, images, folder, path)
    decreases |images|
  {
    if images != [] {
      var init := images[..|images| - 1];
      ImagesCount(st, s, init, folder, path);
      ImagesKeepFolders(st, s, init, folder, path);
      var st1 := ImagesIn(st, s, init, folder, path).0;
      var t := ImageTarget(s, folder, path, Last(images).key);
      assert st1.IsFolder(t) <==> st.IsFolder(t);
    }
  }

  lemma {:induction false} StorableAll(st: Store, s: Settings, images: seq<Member>, folder: string, path: string)
    ensures Storable(st, s, images, folder, path) == |images|
        <==> forall j | 0 <= j < |images| :: !st.IsFolder(ImageTarget(s, folder, path, images[j].key))
    decreases |images|
  {
    if images != [] {
      var init := images[..|images| - 1];
      StorableAll(st, s, init, folder, path);
      assert forall j | 0 <= j < |init| :: init[j] == images[j];
    }
  }

  /** Every image is saved exactly when no target is taken by a folder. */
  lemma AllImagesSaved(st: Store, s: Settings, images: seq<Member>, folder: string, path: string)
    ensures ImagesIn(st, s, images, folder, path).1 == |images|
        <==> forall j | 0 <= j < |images| :: !st.IsFolder(ImageTarget(s, folder, path, images[j].key))
  {
    ImagesCount(st, s, images, folder, path);
    StorableAll(st, s, images, folder, path);
  }

  /** Images whose targets are distinct paths. */
  predicate DistinctTargets(s: Settings, images: seq<Member>, folder: string, path: string) {
    forall i, j | 0 <= i < j < |images| ::
      Key(ImageTarget(s, folder, path, images[i].key)) != Key(ImageTarget(s, folder, path, images[j].key))
  }

  /** With distinct targets, every image not blocked by a folder ends up stored under its target. */
  lemma {:induction false} ImagesStored(st: Store, s: Settings, images: seq<Member>, folder: string, path: string)
    requires DistinctTargets(s, images, folder, path)
    ensures forall j | 0 <= j < |images| && !st.IsFolder(ImageTarget(s, folder, path, images[j].key)) ::
              var k := Key(ImageTarget(s, folder, path, images[j].key));
              k in ImagesIn(st, s, images, folder, path).0.entries &&
              ImagesIn(st, s, images, folder, path).0.entries[k] == BinaryFile(Display(images[j].val))
    decreases |images|
  {
    if images != [] {
      var n := |images| - 1;
      var init := images[..n];
      assert forall j | 0 <= j < |init| :: init[j] == images[j];
      ImagesStored(st, s, init, folder, path);
      ImagesKeepFolders(st, s, init, folder, path);
      var st1 := ImagesIn(st, s, init, folder, path).0;
      var r := ImagesIn(st, s, images, folder, path).0;
      var tl := ImageTarget(s, folder, path, images[n].key);
      assert r == SaveImageIn(st1, tl, Display(images[n].val)).0;
      forall j | 0 <= j < |images| && !st.IsFolder(ImageTarget(s, folder, path, images[j].key))
        ensures Key(ImageTarget(s, folder, path, images[j].key)) in r.entries
        ensures r.entries[Key(ImageTarget(s, folder, path, images[j].key))] == BinaryFile(Display(images[j].val))
      {
        if j == n {
          assert !st1.IsFolder(tl);
        } else {
          assert Key(ImageTarget(s, folder, path, images[j].key)) != Key(tl);
        }
      }
    }
  }

  /** Saving images touches no path other than their targets. */
  lemma {:induction false} ImagesTouchOnlyTargets(st: Store, s: Settings, images: seq<Member>, folder: string, path: string, k: string)
    requires forall j | 0 <= j < |images| :: k != Key(ImageTarget(s, folder, path, images[j].key))
    ensures var r := ImagesIn(st, s, images, folder, path).0;
            (k in r.entries <==> k in st.entries) && (k in st.entries ==> r.entries[k] == st.entries[k])
    decreases |images|
  {
    if images != [] {
      var init := images[..|images| - 1];
      assert forall j | 0 <= j < |init| :: init[j] == images[j];
      ImagesTouchOnlyTargets(st, s, init, folder, path, k);
    }
  }

  // ---------------------------------------------------------------------
  // Markdown, metadata, the original file
  // ---------------------------------------------------------------------

  /**
   * `createMarkdownFile`: the transformed markdown goes to
   * `<folder><stem>.md`; a file already there is overwritten in place, and
   * `create` throws when a folder holds the path.
   */
  function MarkdownIn(st: Store, s: Settings, md: string, folder: string, path: string): (r: (Store, bool))
    ensures var target := folder + MarkdownFileName(path);
            && (r.1 <==> !st.IsFolder(target))
            && (r.1 ==> r.0.entries == st.entries[Key(target) := TextFile(TransformMarkdown(s, BaseName(path), md))])
            && (!r.1 ==> r.0 == st)
  {
    var target := folder + MarkdownFileName(path);
    var text := TransformMarkdown(s, BaseName(path), md);
    if st.IsFile(target) then ModifyIn(st, target, text) else CreateIn(st, target, text)
  }

  method CreateMarkdownFile(vault: Vault, s: Settings, md: string, folder: string, path: string)
    returns (ok: bool, notices: seq<string>)
    modifies vault
    ensures (vault.State(), ok) == MarkdownIn(old(vault.State()), s, md, folder, path)
    ensures notices == if ok then ["Markdown file created: " + MarkdownFileName(path)] else []
  {
    var fileName := MarkdownFileName(path);
    var target := folder + fileName;
    var text := TransformMarkdown(s, BaseName(path), md);
    if vault.IsFile(target) {
      ok := vault.Modify(target, text);
    } else {
      ok := vault.Create(target, text);
    }
    notices := if ok then ["Markdown file created: " + fileName] else [];
  }

  /**
   * `addMetadataToMarkdownFile`: when the markdown file exists its frontmatter
   * is handed to the host; a failure of the host is caught, but a TypeError of
   * `generateFrontmatter` escapes (`false`).
   */
  function AddMetadataIn(st: Store, metadata: Value, folder: string, path: string, hostOk: bool): (r: (Store, bool))
    ensures r.0.entries == st.entries
    ensures var target := folder + MarkdownFileName(path);
            && (!r.1 <==> st.IsFile(target) && Frontmatter(metadata).None?)
            && (r.0.log != st.log <==> st.IsFile(target) && Frontmatter(metadata).Some? && hostOk)
            && (r.0.log != st.log ==> r.0.log == st.log + [FrontMatterAdded(Key(target), Frontmatter(metadata).value)])
  {
    var target := folder + MarkdownFileName(path);
    if !st.IsFile(target) then (st, true)
    else
      match Frontmatter(metadata)
      case None => (st, false)
      case Some(fm) => (AddFrontMatterIn(st, target, fm, hostOk).0, true)
  }

  method AddMetadataToMarkdownFile(vault: Vault, metadata: Value, folder: string, path: string, hostOk: bool)
    returns (ok: bool)
    modifies vault
    ensures (vault.State(), ok) == AddMetadataIn(old(vault.State()), metadata, folder, path, hostOk)
  {
    var target := folder + MarkdownFileName(path);
    ok := true;
    if vault.IsFile(target) {
      var fm := GenerateFrontmatter(metadata);
      if fm.None? {
        ok := false;
      } else {
        var _ := vault.AddFrontMatter(target, fm.value, hostOk);
      }
    }
  }

  /** `deleteOriginalFile`: the file goes to the trash; a failure is caught. */
  function DeleteOriginalIn(st: Store, path: string): (r: (Store, seq<string>))
    ensures r.1 == if st.IsFile(path) then ["Original PDF file deleted"] else []
    ensures r.0.entries == if st.IsFile(path) then st.entries - {Key(path)} else st.entries
  {
    var (st1, ok) := TrashIn(st, path);
    (st1, if ok then ["Original PDF file deleted"] else [])
  }

  method DeleteOriginalFile(vault: Vault, path: string) returns (notices: seq<string>)
    modifies vault
    ensures (vault.State(), notices) == DeleteOriginalIn(old(vault.State()), path)
  {
    var ok := vault.Trash(path);
    notices := if ok then ["Original PDF file deleted"] else [];
  }
}
