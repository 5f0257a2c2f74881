/**
 * `MistralAIConverter` (src/converters/mistralaiConverter.ts): the file is
 * uploaded through the Mistral SDK, read back by OCR, and the OCR pages are
 * folded into one conversion result: the page markdowns joined by a
 * horizontal rule, and every page image under its id.
 *
 * The SDK calls are not modelled; each call's answer is an input.
 */
module Mistral {
  import opened Wrappers
  import opened Text
  import opened Js
  import opened Settings
  import opened Host
  import opened FileUtils
  import opened Converter

  /** An image of an OCR page: its id and its base64 payload (None when null or missing). */
  datatype OcrImage = OcrImage(id: string, imageBase64: Option<string>)

  /** An OCR page: its markdown (None when missing) and its images. */
  datatype OcrPage = OcrPage(markdown: Option<string>, images: seq<OcrImage>)

  /** What `client.ocr.process` is asked for. */
  datatype OcrRequest = OcrRequest(
    model: string,
    documentUrl: string,
    includeImageBase64: bool,
    imageLimit: Option<int>,
    imageMinSize: Option<int>)

  // ---------------------------------------------------------------------
  // testConnection and the settings tab
  // ---------------------------------------------------------------------

  /**
   * `testConnection`: no request without an API key; otherwise true exactly
   * when `files.list` gives a truthy answer (`listed`; false when it throws).
   * Returns the answer and whether the SDK was called.
   */
  function TestConnection(s: Settings, listed: bool): (r: (bool, bool))
    ensures !Filled(s.mistralaiApiKey) ==> r == (false, false)
    ensures Filled(s.mistralaiApiKey) ==> r.1
    ensures r.0 <==> Filled(s.mistralaiApiKey) && listed
  {
    if !Filled(s.mistralaiApiKey) then (false, false) else (listed, true)
  }

  /**
   * The `onChange` of the image limit and image minimum size fields:
   * `value ? parseInt(value) : 0`, with NaN stored as 0.
   */
  function ParseCount(value: string): (r: int)
    ensures ParseInt(value).None? ==> r == 0
    ensures ParseInt(value).Some? ==> r == ParseInt(value).value
  {
    if value == "" then 0
    else match ParseInt(value)
      case None => 0
      case Some(n) => n
  }

  /** A number the field shows (`${n}`) is stored back unchanged; other text gives 0. */
  lemma ParseCountOfNumeral(n: int)
    ensures ParseCount(IntToString(n)) == n
  {
    ParseIntOfIntToString(n);
  }

  /** `(v ?? 0) > 0 ? v : undefined`: only a positive setting reaches the request. */
  function PositiveOrUnset(v: Option<int>): (r: Option<int>)
    ensures r.Some? <==> v.Some? && v.value > 0
    ensures r.Some? ==> r == v
  {
    if v.Some? && v.value > 0 then v else None
  }

  /** The OCR request for the signed URL of the upload. */
  function RequestFor(s: Settings, url: string): (r: OcrRequest)
    ensures r.model == "mistral-ocr-latest" && r.documentUrl == url
    ensures r.includeImageBase64 <==> !s.TextOnly()
    ensures r.imageLimit.Some? <==> s.imageLimit.Some? && s.imageLimit.value > 0
    ensures r.imageMinSize.Some? <==> s.imageMinSize.Some? && s.imageMinSize.value > 0
    ensures r.imageLimit.Some? ==> r.imageLimit == s.imageLimit
    ensures r.imageMinSize.Some? ==> r.imageMinSize == s.imageMinSize
  {
    OcrRequest("mistral-ocr-latest", url, s.extractContent != "text",
               PositiveOrUnset(s.imageLimit), PositiveOrUnset(s.imageMinSize))
  }

  // ---------------------------------------------------------------------
  // parseOCRResults, page by page
  // ---------------------------------------------------------------------

  const PageSeparator := "\n\n---\n\n"

  /**
   * The stored payload of an image: `imageBase64 || ''`, and for a data URL
   * `split(',')[1]`, the piece between the first comma and the next one
   * (undefined when there is no comma).
   */
  function ImagePayload(raw: Option<string>): (r: Value)
    ensures var b := raw.GetOr("");
            && (!StartsWith(b, "data:") ==> r == Str(b))
            && (StartsWith(b, "data:") && ',' !in b ==> r == Undefined)
            && (StartsWith(b, "data:") && ',' in b ==>
                  r == Str(BeforeFirst(b[IndexOf(b, ',') + 1..], ',')))
  {
    var b := raw.GetOr("");
    if !StartsWith(b, "data:") then Str(b)
    else
      var pieces := Split(b, ',');
      if |pieces| > 1 then
        SplitFirst(b[IndexOf(b, ',') + 1..], ',');
        Str(pieces[1])
      else Undefined
  }

  predicate NoComma(s: string) {
    forall k | 0 <= k < |s| :: s[k] != ','
  }

  /** A data URL is replaced by the base64 text after its header. */
  lemma DataUrlStripped(header: string, payload: string)
    requires StartsWith(header, "data:") && NoComma(header) && NoComma(payload)
    ensures ImagePayload(Some(header + "," + payload)) == Str(payload)
  {
    var b := header + "," + payload;
    assert b[..|header|] == header;
    assert b[..5] == header[..5];
    assert b[|header|] == ',';
    assert ',' !in b[..|header|];
    IndexOfUnique(b, ',', |header|);
    assert b[|header| + 1..] == payload;
    assert ',' !in payload by {
      forall k | 0 <= k < |payload| ensures payload[k] != ',' { }
    }
  }

  /** The text a page adds after its separator: its markdown, or nothing in 'images' mode. */
  function PageText(page: OcrPage, mode: string): string {
    if mode != "images" then page.markdown.GetOr("") else ""
  }

  /** The markdown after the first pages: each page after the first is preceded by the separator. */
  function PagesMarkdown(pages: seq<OcrPage>, mode: string): string {
    if |pages| == 0 then ""
    else PagesMarkdown(pages[..|pages| - 1], mode) + (if |pages| > 1 then PageSeparator else "")
         + PageText(Last(pages), mode)
  }

  /** `images[image.id] = payload` for each image in turn. */
  function PutImages(acc: seq<Member>, images: seq<OcrImage>): seq<Member> {
    if |images| == 0 then acc
    else Put(PutImages(acc, images[..|images| - 1]), Last(images).id, ImagePayload(Last(images).imageBase64))
  }

  /** The images object after the first pages; 'text' mode skips every image. */
  function PagesImages(pages: seq<OcrPage>, mode: string): seq<Member> {
    if |pages| == 0 then []
    else
      var acc := PagesImages(pages[..|pages| - 1], mode);
      if mode != "text" then PutImages(acc, Last(pages).images) else acc
  }

  /** The conversion result `parseOCRResults` returns. */
  function OcrResult(pages: seq<OcrPage>, mode: string): (r: Value)
    ensures !Unsuccessful(r)
  {
    var ms := [ Member("success", Bool(true)),
                Member("markdown", Str(PagesMarkdown(pages, mode))),
                Member("images", Obj(PagesImages(pages, mode))),
                Member("metadata", Obj([ Member("page_count", Num(|pages|)),
                                         Member("processor", Str("mistralai-ocr")) ])) ];
    LookupFirst(ms, "success", 0);
    Obj(ms)
  }

  /** The inner `forEach` over a page's images. */
  method PutPageImages(images: seq<Member>, pageImages: seq<OcrImage>) returns (r: seq<Member>)
    ensures r == PutImages(images, pageImages)
  {
    r := images;
    for i := 0 to |pageImages|
      invariant r == PutImages(images, pageImages[..i])
    {
      assert pageImages[..i + 1][..i] == pageImages[..i];
      var image := pageImages[i];
      var base64Data := if image.imageBase64.Some? then image.imageBase64.value else "";
      var payload := Str(base64Data);
      if StartsWith(base64Data, "data:") {
        var pieces := Split(base64Data, ',');
        payload := if |pieces| > 1 then Str(pieces[1]) else Undefined;
      }
      r := Put(r, image.id, payload);
    }
    assert pageImages[..|pageImages|] == pageImages;
  }

  /** `parseOCRResults`: the `forEach` over the pages. */
  method ParseOCRResults(pages: seq<OcrPage>, mode: string) returns (r: Value)
    ensures r == OcrResult(pages, mode)
  {
    var markdown := "";
    var images: seq<Member> := [];
    for index := 0 to |pages|
      invariant markdown == PagesMarkdown(pages[..index], mode)
      invariant images == PagesImages(pages[..index], mode)
    {
      assert pages[..index + 1][..index] == pages[..index];
      var page := pages[index];
      if index > 0 {
        markdown := markdown + PageSeparator;
      }
      if mode != "images" {
        markdown := markdown + (if page.markdown.Some? then page.markdown.value else "");
      }
      if mode != "text" && |page.images| > 0 {
        images := PutPageImages(images, page.images);
      }
    }
    assert pages[..|pages|] == pages;
    r := Obj([ Member("success", Bool(true)),
               Member("markdown", Str(markdown)),
               Member("images", Obj(images)),
               Member("metadata", Obj([ Member("page_count", Num(|pages|)),
                                        Member("processor", Str("mistralai-ocr")) ])) ]);
  }

  // ---------------------------------------------------------------------
  // What the result holds
  // ---------------------------------------------------------------------

  function PageTexts(pages: seq<OcrPage>, mode: string): (r: seq<string>)
    ensures |r| == |pages| && forall i | 0 <= i < |pages| :: r[i] == PageText(pages[i], mode)
  {
    seq(|pages|, i requires 0 <= i < |pages| => PageText(pages[i], mode))
  }

  /**
   * The markdown is the pages' texts joined by the horizontal rule; in
   * 'images' mode every text is empty, so only the separators remain.
   */
  lemma {:induction false} MarkdownJoinsPages(pages: seq<OcrPage>, mode: string)
    ensures PagesMarkdown(pages, mode) == Join(PageTexts(pages, mode), PageSeparator)
    decreases |pages|
  {
    if |pages| > 1 {
      var init := pages[..|pages| - 1];
      MarkdownJoinsPages(init, mode);
      assert PageTexts(pages, mode) == PageTexts(init, mode) + [PageText(Last(pages), mode)];
      JoinSnoc(PageTexts(init, mode), PageText(Last(pages), mode), PageSeparator);
    } else if |pages| == 1 {
      assert pages[..0] == [];
    }
  }

  /** Every image of every page, in order. */
  function AllImages(pages: seq<OcrPage>): seq<OcrImage> {
    if |pages| == 0 then [] else AllImages(pages[..|pages| - 1]) + Last(pages).images
  }

  lemma {:induction false} PutImagesAppend(acc: seq<Member>, a: seq<OcrImage>, b: seq<OcrImage>)
    ensures PutImages(acc, a + b) == PutImages(PutImages(acc, a), b)
    decreases |b|
  {
    if |b| == 0 {
      assert a + b == a;
    } else {
      assert (a + b)[..|a + b| - 1] == a + b[..|b| - 1];
      assert Last(a + b) == Last(b);
      PutImagesAppend(acc, a, b[..|b| - 1]);
    }
  }

  /** Outside 'text' mode the images object is every image put in order; in 'text' mode it is empty. */
  lemma {:induction false} ImagesOfAllPages(pages: seq<OcrPage>, mode: string)
    ensures mode != "text" ==> PagesImages(pages, mode) == PutImages([], AllImages(pages))
    ensures mode == "text" ==> PagesImages(pages, mode) == []
    decreases |pages|
  {
    if |pages| > 0 {
      var init := pages[..|pages| - 1];
      ImagesOfAllPages(init, mode);
      PutImagesAppend([], AllImages(init), Last(pages).images);
    }
  }

  /** The payload kept under an id is that of the last image with the id: a later duplicate overwrites. */
  lemma {:induction false} LastImageWins(acc: seq<Member>, images: seq<OcrImage>, i: nat)
    requires i < |images|
    requires forall j | i < j < |images| :: images[j].id != images[i].id
    ensures Lookup(PutImages(acc, images), images[i].id) == ImagePayload(images[i].imageBase64)
    decreases |images|
  {
    var init := images[..|images| - 1];
    var m := Last(images);
    if i == |images| - 1 {
      LookupPut(PutImages(acc, init), m.id, ImagePayload(m.imageBase64), m.id);
    } else {
      LastImageWins(acc, init, i);
      LookupPut(PutImages(acc, init), m.id, ImagePayload(m.imageBase64), images[i].id);
    }
  }

  /** An id no image carries keeps what was there before. */
  lemma {:induction false} OtherIdUntouched(acc: seq<Member>, images: seq<OcrImage>, key: string)
    requires forall j | 0 <= j < |images| :: images[j].id != key
    ensures Lookup(PutImages(acc, images), key) == Lookup(acc, key)
    decreases |images|
  {
    if |images| > 0 {
      var init := images[..|images| - 1];
      var m := Last(images);
      OtherIdUntouched(acc, init, key);
      LookupPut(PutImages(acc, init), m.id, ImagePayload(m.imageBase64), key);
    }
  }

  /** Each id appears once in the images object. */
  lemma {:induction false} PutImagesDistinct(acc: seq<Member>, images: seq<OcrImage>)
    requires DistinctKeys(acc)
    ensures DistinctKeys(PutImages(acc, images))
    decreases |images|
  {
    if |images| > 0 {
      var init := images[..|images| - 1];
      PutImagesDistinct(acc, init);
      PutKeepsDistinct(PutImages(acc, init), Last(images).id, ImagePayload(Last(images).imageBase64));
    }
  }

  /**
   * Across the pages, outside 'text' mode: the image under an id is the
   * payload of the last image with that id in page order, and an id no page
   * carries is absent.
   */
  lemma OcrImageLookup(pages: seq<OcrPage>, mode: string, key: string)
    requires mode != "text"
    ensures var all := AllImages(pages);
            && DistinctKeys(PagesImages(pages, mode))
            && (forall i | 0 <= i < |all| && all[i].id == key && (forall j | i < j < |all| :: all[j].id != key) ::
                  Lookup(PagesImages(pages, mode), key) == ImagePayload(all[i].imageBase64))
            && ((forall j | 0 <= j < |all| :: all[j].id != key) ==> Lookup(PagesImages(pages, mode), key) == Undefined)
  {
    ImagesOfAllPages(pages, mode);
    PutImagesLookup(AllImages(pages), key);
  }

  /** The images object built from a list of images: the last image under an id wins. */
  lemma PutImagesLookup(all: seq<OcrImage>, key: string)
    ensures && DistinctKeys(PutImages([], all))
            && (forall i | 0 <= i < |all| && all[i].id == key && (forall j | i < j < |all| :: all[j].id != key) ::
                  Lookup(PutImages([], all), key) == ImagePayload(all[i].imageBase64))
            && ((forall j | 0 <= j < |all| :: all[j].id != key) ==> Lookup(PutImages([], all), key) == Undefined)
  {
    PutImagesDistinct([], all);
    forall i | 0 <= i < |all| && all[i].id == key && (forall j | i < j < |all| :: all[j].id != key)
      ensures Lookup(PutImages([], all), key) == ImagePayload(all[i].imageBase64)
    {
      LastImageWins([], all, i);
    }
    if forall j | 0 <= j < |all| :: all[j].id != key {
      OtherIdUntouched([], all, key);
    }
  }

  /** The result's fields: always a success, with the page count and processor in the metadata. */
  lemma OcrResultFields(pages: seq<OcrPage>, mode: string)
    ensures var r := OcrResult(pages, mode);
            && !Unsuccessful(r)
            && Prop(r, "markdown") == Str(Join(PageTexts(pages, mode), PageSeparator))
            && Prop(r, "images") == Obj(PagesImages(pages, mode))
            && Prop(Prop(r, "metadata"), "page_count") == Num(|pages|)
            && Prop(Prop(r, "metadata"), "processor") == Str("mistralai-ocr")
  {
    var ms := OcrResult(pages, mode).members;
    LookupFirst(ms, "success", 0);
    LookupFirst(ms, "markdown", 1);
    LookupFirst(ms, "images", 2);
    LookupFirst(ms, "metadata", 3);
    var meta := [Member("page_count", Num(|pages|)), Member("processor", Str("mistralai-ocr"))];
    LookupFirst(meta, "page_count", 0);
    LookupFirst(meta, "processor", 1);
    MarkdownJoinsPages(pages, mode);
  }

  // ---------------------------------------------------------------------
  // convert
  // ---------------------------------------------------------------------

  /**
   * The vault after the OCR pages are processed: `processConversionResult`,
   * then, with `deleteOriginal`, a second deletion of the original where it
   * now is.
   */
  function AfterOcr(st: Store, s: Settings, pages: seq<OcrPage>, folder: string, path: string, hostOk: bool): Store {
    var rep := ProcessIn(st, s, OcrResult(pages, s.extractContent), folder, path, hostOk);
    if s.deleteOriginal then DeleteOriginalIn(rep.st, rep.current).0 else rep.st
  }

  /**
   * `convert`: the folder and overwrite gates, the key check, then the SDK
   * calls, each answer an input: the file read (`content`), the upload's id
   * (None when the upload is falsy, has no id or throws), the signed URL,
   * and the OCR pages (None when the answer or its pages are falsy, or the
   * call throws). Returns the answer, the file uploaded and the OCR request.
   */
  method Convert(vault: Vault, s: Settings, path: string, listed: bool, answer: bool,
                 content: Option<seq<byte>>, uploaded: Option<string>, signedUrl: Option<string>,
                 ocr: Option<seq<OcrPage>>, hostOk: bool)
    returns (ok: bool, upload: Option<(string, seq<byte>)>, request: Option<OcrRequest>)
    modifies vault
    ensures var gate := OverwriteGate(s, path, TestConnection(s, listed).0,
                                      HasFilesUnder(old(vault.State()), CalculateFolderPath(path)), answer);
            && (gate.Stop? ==> ok == gate.result && upload.None? && request.None? && vault.State() == old(vault.State()))
            && (gate.Proceed? ==>
                  && upload == (if content.Some? then Some((BaseName(path), content.value)) else None)
                  && (request.Some? <==> content.Some? && uploaded.Some? && signedUrl.Some?)
                  && (request.Some? ==> request.value == RequestFor(s, signedUrl.value))
                  && (ok <==> request.Some? && ocr.Some?)
                  && (ok ==> vault.State() == AfterOcr(old(vault.State()), s, ocr.value, gate.folder, path, hostOk))
                  && (!ok ==> vault.State() == old(vault.State())))
  {
    upload, request := None, None;
    var connected := TestConnection(s, listed).0;
    var folder := PreparedFolder(s, path, connected);
    if folder.None? {
      return false, upload, request;
    }
    if s.extractContent == "images" || s.extractContent == "all" {
      var proceed, _ := CheckForExistingFiles(vault, folder.value, answer);
      if !proceed {
        return true, upload, request;
      }
    }
    if !Filled(s.mistralaiApiKey) {
      return false, upload, request;
    }
    ok, upload, request := Upload(vault, s, path, folder.value, content, uploaded, signedUrl, ocr, hostOk);
  }

  /** `convert` past its gates: the upload, the signed URL, the OCR request and the materialisation. */
  method Upload(vault: Vault, s: Settings, path: string, folder: string,
                content: Option<seq<byte>>, uploaded: Option<string>, signedUrl: Option<string>,
                ocr: Option<seq<OcrPage>>, hostOk: bool)
    returns (ok: bool, upload: Option<(string, seq<byte>)>, request: Option<OcrRequest>)
    modifies vault
    ensures upload == (if content.Some? then Some((BaseName(path), content.value)) else None)
    ensures request.Some? <==> content.Some? && uploaded.Some? && signedUrl.Some?
    ensures request.Some? ==> request.value == RequestFor(s, signedUrl.value)
    ensures ok <==> request.Some? && ocr.Some?
    ensures ok ==> vault.State() == AfterOcr(old(vault.State()), s, ocr.value, folder, path, hostOk)
    ensures !ok ==> vault.State() == old(vault.State())
  {
    upload, request := None, None;
    if content.None? {
      return false, upload, request;
    }
    upload := Some((BaseName(path), content.value));
    if uploaded.None? || signedUrl.None? {
      return false, upload, request;
    }
    request := Some(RequestFor(s, signedUrl.value));
    if ocr.None? {
      return false, upload, request;
    }
    var result := ParseOCRResults(ocr.value, s.extractContent);
    var _, _, current := ProcessConversionResult(vault, s, result, folder, path, hostOk);
    if s.deleteOriginal {
      var _ := DeleteOriginalFile(vault, current);
    }
    ok := true;
  }

  /** The key check in `convert` never decides: without a key the connection test already failed. */
  lemma KeyCheckUnreachable(s: Settings, path: string, listed: bool, hasFiles: bool, answer: bool)
    requires !Filled(s.mistralaiApiKey)
    ensures OverwriteGate(s, path, TestConnection(s, listed).0, hasFiles, answer) == Stop(false)
  {
  }

  /**
   * A completed run has already trashed the original, so the second
   * deletion finds nothing and changes nothing.
   */
  lemma SecondDeleteIsNoop(st: Store, s: Settings, pages: seq<OcrPage>, folder: string, path: string, hostOk: bool)
    requires s.deleteOriginal
    requires ProcessIn(st, s, OcrResult(pages, s.extractContent), folder, path, hostOk).outcome == Done
    ensures AfterOcr(st, s, pages, folder, path, hostOk)
            == ProcessIn(st, s, OcrResult(pages, s.extractContent), folder, path, hostOk).st
  {
    var data := OcrResult(pages, s.extractContent);
    OcrResultFields(pages, s.extractContent);
    var (st1, _) := EnsureFolderIn(st, folder);
    var (st2, _, _) := MarkdownStage(st1, s, data, folder, path);
    var (st3, _, _) := ImagesStage(st2, s, data, folder, path);
    var (st4, _) := MetadataStage(st3, s, data, folder, path, hostOk);
    FinishLeavesNoOriginal(st4, s, folder, path);
  }

  /**
   * When processing stopped at a stage, the original is still where it was,
   * and the deletion in `convert` trashes it although the result was not
   * fully written.
   */
  lemma DeletesAfterAbort(st: Store, s: Settings, pages: seq<OcrPage>, folder: string, path: string, hostOk: bool)
    requires s.deleteOriginal
    requires var rep := ProcessIn(st, s, OcrResult(pages, s.extractContent), folder, path, hostOk);
             rep.outcome.Aborted? && rep.st.IsFile(path)
    ensures var rep := ProcessIn(st, s, OcrResult(pages, s.extractContent), folder, path, hostOk);
            AfterOcr(st, s, pages, folder, path, hostOk).entries == rep.st.entries - {Key(path)}
  {
    var data := OcrResult(pages, s.extractContent);
    OcrResultFields(pages, s.extractContent);
    var (st1, _) := EnsureFolderIn(st, folder);
    var (st2, _, _) := MarkdownStage(st1, s, data, folder, path);
    var (st3, _, _) := ImagesStage(st2, s, data, folder, path);
    var (st4, _) := MetadataStage(st3, s, data, folder, path, hostOk);
  }
}
