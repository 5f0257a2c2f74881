# A Dafny model of the Obsidian Marker plugin

The Marker plugin for Obsidian converts a PDF (and, for some back ends, a
DOCX, DOC, PPTX or PPT file) in the user's vault into a Markdown note. The
note can come with the document's images and a front-matter block of
metadata. The plugin sends the file to one of four conversion services:
- the hosted Datalab API;
- a self-hosted Marker server in Docker;
- the Mistral OCR API;
- a local Marker Python server.

It then writes what comes back into a folder next to the file. Optionally it
moves the original into that folder or trashes it.

The repository holds three generations of the conversion pipeline, and this
project models all three:

- **The oldest generation**, the single plugin class of the root `main.ts`
  (`Legacy`). It is proved to agree with the next generation wherever the two
  coincide.
- **The next generation** has three parts:
  - the plugin class of `src/main.ts` (`Plugin`): the file menu, the command
    and the dispatch;
  - the entry points of `src/conversion.ts` (`Conversion`);
  - the helpers of `src/utils.ts` (`Utils`): the confirmation dialog (a class
    with its `resolved` flag), the settings check, the connection test, the
    folder choice, polling and `processConversionResult`.
  Its settings check is the one of `src/utils/settingsUtils.ts`
  (`SettingsUtils`).
- **The current generation**:
  - the converter base class of `src/converter.ts` (`Converter`): the folder
    and overwrite gate, and the materialisation of a result in its fixed
    order;
  - its four subclasses `Datalab`, `MarkerDocker`, `Mistral` and `PythonApi`.
    For each: its connection test and request layout, the multipart body it
    builds, the handling of its replies and its polling. `Multipart.Combine`
    fills a byte `array` in place and is proved to yield the parts' bytes in
    order;
  - the shared file operations of `src/utils/fileUtils.ts` (`FileUtils`): the
    conversion folder, the Markdown rewrite of image links, the image and
    Markdown writes, the front matter and the deletion of the original. The
    regular expressions are modelled exactly in `Patterns`.

The release script `version-bump.mjs` (`VersionBump`) is modelled too: the
patch bump of the version and the two manifests it rewrites.

The vault is `Host.Vault`, a class whose fields are the entries and a ghost
log of mutations. Each host call is a method, proved against a pure function
on `Host.Store`. The pipelines are specified by functions on `Store`, and
their methods are proved to leave exactly the state those functions give.

`Js` models the JavaScript semantics that the source relies on:
- values with `undefined` and `null`;
- truthiness, `||` and `??`;
- objects as ordered member lists;
- `Object.entries` and `JSON.stringify`;
- the string methods.

`Text` holds splitting, joining, decimal text and UTF-8 encoding.

Replies from servers, answers to dialogs and the host's success or failure
are inputs. A method that talks to the network takes the reply it gets as a
parameter.

Behaviour of the source that the proofs make explicit, besides the Findings
below:
- Every conversion entry point answers true as soon as the settings pass,
  whatever happens after (`Legacy.ConvertPDFToMD`, `Conversion.ConvertPDFToMD`).
- The Python converter moves the original itself after the shared step has
  already moved it. Assuming the host refuses to rename a file onto its own
  path (see `Host.RenameIn` under "## Left out"), that second rename fails, so
  a completed run is reported as a parse error
  (`PythonApi.CompletedMoveReportedAsFailure`).
- In the oldest generation, a result of two or more documents with
  `movePDFtoFolder` always throws at the second move
  (`Legacy.SecondMoveThrows`).
- In the oldest generation, a file at the vault root with `createFolder` off is
  never converted, because its folder is the empty text
  (`Legacy.RootFileStops`).
- In the oldest generation, every completed Datalab conversion ends in the error notice with nothing written, because the loop cannot iterate the result object (`Legacy.CompletedRunFails`). A reply object on the PDF route ends the same way (`Legacy.PdfVerdict`).
- The oldest generation's menu also offers folders named like a PDF, and
  clicking such an item does nothing (`Legacy.MenuOffersFolders`).
- The Mistral converter's API-key check after `prepareConversion` cannot fail
  (`Mistral.KeyCheckUnreachable`).
- The Docker converter throws its validation-error message inside its own
  `try`. So every status of 400 or more is reported with the generic server
  error (`MarkerDocker.AttemptOutcome`).
- Datalab's time-out check after the poll loop looks only at the retry
  counter. A result that completes on the last retry is still reported as a
  time-out (`Datalab.PollTimesOut`).
- `src/utils.ts` writes an empty Markdown file for an empty result, where the
  converter class skips the write (`Utils.EmptyMarkdownWritten`).

## Model

| member | source | states |
|---|---|---|
| Plugin.ValidFiles | src/main.ts:36-42 | a PDF is always offered; DOCX, DOC, PPTX and PPT only with the datalab endpoint; no other extension ever |
| Plugin.MenuItemTitle | src/main.ts:44-53 | the generic title is chosen exactly when the extension has no entry in the title table |
| Plugin.TitlesNameTypes | src/main.ts:45-51 | every entry of the title table reads "Convert " + the extension in capitals + " to MD" |
| Plugin.TitleNamesType | src/main.ts:36-53 | every file the menu offers gets a title naming its own extension in capitals, whatever the endpoint |
| Plugin.FileMenu | src/main.ts:20-34 | the menu gets at most one item, and one exactly when the path is a file with an allowed extension |
| Plugin.CommandCheck | src/main.ts:65-78 | a conversion is started exactly when not checking and the active file is valid; checking answers whether the file is valid; starting answers undefined |
| Plugin.CommandAgreesWithMenu | src/main.ts:20-78 | for a file, the command's check answers true exactly when the file menu shows an item |
| Plugin.Dispatch | src/main.ts:55-63 | no back end is chosen exactly when the endpoint is none of datalab, selfhosted and python-api |
| Plugin.FailedProbeChangesNothing | src/main.ts:55-63 | whatever the back end, a conversion whose settings check or connection probe fails leaves the vault unchanged and posts exactly one notice |
| Plugin.ConvertFile | src/main.ts:55-63 | the vault and the notices afterwards are those of the entry point the endpoint selects; an unknown endpoint changes nothing |
| Plugin.RunCommand | src/main.ts:65-78 | the callback's answer is the check's; without a conversion the vault is unchanged and nothing is posted, otherwise the vault is what `convertFile` makes of it |
| SettingsUtils.CheckSettings | src/utils/settingsUtils.ts:4-16 | the check passes exactly when the mode is text, images or all; a failure posts the one invalid-mode notice and a pass posts nothing |
| SettingsUtils.CheckSettingsReadsOnlyMode | src/utils/settingsUtils.ts:4-16 | two settings with the same extraction mode get the same verdict and notices |
| VersionBump.BumpedComponents | version-bump.mjs:5-9 | the bumped version has as many dot-separated pieces as the old one, the same pieces but the last, and the last is the old one parsed and incremented |
| VersionBump.BumpedText | version-bump.mjs:5-9 | as text, the old version up to its last dot is kept and followed by the incremented patch; a version without a dot becomes the incremented patch alone |
| VersionBump.BumpedNumber | version-bump.mjs:5-9 | a numeric patch is incremented as a number: prefix + "." + n becomes prefix + "." + (n + 1) |
| VersionBump.SplitJoin | version-bump.mjs:5-9 | splitting at a separator that no piece contains gives the joined pieces back |
| VersionBump.BumpVersion | version-bump.mjs:3-9 | the split, pop, parse, increment, push and join compute `Bumped(version)`, with the same pieces before the last |
| VersionBump.Assign | version-bump.mjs:14-25 | an assignment gets through exactly for an object or an array; an array keeps its serialised value unchanged |
| VersionBump.AssignObject | version-bump.mjs:14-25 | on an object, the assigned member reads back and every other member is unchanged |
| VersionBump.BumpFiles | version-bump.mjs:3-26 | at most three writes, in order package.json, manifest.json, versions.json; each happens exactly when the assignments before it and its own got through, with the assigned value |
| VersionBump.BumpedFiles | version-bump.mjs:12-26 | for three objects, package.json and manifest.json carry the same new version, versions.json maps it to the manifest's `minAppVersion`, and its other entries keep their values and order |
| Conversion.Says | src/conversion.ts:63-73 | each fixed text becomes one notice, in order, nothing added or dropped |
| Conversion.SaysAppend | src/conversion.ts:63-73 | notices of two runs of texts are the notices of the first followed by those of the second |
| Conversion.BeginIn | src/conversion.ts:28-60 | failing settings stop with their notice and the vault unchanged; a failed probe stops with its notice, vault unchanged; the conversion goes on exactly when settings and probe pass, a folder is chosen, and the overwrite dialog (asked only in the images and all modes when the folder holds files) was not declined; it then converts into the chosen folder |
| Conversion.PdfToMdIn | src/conversion.ts:20-101 | failing settings give exactly their notice and leave the vault unchanged |
| Conversion.DatalabIn | src/conversion.ts:103-283 | failing settings give exactly their notice and leave the vault unchanged |
| Conversion.PythonIn | src/conversion.ts:285-384 | failing settings give exactly their notice and leave the vault unchanged |
| Conversion.DatalabSubmitted | src/conversion.ts:226-281 | the vault changes only after a 200 reply to the upload |
| Conversion.SettingsComeFirst | src/conversion.ts:30-32 | settings that fail the check stop every entry point with exactly one notice, before the probe or any change to the vault |
| Conversion.DeclineKeepsFiles | src/conversion.ts:49-60 | declining the overwrite dialog stops quietly, leaving the vault as the folder creation left it |
| Conversion.Begin | src/conversion.ts:28-60 | the vault and the outcome are those of BeginIn on the old vault |
| Conversion.PdfVerdict | src/conversion.ts:63-90 | the run starts with the progress notice and ends with the done notice or the error notice; done exactly when the server answered and processConversionResult did not throw, and then the vault is what that left; a failed request leaves the vault unchanged |
| Conversion.ConvertPDFToMD | src/conversion.ts:20-101 | answers true exactly when the settings pass; vault and notices follow the specification of the whole entry point; a body is uploaded exactly when the start succeeds and the file is read, and it is the multipart body with the file as pdf_file and the extract-images flag |
| Conversion.ContinuePdf | src/conversion.ts:62-90 | from the start's outcome on: vault and notices follow the specification; a body is sent exactly when the start is ready and the file was read |
| Conversion.UploadPdf | src/conversion.ts:74-90 | the body uploaded is the marker multipart body of the file's bytes; vault and notices follow the specification from the reply on |
| Conversion.LegacyContentTypeAgrees | src/conversion.ts:167-182 | for pdf, docx, doc, pptx and ppt the switch gives the same MIME type as the converter class's table; every other extension gets an empty type |
| Conversion.DatalabLayout | src/conversion.ts:184-224 | the body is the file part's header, the file's bytes unchanged, then CRLF, the four fields in order and the closing delimiter |
| Conversion.DatalabFieldsAgree | src/conversion.ts:184-209 | the fields sent carry the same languages, OCR and pagination texts as the converter class's, and images are extracted exactly when the class does not disable them |
| Conversion.BuildDatalabBody | src/conversion.ts:184-224 | the body built part by part equals the flattened multipart layout |
| Conversion.DatalabVerdict | src/conversion.ts:226-281 | after the upload: the done notice ends the run exactly when the request was accepted, the poll completed and processing did not throw, with the vault as processing left it; a refusal gives exactly the detail notice; any other failure gives the wrapped error notice then the error notice; the vault is untouched unless accepted |
| Conversion.ConvertWithDatalab | src/conversion.ts:103-283 | answers true exactly when the settings pass; vault and notices follow the specification; the body is uploaded exactly when the start succeeds and the file is read, and it is the datalab multipart layout |
| Conversion.ContinueDatalab | src/conversion.ts:145-282 | from the start's outcome on: vault and notices follow the specification; a body is sent exactly when the start is ready and the file was read |
| Conversion.SubmitToDatalab | src/conversion.ts:226-281 | vault and notices are those of the specification from the upload's reply on |
| Conversion.RenameOntoItselfFails | src/conversion.ts:351-354 | renaming a file onto its own path fails and changes nothing |
| Conversion.PythonSecondMoveFails | src/conversion.ts:343-365 | with movePDFtoFolder, a processed result always ends with the done notice followed by the parse-error notice, and the vault is what processConversionResult left |
| Conversion.MovedRunEndsInFolder | src/utils.ts:647-651 | with movePDFtoFolder, a materialisation that does not throw leaves the original in the conversion folder |
| Conversion.PythonSecondDeleteIsQuiet | src/conversion.ts:355-357 | without the move, the entry point's own deletion adds no notice and changes nothing, since processConversionResult already trashed the original |
| Conversion.UnmovedRunTrashed | src/utils.ts:647-655 | with deleteOriginal and no move, a materialisation that does not throw has trashed the original |
| Conversion.ConvertWithPythonAPI | src/conversion.ts:285-384 | answers true exactly when the settings pass; vault and notices follow the specification; the request object is posted exactly when the start (without the overwrite dialog) succeeds, and it is the file's path with the settings |
| Conversion.PostToPython | src/conversion.ts:313-382 | vault and notices are those of the specification from the reply on |
| Utils.CheckSettings | src/utils.ts:535-551 | passes exactly when the Marker endpoint is set and the extraction mode is text, images or all; a failure posts exactly one notice, the endpoint notice when the endpoint is missing |
| Utils.CheckSettingsRefinesModeCheck | src/utils.ts:535-551 | with the endpoint set, the check agrees with the mode check of src/utils/settingsUtils.ts, notice included |
| Utils.ProbeLayout | src/utils.ts:124-162 | the self-hosted probe body is an empty test.pdf file part, then the extract_images field set to false and the closing delimiter, and the field parses back to its name and value |
| Utils.Connection | src/utils.ts:64-231 | the probe succeeds exactly when datalab has a key and answers 200 with status "ok", or the self-hosted or Python server answers 200; a failure posts exactly one notice; a datalab status of 400 or more is rejected by the request and posts the plain "Error connecting to Datalab Marker API" notice; success is announced only when not silent; an unknown endpoint never succeeds |
| Utils.ConnectionAgreesWithConverters | src/utils.ts:70-119 | the datalab probe succeeds exactly when the datalab converter's probe does, and the Python probe exactly when the Python converter's does |
| Utils.PythonProbeFields | src/utils.ts:198-213 | the Python probe posts filepath "test" with the configured languages (English by default) and the OCR and pagination flags, false when unset |
| Utils.TestConnection | src/utils.ts:64-231 | the answer and notices are those of Connection, and the request sent is the probe request of the configured endpoint |
| Utils.ParentFolder | src/utils.ts:259-266 | the folder written into ends with a slash |
| Utils.ParentFolderHoldsFile | src/utils.ts:259-266 | the folder followed by the file's name gives back the file's path |
| Utils.ParentAsWrittenAgrees | src/utils.ts:261-265 | when the file's name occurs nowhere in its path before its own place, the string replacement gives the parent folder |
| Utils.ParentAsWrittenWrongFolder | src/utils.ts:261-265 | a path whose first segment is the file's own name, such as "a.pdf/x/a.pdf", is turned into the wrong folder by the first-occurrence replacement |
| Utils.ParentAsWritten | src/utils.ts:259-266 | the folder used without createFolder always ends with a slash |
| Utils.HandleFolderCreationIn | src/utils.ts:233-281 | no folder name means no folder and no change; without createFolder the folder used is the path with the name removed where it first occurs, a slash added when missing (`ParentAsWritten`), with no change; an existing folder asks the dialog, whose answer decides, with no change; a file in the way makes createFolder fail with no change; otherwise the folder is created and used |
| Utils.FolderCreationSettles | src/utils.ts:233-281 | once a folder was chosen, handling the same file again finds it, asks the dialog and, answered yes, picks the same folder with nothing changed |
| Utils.HandleFolderCreation | src/utils.ts:233-281 | the vault, the choice and whether the dialog was asked are those of HandleFolderCreationIn on the old vault, the first-occurrence replacement included |
| Utils.ContentOutcome | src/utils.ts:345-366 | a status of 400 or more is rejected by the request itself and throws the runtime's error, not the unreachable "HTTP error! status" one; an empty or keyless JSON below 400 throws "No data returned from Marker API"; the answer is returned exactly when the status is below 400 and the JSON is present, truthy and has keys, and it is that JSON |
| Utils.ContentOutcomeAgreesBelow400 | src/utils.ts:354-366 | below 400 the outcome is the same as the self-hosted converter's |
| Utils.ConvertPDFContent | src/utils.ts:303-367 | the body is the multipart body with the file's bytes as pdf_file and the extract_images flag; the outcome is ContentOutcome of the reply, so a status of 400 or more throws the runtime's error |
| Utils.PollForConversionResult | src/utils.ts:369-407 | the data returned is that of the polling specification; between 1 and 301 GETs are made, and data that is not complete is returned only after all 301 |
| Utils.PollFromStops | src/utils.ts:386-405 | polling returns the data of the first GET that is not still running, or of the last one |
| Utils.PollStopsAt | src/utils.ts:369-407 | from the start: the result is the data of the first reply that is not still running |
| Utils.PollAgreesWithDatalab | src/utils.ts:369-407 | a poll that completes within its retries returns the completed data, and the datalab converter's polling completes with the same data |
| Utils.Normalise | src/utils.ts:587-610 | normalised data is never null or undefined; the data is rejected as malformed exactly when it is an array of more than one item |
| Utils.NormaliseOutput | src/utils.ts:596-600 | a successful answer with a string output gets it as markdown, keeps the metadata written and changes no other member |
| Utils.NormaliseSingleton | src/utils.ts:588-603 | a one-item array gives its item's result when it has one, the item itself otherwise |
| Utils.NormaliseResult | src/utils.ts:593-594 | an object with a result is replaced by that result |
| Utils.MarkdownStep | src/utils.ts:441-477 | in images mode nothing is written; a markdown that is not a string throws with no change; otherwise it fails with no change when a folder holds the target, and else writes the markdown as the source transforms it (the `$` template expanded) to the target, changes no other entry and posts the created notice |
| Utils.MarkdownStepAgrees | src/utils.ts:441-477 | for non-empty markdown the step is the same as the converter class's markdown stage |
| Utils.EmptyMarkdownWritten | src/utils.ts:441-477 | empty markdown is still written as a file here, where the converter class writes nothing |
| Utils.SaveUntilFailureAgrees | src/utils.ts:416-437 | saving succeeds exactly when no image target is a folder, and then the vault is that of saving every image |
| Utils.ImagesStep | src/utils.ts:618-642 | in text mode nothing happens; missing images, or an assets path taken by a file, throw with no change; success is announced exactly when the step succeeds |
| Utils.ImagesStepOutcome | src/utils.ts:618-642 | with images present the step succeeds exactly when the assets path is not a file and no image target in the folder used is a folder |
| Utils.ImagesFolderUnchanged | src/utils.ts:627-633 | creating the assets folder does not change which image targets are folders |
| Utils.MetadataStep | src/utils.ts:643-646 | the metadata step changes no entry; without writeMetadata it does nothing, and otherwise it adds the data's meta or metadata |
| Utils.FinishIn | src/utils.ts:647-655 | a failed move throws with the vault unchanged; otherwise the original ends in the folder when moved, at its path otherwise |
| Utils.FinishAgreesWhenMoved | src/utils.ts:647-655 | when the move succeeds or is not asked for, the end of the run is the converter class's finish stage |
| Utils.FinishLeavesNoOriginal | src/utils.ts:653-655 | with deleteOriginal, a finish that does not throw leaves no file where the original ended |
| Utils.UnderstoodOrUntouched | src/utils.ts:587-610 | data that is not understood changes nothing, and the run throws exactly when reading it throws |
| Utils.ProcessIn | src/utils.ts:581-656 | data that is not understood leaves the vault unchanged |
| Utils.FailedMoveKeepsOriginal | src/utils.ts:647-651 | when the move fails, the run throws and the original stays at its path |
| Utils.SaveImages | src/utils.ts:416-437 | the vault and the outcome are those of saving the images in order until one fails |
| Utils.SaveStep | src/utils.ts:416-437 | saving one image more is saving that image into what the previous ones left |
| Utils.SaveStopsAtFailure | src/utils.ts:416-437 | after a failure, the later images change nothing |
| Utils.WriteImages | src/utils.ts:618-642 | the vault, the notices and the outcome are those of ImagesStep on the old vault |
| Utils.Finish | src/utils.ts:647-655 | the vault, notices, outcome and final path are those of FinishIn |
| Utils.ProcessConversionResult | src/utils.ts:581-656 | the vault, notices, outcome and final path of the original are those of the specification of the whole run |
| Utils.WriteRest | src/utils.ts:618-655 | from after the markdown on, the run is that of the specification |
| Utils.WriteAfterImages | src/utils.ts:643-655 | from after the images on, the run is that of the specification |
| Utils.WriteMarkdownFile | src/utils.ts:610-617 | the vault, notices and outcome are those of MarkdownStep |
| Utils.DismissNeverAnswers | src/utils.ts:54-61 | a dialog closed with Escape first never hands an answer to its caller |
| Utils.EveryDialogAnswers | src/utils.ts:30-61 | as intended, a dialog acted on answers exactly once, true exactly for OK, and the buttons answer as written |
| Utils.OkayCancelDialog.PressOk | src/utils.ts:30-37 | the first press resolves with true; a dialog already resolved keeps its result and hands nothing more |
| Utils.OkayCancelDialog.PressCancel | src/utils.ts:38-45 | the first press resolves with false; a dialog already resolved keeps its result and hands nothing more |
| Utils.OkayCancelDialog.Close | src/utils.ts:54-61 | closing marks the dialog resolved, keeps its result and hands nothing |
| Utils.Resolutions | src/utils.ts:30-61 | as the comment in `onClose` intends, the first press or dismissal hands over at most one answer |
| Utils.ResolutionsAsWritten | src/utils.ts:30-61 | as written, the first press hands over at most one answer, and a dismissal hands over none |
| Utils.OkayCancelDialog.constructor | src/utils.ts:17-28 | a new dialog has seen nothing, is unresolved and has handed over no answer |
| Utils.FolderName | src/utils.ts:237-245 | the derived folder name is empty exactly when the computed conversion folder is empty |
| Utils.RemoveFirst | src/utils.ts:259-261 | `replace` with a string pattern leaves the text unchanged when the pattern does not occur |
| Utils.Fetched | src/utils.ts:369-407 | data read from a poll reply is never null or undefined |
| Converter.Says | src/converter.ts:66-149 | each fixed text becomes one notice, in order |
| Converter.PrepareConversion | src/converter.ts:43-57 | settings with an invalid mode give null without testing the connection; valid settings always test it; the folder path is returned exactly when the mode is valid and the connection succeeds, and it is the conversion folder of the file |
| Converter.PreparedFolder | src/converters/datalabConverter.ts:41-42 | a conversion goes on exactly when the mode is valid, the connection succeeds and the folder path is not empty, and it goes on into that folder |
| Converter.OverwriteGate | src/converters/datalabConverter.ts:41-52 | no folder stops with false; a declined overwrite prompt (images or all mode, folder holding files) stops with true; otherwise the conversion proceeds into the conversion folder |
| Converter.MarkdownStage | src/converter.ts:75-83 | in images mode, or with falsy markdown, nothing happens; the stage throws with no change exactly when the markdown is truthy and not a string or a folder holds the target; otherwise the markdown as the source transforms it (the `$` template expanded) is written to the target, no other entry changes, and the created notice is posted |
| Converter.ImagesToWrite | src/converter.ts:85-89 | images are written exactly when the mode is not text and the images object has entries, and they are those entries |
| Converter.ImagesStage | src/converter.ts:85-109 | with nothing to write nothing happens; the stage throws with no change exactly when the assets subfolder is wanted and a file holds its path; otherwise the assets folder exists when wanted and the vault is that of saving every image into the folder used |
| Converter.MetadataStage | src/converter.ts:112-119 | without writeMetadata or metadata nothing happens; the stage changes no entry |
| Converter.DeleteAfterMove | src/converter.ts:122-137 | with deleteOriginal the original leaves the vault whether or not it was moved, nothing else is removed, and the deletion notice comes last |
| Converter.FinishLeavesNoOriginal | src/converter.ts:122-137 | with deleteOriginal no file is left where the original ended up |
| Converter.FailedMoveReported | src/converter.ts:122-133 | a failed move is caught: its notice comes first, the original stays at its path and is still deleted when asked |
| Converter.MovedIntoFolder | src/converter.ts:122-133 | a successful move without deletion leaves the file in the folder and nothing at its old path, with no notice |
| Converter.WriteMarkdownStep | src/converter.ts:75-83 | the vault, notices and outcome are those of MarkdownStage on the old vault |
| Converter.WriteImagesStep | src/converter.ts:85-109 | the vault, notices and outcome are those of ImagesStage on the old vault |
| Converter.FinishStep | src/converter.ts:122-137 | the vault, notices and final path are those of FinishStage on the old vault |
| Converter.ProcessConversionResult | src/converter.ts:59-150 | the vault, notices, outcome and final path of the original are those of the specification of the whole run |
| Converter.AddsInOrder | src/converter.ts:72-137 | a log in stage order, extended only by mutations of a later or equal stage, stays in stage order |
| Converter.FolderAdds | src/converter.ts:72 | ensuring the folder adds only folder-creation entries to the log |
| Converter.MarkdownAdds | src/converter.ts:75-83 | the markdown stage adds only markdown writes to the log |
| Converter.ImagesAdd | src/utils/fileUtils.ts:78-114 | saving images adds only image writes to the log |
| Converter.ImagesStageInOrder | src/converter.ts:85-109 | the images stage keeps the log in stage order, assets folder before images |
| Converter.FinishInOrder | src/converter.ts:122-137 | the move comes before the deletion in the log |
| Converter.AfterImagesInOrder | src/converter.ts:112-137 | after the images, metadata, move and delete are logged in that order |
| Converter.AfterMarkdownInOrder | src/converter.ts:85-137 | after the markdown, the rest is logged in stage order |
| Converter.MaterialiseInOrder | src/converter.ts:75-137 | from the markdown on, every mutation is logged in stage order |
| Converter.StageOrder | src/converter.ts:59-150 | every mutation of processConversionResult happens in the fixed order: conversion folder, markdown, assets folder, images, metadata, move, delete |
| Converter.RejectedChangesNothing | src/converter.ts:67-70 | a missing or unsuccessful result posts only its failure notice and leaves the vault untouched |
| Converter.ProcessIn | src/converter.ts:59-150 | a missing or unsuccessful result leaves the vault unchanged and is rejected |
| Converter.FolderEnsuredFirst | src/converter.ts:66-72 | the run aborts at the conversion folder exactly when a file holds its path, and then nothing changes |
| FileUtils.CalculateFolderPath | src/utils/fileUtils.ts:16-35 | the path is empty exactly when the last segment left after removing the last ".pdf" is empty; otherwise it is everything before the last slash once that ".pdf" became a slash, followed by a slash |
| FileUtils.FolderOfPdf | src/utils/fileUtils.ts:16-35 | a file "dir/name.pdf" converts into the folder "dir/name/" |
| FileUtils.FolderOfOtherFile | src/utils/fileUtils.ts:16-35 | a file without ".pdf" in its name converts into its own parent folder |
| FileUtils.GetConversionFolderPath | src/utils/fileUtils.ts:5-13 | a non-empty given path is used as is; otherwise the calculated folder path |
| FileUtils.TransformMarkdown | src/utils/fileUtils.ts:136-150 | in text mode no image reference is left; without the assets subfolder and outside text mode the markdown is unchanged; with the subfolder and a cleaned name free of `$`, the template as written gives exactly the intended per-line rewrite of references into asset links |
| FileUtils.TransformSimpleRef | src/utils/fileUtils.ts:136-146 | with the assets subfolder outside text mode and a cleaned name free of `$`, a line's one image reference becomes the asset link: its path as alt text, then "assets/", the cleaned file name and its path; the text around it is unchanged |
| FileUtils.AppendStatLines | src/utils/fileUtils.ts:190-197 | the lines appended for a stats object are those of the specification, or the throw |
| FileUtils.AppendMemberLines | src/utils/fileUtils.ts:188-201 | the lines appended for one metadata member are those of the specification, or the throw |
| FileUtils.GenerateFrontmatter | src/utils/fileUtils.ts:185-205 | the text built is that of the specification: the known keys' lines between two "---" lines, or the throw |
| FileUtils.StatLinesNoneExtends | src/utils/fileUtils.ts:190-197 | once a stats line throws, the whole loop throws |
| FileUtils.FrontmatterLinesNoneExtends | src/utils/fileUtils.ts:188-202 | once a member throws, the whole loop throws |
| FileUtils.KnownMembers | src/utils/fileUtils.ts:187-189 | only the members named languages, filetype, ocr_stats or block_stats are kept |
| FileUtils.FrontmatterIgnoresOtherKeys | src/utils/fileUtils.ts:187-189 | members with other keys neither add lines nor make the generation throw |
| FileUtils.StatLineFails | src/utils/fileUtils.ts:192-196 | a stats line throws exactly for an `equations` member whose value is undefined |
| FileUtils.StatLinesFail | src/utils/fileUtils.ts:191-197 | a stats object throws exactly when one of its members is an `equations` member whose value is undefined |
| FileUtils.FrontmatterLinesFail | src/utils/fileUtils.ts:188-202 | the members throw exactly when one of them does |
| FileUtils.FrontmatterFails | src/utils/fileUtils.ts:185-205 | generation throws exactly when the metadata is null or undefined, or a stats member is null or undefined or holds an undefined equations value |
| FileUtils.FlatEquationsLine | src/utils/fileUtils.ts:192-195 | an equations object of plain values is written as its key: value pairs without braces or quotes |
| FileUtils.EnsureFolderIn | src/utils/fileUtils.ts:37-46 | ensuring the folder succeeds exactly when no file holds its path; it then exists; an existing folder or a failure changes nothing |
| FileUtils.CreateConversionFolder | src/utils/fileUtils.ts:37-46 | the vault and the outcome are those of EnsureFolderIn |
| FileUtils.EnsureFolderIdempotent | src/utils/fileUtils.ts:37-46 | ensuring a folder twice is ensuring it once |
| FileUtils.CheckForExistingFiles | src/utils/fileUtils.ts:48-66 | the dialog is asked exactly when a file path starts with the folder path, and the conversion proceeds exactly when it was not asked or was answered yes |
| FileUtils.SaveImageIn | src/utils/fileUtils.ts:85-105 | saving succeeds exactly when no folder holds the target; then the target holds the image, created or overwritten, and nothing else changes; a failure changes nothing |
| FileUtils.ImagesIn | src/utils/fileUtils.ts:75-114 | no more images are counted as processed than there are |
| FileUtils.SaveImage | src/utils/fileUtils.ts:85-105 | the vault and the outcome are those of SaveImageIn |
| FileUtils.CreateImageFiles | src/utils/fileUtils.ts:68-123 | the vault is that of saving every image, a failure being caught and skipped, and the notice reports the number processed against the total |
| FileUtils.ImagesKeepFolders | src/utils/fileUtils.ts:78-114 | saving images neither creates nor removes a folder |
| FileUtils.ImagesCount | src/utils/fileUtils.ts:78-114 | the number processed is the number of images whose target is not a folder |
| FileUtils.StorableAll | src/utils/fileUtils.ts:78-114 | every image can be stored exactly when no target is a folder |
| FileUtils.AllImagesSaved | src/utils/fileUtils.ts:116-122 | the success notice is posted exactly when no image's target is a folder |
| FileUtils.ImagesStored | src/utils/fileUtils.ts:78-114 | with distinct targets, every image whose target is not a folder is stored there with its payload |
| FileUtils.ImagesTouchOnlyTargets | src/utils/fileUtils.ts:78-114 | an entry that is no image's target is left as it was |
| FileUtils.MarkdownIn | src/utils/fileUtils.ts:132-158 | writing succeeds exactly when no folder holds the target; then the target holds the markdown as the source transforms it, `$` template included, and nothing else changes; a failure changes nothing |
| FileUtils.CreateMarkdownFile | src/utils/fileUtils.ts:125-161 | the vault and the outcome are those of MarkdownIn, the as-written transformation included, and the created notice is posted exactly on success |
| FileUtils.AddMetadataIn | src/utils/fileUtils.ts:163-183 | no entry changes; the step throws exactly when the markdown file exists and the front matter cannot be generated; the front matter is added, once, exactly when the file exists, the text was generated and the host's update succeeds |
| FileUtils.AddMetadataToMarkdownFile | src/utils/fileUtils.ts:163-183 | the vault and the outcome are those of AddMetadataIn |
| FileUtils.DeleteOriginalIn | src/utils/fileUtils.ts:207-214 | a file is trashed with its notice and nothing else changes; when there is no file the failure is caught silently and nothing changes |
| FileUtils.DeleteOriginalFile | src/utils/fileUtils.ts:207-214 | the vault and notices are those of DeleteOriginalIn |
| FileUtils.MarkdownFileName | src/utils/fileUtils.ts:132 | the markdown file is named after the file's name up to its first dot, with ".md" appended |
| FileUtils.DotsToDashes | src/utils/fileUtils.ts:21 | `replace(/\./g, '-')` keeps the name's length |
| Datalab.TestConnection | src/converters/datalabConverter.ts:374-417 | without a key the probe fails without a request; with a key it is always sent, and it succeeds exactly when the reply is 200 with status "ok" |
| Datalab.ConvertGate | src/converters/datalabConverter.ts:41-56 | no folder stops with false; a declined overwrite prompt stops with true; the conversion proceeds, into the conversion folder, exactly when a folder was prepared, the prompt was not declined and a key is set |
| Datalab.PushIfSet | src/converters/datalabConverter.ts:257-271 | an optional field is appended after the fields so far exactly when it is set |
| Datalab.CreateFields | src/converters/datalabConverter.ts:245-271 | the fields are the five fixed ones followed by the optional ones that are set |
| Datalab.NamesAppend | src/converters/datalabConverter.ts:245-271 | the names of two runs of fields are the names of the first followed by those of the second |
| Datalab.NamesOptional | src/converters/datalabConverter.ts:257-271 | an optional field contributes its name exactly when it is set |
| Datalab.FieldOrder | src/converters/datalabConverter.ts:245-271 | the field names are langs, force_ocr, paginate, disable_image_extraction, output_format, then max_pages, strip_existing_ocr, use_llm and skip_cache in that order, each only when set |
| Datalab.OptionalFieldPresence | src/converters/datalabConverter.ts:257-271 | max_pages is sent exactly when it is set and not zero; each of the three flags exactly when it is defined |
| Datalab.ImageExtractionField | src/converters/datalabConverter.ts:249-252 | the fourth field is disable_image_extraction, "true" exactly in text mode |
| Datalab.TypeLengths | src/converters/datalabConverter.ts:321-347 | the seven MIME types have distinct lengths, so they are distinct |
| Datalab.ContentTypeGeneric | src/converters/datalabConverter.ts:321-347 | the generic octet-stream type is chosen exactly for an extension not in the table |
| Datalab.ContentTypeFamilies | src/converters/datalabConverter.ts:321-347 | doc and docx share the Word type, ppt and pptx the presentation type, which differs from it; jpg and jpeg are both image/jpeg |
| Datalab.BuildParts | src/converters/datalabConverter.ts:286-309 | the parts pushed are the file part's header, its bytes, CRLF, one part per set field and the closing delimiter |
| Datalab.BuildMultipartRequest | src/converters/datalabConverter.ts:280-316 | a fresh buffer holding exactly the flattened parts |
| Datalab.RequestLayout | src/converters/datalabConverter.ts:280-316 | the body is the file header, the file's bytes unchanged, then CRLF, the field parts and the closing delimiter as text |
| Datalab.AllFieldsSent | src/converters/datalabConverter.ts:299-306 | when no field is null or undefined, every field is sent, in order |
| Datalab.BuiltFieldsAreSet | src/converters/datalabConverter.ts:245-271 | none of the fields built is null or undefined |
| Datalab.SubmitOutcome | src/converters/datalabConverter.ts:138-162 | the submission succeeds exactly when the reply is 200 with JSON holding a request_check_url |
| Datalab.RejectionNamesStatus | src/converters/datalabConverter.ts:157-161 | a refusal without an error message names the HTTP status |
| Datalab.FinalResult | src/converters/datalabConverter.ts:187-200 | the result formatted from the poll's answer is an object |
| Datalab.FinalResultFields | src/converters/datalabConverter.ts:187-200 | success is true exactly when the status is complete; otherwise an error is set; when complete, markdown, images and metadata default to empty values |
| Datalab.Poll | src/converters/datalabConverter.ts:419-509 | the outcome of polling is that of the polling specification over the replies |
| Datalab.LoopComplete | src/converters/datalabConverter.ts:448-500 | data returned as complete has status complete |
| Datalab.PollComplete | src/converters/datalabConverter.ts:419-509 | a completed poll returns data whose status is complete |
| Datalab.PollSpec | src/converters/datalabConverter.ts:419-509 | a first reply that is complete is the poll's result |
| Datalab.LoopTimesOut | src/converters/datalabConverter.ts:448-498 | when every reply is pending the loop ends in the time-out error |
| Datalab.PollTimesOut | src/converters/datalabConverter.ts:419-509 | a first reply and every retry but the last still pending give the time-out error, whatever the last reply holds (unless its data is null), since only the retry counter is checked |
| Datalab.PendingKeepsData | src/converters/datalabConverter.ts:452-492 | at every retry, a request that throws or a body that cannot be read keeps the data already held, and a body that is read replaces it; so with an answer held and a last reply that is not a null or undefined body, the last retry never reads from nothing |
| Datalab.LoopFinds | src/converters/datalabConverter.ts:448-500 | the loop returns the first data whose status is complete |
| Datalab.PollFindsFirstComplete | src/converters/datalabConverter.ts:419-509 | with pending replies before it, the first complete reply within the retries is what the poll returns |
| Datalab.Convert | src/converters/datalabConverter.ts:36-94 | a stop at the gate returns its answer, sends nothing and changes nothing; past it the request body is sent exactly when the file is read, and it is the multipart body of the file and fields; the answer is true exactly when the submission is accepted and the poll completes, and then the vault is what processing the formatted result left; otherwise nothing changes |
| Datalab.Upload | src/converters/datalabConverter.ts:58-230 | past the gate: the same body, answer and vault as Convert promises |
| MarkerDocker.TestConnection | src/converters/markerApiDocker.ts:127-164 | without an endpoint the probe fails without a request; with one it is always sent, and it succeeds exactly when the reply is 200 |
| MarkerDocker.MarkerLayout | src/converters/markerApiDocker.ts:210-245 | the body is the file header under the given field name with filename document.pdf, the file's bytes unchanged, CRLF, the extract_images field and the closing delimiter; the field parses back to its name and value |
| MarkerDocker.AttemptOutcome | src/converters/markerApiDocker.ts:257-281 | every status of 400 or more throws "Server returned error: " with the body text or the status, since the validation-error throw is caught by its own catch; the JSON is returned exactly when the status is below 400 and it is present, truthy and has keys |
| MarkerDocker.AttemptConversion | src/converters/markerApiDocker.ts:201-282 | the body sent is the multipart body of the file under the given field name; the outcome is AttemptOutcome of the reply |
| MarkerDocker.ConvertPDFContent | src/converters/markerApiDocker.ts:166-199 | the file is sent first as pdf_file, and a second time, as document_file, exactly when the first error names a missing document_file; the outcome is that of the last attempt |
| MarkerDocker.AnswerNotRetried | src/converters/markerApiDocker.ts:170-172 | a first attempt that answers is never repeated |
| MarkerDocker.ProcessApiResponse | src/converters/markerApiDocker.ts:97-113 | the mapped result is an object |
| MarkerDocker.ProcessApiResponseFields | src/converters/markerApiDocker.ts:97-113 | success is true exactly when the status is "Success" and a result is present, with markdown, images and metadata defaulting to empty values; otherwise success is false and the error names the status or "Unknown" |
| MarkerDocker.Convert | src/converters/markerApiDocker.ts:39-92 | a stop at the gate returns its answer and changes nothing; past it the answer is true exactly when the file is read, the last attempt answers and the mapped result succeeds, and then the vault is what processing that result left; otherwise nothing changes |
| MarkerDocker.Upload | src/converters/markerApiDocker.ts:55-91 | past the gate: the same answer and vault as Convert promises |
| MarkerDocker.FailedResultWritesNothing | src/converters/markerApiDocker.ts:65-70 | a mapping that does not succeed counts as a rejected result, so the vault is never written |
| Mistral.TestConnection | src/converters/mistralaiConverter.ts:181-212 | without a key the probe fails without a call; with one the file listing is always requested, and the probe succeeds exactly when it answers |
| Mistral.ParseCount | src/converters/mistralaiConverter.ts:235-251 | a text parseInt reads as a number gives that number; any other text gives 0 |
| Mistral.ParseCountOfNumeral | src/converters/mistralaiConverter.ts:235-251 | a number typed in decimal is stored as that number |
| Mistral.PositiveOrUnset | src/converters/mistralaiConverter.ts:63-68 | a limit is passed on exactly when it is set and positive, and then unchanged |
| Mistral.RequestFor | src/converters/mistralaiConverter.ts:60-79 | the OCR request names mistral-ocr-latest and the signed URL, asks for images exactly outside text mode, and carries the image limit and minimum size exactly when they are positive |
| Mistral.ImagePayload | src/converters/mistralaiConverter.ts:152-156 | a payload not starting with "data:" is kept; a data URL without a comma gives undefined; otherwise the text between the first and second commas |
| Mistral.DataUrlStripped | src/converters/mistralaiConverter.ts:152-156 | a data URL with one comma gives back exactly its payload |
| Mistral.PutPageImages | src/converters/mistralaiConverter.ts:147-159 | the images object after a page's images is that of the specification |
| Mistral.ParseOCRResults | src/converters/mistralaiConverter.ts:119-179 | the result built page by page is that of the specification |
| Mistral.MarkdownJoinsPages | src/converters/mistralaiConverter.ts:129-139 | the markdown is the pages' texts joined with the horizontal-rule separator |
| Mistral.PutImagesAppend | src/converters/mistralaiConverter.ts:142-159 | putting two runs of images is putting the first, then the second |
| Mistral.ImagesOfAllPages | src/converters/mistralaiConverter.ts:142-159 | in text mode no image is kept; otherwise the images are those of all pages put in order |
| Mistral.LastImageWins | src/converters/mistralaiConverter.ts:147-159 | an image id holds the payload of its last occurrence |
| Mistral.OtherIdUntouched | src/converters/mistralaiConverter.ts:147-159 | an id that no image has keeps its earlier value |
| Mistral.PutImagesDistinct | src/converters/mistralaiConverter.ts:147-159 | the images object never holds a key twice |
| Mistral.OcrImageLookup | src/converters/mistralaiConverter.ts:119-179 | outside text mode every key is held once, maps to the payload of the last image with that id, and is undefined when no image has it |
| Mistral.PutImagesLookup | src/converters/mistralaiConverter.ts:147-159 | starting from an empty object: keys distinct, the last image with an id wins, ids never seen are undefined |
| Mistral.OcrResultFields | src/converters/mistralaiConverter.ts:163-171 | the result succeeds, its markdown is the joined page texts, its images the collected ones, and its metadata gives the page count and the processor name |
| Mistral.OcrResult | src/converters/mistralaiConverter.ts:163-171 | the result built from the pages is never an unsuccessful one |
| Mistral.Convert | src/converters/mistralaiConverter.ts:10-117 | a stop at the gate returns its answer, sends nothing and changes nothing; past it the file is uploaded under its own name exactly when it is read; the OCR request is made exactly when the upload and the signed URL succeed; the answer is true exactly when the OCR answers, and then the vault is what processing and the second deletion left; otherwise nothing changes |
| Mistral.Upload | src/converters/mistralaiConverter.ts:32-116 | past the gate: the same upload, request, answer and vault as Convert promises |
| Mistral.KeyCheckUnreachable | src/converters/mistralaiConverter.ts:26-30 | without a key the connection test has already failed, so the converter stops with false before its own key check |
| Mistral.SecondDeleteIsNoop | src/converters/mistralaiConverter.ts:103-105 | after a completed run with deleteOriginal the second deletion finds nothing and changes nothing |
| Mistral.DeletesAfterAbort | src/converters/mistralaiConverter.ts:93-105 | when processing aborts with the original still there, the second deletion trashes it |
| PythonApi.TestConnection | src/converters/markerPythonApi.ts:168-191 | the connection test passes exactly when the server answers 200; a failed request or any other status fails it |
| PythonApi.RequestFields | src/converters/markerPythonApi.ts:55-70 | the request object carries the file's full path, an empty page range, the configured languages or "en", force_ocr and paginate_output true only when set to true, and output format "markdown" |
| PythonApi.Snippet | src/converters/markerPythonApi.ts:94-97 | the body excerpt is a prefix of the body of at most 100 characters, and the whole body when it is that short |
| PythonApi.DetailReported | src/converters/markerPythonApi.ts:76-83 | a non-empty validation-error list without null entries is reported as its messages joined by "; " |
| PythonApi.NoDetailReported | src/converters/markerPythonApi.ts:78-86 | a parsed error body with no detail, or an empty one, is reported as just the HTTP status |
| PythonApi.UnreadableReported | src/converters/markerPythonApi.ts:87-100 | an error body that is not JSON is reported as the status followed by a prefix of the body of at most 100 characters |
| PythonApi.MapResponseFields | src/converters/markerPythonApi.ts:104-125 | the mapped result takes success, output as markdown, images and metadata from the reply, each falsy one replaced by false, "", {} or {}; the result is refused exactly when the reply's success is falsy |
| PythonApi.PostActionsIn | src/converters/markerPythonApi.ts:136-142 | with neither movePDFtoFolder nor deleteOriginal set the converter's own post-actions change nothing and succeed |
| PythonApi.Convert | src/converters/markerPythonApi.ts:34-166 | without a folder the answer is false, nothing is sent and the vault is unchanged; otherwise the JSON request body is sent and the vault, answer and notice are those of the reply-driven run, in which a request without a reply posts the "Python API conversion failed: " notice |
| PythonApi.ConvertIn | src/converters/markerPythonApi.ts:72-165 | the answer is true exactly when no notice is posted; a request without a reply posts "Python API conversion failed: " |
| PythonApi.ErrorMessage | src/converters/markerPythonApi.ts:74-100 | without a non-empty `detail` list in the error body the message starts with "HTTP " and the status |
| PythonApi.MapResponse | src/converters/markerPythonApi.ts:104-115 | the mapped result's success is truthy exactly when the reply's is |
| PythonApi.ConvertedReply | src/converters/markerPythonApi.ts:104-156 | a 200 reply with a truthy success is materialised, and the converter's own post-actions then decide the answer, with the parse-error notice when they fail |
| PythonApi.FailuresWriteNothing | src/converters/markerPythonApi.ts:72-165 | a request without a reply, a status other than 200 or an unsuccessful reply answers false, posts a failure notice and leaves the vault untouched |
| PythonApi.SuccessWithoutMove | src/converters/markerPythonApi.ts:127-143 | a successful reply with movePDFtoFolder off answers true without a notice, and when the shared processing completes the vault is the one it left |
| PythonApi.CompletedRunLeavesNoOriginal | src/converters/markerPythonApi.ts:127-142 | with deleteOriginal, a shared processing run that completes leaves no file where the original ended up |
| PythonApi.RenameOntoItselfFails | src/converters/markerPythonApi.ts:136-139 | renaming a file onto its own path fails |
| PythonApi.CompletedMoveReportedAsFailure | src/converters/markerPythonApi.ts:127-156 | with movePDFtoFolder, a successful reply whose shared processing completes still answers false with the parse-error notice, because the second rename throws; the vault is the one the processing left |
| Js.Or | src/converters/markerPythonApi.ts:110-115 | the logical or operator gives its left operand when that is truthy and its right operand otherwise |
| Js.Coalesce | src/utils.ts:205-211 | `a ?? b` is `b` exactly when `a` is null or undefined, and `a` otherwise |
| Js.Entries | src/utils/fileUtils.ts:188-191 | `Object.entries` throws exactly on null and undefined, and yields an object's own members in their order |
| Js.Stringify | src/utils/fileUtils.ts:194 | `JSON.stringify` gives no text exactly for undefined |
| Js.SliceInner | src/utils/fileUtils.ts:194 | `slice(1, -1)` drops exactly the first and the last character, and leaves nothing of a text shorter than two |
| Js.RemoveChar | src/utils/fileUtils.ts:194 | `replace(/"/g, '')` leaves no double quote and never lengthens the text |
| Js.RemoveCharAppend | src/utils/fileUtils.ts:194 | removing a character from a concatenation removes it from each part |
| Js.RemoveCharAbsent | src/utils/fileUtils.ts:194 | removing a character a text does not contain leaves the text unchanged |
| Js.EscapePlain | src/utils/fileUtils.ts:194 | `JSON.stringify` escapes nothing in a text without quotes, backslashes or control characters |
| Js.ScalarText | src/utils/fileUtils.ts:192-195 | for null, a boolean, a number or a plain string, the JSON text with its quotes removed is the text a template literal shows |
| Js.MemberText | src/utils/fileUtils.ts:192-195 | a member `"k":v` of plain key and scalar value becomes `k:v` once its quotes are removed |
| Js.RemoveCharJoin | src/utils/fileUtils.ts:194 | removing a character other than the comma from a comma-joined list removes it from each item |
| Js.EquationsOfFlatObject | src/utils/fileUtils.ts:190-196 | an `equations` statistic that is an object of scalar members with plain keys is written as its `key:value` pairs separated by commas, without braces or quotes |
| Js.LookupFirst | src/converters/markerPythonApi.ts:62-69 | reading a property of an object literal gives the value of the first member with that key |
| Js.LookupPut | src/converters/mistralaiConverter.ts:158 | after `o[k] = v`, reading `k` gives `v` and every other key reads as before |
| Js.PutKeys | src/converters/mistralaiConverter.ts:158 | `o[k] = v` keeps the key order, appending `k` only when it is new |
| Js.PutKeepsDistinct | src/converters/mistralaiConverter.ts:158 | `o[k] = v` keeps an object's keys distinct |
| Legacy.FileMenu | main.ts:53-98 | the file menu gets exactly one item, and only when the entry exists and its name ends in .pdf, or in .docx, .pptx, .ppt or .doc with the Datalab endpoint |
| Legacy.DotSuffix | main.ts:55-63 | for an extension without dots, a name ends in "." + extension exactly when the text after its last dot is that extension |
| Legacy.EndsWithExtension | main.ts:55-63 | for an extension without dots, the name test by suffix agrees with the file's extension |
| Legacy.OfferedIsValid | main.ts:55-66 | the names the legacy menu offers are exactly the files the later generation accepts |
| Legacy.OfferedTitle | main.ts:68-86 | an offered item is titled as the later generation titles it |
| Legacy.MenuAgreesOnFiles | main.ts:53-98 | on a file, the legacy menu offers an item exactly when the later generation does, with the same title |
| Legacy.MenuOffersFolders | main.ts:53-98 | a folder named like a PDF gets a menu item, unlike in the later generation, and clicking it does nothing |
| Legacy.CommandCheck | main.ts:101-130 | when the command runs, it runs the Datalab conversion with the Datalab endpoint and the Marker conversion otherwise |
| Legacy.CommandAgrees | main.ts:101-130 | the command's availability and whether it runs agree with the later generation's command |
| Legacy.CheckSettings | main.ts:672-689 | the settings pass exactly when the Marker endpoint is set and the extraction mode is text, images or all; a failure posts exactly one notice and a pass none |
| Legacy.CheckSettingsAgrees | main.ts:672-689 | the legacy settings check passes exactly when the later generation's does |
| Legacy.Connection | main.ts:691-777 | a passing connection test posts only the success notice (none when silent), a failing one exactly one notice |
| Legacy.ConnectionAgrees | main.ts:691-777 | the connection test, verdict and notices, is the later generation's for the Datalab and self-hosted endpoints, and treats every other endpoint as self-hosted |
| Legacy.KeptFolder | main.ts:396-398 | without createFolder the folder is the file's path up to its name, so that folder plus name is the path |
| Legacy.KeptFolderIsParent | main.ts:396-398 | the kept folder is the parent folder the later generation computes, and empty for a file at the vault root |
| Legacy.KeptFolderAsWrittenWrong | main.ts:396-398 | removing the first occurrence of the name gives the wrong folder when the name also occurs earlier in the path |
| Legacy.KeptFolderAsWrittenAgrees | main.ts:396-398 | removing the first occurrence of the name gives the folder the file sits in whenever the name occurs nowhere before its own place |
| Legacy.KeptFolderAsWritten | main.ts:396-398 | the path with the name's first occurrence removed is as long as the path less the name |
| Legacy.KeptFolderAsWrittenAtRoot | main.ts:396-398 | for a file at the vault root the first-occurrence replacement leaves the empty text |
| Legacy.HandleFolderCreationIn | main.ts:372-413 | with createFolder it behaves as the later generation's folder step; without, it changes nothing and gives the path with the name removed where it first occurs (as long as the path less the name), which followed by the name is the path when the name occurs only at its end |
| Legacy.HandleFolderCreation | main.ts:372-413 | the vault and the folder choice are those of the folder step, the first-occurrence replacement included |
| Legacy.BeginIn | main.ts:134-165 | failed settings halt with their notice and change nothing; a conversion that goes ahead has a non-empty folder the folder step chose; without createFolder the vault is unchanged |
| Legacy.RootFileStops | main.ts:149-152 | without createFolder, a file at the vault root never gets converted: the run halts quietly or with a notice |
| Legacy.Begin | main.ts:134-165 | the vault and the start are those of the gate |
| Legacy.Elements | main.ts:484-489 | a single result object is one document; everything else is iterated as written |
| Legacy.ElementsAsWritten | main.ts:489 | `for…of` iterates an array's items or a string's characters, and throws on anything else |
| Legacy.ProcessIn | main.ts:484-539 | data the loop cannot iterate throws at once, with nothing written and no notice |
| Legacy.ProcessIntendedIn | main.ts:484-539 | as intended, a single result object is processed as an array of that one document; anything else as written |
| Legacy.CompletedResultNotIterable | main.ts:459-489 | a completed Datalab poll result is an object, which the loop cannot iterate as written; the corrected loop treats it as one document |
| Legacy.Element | main.ts:489-534 | a pass that does not throw leaves the original where the move puts it |
| Legacy.ElementImages | main.ts:497-534 | from the image step on, a pass that does not throw leaves the original where the move puts it |
| Legacy.ElementMetadata | main.ts:521-534 | from the metadata step on, a pass that does not throw leaves the original where the move puts it |
| Legacy.Move | main.ts:530-533 | the move posts nothing and, when it does not throw, leaves the original in the folder if movePDFtoFolder is set and in place otherwise |
| Legacy.LoopStopsAtThrow | main.ts:489-534 | once a pass throws, the later documents change nothing |
| Legacy.LoopMovesOriginal | main.ts:530-533 | with movePDFtoFolder, a loop over at least one document that does not throw ends with the original in the folder |
| Legacy.PassFromFolderThrows | main.ts:530-533 | with movePDFtoFolder, a pass that starts with the original already in the folder throws |
| Legacy.SecondMoveThrows | main.ts:489-534 | with movePDFtoFolder, a result of two or more documents always throws |
| Legacy.ThenDeleteSaid | main.ts:536-538 | notices posted before the loop ends come before the deletion's notice |
| Legacy.MoveAgrees | main.ts:530-538 | the move and the deletion agree with the later generation's finish |
| Legacy.MetadataAgrees | main.ts:521-538 | from the metadata step on, one pass followed by the deletion agrees with the later generation |
| Legacy.ImagesAgree | main.ts:497-538 | from the image step on, one pass followed by the deletion agrees with the later generation |
| Legacy.ElementAgrees | main.ts:489-538 | one pass followed by the deletion is exactly the later generation's materialisation of that document |
| Legacy.LoopOfOne | main.ts:489-534 | a loop over one document is that document's pass |
| Legacy.OneDocumentAgrees | main.ts:484-539 | processing an array of one document is exactly the later generation's materialisation of it |
| Legacy.WriteElement | main.ts:489-534 | the vault, notices, throw and place of the original are those of one pass |
| Legacy.WriteElementImages | main.ts:497-534 | the vault, notices, throw and place of the original are those of the pass from the image step on |
| Legacy.WriteElementMetadata | main.ts:521-534 | the vault, notices, throw and place of the original are those of the pass from the metadata step on |
| Legacy.MoveOriginal | main.ts:530-533 | the vault, notices, throw and place of the original are those of the move |
| Legacy.WriteElements | main.ts:489-534 | the loop's vault, notices, throw and place of the original are those of the passes in order, stopping at the first that throws |
| Legacy.ProcessConversionResult | main.ts:484-539 | the vault, notices and throw are those of the as-written loop followed by one deletion; an object, which `for…of` cannot iterate, throws before anything is written |
| Legacy.Defaulted | main.ts:459-482 | a reply that gets through `requestUrl` has a status below 400 |
| Legacy.DefaultedAll | main.ts:459-482 | each reply is passed through `requestUrl` independently |
| Legacy.PollForConversionResult | main.ts:459-482 | the poll result is the later generation's loop over the replies, with a status of 400 or more throwing, after between 1 and 301 requests |
| Legacy.PollReturnsLast | main.ts:468-481 | when no reply completes, all 301 requests are made and the last data is returned unfinished |
| Legacy.ContentOutcome | main.ts:432-457 | the conversion reply gives data exactly when its status is 200-299 and its body is JSON |
| Legacy.PdfVerdict | main.ts:166-192 | the last notice is the completion notice exactly when the reply gives data and its processing as written does not throw, and the error notice otherwise; the vault is the processing's, or unchanged when there is no data; a reply object, which the loop cannot iterate, ends in the error notice with the vault unchanged |
| Legacy.PdfToMdIn | main.ts:134-204 | failing settings give exactly their notice and leave the vault unchanged |
| Legacy.ConvertPDFToMD | main.ts:134-204 | the answer is whether the settings pass, and the vault and notices are those of the whole conversion as written, with failing settings stopping at their one notice |
| Legacy.ContinuePdf | main.ts:143-198 | after the gate, the vault and notices are those of the as-written conversion from that start |
| Legacy.ConvertContent | main.ts:166-192 | the vault and notices are those of sending the file and processing the reply with the as-written loop |
| Legacy.FileEntriesAgree | main.ts:281-306 | the form has one file entry exactly for the five document types, with the content type the later generation sends and the file's name |
| Legacy.FormFieldsAgree | main.ts:307-320 | after the file entry come four text fields whose parts are the later generation's four field parts |
| Legacy.Submit | main.ts:338-354 | every reply other than 422 is handled as written |
| Legacy.SubmitAsWrittenNeverRefuses | main.ts:322-354 | the 422 branch is never reached: `requestUrl` throws on a 422 first |
| Legacy.SubmitRefuses | main.ts:338-343 | a 422 with a detail posts "Failed! Err: " and the detail's message |
| Legacy.SubmitAsWritten | main.ts:326-354 | as written, the upload is never refused with a message, and it is accepted exactly for a 200 with a JSON body |
| Legacy.DatalabResultIsOneDocument | main.ts:344-356 | as intended, a completed poll result is one document, materialised exactly as the later generation materialises it; as written, processing the same result throws |
| Legacy.DatalabIn | main.ts:234-370 | failing settings give exactly their notice and leave the vault unchanged |
| Legacy.DatalabSubmitted | main.ts:322-365 | an upload not accepted as written ends in the error notice alone with the vault unchanged; every run ends in the error or the completion notice |
| Legacy.CompletedRunFails | main.ts:344-365 | as written, a run whose poll ends in a result object ends in the error notice alone, with the vault unchanged |
| Legacy.ConvertWithDatalab | main.ts:234-370 | the answer is whether the settings pass; the vault and notices are those of the whole conversion as written, and the form sent is the file entry followed by the four fields |
| Legacy.ContinueDatalab | main.ts:243-365 | after the gate, the vault and notices are those of the as-written conversion from that start, and the form sent is the expected one |
| Legacy.SubmitToDatalab | main.ts:322-365 | the vault and notices are those of the as-written upload (every reply but a 200 with JSON throws), the poll and the as-written processing |
| Multipart.FlattenLength | src/converters/datalabConverter.ts:357-361 | the combined length is the sum of the parts' byte lengths |
| Multipart.FlattenPrefix | src/converters/datalabConverter.ts:365-369 | the bytes of the first parts are a prefix of the whole body |
| Multipart.FlattenAppend | src/converters/datalabConverter.ts:349-372 | combining two runs of parts is combining each and concatenating |
| Multipart.PartAtOffset | src/converters/datalabConverter.ts:365-369 | each part's bytes sit in the body at the offset given by the lengths of the parts before it |
| Multipart.Texts | src/converters/datalabConverter.ts:353-355 | each text part is kept in its place as text to be UTF-8 encoded |
| Multipart.TextsAppend | src/converters/datalabConverter.ts:353-355 | converting the text parts commutes with concatenation |
| Multipart.FlattenTexts | src/converters/datalabConverter.ts:352-355 | a run of text parts combines to the UTF-8 encoding of their concatenation |
| Multipart.ConcatFirst | src/converters/datalabConverter.ts:286-309 | concatenating a first text and the rest is that text followed by the rest |
| Multipart.ConcatAround | src/converters/datalabConverter.ts:286-309 | concatenating a first text, the middle and a last text puts the first and last around the middle |
| Multipart.FileBodyLayout | src/converters/datalabConverter.ts:286-313 | a body of a header, the file's bytes and trailing text parts is the encoded header, the bytes unchanged, then the encoded trailer |
| Multipart.FlattenHeadAndBytes | src/converters/datalabConverter.ts:290-295 | the header part and the file part combine to the encoded header followed by the file's bytes |
| Multipart.SetAt | src/converters/datalabConverter.ts:367 | `body.set(part, offset)` writes the part at the offset and leaves every other byte as it was |
| Multipart.Combine | src/converters/datalabConverter.ts:349-372 | the combined buffer is fresh, its length is the sum of the parts' lengths, and its bytes are the parts' bytes in order |
| Multipart.FlattenStep | src/converters/datalabConverter.ts:365-369 | one more part appends its bytes and its length to the running body |
| Multipart.ParseFieldPartOfFieldPart | src/converters/datalabConverter.ts:299-306 | a field part, read back, gives the field's name and value, for any name without a double quote |
| Multipart.NameThenQuote | src/converters/datalabConverter.ts:301-305 | in a quoted name without quotes, the first quote closes the name |
| Multipart.ValueFraming | src/converters/datalabConverter.ts:301-305 | a field's value sits between the blank line and the closing line break |
| Multipart.FileHeadFraming | src/converters/datalabConverter.ts:290-294 | the file part's header starts with the delimiter line and ends with the blank line |
| Patterns.PdfMatch | src/utils/fileUtils.ts:83 | `/\.pdf(?=[^.]*$)/` matches at a position only where ".pdf" starts and no dot follows it |
| Patterns.PdfMatchExact | src/utils/fileUtils.ts:83 | the match is found at a position exactly when ".pdf" starts there and no dot follows it |
| Patterns.ReplacePdfOfPdfName | src/utils/fileUtils.ts:139 | a name ending in ".pdf" has that suffix replaced |
| Patterns.ReplacePdfKeepsOtherNames | src/utils/fileUtils.ts:139 | a name whose last dot does not start ".pdf" is left unchanged |
| Patterns.SpaceRun | src/utils/fileUtils.ts:140 | the run of whitespace at the start of a text is maximal |
| Patterns.EncodeSpaces | src/utils/fileUtils.ts:140 | `replace(/\s+/g, '%20')` leaves no whitespace |
| Patterns.EncodeSpacesIdentity | src/utils/fileUtils.ts:140 | a text without whitespace is left unchanged |
| Patterns.EncodeSpacesRun | src/utils/fileUtils.ts:140 | each maximal run of whitespace becomes exactly one "%20" |
| Patterns.RunLength | src/utils/fileUtils.ts:140 | the whitespace run found is exactly the maximal one |
| Patterns.CleanImagePath | src/utils/fileUtils.ts:138-140 | the cleaned image prefix holds no whitespace |
| Patterns.LineEnd | src/utils/fileUtils.ts:143 | `.` stops at the first line terminator: the line found holds none and ends at one or at the end |
| Patterns.LineEndOfSingleLine | src/utils/fileUtils.ts:143 | a line without terminators followed by a terminator ends where the terminator is |
| Patterns.LastCharUpTo | src/utils/fileUtils.ts:143 | the last occurrence of a character up to a bound is found, or there is none |
| Patterns.LastPairUpTo | src/utils/fileUtils.ts:143 | the last occurrence of a two-character sequence up to a bound is found, or there is none |
| Patterns.FirstPairIn | src/utils/fileUtils.ts:143 | the first occurrence of a two-character sequence in a range is found, or there is none |
| Patterns.FindRef | src/utils/fileUtils.ts:143 | the match of `/!\[.*\]\((.*)\)/` found is one, starting at the earliest position with the greediest alternative text and link |
| Patterns.OneRefPerLine | src/utils/fileUtils.ts:143 | after a match nothing further on that line matches |
| Patterns.RewriteRefs | src/utils/fileUtils.ts:142-145 | a text of one line is rewritten as that line's reference replaced by its asset link |
| Patterns.StripLineRefFree | src/utils/fileUtils.ts:149 | a line with its references removed holds no reference |
| Patterns.StripLineSingleLine | src/utils/fileUtils.ts:149 | removing references from a line keeps it one line |
| Patterns.SubstituteLiteral | src/utils/fileUtils.ts:144 | template text without `$` is copied as it is |
| Patterns.SubstituteGroup | src/utils/fileUtils.ts:144 | `$1` in a replacement template stands for the captured link |
| Patterns.SubstituteDollar | src/utils/fileUtils.ts:144 | `$$` in a replacement template stands for a single `$` |
| Patterns.Substitute | src/utils/fileUtils.ts:144 | with empty captures the expanded template is never longer than the template |
| Patterns.ExpandTail | src/utils/fileUtils.ts:144 | the template's tail expands to the clean prefix, the link and the closing parenthesis |
| Patterns.ExpandHead | src/utils/fileUtils.ts:144 | the template's head expands to "![", the link and "](assets/" |
| Patterns.ExpandTemplate | src/utils/fileUtils.ts:142-145 | for a clean prefix without `$`, the template expands to the intended asset link |
| Patterns.DoubleDollarLosesDollar | src/utils/fileUtils.ts:138-145 | a clean prefix holding `$$` comes out of the template with one `$`, which is not the intended link |
| Patterns.MapLinesOneLine | src/utils/fileUtils.ts:142-149 | a text of one line is rewritten as that line |
| Patterns.MapLinesStep | src/utils/fileUtils.ts:142-149 | a global replace rewrites line by line and keeps the terminators |
| Patterns.MapLinesAgree | src/utils/fileUtils.ts:142-145 | two line rewrites that agree on every line agree on every text |
| Patterns.MapLinesRefFree | src/utils/fileUtils.ts:149 | a line rewrite that leaves no reference on any line leaves none in the text |
| Patterns.StripRefs | src/utils/fileUtils.ts:148-150 | with text-only extraction the references removed leave no image reference in the markdown |
| Patterns.RewriteSimpleRef | src/utils/fileUtils.ts:137-146 | a line with one image reference has it replaced by the asset link to the same image in the assets folder, the rest unchanged |
| Patterns.SimpleRefFound | src/utils/fileUtils.ts:143 | in a line with one image reference, the match is exactly that reference |
| Patterns.RewriteRefsAsWritten | src/utils/fileUtils.ts:137-146 | for a cleaned name without `$`, the rewrite with the template expanded as written is the intended one |
| Patterns.AsWrittenAgreesLine | src/utils/fileUtils.ts:142-145 | a template that expands to the asset link on every match rewrites a line as intended |
| Patterns.DollarPathBreaksLink | src/utils/fileUtils.ts:137-146 | for a file name holding `$$`, the rewrite as written produces a link with one `$`, unlike the intended one |
| Patterns.LinkTemplateWithDoubleDollar | src/utils/fileUtils.ts:142-145 | a template built from a prefix holding `$$` expands to a link with one `$` |
| Patterns.DollarNameExample | src/utils/fileUtils.ts:138-140 | the name "a$$b.pdf" cleans to a prefix holding `$$` |
| Host.CreateFolderIn | src/utils/fileUtils.ts:41-44 | creating a folder succeeds exactly when nothing is at the path, and then a folder is there; a failure changes nothing |
| Host.CreateIn | src/utils/fileUtils.ts:152-158 | creating a file succeeds exactly when nothing is at the path, and then only that path changes, to the text; a failure changes nothing |
| Host.ModifyIn | src/utils/fileUtils.ts:152-158 | rewriting a file succeeds exactly when a file is at the path, and then only that file changes, to the text |
| Host.CreateBinaryIn | src/utils/fileUtils.ts:87-105 | creating a binary file succeeds exactly when nothing is at the path, and then only that path changes |
| Host.ModifyBinaryIn | src/utils/fileUtils.ts:87-105 | rewriting a binary file succeeds exactly when a file is at the path, and then only that file changes |
| Host.RenameIn | src/converter.ts:122-126 | a rename succeeds exactly when the source is a file and the target is free, and then moves that one entry; a failure changes nothing |
| Host.TrashIn | src/utils/fileUtils.ts:207-214 | trashing succeeds exactly when a file is at the path, and then removes only that entry |
| Host.AddFrontMatterIn | src/utils/fileUtils.ts:171-182 | the front-matter call goes through exactly when the host resolves it and the file exists, and never changes the vault's contents |
| Host.Vault.IsFile | src/utils/fileUtils.ts:87-90 | `getAbstractFileByPath(path) instanceof TFile` reads the vault's state |
| Host.Vault.IsFolder | src/utils/fileUtils.ts:41-42 | `getAbstractFileByPath(path) instanceof TFolder` reads the vault's state |
| Host.Vault.FilePaths | src/utils/fileUtils.ts:52-54 | `getFiles()` gives exactly the paths of the files, not of the folders |
| Host.Vault.constructor | src/utils/fileUtils.ts:37-46 | a new vault holds the given entries and an empty log |
| Host.Vault.CreateFolder | src/utils/fileUtils.ts:43 | the vault and the answer are those of creating the folder |
| Host.Vault.Create | src/utils/fileUtils.ts:157 | the vault and the answer are those of creating the file |
| Host.Vault.Modify | src/utils/fileUtils.ts:155 | the vault and the answer are those of rewriting the file |
| Host.Vault.CreateBinary | src/utils/fileUtils.ts:101-104 | the vault and the answer are those of creating the binary file |
| Host.Vault.ModifyBinary | src/utils/fileUtils.ts:99 | the vault and the answer are those of rewriting the binary file |
| Host.Vault.Rename | src/converter.ts:125 | the vault and the answer are those of the rename |
| Host.Vault.Trash | src/utils/fileUtils.ts:209 | the vault and the answer are those of trashing the file |
| Host.Vault.AddFrontMatter | src/utils/fileUtils.ts:175-181 | the vault and the answer are those of the front-matter call |
| Text.Split | src/utils/fileUtils.ts:19 | `split` always gives at least one piece |
| Text.JoinSplit | src/utils/fileUtils.ts:28-32 | joining the pieces of a split with the separator gives back the text |
| Text.SplitPiecesHaveNoSeparator | src/utils/fileUtils.ts:19 | no piece of a split holds the separator |
| Text.SplitFirst | src/utils/fileUtils.ts:132 | `split('.')[0]` is the text before the first dot |
| Text.SplitLast | src/utils/fileUtils.ts:19-20 | `split('/').pop()` is the text after the last separator |
| Text.JoinAllButLast | src/utils/fileUtils.ts:28-32 | `split('/').slice(0, -1).join('/')` is the text before the last separator |
| Text.JoinSnoc | src/utils/fileUtils.ts:28-32 | joining one more piece appends the separator and the piece |
| Text.NatToString | src/converters/mistralaiConverter.ts:236 | a number is shown as at least one decimal digit |
| Text.LeadingDigits | src/converters/mistralaiConverter.ts:236 | `parseInt` reads the longest run of leading digits |
| Text.DigitsValueOfNatToString | src/converters/mistralaiConverter.ts:236 | reading back the decimal digits of a number gives the number |
| Text.ParseIntOfIntToString | src/converters/mistralaiConverter.ts:236 | `parseInt` of a number's decimal text gives back the number |
| Text.Utf8 | src/converters/datalabConverter.ts:354 | UTF-8 encodes a character in one to four bytes, an ASCII character as itself |
| Text.EncodeAppend | src/converters/datalabConverter.ts:354 | encoding a concatenation concatenates the encodings |
| Text.EncodeAscii | src/converters/datalabConverter.ts:354 | an ASCII text encodes to one byte per character, each its code |

## Left out

- The network: every `requestUrl`, `fetch` and Mistral SDK call is replaced by its reply, given as an input. Timers (`setTimeout` between polls) are not modelled. Nor is the absolute path (`getFullPath`), which is a parameter.
- Multipart boundaries are drawn with `Math.random` in the source. Here they are parameters.
- Base64 decoding of images (`base64ToArrayBuffer`) is foreign code. An image is stored as its base64 text.
- The host's user interface is not modelled: notices are recorded as texts where a member returns them, while their display times, progress notices timed by the retry counter, `openLinkText`, the settings tab and the dialog's DOM are left out. A dialog's answer is an input.
- Notices that embed a runtime error message (`error.message`) record only their fixed prefix.
- Console logging is not modelled.
- Registration with the host is left out (`onload`, `addCommand`, `registerEvent`, `addSettingTab`), as are `loadSettings`/`saveSettings` and the settings tab in src/settings.ts. What the registered callbacks decide is modelled (`Plugin`, `Legacy`).
- src/main.ts:90-92 `testConnection` only forwards to src/utils.ts, which is modelled as `Utils.Connection`.
- The first generation's `createFormBody` (main.ts:205-232) is not modelled. Its upload is modelled by the form's entries (`Legacy.FormEntries`), not by the serialised body.
- src/utils.ts:553-579 is commented out in the source and is not part of this model.
- Numbers are integers. Floating point, `NaN` other than the version script's, and precision beyond 2^53 are not modelled.
- `parseInt` is modelled as an optional sign followed by the longest run of decimal digits. Leading whitespace is not skipped, and the hexadecimal prefix `0x`, which `parseInt` without a radix accepts, is not modelled.
- Strings are sequences of characters; UTF-16 surrogate pairs are not distinguished from other characters in `Text.Utf8`.
- version-bump.mjs reads `process.env.npm_package_version` and reads and writes three JSON files. The version is a parameter, and the files are given as parsed values. The writes are returned in order, without JSON serialisation or indentation.
- Host.Key: the model assumes the host files a folder created as "a/b/" under "a/b". The host's path normalisation is not visible in the source.
- Host.RenameIn: the model assumes the host refuses to rename a file onto its own path and throws. Obsidian's `vault.rename` is not visible in the source; it is taken to throw whenever the target path is taken, the file's own path included. `Conversion.RenameOntoItselfFails`, `PythonApi.RenameOntoItselfFails`, `PythonApi.CompletedMoveReportedAsFailure`, `Conversion.PythonSecondMoveFails`, `Legacy.SecondMoveThrows` and `Legacy.PassFromFolderThrows` hold under that assumption.
- Datalab.Convert, MarkerDocker.Convert, Mistral.Convert, PythonApi.Convert: these converter classes' methods return the answer and the vault but not the notices they post along the way. PythonApi.Convert keeps only its failure notice; "Conversion with Python API completed" is not recorded.
- Host.AddFrontMatterIn: the host's rewrite of the front matter (`processFrontMatter`) is foreign code. The call is logged and the vault's contents are left as they are.
- Utils.MarkdownStep: a `markdown` that is not a string, `undefined` and `null` included, is taken to throw with nothing written. With the assets subfolder or in text mode the source's `markdown.replace` does throw. Otherwise the source hands the value to `vault.create` or `vault.modify`, and what the host does with it is not visible in the source.
- Converter.MarkdownStage: a `markdown` that is truthy but not a string is taken to throw at the write in the same way. A falsy one is skipped, as in the source.
- JavaScript objects are member lists in enumeration order. Integer-like keys, which JavaScript enumerates first, are not reordered.
- The Mistral converter's page-image loop takes each image's `id` as given; an absent `id` is not modelled.
- Js.Stringify: its contract states only when a text is produced. The text it produces is characterised by `Js.ScalarText`, `Js.MemberText` and `Js.EquationsOfFlatObject` for the values the frontmatter writes.
- PythonApi.PostActionsIn: its own contract covers only the case with neither post-action. The move and the deletion are stated by `PythonApi.CompletedMoveReportedAsFailure` and `PythonApi.CompletedRunLeavesNoOriginal`.

## Findings

The pipelines of this model follow the code as written. Each corrected member states the evidently intended behaviour beside them, and its property is proved about that member.

| source | as written | input that shows it | evidently intended | confidence | as-written member | corrected member |
|---|---|---|---|---|---|---|
| src/utils/fileUtils.ts:137-146 | the file's cleaned name is pasted into the replacement template of `markdown.replace`, so a `$` pattern in the name (`$$`, `$&`, `$1`) is expanded | a file named "a$$b.pdf" with asset subfolders: its links point to "assets/a$b_…" while the images are saved as "a$$b_…" | every link points at the saved image, whatever the file's name | high, not executed | Patterns.DollarPathBreaksLink | Patterns.RewriteSimpleRef |
| src/utils.ts:259-265 | without createFolder the folder is `path.replace(name, '')`, which removes the first occurrence of the name | the file "a.pdf/x/a.pdf" gives the folder "/x/a.pdf/" instead of "a.pdf/x/" | the folder that holds the file | high, not executed | Utils.ParentAsWrittenWrongFolder | Utils.ParentFolderHoldsFile |
| src/utils.ts:54-61 | `onClose` marks the dialog resolved without calling `onResolve`, although its comment says it resolves with false | closing the folder or overwrite dialog with Escape: the awaiting conversion never continues | a dismissal answers false | high, not executed | Utils.DismissNeverAnswers | Utils.EveryDialogAnswers |
| main.ts:484-539 | `processConversionResult` iterates `for (const converted of data)` over the Datalab poll result, which is one object | any completed Datalab conversion: the loop throws a TypeError before anything is written, and the error notice ends the run | the result is materialised as one document | high, not executed | Legacy.CompletedRunFails | Legacy.DatalabResultIsOneDocument |
| main.ts:322-354 | the upload uses `requestUrl` without `throw: false`, so a 422 throws before the branch that reports it | a 422 reply: the generic error notice is posted instead of "Failed! Err: " and the server's message | a 422 posts the server's message | medium, not executed | Legacy.SubmitAsWrittenNeverRefuses | Legacy.SubmitRefuses |
| main.ts:396-398 | without createFolder the folder is `path.replace(name, '')`, which removes the first occurrence of the name | the file "a.pdf/x/a.pdf" gives the folder "/x/a.pdf" instead of "a.pdf/x/" | the folder that holds the file | high, not executed | Legacy.KeptFolderAsWrittenWrong | Legacy.KeptFolderIsParent |
