/**
 * The plugin's settings record (`MarkerSettings`): the fields every
 * generation of the plugin reads. Optional fields are `Option`s; a field the
 * settings tab has never written is `None`, i.e. JavaScript's `undefined`.
 */
module Settings {
  import opened Wrappers

  datatype Settings = Settings(
    markerEndpoint: string,
    pythonEndpoint: string,
    createFolder: bool,
    deleteOriginal: bool,
    extractContent: string,
    writeMetadata: bool,
    movePDFtoFolder: bool,
    createAssetSubfolder: bool,
    apiEndpoint: string,
    apiKey: Option<string>,
    langs: Option<string>,
    forceOCR: Option<bool>,
    paginate: Option<bool>,
    maxPages: Option<int>,
    stripExistingOCR: Option<bool>,
    useLLM: Option<bool>,
    skipCache: Option<bool>,
    mistralaiApiKey: Option<string>,
    imageLimit: Option<int>,
    imageMinSize: Option<int>)
  {
    /** `extractContent === 'text'`: markdown only. */
    predicate TextOnly() {
      extractContent == "text"
    }

    /** `extractContent === 'images'`: images only. */
    predicate ImagesOnly() {
      extractContent == "images"
    }
  }

  /** An optional string setting that is truthy: set and not empty. */
  predicate Filled(o: Option<string>) {
    o.Some? && o.value != ""
  }

  /** The three extraction modes the settings tab offers. */
  predicate ValidMode(mode: string) {
    mode in {"text", "images", "all"}
  }
}
