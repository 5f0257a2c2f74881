/** `checkSettings` of the converter classes (src/utils/settingsUtils.ts). */
module SettingsUtils {
  import opened Settings

  const InvalidModeNotice := "Err: Invalid content extraction setting for Marker, check settings"

  /**
   * The extraction-mode check: the verdict and the notices it posts. Only
   * `extractContent` is read and nothing is written back (the settings are a value).
   */
  function CheckSettings(s: Settings): (r: (bool, seq<string>))
    ensures r.0 <==> ValidMode(s.extractContent)
    ensures r.1 == if r.0 then [] else [InvalidModeNotice]
  {
    if s.extractContent != "text" && s.extractContent != "images" && s.extractContent != "all" then
      (false, [InvalidModeNotice])
    else (true, [])
  }

  /** Endpoints, keys and every flag other than the mode are ignored. */
  lemma CheckSettingsReadsOnlyMode(s: Settings, t: Settings)
    requires s.extractContent == t.extractContent
    ensures CheckSettings(s) == CheckSettings(t)
  {
  }
}
