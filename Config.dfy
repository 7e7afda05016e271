/**
 * The plugin's settings: the caller's options laid over the defaults, as
 * `$.extend(defaults, options)` does. An option the caller leaves out (or
 * leaves `undefined`) keeps its default.
 */
module Config {
  import opened Wrappers

  /** The options a caller may pass; `None` is an option left out. */
  datatype Options = Options(
    threshold: Option<int>,
    replaceTag: Option<string>,
    delay: Option<int>,
    mode: Option<string>,
    loadingClass: Option<string>)

  /** The settings in force for one call of the plugin. */
  datatype Settings = Settings(
    threshold: int,      // pixels added above and below the window
    replaceTag: string,  // markup of the element that replaces a placeholder
    delay: int,          // milliseconds an element must stay in view; 0 for none
    mode: string,        // "img" copies a source; anything else replaces the placeholder
    loadingClass: string)

  /** No options at all. */
  const NoOptions := Options(None, None, None, None, None)

  const DefaultThreshold := 1000
  const DefaultReplaceTag := "<iframe>"
  const DefaultDelay := 0
  const DefaultMode := "img"
  const DefaultLoadingClass := "loading"

  /** Each setting is the caller's option when given, and its default otherwise. */
  function Extend(options: Options): (s: Settings)
    ensures options.threshold.None? ==> s.threshold == DefaultThreshold
    ensures options.replaceTag.None? ==> s.replaceTag == DefaultReplaceTag
    ensures options.delay.None? ==> s.delay == DefaultDelay
    ensures options.mode.None? ==> s.mode == DefaultMode
    ensures options.loadingClass.None? ==> s.loadingClass == DefaultLoadingClass
    ensures options.threshold == Some(s.threshold) || options.threshold.None?
    ensures options.replaceTag == Some(s.replaceTag) || options.replaceTag.None?
    ensures options.delay == Some(s.delay) || options.delay.None?
    ensures options.mode == Some(s.mode) || options.mode.None?
    ensures options.loadingClass == Some(s.loadingClass) || options.loadingClass.None?
  {
    Settings(
      options.threshold.GetOr(DefaultThreshold),
      options.replaceTag.GetOr(DefaultReplaceTag),
      options.delay.GetOr(DefaultDelay),
      options.mode.GetOr(DefaultMode),
      options.loadingClass.GetOr(DefaultLoadingClass))
  }

  /** Without options the plugin loads images, with no delay, 1000 pixels ahead. */
  lemma DefaultSettings()
    ensures Extend(NoOptions) == Settings(1000, "<iframe>", 0, "img", "loading")
  {
  }
}
