/**
  PolishingConfig: the knobs of one polishing run. The JDK version may be null in
  Java, and the badge tool handles that case, so it is an Option here.
 */
module Config {
  import opened Wrappers

  datatype PolishingConfig = PolishingConfig(
    addTocThresholdHeadings: int,  // at least this many headings ask for a table of contents; 0 disables it
    headingStyle: string,          // "atx" or "setext"; no step reads it
    defaultCodeLanguage: string,   // the tag for a fence whose language cannot be inferred
    badgesEnabled: bool,
    jdkVersion: Option<string>,
    maxChangesPerFile: int,        // no step reads it
    requireMcpApproval: bool)      // read by the host surfaces only

  /** PolishingConfig.defaults(). */
  function Defaults(): PolishingConfig {
    PolishingConfig(4, "atx", "bash", true, Some("21"), 300, true)
  }
}
