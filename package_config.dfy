/**
 * src/mailorca/config.py: the package's `CONFIG` defaults and `load_config`,
 * which merges a JSON file into `CONFIG` in place. A missing file is
 * silent; any other failure prints a message and leaves whatever was
 * assigned before it.
 */
module PackageConfig {
  import opened Wrappers
  import opened JsonValue
  import opened ConfigMerge

  const DetailHeaders: seq<string> := ["From", "To", "Cc", "Subject", "Date", "Message-ID"]

  /** `CONFIG` as the module initialises it. */
  const Defaults: Config := DefaultsWith(DetailHeaders, "WARNING")

  /**
   * `load_config(config_file)`. `FileNotFoundError` is passed over; every
   * other exception, from opening, decoding or merging, is reported.
   */
  method LoadConfig(settings: Settings, file: FileInput) returns (report: Option<Report>)
    modifies settings`config
    ensures settings.config == AfterLoad(old(settings.config), file)
    ensures report == match file
      case Missing => None
      case Unreadable => Some(CouldNotLoad)
      case Malformed => Some(CouldNotLoad)
      case Loaded(u) =>
        match Run(MergeSteps, old(settings.config), u).error
        case None => None
        case Some(e) => Some(MergeFailed(e))
  {
    match file
    case Missing =>
      report := None;
    case Unreadable =>
      report := Some(CouldNotLoad);
    case Malformed =>
      report := Some(CouldNotLoad);
    case Loaded(u) =>
      var error := settings.Merge(u);
      report := if error.Some? then Some(MergeFailed(error.value)) else None;
  }

  /** The defaults are well shaped, so loading raises only as `ExpectedError` says. */
  lemma LoadIntoDefaults(u: Json)
    ensures WellShaped(Defaults)
    ensures Run(MergeSteps, Defaults, u).error == ExpectedError(u)
    ensures WellShaped(Merged(Defaults, u))
  {
    DefaultsWellShaped(DetailHeaders, "WARNING");
    MergeError(Defaults, u);
  }

  /** With an empty document nothing changes. */
  lemma EmptyDocumentKeepsDefaults()
    ensures Merged(Defaults, Empty) == Defaults
  {
    DefaultsWellShaped(DetailHeaders, "WARNING");
    MergeEmptyChangesNothing(Defaults);
  }
}
