/**
 * The root config.py: the older bridge module between the launcher and the
 * web application. Its `load_config` runs the same six merge lines as the
 * package's, but catches every exception, a missing file included, and
 * reports it.
 */
module LegacyConfig {
  import opened Wrappers
  import opened JsonValue
  import opened ConfigMerge

  const DetailHeaders: seq<string> := ["From", "To", "Cc", "Subject", "Date"]

  /** `CONFIG` as the module initialises it; the same dictionary as mailorca.py's `DEFAULT_CONFIG`. */
  const Defaults: Config := DefaultsWith(DetailHeaders, "DEBUG")

  /** `load_config(config_file)`: every failure is reported, and the assignments made before it stay. */
  method LoadConfig(settings: Settings, file: FileInput) returns (report: Option<Report>)
    modifies settings`config
    ensures settings.config == AfterLoad(old(settings.config), file)
    ensures report == match file
      case Loaded(u) =>
        (match Run(MergeSteps, old(settings.config), u).error
         case None => None
         case Some(e) => Some(MergeFailed(e)))
      case _ => Some(CouldNotLoad)
  {
    if file.Loaded? {
      var error := settings.Merge(file.document);
      report := if error.Some? then Some(MergeFailed(error.value)) else None;
    } else {
      report := Some(CouldNotLoad);
    }
  }

  /**
   * A document whose `smtp` section is merged but whose `ui` is a list:
   * the merge raises AttributeError at the first `ui` line, and the new
   * `smtp` port and the replaced `max_history` stay in `CONFIG`.
   */
  lemma FailureKeepsEarlierAssignments()
    ensures var u := Obj(map["smtp" := Obj(map["port" := Num(2525)]), "max_history" := Num(5), "ui" := Arr([])]);
            Run(MergeSteps, Defaults, u) ==
              Outcome(Defaults["smtp" := Obj(map["host" := Str("127.0.0.1"), "port" := Num(2525)])]["max_history" := Num(5)],
                      Some(AttributeError))
  {
    var u := Obj(map["smtp" := Obj(map["port" := Num(2525)]), "max_history" := Num(5), "ui" := Arr([])]);
    var ss := MergeSteps;
    var c1 := Defaults["smtp" := Obj(map["host" := Str("127.0.0.1"), "port" := Num(2525)])];
    assert Defaults["smtp"].fields + map["port" := Num(2525)] == map["host" := Str("127.0.0.1"), "port" := Num(2525)];
    assert Apply(ss[0], Defaults, u) == Success(c1);
    assert Defaults["http"].fields + map[] == Defaults["http"].fields;
    assert c1["http" := c1["http"]] == c1;
    assert Apply(ss[1], c1, u) == Success(c1);
    var c3 := c1["max_history" := Num(5)];
    assert Apply(ss[2], c1, u) == Success(c3);
    assert Apply(ss[3], c3, u) == Failure(AttributeError);
    assert ss[1..] == [Overlay("http"), Replace("max_history"), ReplaceUi("list_columns"), ReplaceUi("detail_headers"), Replace("logging")];
    assert ss[2..] == ss[1..][1..];
    assert ss[3..] == ss[2..][1..];
  }
}
