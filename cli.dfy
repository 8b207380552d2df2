/**
 * `main` of src/mailorca/cli.py: load the configuration file into `CONFIG`,
 * raise logger levels by verbosity, configure logging, let every command
 * line option that was not defaulted override the loaded value, then
 * either write the configuration out and exit, or start the server.
 *
 * Option parsing is not modelled: each option arrives with its value and
 * the `ParameterSource` click reports for it. `logging.config.dictConfig`
 * is a parameter that accepts or rejects the logging section.
 */
module Cli {
  import opened Wrappers
  import opened JsonValue
  import opened ConfigMerge
  import PackageConfig

  /** `click.core.ParameterSource`. */
  datatype ParamSource = CommandLine | Environment | Default | DefaultMap | Prompt

  /** An option's value and where click took it from. */
  datatype Opt<T> = Opt(value: T, source: ParamSource)

  /** The options `main` reads (the file itself is passed separately, as it is read). */
  datatype Args = Args(
    genConfig: bool,
    smtpHost: Opt<string>,
    smtpPort: Opt<int>,
    httpHost: Opt<string>,
    httpPort: Opt<int>,
    maxHistory: Opt<int>,
    reload: bool,
    verbose: int)

  /** How `main` ends. */
  datatype Exit =
    | ConfigWritten(written: Config)       // --gen-config: dump CONFIG, sys.exit(0)
    | Served(config: Config, reload: bool) // uvicorn.run with CONFIG
    | Crashed(error: Exc)                  // an exception that escapes main
    | LoggingRejected                      // dictConfig raised

  /** `CONFIG` when `main` ends, and how it ends. */
  datatype State = State(config: Config, exit: Exit)

  /** `c[p[0]]...[p[n-1]] = v` on the whole configuration. */
  function Assign(c: Config, p: seq<string>, v: Json): (r: Result<Config, Exc>)
    requires |p| >= 1
    ensures r.Success? <==> SetPath(Obj(c), p, v).Success?
    ensures r.Success? ==> SetPath(Obj(c), p, v) == Success(Obj(r.value))
    ensures r.Success? ==> GetPath(Obj(r.value), p) == Success(v)
    ensures r.Success? ==> r.value.Keys == c.Keys + {p[0]}
  {
    match SetPath(Obj(c), p, v)
    case Failure(e) => Failure(e)
    case Success(j) =>
      GetAfterSet(Obj(c), p, v);
      Success(j.fields)
  }

  /** An assignment leaves every path that parts from its own as it was. */
  lemma AssignOther(c: Config, p: seq<string>, v: Json, q: seq<string>)
    requires |p| >= 1 && Assign(c, p, v).Success? && Diverge(p, q)
    ensures GetPath(Obj(Assign(c, p, v).value), q) == GetPath(Obj(c), q)
  {
    GetAfterSetOther(Obj(c), p, q, v);
  }

  const MailorcaLevelPath: seq<string> := ["logging", "loggers", "mailorca", "level"]
  const RootLevelPath: seq<string> := ["logging", "root", "level"]

  /** The `mailorca` logger level the verbosity asks for, if any. */
  function MailorcaLevel(verbose: int): (level: Option<string>)
    ensures level == Some("DEBUG") <==> verbose >= 2
    ensures level == Some("INFO") <==> verbose == 1
    ensures level == None <==> verbose <= 0
  {
    if verbose > 1 then Some("DEBUG") else if verbose > 0 then Some("INFO") else None
  }

  /** The root logger level the verbosity asks for, if any. */
  function RootLevel(verbose: int): (level: Option<string>)
    ensures level == Some("DEBUG") <==> verbose >= 12
    ensures level == Some("INFO") <==> verbose == 11
    ensures level == None <==> verbose <= 10
  {
    if verbose > 11 then Some("DEBUG") else if verbose > 10 then Some("INFO") else None
  }

  /** Set a logger level when one is asked for. */
  function SetLevel(c: Config, p: seq<string>, level: Option<string>): Result<Config, Exc>
    requires |p| >= 1
  {
    match level
    case None => Success(c)
    case Some(l) => Assign(c, p, Str(l))
  }

  /** The two `if` chains on `verbose`, the `mailorca` logger first. */
  function Verbosity(c: Config, verbose: int): Outcome
  {
    match SetLevel(c, MailorcaLevelPath, MailorcaLevel(verbose))
    case Failure(e) => Outcome(c, Some(e))
    case Success(c1) =>
      match SetLevel(c1, RootLevelPath, RootLevel(verbose))
      case Failure(e) => Outcome(c1, Some(e))
      case Success(c2) => Outcome(c2, None)
  }

  lemma LevelPathsDiverge()
    ensures Diverge(MailorcaLevelPath, RootLevelPath) && Diverge(RootLevelPath, MailorcaLevelPath)
  {
    assert "loggers"[0] == 'l' && "root"[0] == 'r';
    assert MailorcaLevelPath[1] != RootLevelPath[1];
  }

  /**
   * After the verbosity handling, each logger has the level the verbosity
   * asked for, or the level it had when none was asked for.
   */
  lemma VerbositySetsLevels(c: Config, verbose: int)
    requires Verbosity(c, verbose).error.None?
    ensures GetPath(Obj(Verbosity(c, verbose).config), MailorcaLevelPath) ==
            match MailorcaLevel(verbose)
            case None => GetPath(Obj(c), MailorcaLevelPath)
            case Some(l) => Success(Str(l))
    ensures GetPath(Obj(Verbosity(c, verbose).config), RootLevelPath) ==
            match RootLevel(verbose)
            case None => GetPath(Obj(c), RootLevelPath)
            case Some(l) => Success(Str(l))
  {
    LevelPathsDiverge();
    var c1 := SetLevel(c, MailorcaLevelPath, MailorcaLevel(verbose)).value;
    if MailorcaLevel(verbose).Some? {
      AssignOther(c, MailorcaLevelPath, Str(MailorcaLevel(verbose).value), RootLevelPath);
    }
    if RootLevel(verbose).Some? {
      AssignOther(c1, RootLevelPath, Str(RootLevel(verbose).value), MailorcaLevelPath);
    }
  }

  /** Verbosity writes only logger levels: every path outside `logging` is untouched. */
  lemma VerbosityFrame(c: Config, verbose: int, q: seq<string>)
    requires |q| >= 1 && q[0] != "logging"
    ensures GetPath(Obj(Verbosity(c, verbose).config), q) == GetPath(Obj(c), q)
    ensures Verbosity(c, verbose).config.Keys == c.Keys || "logging" !in c
  {
    assert Diverge(MailorcaLevelPath, q) && Diverge(RootLevelPath, q) by {
      assert MailorcaLevelPath[0] != q[0] && RootLevelPath[0] != q[0];
    }
    assert MailorcaLevelPath[0] == RootLevelPath[0] == "logging";
    var r1 := SetLevel(c, MailorcaLevelPath, MailorcaLevel(verbose));
    if r1.Success? {
      var c1 := r1.value;
      if MailorcaLevel(verbose).Some? {
        AssignOther(c, MailorcaLevelPath, Str(MailorcaLevel(verbose).value), q);
      }
      var r2 := SetLevel(c1, RootLevelPath, RootLevel(verbose));
      if RootLevel(verbose).Some? && r2.Success? {
        AssignOther(c1, RootLevelPath, Str(RootLevel(verbose).value), q);
      }
    }
  }

  /** The logging section has the `loggers.mailorca` and `root` dictionaries the verbosity writes into. */
  predicate LoggersShaped(c: Config)
  {
    && "logging" in c && c["logging"].Obj?
    && "loggers" in c["logging"].fields && c["logging"].fields["loggers"].Obj?
    && "mailorca" in c["logging"].fields["loggers"].fields
    && c["logging"].fields["loggers"].fields["mailorca"].Obj?
    && "root" in c["logging"].fields && c["logging"].fields["root"].Obj?
  }

  /** With those dictionaries present, the verbosity handling never raises. */
  lemma VerbositySucceeds(c: Config, verbose: int)
    requires LoggersShaped(c)
    ensures Verbosity(c, verbose).error.None?
  {
    var lg := c["logging"].fields;
    if MailorcaLevel(verbose).Some? {
      var c1 := Assign(c, MailorcaLevelPath, Str(MailorcaLevel(verbose).value));
      assert c1.Success?;
      LevelPathsDiverge();
      AssignOther(c, MailorcaLevelPath, Str(MailorcaLevel(verbose).value), ["logging", "root"]) by {
        assert MailorcaLevelPath[1] != ["logging", "root"][1];
      }
      assert GetPath(Obj(c1.value), ["logging", "root"]) == GetPath(Obj(c), ["logging", "root"]);
    }
  }

  /**
   * A user logging section without `loggers` (allowed by the merge, which
   * replaces `logging` wholesale) makes any positive verbosity raise KeyError.
   */
  lemma VerbosityNeedsLoggers(c: Config, verbose: int)
    requires "logging" in c && c["logging"].Obj? && "loggers" !in c["logging"].fields
    requires verbose >= 1
    ensures Verbosity(c, verbose).error == Some(KeyError)
    ensures Verbosity(c, verbose).config == c
  {
  }

  /** One overridable option: where it writes, its value, and where click took it from. */
  datatype Override = Override(path: seq<string>, value: Json, source: ParamSource)

  /** The five overridable options, in the order `main` tests them. */
  function Options(a: Args): (os: seq<Override>)
    ensures |os| == 5
    ensures forall i :: 0 <= i < |os| ==> |os[i].path| >= 1
  {
    [
      Override(["smtp", "host"], Str(a.smtpHost.value), a.smtpHost.source),
      Override(["smtp", "port"], Num(a.smtpPort.value), a.smtpPort.source),
      Override(["http", "host"], Str(a.httpHost.value), a.httpHost.source),
      Override(["http", "port"], Num(a.httpPort.value), a.httpPort.source),
      Override(["max_history"], Num(a.maxHistory.value), a.maxHistory.source)
    ]
  }

  predicate Targets(os: seq<Override>)
  {
    forall i :: 0 <= i < |os| ==> |os[i].path| >= 1
  }

  /** `if ctx.get_parameter_source(name) != DEFAULT: CONFIG[...] = value` for one option. */
  function OverrideStep(c: Config, o: Override): Result<Config, Exc>
    requires |o.path| >= 1
  {
    if o.source == Default then Success(c) else Assign(c, o.path, o.value)
  }

  /** The override `if`s in order, stopping at the first exception. */
  function ApplyOverrides(c: Config, os: seq<Override>): Outcome
    requires Targets(os)
    decreases |os|
  {
    if os == [] then Outcome(c, None)
    else match OverrideStep(c, os[0])
      case Failure(e) => Outcome(c, Some(e))
      case Success(c') => ApplyOverrides(c', os[1..])
  }

  /** Overrides whose paths all part from `q` leave `q` as it was. */
  lemma {:induction false} OverridesFrame(c: Config, os: seq<Override>, q: seq<string>)
    requires Targets(os)
    requires forall i :: 0 <= i < |os| ==> Diverge(os[i].path, q)
    ensures GetPath(Obj(ApplyOverrides(c, os).config), q) == GetPath(Obj(c), q)
    decreases |os|
  {
    if os != [] {
      assert forall i :: 0 <= i < |os[1..]| ==> os[1..][i] == os[i + 1];
      if os[0].source == Default {
        OverridesFrame(c, os[1..], q);
      } else if Assign(c, os[0].path, os[0].value).Success? {
        AssignOther(c, os[0].path, os[0].value, q);
        OverridesFrame(Assign(c, os[0].path, os[0].value).value, os[1..], q);
      }
    }
  }

  /**
   * With pairwise disjoint paths and no exception, an option that was not
   * defaulted holds its command line value afterwards, even when that value
   * equals the default, and a defaulted option's target holds what it held.
   */
  lemma {:induction false} OverridesWrite(c: Config, os: seq<Override>, i: nat)
    requires Targets(os) && i < |os|
    requires forall j, k :: 0 <= j < k < |os| ==> Diverge(os[j].path, os[k].path) && Diverge(os[k].path, os[j].path)
    requires ApplyOverrides(c, os).error.None?
    ensures GetPath(Obj(ApplyOverrides(c, os).config), os[i].path) ==
            if os[i].source != Default then Success(os[i].value) else GetPath(Obj(c), os[i].path)
    decreases |os|
  {
    var rest := os[1..];
    assert forall j :: 0 <= j < |rest| ==> rest[j] == os[j + 1];
    var c' := if os[0].source == Default then c else Assign(c, os[0].path, os[0].value).value;
    if i == 0 {
      OverridesFrame(c', rest, os[0].path);
    } else {
      OverridesWrite(c', rest, i - 1);
      if os[0].source != Default {
        AssignOther(c, os[0].path, os[0].value, os[i].path);
      }
    }
  }

  /** The five option paths are pairwise disjoint, and none lies under `logging`. */
  lemma OptionPathsDiverge(a: Args)
    ensures forall j, k :: 0 <= j < k < 5 ==>
              Diverge(Options(a)[j].path, Options(a)[k].path) && Diverge(Options(a)[k].path, Options(a)[j].path)
    ensures forall j :: 0 <= j < 5 ==> Options(a)[j].path[0] != "logging"
  {
    var os := Options(a);
    assert "smtp"[0] == 's' && "http"[0] == 'h' && "max_history"[0] == 'm' && "logging"[0] == 'l';
    assert "host"[0] == 'h' && "port"[0] == 'p';
    forall j, k | 0 <= j < k < 5
      ensures Diverge(os[j].path, os[k].path) && Diverge(os[k].path, os[j].path)
    {
      if (j == 0 && k == 1) || (j == 2 && k == 3) {
        assert os[j].path[1] != os[k].path[1];
      } else {
        assert os[j].path[0] != os[k].path[0];
      }
    }
  }

  /** The locations the command line may override. */
  predicate OptionPath(p: seq<string>)
  {
    p == ["smtp", "host"] || p == ["smtp", "port"] || p == ["http", "host"] || p == ["http", "port"] || p == ["max_history"]
  }

  /** Every option writes one of those locations. */
  lemma OptionsWriteOptionPaths(a: Args)
    ensures forall i :: 0 <= i < |Options(a)| ==> OptionPath(Options(a)[i].path)
  {
  }

  /** An override assignment never raises on a well-shaped configuration and keeps it well shaped. */
  lemma AssignKeepsShape(c: Config, p: seq<string>, v: Json)
    requires WellShaped(c) && OptionPath(p)
    ensures Assign(c, p, v).Success? && WellShaped(Assign(c, p, v).value)
  {
    if |p| == 2 {
      var sec := c[p[0]];
      assert SetPath(sec, p[1..], v) == Success(Obj(sec.fields[p[1] := v]));
      assert SetPath(Obj(c), p, v) == Success(Obj(c[p[0] := Obj(sec.fields[p[1] := v])]));
    }
  }

  /** Overrides of those locations never raise on a well-shaped configuration and keep it well shaped. */
  lemma {:induction false} OverridesSucceed(c: Config, os: seq<Override>)
    requires WellShaped(c) && Targets(os)
    requires forall i :: 0 <= i < |os| ==> OptionPath(os[i].path)
    ensures ApplyOverrides(c, os).error.None?
    ensures WellShaped(ApplyOverrides(c, os).config)
    decreases |os|
  {
    if os != [] {
      assert forall i :: 0 <= i < |os[1..]| ==> os[1..][i] == os[i + 1];
      if os[0].source == Default {
        OverridesSucceed(c, os[1..]);
      } else {
        AssignKeepsShape(c, os[0].path, os[0].value);
        OverridesSucceed(Assign(c, os[0].path, os[0].value).value, os[1..]);
      }
    }
  }

  /** The verbosity handling touches only `logging`, so a well-shaped configuration stays well shaped. */
  lemma VerbosityKeepsShape(c: Config, verbose: int)
    requires WellShaped(c)
    ensures Verbosity(c, verbose).config.Keys == c.Keys
    ensures WellShaped(Verbosity(c, verbose).config)
  {
    var v := Verbosity(c, verbose).config;
    VerbosityFrame(c, verbose, ["smtp"]);
    VerbosityFrame(c, verbose, ["http"]);
    VerbosityFrame(c, verbose, ["ui"]);
    GetTop(c, "smtp");
    GetTop(c, "http");
    GetTop(c, "ui");
    GetTop(v, "smtp");
    GetTop(v, "http");
    GetTop(v, "ui");
  }

  /** What `main` leaves in `CONFIG` and how it ends, for a given file and options. */
  function Launch(c0: Config, file: FileInput, a: Args, accepts: Json -> bool): State
  {
    var v := Verbosity(AfterLoad(c0, file), a.verbose);
    if v.error.Some? then State(v.config, Crashed(v.error.value))
    else Configure(v.config, a, accepts)
  }

  /** `dictConfig(CONFIG["logging"])`, then the overrides and the last step. */
  function Configure(c: Config, a: Args, accepts: Json -> bool): State
  {
    match GetPath(Obj(c), ["logging"])
    case Failure(e) => State(c, Crashed(e))
    case Success(lg) =>
      if !accepts(lg) then State(c, LoggingRejected)
      else Finish(ApplyOverrides(c, Options(a)), a)
  }

  /** After the overrides: dump the configuration and exit, or serve it. */
  function Finish(o: Outcome, a: Args): State
  {
    if o.error.Some? then State(o.config, Crashed(o.error.value))
    else if a.genConfig then State(o.config, ConfigWritten(o.config))
    else State(o.config, Served(o.config, a.reload))
  }

  /**
   * The file is merged first and the options afterwards, so when `main`
   * gets as far as writing or serving, each option that was not defaulted
   * has the final word, and each defaulted one keeps the value from the file.
   */
  lemma CommandLineBeatsFile(c0: Config, file: FileInput, a: Args, accepts: Json -> bool, i: nat)
    requires i < 5
    requires Launch(c0, file, a, accepts).exit.ConfigWritten? || Launch(c0, file, a, accepts).exit.Served?
    ensures GetPath(Obj(Launch(c0, file, a, accepts).config), Options(a)[i].path) ==
            if Options(a)[i].source != Default then Success(Options(a)[i].value)
            else GetPath(Obj(AfterLoad(c0, file)), Options(a)[i].path)
  {
    var c1 := AfterLoad(c0, file);
    var v := Verbosity(c1, a.verbose);
    assert Launch(c0, file, a, accepts) == Configure(v.config, a, accepts);
    var lg := GetPath(Obj(v.config), ["logging"]);
    assert Launch(c0, file, a, accepts) == Finish(ApplyOverrides(v.config, Options(a)), a);
    OptionPathsDiverge(a);
    OverridesWrite(v.config, Options(a), i);
    VerbosityFrame(c1, a.verbose, Options(a)[i].path);
  }

  /**
   * `--gen-config` writes the final configuration and exits without
   * serving; without it, a run that does not crash serves that configuration.
   */
  lemma GenConfigExits(c0: Config, file: FileInput, a: Args, accepts: Json -> bool)
    ensures var s := Launch(c0, file, a, accepts);
            && (a.genConfig ==> !s.exit.Served?)
            && (!a.genConfig ==> !s.exit.ConfigWritten?)
            && (s.exit.ConfigWritten? ==> s.exit.written == s.config)
            && (s.exit.Served? ==> s.exit.config == s.config && s.exit.reload == a.reload)
  {
    var v := Verbosity(AfterLoad(c0, file), a.verbose);
    if v.error.None? {
      var lg := GetPath(Obj(v.config), ["logging"]);
      if lg.Success? && accepts(lg.value) {
        var o := ApplyOverrides(v.config, Options(a));
        assert Launch(c0, file, a, accepts) == Finish(o, a);
      }
    }
  }

  /**
   * From the package defaults, whatever the file says, `main` crashes only
   * in the verbosity handling or in `dictConfig`: the overrides and the
   * final step always go through. When the logging section keeps its
   * loggers and `dictConfig` accepts it, `main` writes or serves.
   */
  lemma LaunchFromWellShaped(c0: Config, file: FileInput, a: Args, accepts: Json -> bool)
    requires WellShaped(c0)
    ensures var s := Launch(c0, file, a, accepts);
            s.exit.Crashed? ==> Verbosity(AfterLoad(c0, file), a.verbose).error.Some?
    ensures LoggersShaped(AfterLoad(c0, file)) && accepts(AfterLoad(c0, file)["logging"]) &&
            MailorcaLevel(a.verbose).None? && RootLevel(a.verbose).None? ==>
              (Launch(c0, file, a, accepts).exit.ConfigWritten? || Launch(c0, file, a, accepts).exit.Served?)
  {
    var c1 := AfterLoad(c0, file);
    LoadKeepsShape(c0, file);
    var v := Verbosity(c1, a.verbose);
    if v.error.None? {
      VerbosityKeepsShape(c1, a.verbose);
      GetTop(v.config, "logging");
      OptionsWriteOptionPaths(a);
      OverridesSucceed(v.config, Options(a));
      assert Launch(c0, file, a, accepts) == Configure(v.config, a, accepts);
    }
  }

  /** The verbosity `if` chains of `main`, assigning into `CONFIG` as they go. */
  method RaiseLevels(settings: Settings, verbose: int) returns (error: Option<Exc>)
    modifies settings`config
    ensures Outcome(settings.config, error) == Verbosity(old(settings.config), verbose)
  {
    var r: Result<Config, Exc>;
    if verbose > 1 {
      r := Assign(settings.config, MailorcaLevelPath, Str("DEBUG"));
      if r.Failure? { return Some(r.error); }
      settings.config := r.value;
    } else if verbose > 0 {
      r := Assign(settings.config, MailorcaLevelPath, Str("INFO"));
      if r.Failure? { return Some(r.error); }
      settings.config := r.value;
    }
    if verbose > 11 {
      r := Assign(settings.config, RootLevelPath, Str("DEBUG"));
      if r.Failure? { return Some(r.error); }
      settings.config := r.value;
    } else if verbose > 10 {
      r := Assign(settings.config, RootLevelPath, Str("INFO"));
      if r.Failure? { return Some(r.error); }
      settings.config := r.value;
    }
    return None;
  }

  /** One override `if` of `main`. */
  method SetOption(settings: Settings, o: Override) returns (error: Option<Exc>)
    requires |o.path| >= 1
    modifies settings`config
    ensures match OverrideStep(old(settings.config), o)
            case Failure(e) => error == Some(e) && settings.config == old(settings.config)
            case Success(c) => error == None && settings.config == c
  {
    if o.source != Default {
      var r := Assign(settings.config, o.path, o.value);
      if r.Failure? { return Some(r.error); }
      settings.config := r.value;
    }
    return None;
  }

  /** The overrides from position `k` on: the `k`-th `if`, then the rest. */
  lemma ApplyOverridesAt(c: Config, os: seq<Override>, k: nat)
    requires Targets(os) && k < |os|
    ensures OverrideStep(c, os[k]).Failure? ==>
              ApplyOverrides(c, os[k..]) == Outcome(c, Some(OverrideStep(c, os[k]).error))
    ensures OverrideStep(c, os[k]).Success? ==>
              ApplyOverrides(c, os[k..]) == ApplyOverrides(OverrideStep(c, os[k]).value, os[k + 1..])
  {
    assert os[k..][0] == os[k] && os[k..][1..] == os[k + 1..];
  }

  /** The five override `if`s of `main`, in the source's order, assigning into `CONFIG` as they go. */
  method OverrideOptions(settings: Settings, a: Args) returns (error: Option<Exc>)
    modifies settings`config
    ensures Outcome(settings.config, error) == ApplyOverrides(old(settings.config), Options(a))
  {
    var os := Options(a);
    assert os[0..] == os;
    ApplyOverridesAt(settings.config, os, 0);
    error := SetOption(settings, os[0]);  // smtp host
    if error.Some? { return; }
    ApplyOverridesAt(settings.config, os, 1);
    error := SetOption(settings, os[1]);  // smtp port
    if error.Some? { return; }
    ApplyOverridesAt(settings.config, os, 2);
    error := SetOption(settings, os[2]);  // http host
    if error.Some? { return; }
    ApplyOverridesAt(settings.config, os, 3);
    error := SetOption(settings, os[3]);  // http port
    if error.Some? { return; }
    ApplyOverridesAt(settings.config, os, 4);
    error := SetOption(settings, os[4]);  // max_history
    assert os[5..] == [];
  }

  /**
   * `main`: load, raise the levels, configure logging, apply the overrides,
   * then dump or serve. The load's report goes to the console and does not
   * affect what follows.
   */
  method Start(settings: Settings, file: FileInput, a: Args, accepts: Json -> bool) returns (exit: Exit)
    modifies settings`config
    ensures State(settings.config, exit) == Launch(old(settings.config), file, a, accepts)
  {
    var report := PackageConfig.LoadConfig(settings, file);
    var error := RaiseLevels(settings, a.verbose);
    if error.Some? { return Crashed(error.value); }
    var logging := GetPath(Obj(settings.config), ["logging"]);
    if logging.Failure? { return Crashed(logging.error); }
    if !accepts(logging.value) { return LoggingRejected; }
    error := OverrideOptions(settings, a);
    if error.Some? { return Crashed(error.value); }
    if a.genConfig {
      return ConfigWritten(settings.config);
    }
    return Served(settings.config, a.reload);
  }
}
