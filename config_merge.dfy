/**
 * The per-section merge that `load_config` performs in src/mailorca/config.py
 * and, line for line the same, in the root config.py: six assignments into
 * the global `CONFIG`, each of which may raise, run in order until the
 * first one that raises. The assignments made before a failing line stay.
 *
 * Each assignment is a `Step` that writes one location of the
 * configuration (`Loc`), and what it writes there (`Written`) depends only
 * on the user document and the old value at that location. As the six
 * locations are pairwise disjoint, the merge is idempotent.
 */
module ConfigMerge {
  import opened Wrappers
  import opened JsonValue

  /** The `CONFIG` dictionary. */
  type Config = map<string, Json>

  /** `{}`. */
  const Empty: Json := Obj(map[])

  /** A JSON list of strings. */
  function Strings(ss: seq<string>): (j: Json)
    ensures j.Arr? && |j.items| == |ss|
    ensures forall i :: 0 <= i < |ss| ==> j.items[i] == Str(ss[i])
  {
    Arr(seq(|ss|, i requires 0 <= i < |ss| => Str(ss[i])))
  }

  /**
   * The defaults as all three copies of `CONFIG` spell them; the copies
   * differ only in the detail headers and in the `mailorca` logger level.
   */
  function DefaultsWith(detailHeaders: seq<string>, mailorcaLevel: string): Config
  {
    map[
      "smtp" := Obj(map["host" := Str("127.0.0.1"), "port" := Num(1025)]),
      "http" := Obj(map["host" := Str("127.0.0.1"), "port" := Num(8025)]),
      "max_history" := Num(100),
      "ui" := Obj(map[
        "list_columns" := Strings(["Date", "Subject", "To", "From"]),
        "detail_headers" := Strings(detailHeaders)]),
      "logging" := Obj(map[
        "version" := Num(1),
        "disable_existing_loggers" := Bool(false),
        "formatters" := Obj(map["simple" := Obj(map[
          "format" := Str("%(asctime)s %(name)s:%(lineno)s %(funcName)s:%(levelname)s: %(message)s")])]),
        "handlers" := Obj(map["console" := Obj(map[
          "class" := Str("logging.StreamHandler"),
          "formatter" := Str("simple")])]),
        "root" := Obj(map["handlers" := Strings(["console"]), "level" := Str("WARNING")]),
        "loggers" := Obj(map["mailorca" := Obj(map[
          "level" := Str(mailorcaLevel),
          "propagate" := Bool(true)])])])
    ]
  }

  /** One merge line. */
  datatype Step =
    | Overlay(key: string)    // c[key] = c[key] | u.get(key, {})
    | Replace(key: string)    // c[key] = u.get(key, c[key])
    | ReplaceUi(key: string)  // c["ui"][key] = u.get("ui", {}).get(key, c["ui"][key])

  /** The six lines of `load_config`, in source order. */
  const MergeSteps: seq<Step> := [
    Overlay("smtp"), Overlay("http"), Replace("max_history"),
    ReplaceUi("list_columns"), ReplaceUi("detail_headers"), Replace("logging")]

  /** The location a step assigns. */
  function Loc(s: Step): (p: seq<string>)
    ensures |p| >= 1
  {
    match s
    case Overlay(k) => [k]
    case Replace(k) => [k]
    case ReplaceUi(k) => ["ui", k]
  }

  /**
   * One line, with Python's evaluation order deciding which exception comes
   * first: the operands left to right, `u.get` before its arguments. `u.get`
   * on a non-dictionary raises AttributeError, `dict | x` with a
   * non-dictionary raises TypeError, a missing key KeyError. An overlay of
   * a section that is not a dictionary raises TypeError too, although
   * Python's `|` would succeed on two integers; from the defaults every
   * overlaid section is a dictionary, so a merge never meets that case.
   */
  function Apply(s: Step, c: Config, u: Json): Result<Config, Exc>
  {
    match s
    case Overlay(k) =>
      if k !in c then Failure(KeyError)
      else if !u.Obj? then Failure(AttributeError)
      else
        var section := Lookup(u.fields, k, Empty);
        if c[k].Obj? && section.Obj? then Success(c[k := Obj(c[k].fields + section.fields)])
        else Failure(TypeError)
    case Replace(k) =>
      if !u.Obj? then Failure(AttributeError)
      else if k !in c then Failure(KeyError)
      else Success(c[k := Lookup(u.fields, k, c[k])])
    case ReplaceUi(k) =>
      if !u.Obj? then Failure(AttributeError)
      else
        var ui := Lookup(u.fields, "ui", Empty);
        if !ui.Obj? then Failure(AttributeError)
        else if "ui" !in c then Failure(KeyError)
        else if !c["ui"].Obj? then Failure(TypeError)
        else if k !in c["ui"].fields then Failure(KeyError)
        else
          var cur := c["ui"].fields[k];
          Success(c["ui" := Obj(c["ui"].fields[k := Lookup(ui.fields, k, cur)])])
  }

  /** What a step stores at its location, given the old value there. */
  function Written(s: Step, cur: Json, u: Json): Json
  {
    var uf := if u.Obj? then u.fields else map[];
    match s
    case Overlay(k) =>
      var section := Lookup(uf, k, Empty);
      if cur.Obj? && section.Obj? then Obj(cur.fields + section.fields) else cur
    case Replace(k) => Lookup(uf, k, cur)
    case ReplaceUi(k) =>
      var ui := Lookup(uf, "ui", Empty);
      if ui.Obj? then Lookup(ui.fields, k, cur) else cur
  }

  /**
   * A step that succeeds is an assignment of `Written` to its location: it
   * read that location and changes nothing else.
   */
  lemma ApplyWrites(s: Step, c: Config, u: Json)
    requires Apply(s, c, u).Success?
    ensures GetPath(Obj(c), Loc(s)).Success?
    ensures SetPath(Obj(c), Loc(s), Written(s, GetPath(Obj(c), Loc(s)).value, u)) ==
            Success(Obj(Apply(s, c, u).value))
  {
    match s
    case Overlay(k) =>
    case Replace(k) =>
    case ReplaceUi(k) =>
      assert GetPath(Obj(c), Loc(s)) == GetPath(c["ui"], [k]);
  }

  /** Writing twice is writing once: `(a | b) | b == a | b`, `u.get(k, u.get(k, x)) == u.get(k, x)`. */
  lemma WrittenIdempotent(s: Step, cur: Json, u: Json)
    ensures Written(s, Written(s, cur, u), u) == Written(s, cur, u)
  {
    match s
    case Overlay(k) =>
      var uf := if u.Obj? then u.fields else map[];
      var section := Lookup(uf, k, Empty);
      if cur.Obj? && section.Obj? {
        assert cur.fields + section.fields + section.fields == cur.fields + section.fields;
      }
    case Replace(k) =>
    case ReplaceUi(k) =>
  }

  /**
   * A step that succeeded once succeeds again, changing nothing, on any
   * configuration that holds at its location what it wrote there.
   */
  lemma ApplyStable(s: Step, c: Config, d: Config, u: Json)
    requires Apply(s, c, u).Success?
    requires GetPath(Obj(c), Loc(s)).Success?
    requires GetPath(Obj(d), Loc(s)) == Success(Written(s, GetPath(Obj(c), Loc(s)).value, u))
    ensures Apply(s, d, u) == Success(d)
  {
    var cur := GetPath(Obj(c), Loc(s)).value;
    WrittenIdempotent(s, cur, u);
    match s
    case Overlay(k) =>
      assert d[k] == Written(s, cur, u);
      assert d[k := d[k]] == d;
    case Replace(k) =>
      assert d[k] == Written(s, cur, u);
      assert d[k := d[k]] == d;
    case ReplaceUi(k) =>
      assert GetPath(Obj(d), Loc(s)) == GetPath(d["ui"], [k]);
      var f := d["ui"].fields;
      assert f[k] == Written(s, cur, u);
      assert f[k := f[k]] == f;
      assert d["ui" := Obj(f)] == d;
  }

  /** A successful step leaves every location that parts from its own as it was. */
  lemma ApplyFrame(s: Step, c: Config, u: Json, q: seq<string>)
    requires Apply(s, c, u).Success? && Diverge(Loc(s), q)
    ensures GetPath(Obj(Apply(s, c, u).value), q) == GetPath(Obj(c), q)
  {
    ApplyWrites(s, c, u);
    GetAfterSetOther(Obj(c), Loc(s), q, Written(s, GetPath(Obj(c), Loc(s)).value, u));
  }

  /** A successful step stores `Written` at its location. */
  lemma ApplyStores(s: Step, c: Config, u: Json)
    requires Apply(s, c, u).Success?
    ensures GetPath(Obj(c), Loc(s)).Success?
    ensures GetPath(Obj(Apply(s, c, u).value), Loc(s)) == Success(Written(s, GetPath(Obj(c), Loc(s)).value, u))
  {
    ApplyWrites(s, c, u);
    GetAfterSet(Obj(c), Loc(s), Written(s, GetPath(Obj(c), Loc(s)).value, u));
  }

  /** The state of `CONFIG` after the merge, and the exception that ended it early, if any. */
  datatype Outcome = Outcome(config: Config, error: Option<Exc>)

  /** Run the lines in order; the first exception stops the merge and keeps what was assigned. */
  function Run(ss: seq<Step>, c: Config, u: Json): Outcome
    decreases |ss|
  {
    if ss == [] then Outcome(c, None)
    else match Apply(ss[0], c, u)
      case Failure(e) => Outcome(c, Some(e))
      case Success(c') => Run(ss[1..], c', u)
  }

  /** No two steps assign overlapping locations. */
  predicate Independent(ss: seq<Step>)
  {
    forall i, j :: 0 <= i < j < |ss| ==> Diverge(Loc(ss[i]), Loc(ss[j]))
  }

  lemma DivergeSymmetric(p: seq<string>, q: seq<string>)
    requires Diverge(p, q)
    ensures Diverge(q, p)
  {
    var i :| 0 <= i < |p| && i < |q| && p[i] != q[i];
    assert q[i] != p[i];
  }

  /** The six locations of `load_config` are pairwise disjoint. */
  lemma MergeStepsIndependent()
    ensures Independent(MergeSteps)
  {
    var ls := seq(6, i requires 0 <= i < 6 => Loc(MergeSteps[i]));
    assert ls == [["smtp"], ["http"], ["max_history"], ["ui", "list_columns"], ["ui", "detail_headers"], ["logging"]];
    assert "smtp"[0] == 's' && "http"[0] == 'h' && "max_history"[0] == 'm' && "ui"[0] == 'u' && "logging"[0] == 'l';
    assert "list_columns"[0] == 'l' && "detail_headers"[0] == 'd';
    forall i, j | 0 <= i < j < 6 ensures Diverge(Loc(MergeSteps[i]), Loc(MergeSteps[j])) {
      if i == 3 && j == 4 {
        assert Loc(MergeSteps[i])[1] != Loc(MergeSteps[j])[1];
      } else {
        assert Loc(MergeSteps[i])[0] != Loc(MergeSteps[j])[0];
      }
    }
  }

  /** Steps that all part from `q` leave `q` as it was, however far they got. */
  lemma {:induction false} RunFrame(ss: seq<Step>, c: Config, u: Json, q: seq<string>)
    requires forall i :: 0 <= i < |ss| ==> Diverge(Loc(ss[i]), q)
    ensures GetPath(Obj(Run(ss, c, u).config), q) == GetPath(Obj(c), q)
    decreases |ss|
  {
    if ss != [] && Apply(ss[0], c, u).Success? {
      var c' := Apply(ss[0], c, u).value;
      ApplyFrame(ss[0], c, u, q);
      assert forall i :: 0 <= i < |ss[1..]| ==> ss[1..][i] == ss[i + 1];
      RunFrame(ss[1..], c', u, q);
    }
  }

  /** The merge never adds or removes a top-level key. */
  lemma {:induction false} RunKeepsKeys(ss: seq<Step>, c: Config, u: Json)
    ensures Run(ss, c, u).config.Keys == c.Keys
    decreases |ss|
  {
    if ss != [] && Apply(ss[0], c, u).Success? {
      RunKeepsKeys(ss[1..], Apply(ss[0], c, u).value, u);
    }
  }

  /** Merging the same document a second time changes nothing and ends the same way. */
  lemma {:induction false} RunIdempotent(ss: seq<Step>, c: Config, u: Json)
    requires Independent(ss)
    ensures Run(ss, Run(ss, c, u).config, u) == Run(ss, c, u)
    decreases |ss|
  {
    if ss != [] && Apply(ss[0], c, u).Success? {
      var s := ss[0];
      var c' := Apply(s, c, u).value;
      var rest := ss[1..];
      var r := Run(rest, c', u).config;
      assert Independent(rest) by {
        forall i, j | 0 <= i < j < |rest| ensures Diverge(Loc(rest[i]), Loc(rest[j])) {
          assert rest[i] == ss[i + 1] && rest[j] == ss[j + 1];
        }
      }
      forall i | 0 <= i < |rest| ensures Diverge(Loc(rest[i]), Loc(s)) {
        assert rest[i] == ss[i + 1];
        DivergeSymmetric(Loc(s), Loc(rest[i]));
      }
      RunFrame(rest, c', u, Loc(s));
      ApplyStores(s, c, u);
      ApplyStable(s, c, r, u);
      RunIdempotent(rest, c', u);
    }
  }

  /**
   * After a merge that raised nothing, every step's location holds what
   * that step wrote, computed from the configuration before the merge.
   */
  lemma {:induction false} RunWrites(ss: seq<Step>, c: Config, u: Json, i: nat)
    requires Independent(ss) && Run(ss, c, u).error.None? && i < |ss|
    ensures GetPath(Obj(c), Loc(ss[i])).Success?
    ensures GetPath(Obj(Run(ss, c, u).config), Loc(ss[i])) ==
            Success(Written(ss[i], GetPath(Obj(c), Loc(ss[i])).value, u))
    decreases |ss|
  {
    var s := ss[0];
    var c' := Apply(s, c, u).value;
    var rest := ss[1..];
    assert Independent(rest) by {
      forall a, b | 0 <= a < b < |rest| ensures Diverge(Loc(rest[a]), Loc(rest[b])) {
        assert rest[a] == ss[a + 1] && rest[b] == ss[b + 1];
      }
    }
    if i == 0 {
      forall j | 0 <= j < |rest| ensures Diverge(Loc(rest[j]), Loc(s)) {
        assert rest[j] == ss[j + 1];
        DivergeSymmetric(Loc(s), Loc(rest[j]));
      }
      RunFrame(rest, c', u, Loc(s));
      ApplyStores(s, c, u);
    } else {
      assert rest[i - 1] == ss[i];
      RunWrites(rest, c', u, i - 1);
      ApplyFrame(s, c, u, Loc(ss[i]));
    }
  }

  /**
   * A merge that raised stopped at some line: the lines before it all ran
   * and their assignments persist, and that line raised on the state they left.
   */
  lemma {:induction false} RunStopsAtFailure(ss: seq<Step>, c: Config, u: Json)
    requires Run(ss, c, u).error.Some?
    ensures exists i :: 0 <= i < |ss| && Run(ss[..i], c, u) == Outcome(Run(ss, c, u).config, None) &&
                        Apply(ss[i], Run(ss, c, u).config, u) == Failure(Run(ss, c, u).error.value)
    decreases |ss|
  {
    var o := Run(ss, c, u);
    match Apply(ss[0], c, u)
    case Failure(e) =>
      assert ss[..0] == [];
    case Success(c') =>
      RunStopsAtFailure(ss[1..], c', u);
      var i :| 0 <= i < |ss[1..]| && Run(ss[1..][..i], c', u) == Outcome(o.config, None) &&
               Apply(ss[1..][i], o.config, u) == Failure(o.error.value);
      assert ss[..i + 1][0] == ss[0] && ss[..i + 1][1..] == ss[1..][..i];
      assert Run(ss[..i + 1], c, u) == Outcome(o.config, None);
  }

  /** What the configuration code relies on: the sections it indexes exist, and are dictionaries where it nests. */
  predicate WellShaped(c: Config)
  {
    && "smtp" in c && c["smtp"].Obj?
    && "http" in c && c["http"].Obj?
    && "max_history" in c && "logging" in c
    && "ui" in c && c["ui"].Obj?
    && "list_columns" in c["ui"].fields && "detail_headers" in c["ui"].fields
  }

  lemma DefaultsWellShaped(detailHeaders: seq<string>, mailorcaLevel: string)
    ensures WellShaped(DefaultsWith(detailHeaders, mailorcaLevel))
  {
  }

  /** The exception the merge stops with on a well-shaped configuration, decided by the user document alone. */
  function ExpectedError(u: Json): Option<Exc>
  {
    if !u.Obj? then Some(AttributeError)
    else if !Lookup(u.fields, "smtp", Empty).Obj? || !Lookup(u.fields, "http", Empty).Obj? then Some(TypeError)
    else if !Lookup(u.fields, "ui", Empty).Obj? then Some(AttributeError)
    else None
  }

  /**
   * On a well-shaped configuration the merge raises exactly when the document
   * is not a dictionary (AttributeError), its `smtp` or `http` is not a
   * dictionary (TypeError), or its `ui` is not a dictionary (AttributeError);
   * and whatever happened, the configuration stays well shaped.
   */
  lemma MergeError(c: Config, u: Json)
    requires WellShaped(c)
    ensures Run(MergeSteps, c, u).error == ExpectedError(u)
    ensures WellShaped(Run(MergeSteps, c, u).config)
  {
    assert forall i :: 0 <= i < |MergeSteps| ==> MergeSteps[i] in MergeSteps;
    RunError(MergeSteps, c, u);
    FirstErrorOfMerge(u);
  }

  /** What a line raises on a well-shaped configuration: it depends on the document alone. */
  function StepError(s: Step, u: Json): Option<Exc>
  {
    if !u.Obj? then Some(AttributeError)
    else match s
      case Overlay(k) => if Lookup(u.fields, k, Empty).Obj? then None else Some(TypeError)
      case Replace(_) => None
      case ReplaceUi(_) => if Lookup(u.fields, "ui", Empty).Obj? then None else Some(AttributeError)
  }

  /** The first line's exception, if any line raises. */
  function FirstError(ss: seq<Step>, u: Json): Option<Exc>
    decreases |ss|
  {
    if ss == [] then None
    else if StepError(ss[0], u).Some? then StepError(ss[0], u)
    else FirstError(ss[1..], u)
  }

  /** On a well-shaped configuration a merge line raises what `StepError` says and keeps the shape. */
  lemma ApplyError(s: Step, c: Config, u: Json)
    requires WellShaped(c) && s in MergeSteps
    ensures Apply(s, c, u).Failure? <==> StepError(s, u).Some?
    ensures Apply(s, c, u).Failure? ==> Apply(s, c, u).error == StepError(s, u).value
    ensures Apply(s, c, u).Success? ==> WellShaped(Apply(s, c, u).value)
  {
  }

  /** Merge lines run on a well-shaped configuration stop at the first line `StepError` flags, and keep the shape. */
  lemma {:induction false} RunError(ss: seq<Step>, c: Config, u: Json)
    requires WellShaped(c) && forall i :: 0 <= i < |ss| ==> ss[i] in MergeSteps
    ensures Run(ss, c, u).error == FirstError(ss, u)
    ensures WellShaped(Run(ss, c, u).config)
    decreases |ss|
  {
    if ss != [] {
      ApplyError(ss[0], c, u);
      if Apply(ss[0], c, u).Success? {
        assert forall i :: 0 <= i < |ss[1..]| ==> ss[1..][i] == ss[i + 1];
        RunError(ss[1..], Apply(ss[0], c, u).value, u);
      }
    }
  }

  /** Over the six lines of `load_config`, the first exception is `ExpectedError`. */
  lemma FirstErrorOfMerge(u: Json)
    ensures FirstError(MergeSteps, u) == ExpectedError(u)
  {
    var ss := MergeSteps;
    assert ss[1..] == [Overlay("http"), Replace("max_history"), ReplaceUi("list_columns"), ReplaceUi("detail_headers"), Replace("logging")];
    assert ss[2..] == ss[1..][1..];
    assert ss[3..] == ss[2..][1..];
    assert ss[4..] == ss[3..][1..];
    assert ss[5..] == ss[4..][1..];
    assert ss[6..] == ss[5..][1..] == [];
  }

  /** Steps that each leave `c` as it is make a run that ends on `c` without error. */
  lemma {:induction false} RunFixpoint(ss: seq<Step>, c: Config, u: Json)
    requires forall i :: 0 <= i < |ss| ==> Apply(ss[i], c, u) == Success(c)
    ensures Run(ss, c, u) == Outcome(c, None)
    decreases |ss|
  {
    if ss != [] {
      assert forall i :: 0 <= i < |ss[1..]| ==> ss[1..][i] == ss[i + 1];
      RunFixpoint(ss[1..], c, u);
    }
  }

  /** On a well-shaped configuration, an empty document (`{}`) makes every line a no-op. */
  lemma MergeEmptyChangesNothing(c: Config)
    requires WellShaped(c)
    ensures Run(MergeSteps, c, Empty) == Outcome(c, None)
  {
    forall i | 0 <= i < |MergeSteps| ensures Apply(MergeSteps[i], c, Empty) == Success(c) {
      var s := MergeSteps[i];
      match s
      case Overlay(k) =>
        assert c[k].fields + map[] == c[k].fields;
        assert c[k := c[k]] == c;
      case Replace(k) =>
        assert c[k := c[k]] == c;
      case ReplaceUi(k) =>
        var f := c["ui"].fields;
        assert f[k := f[k]] == f;
        assert c["ui" := Obj(f)] == c;
    }
    RunFixpoint(MergeSteps, c, Empty);
  }

  /** The configuration after merging `u` into `c` once. */
  function Merged(c: Config, u: Json): Config
  {
    Run(MergeSteps, c, u).config
  }

  /** Loading the same document twice gives the same configuration, and the same exception, as loading it once. */
  lemma MergeIdempotent(c: Config, u: Json)
    ensures Run(MergeSteps, Merged(c, u), u) == Run(MergeSteps, c, u)
  {
    MergeStepsIndependent();
    RunIdempotent(MergeSteps, c, u);
  }

  /** User top-level keys other than the five merged sections never appear, and unmerged keys are untouched. */
  lemma MergeKeepsOtherKeys(c: Config, u: Json, k: string)
    requires k !in {"smtp", "http", "max_history", "ui", "logging"}
    ensures Merged(c, u).Keys == c.Keys
    ensures k in c ==> Merged(c, u)[k] == c[k]
  {
    RunKeepsKeys(MergeSteps, c, u);
    forall i | 0 <= i < |MergeSteps| ensures Diverge(Loc(MergeSteps[i]), [k]) {
      assert Loc(MergeSteps[i])[0] != [k][0];
    }
    RunFrame(MergeSteps, c, u, [k]);
  }

  /** The overlay rule for `smtp` and `http`: user keys win, keys the user leaves out are kept. */
  predicate Overlaid(after: Json, before: Json, user: Json)
  {
    && after.Obj? && before.Obj? && user.Obj?
    && after.fields.Keys == before.fields.Keys + user.fields.Keys
    && (forall k :: k in user.fields ==> after.fields[k] == user.fields[k])
    && (forall k :: k in before.fields && k !in user.fields ==> after.fields[k] == before.fields[k])
  }

  /** A single-key path reads the top-level entry. */
  lemma GetTop(c: Config, k: string)
    ensures GetPath(Obj(c), [k]) == if k in c then Success(c[k]) else Failure(KeyError)
  {
    if k in c {
      assert [k][1..] == [];
    }
  }

  /** An overlay that succeeded met two dictionaries. */
  lemma OverlaySucceeded(k: string, c: Config, u: Json)
    requires Apply(Overlay(k), c, u).Success?
    ensures k in c && u.Obj? && c[k].Obj? && Lookup(u.fields, k, Empty).Obj?
    ensures Overlaid(Written(Overlay(k), c[k], u), c[k], Lookup(u.fields, k, Empty))
  {
  }

  /** A merge that raised nothing overlaid `smtp` and `http` with the user's sections. */
  lemma MergeOverlaysSection(c: Config, u: Json, k: string)
    requires k == "smtp" || k == "http"
    requires Run(MergeSteps, c, u).error.None?
    ensures u.Obj? && k in c && Merged(c, u).Keys == c.Keys
    ensures Overlaid(Merged(c, u)[k], c[k], Lookup(u.fields, k, Empty))
  {
    MergeStepsIndependent();
    RunKeepsKeys(MergeSteps, c, u);
    assert Apply(Overlay("smtp"), c, u).Success?;
    var i := 0;
    if k == "smtp" {
      OverlaySucceeded(k, c, u);
    } else {
      i := 1;
      var c1 := Apply(Overlay("smtp"), c, u).value;
      assert Run(MergeSteps[1..], c1, u).error.None?;
      assert Apply(Overlay("http"), c1, u).Success?;
      assert c1["http"] == c["http"];
      OverlaySucceeded(k, c1, u);
    }
    assert MergeSteps[i] == Overlay(k);
    RunWrites(MergeSteps, c, u, i);
    GetTop(c, k);
    GetTop(Merged(c, u), k);
  }

  /** An overlay that gives only a port keeps the old host. */
  lemma OverlayKeepsHost(c: Config, u: map<string, Json>)
    requires WellShaped(c)
    requires c["smtp"].fields.Keys == {"host", "port"}
    requires "smtp" in u && u["smtp"] == Obj(map["port" := Num(2525)]) && "http" !in u && "ui" !in u
    ensures WellShaped(Merged(c, Obj(u)))
    ensures Merged(c, Obj(u))["smtp"] == Obj(map["host" := c["smtp"].fields["host"], "port" := Num(2525)])
  {
    MergeError(c, Obj(u));
    MergeOverlaysSection(c, Obj(u), "smtp");
    assert Lookup(u, "smtp", Empty) == Obj(map["port" := Num(2525)]);
    OverlaidPort(Merged(c, Obj(u))["smtp"], c["smtp"], Num(2525));
  }

  /** Overlaying a host-and-port section with a port alone keeps the host. */
  lemma OverlaidPort(after: Json, before: Json, port: Json)
    requires Overlaid(after, before, Obj(map["port" := port]))
    requires before.fields.Keys == {"host", "port"}
    ensures after == Obj(map["host" := before.fields["host"], "port" := port])
  {
    var user := map["port" := port];
    assert "port" in user && "host" !in user;
    assert after.fields.Keys == {"host", "port"};
    assert after.fields == map["host" := before.fields["host"], "port" := port];
  }

  /** A merge that raised nothing replaced `max_history` and `logging` by the user's values where given. */
  lemma MergeReplacesValues(c: Config, u: Json)
    requires Run(MergeSteps, c, u).error.None?
    ensures Merged(c, u).Keys == c.Keys
    ensures u.Obj? && "max_history" in c && "logging" in c
    ensures Merged(c, u)["max_history"] == Lookup(u.fields, "max_history", c["max_history"])
    ensures Merged(c, u)["logging"] == Lookup(u.fields, "logging", c["logging"])
  {
    MergeStepsIndependent();
    RunKeepsKeys(MergeSteps, c, u);
    var ss := MergeSteps;
    assert Apply(ss[0], c, u).Success?;
    RunWrites(ss, c, u, 2);
    RunWrites(ss, c, u, 5);
    assert Loc(ss[2]) == ["max_history"] && Loc(ss[5]) == ["logging"];
  }

  /** `["ui", k]` for a key other than the two merged ones is assigned by no step. */
  lemma UiKeyUnassigned(k: string)
    requires k != "list_columns" && k != "detail_headers"
    ensures forall i :: 0 <= i < |MergeSteps| ==> Diverge(Loc(MergeSteps[i]), ["ui", k])
  {
    var ss := MergeSteps;
    forall i | 0 <= i < |ss| ensures Diverge(Loc(ss[i]), ["ui", k]) {
      if i == 3 || i == 4 {
        assert Loc(ss[i])[1] != ["ui", k][1];
      } else {
        assert "ui"[0] == 'u' && "smtp"[0] == 's' && "http"[0] == 'h' && "max_history"[0] == 'm' && "logging"[0] == 'l';
        assert Loc(ss[i])[0] != ["ui", k][0];
      }
    }
  }

  /** Whatever the outcome, a `ui` key other than the two merged ones is as it was, present or absent. */
  lemma MergeKeepsOtherUiKeys(c: Config, u: Json, k: string)
    requires WellShaped(c) && k != "list_columns" && k != "detail_headers"
    ensures WellShaped(Merged(c, u))
    ensures k in Merged(c, u)["ui"].fields <==> k in c["ui"].fields
    ensures k in c["ui"].fields ==> Merged(c, u)["ui"].fields[k] == c["ui"].fields[k]
  {
    MergeError(c, u);
    var r := Merged(c, u);
    UiKeyUnassigned(k);
    RunFrame(MergeSteps, c, u, ["ui", k]);
    assert GetPath(Obj(r), ["ui", k]) == GetPath(r["ui"], [k]);
    assert GetPath(Obj(c), ["ui", k]) == GetPath(c["ui"], [k]);
  }

  /** A two-key path reads an entry of a top-level dictionary. */
  lemma GetNested(c: Config, k1: string, k2: string)
    ensures GetPath(Obj(c), [k1, k2]).Success? <==> k1 in c && c[k1].Obj? && k2 in c[k1].fields
    ensures GetPath(Obj(c), [k1, k2]).Success? ==> GetPath(Obj(c), [k1, k2]).value == c[k1].fields[k2]
  {
    if k1 in c {
      assert [k1, k2][1..] == [k2] && [k2][1..] == [];
      assert GetPath(Obj(c), [k1, k2]) == GetPath(c[k1], [k2]);
      if c[k1].Obj? && k2 in c[k1].fields {
        assert GetPath(c[k1], [k2]) == GetPath(c[k1].fields[k2], []);
      }
    }
  }

  /** A merge that raised nothing got past both `ui` lines, so the user's `ui` is a dictionary. */
  lemma MergeMetUiDictionary(c: Config, u: Json)
    requires Run(MergeSteps, c, u).error.None?
    ensures u.Obj? && Lookup(u.fields, "ui", Empty).Obj?
  {
    var ss := MergeSteps;
    var c1 := Apply(ss[0], c, u).value;
    assert ss[1..] == [Overlay("http"), Replace("max_history"), ReplaceUi("list_columns"), ReplaceUi("detail_headers"), Replace("logging")];
    var c2 := Apply(ss[1], c1, u).value;
    assert ss[2..] == ss[1..][1..];
    var c3 := Apply(ss[2], c2, u).value;
    assert ss[3..] == ss[2..][1..];
    assert Apply(ReplaceUi("list_columns"), c3, u).Success?;
  }

  /**
   * A merge that raised nothing replaced `ui.list_columns` and
   * `ui.detail_headers` by the user's values where given and kept them otherwise.
   */
  lemma MergeReplacesUiValue(c: Config, u: Json, k: string)
    requires k == "list_columns" || k == "detail_headers"
    requires Run(MergeSteps, c, u).error.None?
    ensures u.Obj? && Lookup(u.fields, "ui", Empty).Obj?
    ensures Merged(c, u).Keys == c.Keys
    ensures "ui" in c && c["ui"].Obj? && k in c["ui"].fields
    ensures Merged(c, u)["ui"].Obj? && k in Merged(c, u)["ui"].fields
    ensures Merged(c, u)["ui"].fields[k] == Lookup(Lookup(u.fields, "ui", Empty).fields, k, c["ui"].fields[k])
  {
    MergeStepsIndependent();
    RunKeepsKeys(MergeSteps, c, u);
    MergeMetUiDictionary(c, u);
    var i := if k == "list_columns" then 3 else 4;
    assert MergeSteps[i] == ReplaceUi(k);
    RunWrites(MergeSteps, c, u, i);
    GetNested(c, "ui", k);
    GetNested(Merged(c, u), "ui", k);
  }

  /** The configuration file as the `open` and `json.load` calls see it. */
  datatype FileInput = Missing | Unreadable | Malformed | Loaded(document: Json)

  /** What `load_config` prints, in the model: that the file could not be used, or the exception the merge raised. */
  datatype Report = CouldNotLoad | MergeFailed(error: Exc)

  /** `CONFIG` after `load_config`: merged with the document when there is one, as it was otherwise. */
  function AfterLoad(c: Config, file: FileInput): Config
  {
    match file
    case Loaded(u) => Merged(c, u)
    case _ => c
  }

  /** Loading the same file twice is loading it once; a file that cannot be used changes nothing. */
  lemma LoadIdempotent(c: Config, file: FileInput)
    ensures AfterLoad(AfterLoad(c, file), file) == AfterLoad(c, file)
    ensures !file.Loaded? ==> AfterLoad(c, file) == c
  {
    if file.Loaded? {
      MergeIdempotent(c, file.document);
    }
  }

  /** Loading keeps a well-shaped configuration well shaped, and never adds a top-level key. */
  lemma LoadKeepsShape(c: Config, file: FileInput)
    requires WellShaped(c)
    ensures WellShaped(AfterLoad(c, file))
    ensures AfterLoad(c, file).Keys == c.Keys
  {
    if file.Loaded? {
      MergeError(c, file.document);
      RunKeepsKeys(MergeSteps, c, file.document);
    }
  }

  /**
   * The global `CONFIG`, shared by the configuration loader and the
   * command line.
   */
  class Settings {
    var config: Config

    constructor (defaults: Config)
      ensures config == defaults
    {
      config := defaults;
    }

    /** The six merge lines, in order, each assigning into `config` as soon as it has run. */
    method Merge(u: Json) returns (error: Option<Exc>)
      modifies this`config
      ensures Outcome(config, error) == Run(MergeSteps, old(config), u)
    {
      ghost var c0 := config;
      assert MergeSteps[1..] == [Overlay("http"), Replace("max_history"), ReplaceUi("list_columns"), ReplaceUi("detail_headers"), Replace("logging")];
      assert MergeSteps[2..] == MergeSteps[1..][1..];
      assert MergeSteps[3..] == MergeSteps[2..][1..];
      assert MergeSteps[4..] == MergeSteps[3..][1..];
      assert MergeSteps[5..] == MergeSteps[4..][1..];
      assert MergeSteps[6..] == MergeSteps[5..][1..] == [];
      var r := Apply(Overlay("smtp"), config, u);
      if r.Failure? { return Some(r.error); }
      config := r.value;
      r := Apply(Overlay("http"), config, u);
      if r.Failure? { return Some(r.error); }
      config := r.value;
      r := Apply(Replace("max_history"), config, u);
      if r.Failure? { return Some(r.error); }
      config := r.value;
      r := Apply(ReplaceUi("list_columns"), config, u);
      if r.Failure? { return Some(r.error); }
      config := r.value;
      r := Apply(ReplaceUi("detail_headers"), config, u);
      if r.Failure? { return Some(r.error); }
      config := r.value;
      r := Apply(Replace("logging"), config, u);
      if r.Failure? { return Some(r.error); }
      config := r.value;
      return None;
    }
  }
}
