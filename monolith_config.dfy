/**
 * `load_config` of the older single-file mailorca.py: copy `DEFAULT_CONFIG`
 * and `update` the copy with the user's document, a shallow merge in which
 * a user section replaces the default section wholesale. Only a missing
 * file is caught, and then `DEFAULT_CONFIG` itself is returned; any other
 * failure propagates and stops the module from loading.
 */
module Monolith {
  import opened Wrappers
  import opened JsonValue
  import opened ConfigMerge

  /** `DEFAULT_CONFIG`, the same dictionary the root config.py starts from. */
  const DefaultConfig: Config := DefaultsWith(["From", "To", "Cc", "Subject", "Date"], "DEBUG")

  /** The exception that escapes `load_config`. */
  datatype LoadError =
    | OpenFailed      // an OSError other than FileNotFoundError
    | DecodeFailed    // json.JSONDecodeError or UnicodeDecodeError
    | UpdateFailed    // dict.update of something that is not a mapping

  /**
   * One element of an iterable given to `dict.update`, as a key and a value:
   * a two-item list with a string first, or a two-character string.
   */
  function PairOf(item: Json): Option<(string, Json)>
  {
    match item
    case Str(w) => if |w| == 2 then Some(([w[0]], Str([w[1]]))) else None
    case Arr(xs) => if |xs| == 2 && xs[0].Str? then Some((xs[0].s, xs[1])) else None
    case _ => None
  }

  /** `dict.update` with an iterable: assign each pair in order, or fail at an element that is not a pair. */
  function UpdatePairs(c: Config, items: seq<Json>): Option<Config>
    decreases |items|
  {
    if items == [] then Some(c)
    else match PairOf(items[0])
      case None => None
      case Some(kv) => UpdatePairs(c[kv.0 := kv.1], items[1..])
  }

  /** The documents `dict.update` accepts: a JSON object, or an iterable of pairs. */
  predicate Updatable(u: Json)
  {
    || u.Obj?
    || u == Str("")
    || (u.Arr? && forall i :: 0 <= i < |u.items| ==> PairOf(u.items[i]).Some?)
  }

  /** `load_config()`, reading the module's `DEFAULT_CONFIG` as `defaults`. */
  function LoadConfig(defaults: Config, file: FileInput): (r: Result<Config, LoadError>)
    ensures file.Missing? ==> r == Success(defaults)
    ensures r.Failure? <==> (file.Unreadable? || file.Malformed? || (file.Loaded? && !Updatable(file.document)))
  {
    match file
    case Missing => Success(defaults)
    case Unreadable => Failure(OpenFailed)
    case Malformed => Failure(DecodeFailed)
    case Loaded(u) =>
      var config := defaults;
      match u
      case Obj(fields) => Success(config + fields)
      case Str(t) =>
        // iterating a string yields one-character strings, none of them a pair
        if t == "" then Success(config) else Failure(UpdateFailed)
      case Arr(items) =>
        UpdatePairsSucceeds(config, items);
        (match UpdatePairs(config, items)
         case Some(updated) => Success(updated)
         case None => Failure(UpdateFailed))
      case _ => Failure(UpdateFailed)
  }

  /** The pairs update goes through exactly when every element is a pair. */
  lemma {:induction false} UpdatePairsSucceeds(c: Config, items: seq<Json>)
    ensures UpdatePairs(c, items).Some? <==> forall i :: 0 <= i < |items| ==> PairOf(items[i]).Some?
    decreases |items|
  {
    if items != [] {
      var kv := PairOf(items[0]);
      if kv.Some? {
        UpdatePairsSucceeds(c[kv.value.0 := kv.value.1], items[1..]);
        assert forall i :: 1 <= i < |items| ==> items[i] == items[1..][i - 1];
      }
    }
  }

  /** The keys a run of pairs assigns. */
  function PairKeys(items: seq<Json>): set<string>
  {
    set i | 0 <= i < |items| && PairOf(items[i]).Some? :: PairOf(items[i]).value.0
  }

  /**
   * A successful pairs update keeps every old key, adds the keys of the
   * pairs and nothing else, and leaves each key no pair names as it was.
   */
  lemma {:induction false} UpdatePairsKeys(c: Config, items: seq<Json>)
    requires UpdatePairs(c, items).Some?
    ensures UpdatePairs(c, items).value.Keys == c.Keys + PairKeys(items)
    ensures forall k :: k in c && k !in PairKeys(items) ==> UpdatePairs(c, items).value[k] == c[k]
    decreases |items|
  {
    if items != [] {
      var kv := PairOf(items[0]).value;
      UpdatePairsKeys(c[kv.0 := kv.1], items[1..]);
      assert PairKeys(items) == {kv.0} + PairKeys(items[1..]) by {
        forall k | k in PairKeys(items) ensures k in {kv.0} + PairKeys(items[1..]) {
          var i :| 0 <= i < |items| && PairOf(items[i]).Some? && PairOf(items[i]).value.0 == k;
          if i > 0 { assert items[1..][i - 1] == items[i]; }
        }
        forall k | k in PairKeys(items[1..]) ensures k in PairKeys(items) {
          var i :| 0 <= i < |items[1..]| && PairOf(items[1..][i]).Some? && PairOf(items[1..][i]).value.0 == k;
          assert items[i + 1] == items[1..][i];
        }
        assert PairOf(items[0]).value.0 in PairKeys(items);
      }
    }
  }

  /** Among pairs with the same key, the last one's value ends up in the configuration. */
  lemma {:induction false} LastPairWins(c: Config, items: seq<Json>, i: nat)
    requires UpdatePairs(c, items).Some? && i < |items| && PairOf(items[i]).Some?
    requires forall j :: i < j < |items| && PairOf(items[j]).Some? ==> PairOf(items[j]).value.0 != PairOf(items[i]).value.0
    ensures PairOf(items[i]).value.0 in UpdatePairs(c, items).value
    ensures UpdatePairs(c, items).value[PairOf(items[i]).value.0] == PairOf(items[i]).value.1
    decreases i
  {
    var kv := PairOf(items[0]).value;
    var k := PairOf(items[i]).value.0;
    if i == 0 {
      UpdatePairsKeys(c[kv.0 := kv.1], items[1..]);
      assert k !in PairKeys(items[1..]) by {
        forall j | 0 <= j < |items[1..]| && PairOf(items[1..][j]).Some?
          ensures PairOf(items[1..][j]).value.0 != k
        {
          assert items[1..][j] == items[j + 1];
        }
      }
    } else {
      assert items[1..][i - 1] == items[i];
      forall j | i - 1 < j < |items[1..]| && PairOf(items[1..][j]).Some?
        ensures PairOf(items[1..][j]).value.0 != PairOf(items[1..][i - 1]).value.0
      {
        assert items[1..][j] == items[j + 1];
      }
      LastPairWins(c[kv.0 := kv.1], items[1..], i - 1);
    }
  }

  /** An empty string or an empty list updates nothing: the defaults come back as they are. */
  lemma EmptyIterableKeepsDefaults(defaults: Config)
    ensures LoadConfig(defaults, Loaded(Str(""))) == Success(defaults)
    ensures LoadConfig(defaults, Loaded(Arr([]))) == Success(defaults)
  {
  }

  /**
   * The shallow merge: every user top-level key wins, with its whole value,
   * every default key the user leaves out is kept, and nothing else appears.
   */
  lemma ShallowMerge(defaults: Config, user: map<string, Json>)
    ensures LoadConfig(defaults, Loaded(Obj(user))).Success?
    ensures var r := LoadConfig(defaults, Loaded(Obj(user))).value;
            && r.Keys == defaults.Keys + user.Keys
            && (forall k :: k in user ==> r[k] == user[k])
            && (forall k :: k in defaults && k !in user ==> r[k] == defaults[k])
  {
  }

  /** The default `smtp` section, and the facts the merge needs about the defaults. */
  lemma DefaultSmtp()
    ensures WellShaped(DefaultConfig) && "extra" !in DefaultConfig
    ensures DefaultConfig["smtp"].fields.Keys == {"host", "port"}
    ensures DefaultConfig["smtp"] == Obj(map["host" := Str("127.0.0.1"), "port" := Num(1025)])
  {
    DefaultsWellShaped(["From", "To", "Cc", "Subject", "Date"], "DEBUG");
  }

  /** A user document that sets only the SMTP port, and one key the configuration does not know. */
  const PortOnly: map<string, Json> := map["smtp" := Obj(map["port" := Num(2525)]), "extra" := Bool(true)]

  /**
   * The shallow merge with `PortOnly`: the user's `smtp` section replaces
   * the default one, so the default host is gone, and the unknown key is
   * carried into the configuration.
   */
  lemma ShallowDropsNestedDefaults()
    ensures LoadConfig(DefaultConfig, Loaded(Obj(PortOnly))).Success?
    ensures LoadConfig(DefaultConfig, Loaded(Obj(PortOnly))).value["smtp"] == Obj(map["port" := Num(2525)])
    ensures "extra" in LoadConfig(DefaultConfig, Loaded(Obj(PortOnly))).value
  {
    ShallowMerge(DefaultConfig, PortOnly);
  }

  /**
   * The contrast with the shallow merge: the same document under the
   * per-section merge of the later `load_config` (src/mailorca/config.py
   * and the root config.py) keeps the default host and drops the unknown key.
   */
  lemma PerSectionKeepsNestedDefaults()
    ensures WellShaped(Merged(DefaultConfig, Obj(PortOnly)))
    ensures Merged(DefaultConfig, Obj(PortOnly))["smtp"] == Obj(map["host" := Str("127.0.0.1"), "port" := Num(2525)])
    ensures "extra" !in Merged(DefaultConfig, Obj(PortOnly))
  {
    DefaultSmtp();
    OverlayKeepsHost(DefaultConfig, PortOnly);
    MergeKeepsOtherKeys(DefaultConfig, Obj(PortOnly), "extra");
  }
}
