/**
 * JSON values as Python's `json` module hands them to the configuration code,
 * the exceptions that Python dictionary access raises on them, and nested
 * indexing (`c["a"]["b"]`) and nested item assignment (`c["a"]["b"] = v`).
 */
module JsonValue {
  import opened Wrappers

  /** A parsed JSON document. Floating-point numbers are not modelled. */
  datatype Json =
    | Null
    | Bool(b: bool)
    | Num(n: int)
    | Str(s: string)
    | Arr(items: seq<Json>)
    | Obj(fields: map<string, Json>)

  /** The Python exceptions that the configuration code can raise. */
  datatype Exc = KeyError | TypeError | AttributeError

  /** `d.get(k, default)` on a dictionary. */
  function Lookup(m: map<string, Json>, k: string, default: Json): (r: Json)
    ensures k in m ==> r == m[k]
    ensures k !in m ==> r == default
  {
    if k in m then m[k] else default
  }

  /**
   * `j[p[0]][p[1]]...`: a missing key raises KeyError, indexing anything but
   * a dictionary with a string raises TypeError.
   */
  function GetPath(j: Json, p: seq<string>): Result<Json, Exc>
    decreases |p|
  {
    if p == [] then Success(j)
    else if !j.Obj? then Failure(TypeError)
    else if p[0] !in j.fields then Failure(KeyError)
    else GetPath(j.fields[p[0]], p[1..])
  }

  /**
   * `j[p[0]]...[p[n-2]][p[n-1]] = v`: every step but the last is an index
   * (KeyError or TypeError as in GetPath), the last is an item assignment,
   * which needs a dictionary (TypeError otherwise) and may add the key.
   */
  function SetPath(j: Json, p: seq<string>, v: Json): Result<Json, Exc>
    requires |p| >= 1
    decreases |p|
  {
    if !j.Obj? then Failure(TypeError)
    else if |p| == 1 then Success(Obj(j.fields[p[0] := v]))
    else if p[0] !in j.fields then Failure(KeyError)
    else match SetPath(j.fields[p[0]], p[1..], v)
      case Failure(e) => Failure(e)
      case Success(child) => Success(Obj(j.fields[p[0] := child]))
  }

  /** Two paths part at some position: neither is a prefix of the other. */
  predicate Diverge(p: seq<string>, q: seq<string>)
  {
    exists i :: 0 <= i < |p| && i < |q| && p[i] != q[i]
  }

  /** An assignment succeeds exactly when the parent path leads to a dictionary. */
  lemma {:induction false} SetPathSucceeds(j: Json, p: seq<string>, v: Json)
    requires |p| >= 1
    ensures SetPath(j, p, v).Success? <==>
            (GetPath(j, p[..|p| - 1]).Success? && GetPath(j, p[..|p| - 1]).value.Obj?)
    decreases |p|
  {
    if j.Obj? && |p| > 1 && p[0] in j.fields {
      SetPathSucceeds(j.fields[p[0]], p[1..], v);
      assert p[1..][..|p[1..]| - 1] == p[..|p| - 1][1..];
    }
  }

  /** What was assigned is what is read back, and the result is still a dictionary. */
  lemma {:induction false} GetAfterSet(j: Json, p: seq<string>, v: Json)
    requires |p| >= 1 && SetPath(j, p, v).Success?
    ensures SetPath(j, p, v).value.Obj?
    ensures GetPath(SetPath(j, p, v).value, p) == Success(v)
    decreases |p|
  {
    if |p| > 1 {
      GetAfterSet(j.fields[p[0]], p[1..], v);
    }
  }

  /** An assignment leaves every path that parts from it as it was. */
  lemma {:induction false} GetAfterSetOther(j: Json, p: seq<string>, q: seq<string>, v: Json)
    requires |p| >= 1 && SetPath(j, p, v).Success?
    requires Diverge(p, q)
    ensures GetPath(SetPath(j, p, v).value, q) == GetPath(j, q)
    decreases |p|
  {
    var i :| 0 <= i < |p| && i < |q| && p[i] != q[i];
    if i > 0 {
      assert |p| > 1;
      assert p[1..][i - 1] != q[1..][i - 1];
      GetAfterSetOther(j.fields[p[0]], p[1..], q[1..], v);
    }
  }
}
