/**
 * `MailStore` (src/mailorca/store.py, identical in mailorca.py): a
 * newest-first list of captured messages, cut down to `max_history`
 * entries after every insertion, searched by id.
 *
 * `uuid.uuid4()` and `time.time()` are not modelled: `Add` receives the id
 * (required to be unused, which is what a random 128-bit identifier gives)
 * and the timestamp as parameters.
 */
module Store {
  import opened Wrappers
  import opened MailParse

  /** Seconds since the epoch, as `time.time()` reports them; never inspected. */
  type Timestamp = real

  /** One stored entry: `{"id", "timestamp", "raw", "parsed"}`. */
  datatype Record = Record(id: string, timestamp: Timestamp, raw: Bytes, parsed: Parsed)

  function Min(a: int, b: int): int { if a < b then a else b }
  function Max(a: int, b: int): int { if a < b then b else a }

  /** `s[:n]` on a Python list: a prefix, and a negative `n` counts from the end. */
  function PyTake<T>(s: seq<T>, n: int): (r: seq<T>)
    ensures r <= s
    ensures |r| == if n >= 0 then Min(n, |s|) else Max(0, |s| + n)
  {
    if n >= 0 then s[..Min(n, |s|)] else s[..Max(0, |s| + n)]
  }

  /** The list after `add` inserted `rec`: prepend, then slice when too long. */
  function Added(mails: seq<Record>, rec: Record, maxHistory: int): seq<Record>
  {
    var m := [rec] + mails;
    if |m| > maxHistory then PyTake(m, maxHistory) else m
  }

  /** The new record comes first and the old ones follow in their old order, the oldest cut. */
  lemma AddPrepends(mails: seq<Record>, rec: Record, maxHistory: int)
    requires maxHistory >= 1
    ensures |Added(mails, rec, maxHistory)| >= 1 && Added(mails, rec, maxHistory)[0] == rec
    ensures Added(mails, rec, maxHistory)[1..] == mails[..Min(|mails|, maxHistory - 1)]
  {
    var m := [rec] + mails;
    assert m[1..] == mails;
    if |m| > maxHistory {
      assert PyTake(m, maxHistory) == m[..maxHistory];
      assert m[..maxHistory][1..] == mails[..maxHistory - 1];
    }
  }

  /**
   * With a positive capacity the length becomes min(old + 1, capacity),
   * even when the list was over capacity before: one slice removes all excess.
   */
  lemma AddLength(mails: seq<Record>, rec: Record, maxHistory: int)
    requires maxHistory >= 1
    ensures |Added(mails, rec, maxHistory)| == Min(|mails| + 1, maxHistory)
  {
  }

  /**
   * A capacity of zero empties the list; a negative capacity `-k` slices
   * `k` entries off the end, so the new record survives only when more
   * than `k` entries were there.
   */
  lemma AddNonPositiveCapacity(mails: seq<Record>, rec: Record, maxHistory: int)
    requires maxHistory <= 0
    ensures maxHistory == 0 ==> Added(mails, rec, maxHistory) == []
    ensures maxHistory < 0 ==> |Added(mails, rec, maxHistory)| == Max(0, |mails| + 1 + maxHistory)
    ensures Added(mails, rec, maxHistory) <= [rec] + mails
  {
  }

  /** The list after adding `recs` one after the other, starting from `mails`. */
  function AddedAll(mails: seq<Record>, recs: seq<Record>, maxHistory: int): seq<Record>
    decreases |recs|
  {
    if recs == [] then mails
    else Added(AddedAll(mails, recs[..|recs| - 1], maxHistory), recs[|recs| - 1], maxHistory)
  }

  /** `recs` newest first. */
  function Reversed(recs: seq<Record>): (r: seq<Record>)
    ensures |r| == |recs|
    ensures forall i :: 0 <= i < |recs| ==> r[i] == recs[|recs| - 1 - i]
  {
    seq(|recs|, i requires 0 <= i < |recs| => recs[|recs| - 1 - i])
  }

  /**
   * Starting empty with capacity N, after M additions the store holds the
   * last min(M, N) records, newest first.
   */
  lemma {:induction false} AddedAllKeepsLast(recs: seq<Record>, n: nat)
    ensures AddedAll([], recs, n) == Reversed(recs)[..Min(|recs|, n)]
    decreases |recs|
  {
    if recs != [] {
      var init := recs[..|recs| - 1];
      var last := recs[|recs| - 1];
      AddedAllKeepsLast(init, n);
      var before := Reversed(init)[..Min(|init|, n)];
      var m := [last] + before;
      assert forall i :: 0 <= i < |m| ==> m[i] == Reversed(recs)[i];
      if |m| > n {
        assert Added(before, last, n) == m[..n];
      }
    }
  }

  /**
   * `get`: the first record whose id matches, or None when no record has
   * that id.
   */
  function FindById(mails: seq<Record>, id: string): (r: Option<Record>)
    ensures r.None? <==> forall i :: 0 <= i < |mails| ==> mails[i].id != id
    ensures r.Some? ==> exists i :: 0 <= i < |mails| && mails[i] == r.value && r.value.id == id &&
                          forall j :: 0 <= j < i ==> mails[j].id != id
    decreases |mails|
  {
    if mails == [] then None
    else if mails[0].id == id then Some(mails[0])
    else
      var r := FindById(mails[1..], id);
      assert forall i :: 1 <= i < |mails| ==> mails[i] == mails[1..][i - 1];
      r
  }

  /** A record found in a prefix is the one found in the whole list. */
  lemma {:induction false} FindInPrefix(pre: seq<Record>, mails: seq<Record>, id: string)
    requires pre <= mails && FindById(pre, id).Some?
    ensures FindById(mails, id) == FindById(pre, id)
    decreases |pre|
  {
    if pre[0].id != id {
      assert pre[1..] <= mails[1..];
      FindInPrefix(pre[1..], mails[1..], id);
    }
  }

  /** Right after `add` with a positive capacity, `get` on the new id returns the new record. */
  lemma FindAfterAdd(mails: seq<Record>, rec: Record, maxHistory: int)
    requires maxHistory >= 1
    ensures FindById(Added(mails, rec, maxHistory), rec.id) == Some(rec)
  {
    AddPrepends(mails, rec, maxHistory);
  }

  /** `add` never makes `get` return a different older record: other ids are found as before, or are evicted. */
  lemma FindOtherAfterAdd(mails: seq<Record>, rec: Record, maxHistory: int, id: string)
    requires id != rec.id
    ensures FindById(Added(mails, rec, maxHistory), id).Some? ==>
              FindById(Added(mails, rec, maxHistory), id) == FindById(mails, id)
  {
    var after := Added(mails, rec, maxHistory);
    var m := [rec] + mails;
    assert after <= m;
    if FindById(after, id).Some? {
      FindInPrefix(after, m, id);
      assert m[1..] == mails;
    }
  }

  /** The ids of the stored records are pairwise distinct. */
  ghost predicate UniqueIds(mails: seq<Record>)
  {
    forall i, j :: 0 <= i < j < |mails| ==> mails[i].id != mails[j].id
  }

  predicate IdInUse(mails: seq<Record>, id: string)
  {
    exists i :: 0 <= i < |mails| && mails[i].id == id
  }

  /** Adding a record with a fresh id keeps the ids distinct. */
  lemma AddKeepsIdsUnique(mails: seq<Record>, rec: Record, maxHistory: int)
    requires UniqueIds(mails) && !IdInUse(mails, rec.id)
    ensures UniqueIds(Added(mails, rec, maxHistory))
  {
    var m := [rec] + mails;
    assert UniqueIds(m) by {
      forall i, j | 0 <= i < j < |m| ensures m[i].id != m[j].id {
        if i == 0 { assert m[j] == mails[j - 1]; } else { assert m[i] == mails[i - 1] && m[j] == mails[j - 1]; }
      }
    }
    var after := Added(mails, rec, maxHistory);
    assert after <= m;
    forall i, j | 0 <= i < j < |after| ensures after[i].id != after[j].id {
      assert after[i] == m[i] && after[j] == m[j];
    }
  }

  /** With distinct ids, the record `get` finds is the only one with its id. */
  lemma FindUnique(mails: seq<Record>, id: string)
    requires FindById(mails, id).Some?
    ensures UniqueIds(mails) ==>
              forall j :: 0 <= j < |mails| && mails[j].id == id ==> mails[j] == FindById(mails, id).value
  {
    if UniqueIds(mails) {
      var i :| 0 <= i < |mails| && mails[i] == FindById(mails, id).value && mails[i].id == id;
      forall j | 0 <= j < |mails| && mails[j].id == id ensures mails[j] == mails[i] {
        assert j == i;
      }
    }
  }

  class MailStore {
    /** `self.mails`, newest first. */
    var mails: seq<Record>
    /** `self.max_history`: a public attribute that callers (the tests) may lower. */
    var maxHistory: int
    /** The email library the store parses with. */
    const decoders: Decoders

    ghost predicate Valid()
      reads this
    {
      UniqueIds(mails)
    }

    constructor (maxHistory: int, decoders: Decoders)
      ensures Valid()
      ensures mails == [] && this.maxHistory == maxHistory && this.decoders == decoders
    {
      mails := [];
      this.maxHistory := maxHistory;
      this.decoders := decoders;
    }

    /** The record `add(raw)` builds for a given id and timestamp. */
    function Entry(id: string, timestamp: Timestamp, raw: Bytes): (r: Record)
      ensures r.id == id && r.timestamp == timestamp && r.raw == raw
      ensures r.parsed == ParsedOf(decoders, raw)
    {
      Record(id, timestamp, raw, ParsedOf(decoders, raw))
    }

    /**
     * `add`: parse `raw`, prepend the record, slice to `max_history`. The
     * record keeps `raw` byte for byte and is parsed from that same buffer.
     */
    method Add(raw: Bytes, id: string, timestamp: Timestamp)
      requires Valid() && !IdInUse(mails, id)
      modifies this`mails
      ensures Valid()
      ensures mails == Added(old(mails), Entry(id, timestamp, raw), maxHistory)
    {
      var parsed := ParseEmail(decoders, raw);
      var entry := Record(id, timestamp, raw, parsed);
      AddKeepsIdsUnique(mails, entry, maxHistory);
      mails := [entry] + mails;
      if |mails| > maxHistory {
        mails := PyTake(mails, maxHistory);
      }
    }

    /**
     * `get`: a linear search that returns the first match and changes
     * nothing. Because the ids are distinct, that match is the only record
     * with the id.
     */
    method Get(id: string) returns (r: Option<Record>)
      ensures r == FindById(mails, id)
      ensures Valid() && r.Some? ==> forall j :: 0 <= j < |mails| && mails[j].id == id ==> mails[j] == r.value
    {
      var i := 0;
      while i < |mails|
        invariant 0 <= i <= |mails|
        invariant forall j :: 0 <= j < i ==> mails[j].id != id
      {
        if mails[i].id == id {
          FindUnique(mails, id);
          return Some(mails[i]);
        }
        i := i + 1;
      }
      return None;
    }
  }
}
