/**
 * The parsing half of `MailStore._parse_email` (src/mailorca/store.py,
 * identical in mailorca.py): grouping the headers of a parsed message by
 * name and picking the first text/plain and text/html bodies.
 *
 * Python's email library is foreign code: its parse of the raw bytes, the
 * RFC 2047 encoded-word decoder behind `make_header(decode_header(v))` and
 * the codec registry behind `bytes.decode` are supplied as total functions
 * in a `Decoders` value, and only the rules around them are modelled.
 */
module MailParse {
  import opened Wrappers

  newtype byte = x: int | 0 <= x < 256
  type Bytes = seq<byte>

  /** One header line as the library keeps it: the name in its source spelling and the value. */
  datatype Header = Header(name: string, value: string)

  /**
   * A leaf of the message as `part.get_content_type()`,
   * `part.get_content_charset()` and `part.get_payload(decode=True)` report
   * it; a multipart container reports no payload, which is the empty payload here.
   */
  datatype Part = Part(contentType: string, charset: Option<string>, payload: Bytes)

  /** A single-part message is its own leaf; a multipart one is walked in document order. */
  datatype Body = SinglePart(part: Part) | Multipart(walk: seq<Part>)

  datatype Message = Message(headers: seq<Header>, body: Body)

  /**
   * The foreign collaborators:
   *  - `header(v)` is `str(make_header(decode_header(v)))`, or None when it raises;
   *  - `known(cs)` is false when Python has no codec named `cs` (LookupError);
   *  - `decode(cs, b)` is `b.decode(cs, errors="replace")` for a known codec;
   *  - `parse(raw)` is `email.message_from_bytes(raw, policy=policy.default)`.
   */
  datatype Decoders = Decoders(
    header: string -> Option<string>,
    known: string -> bool,
    decode: (string, Bytes) -> string,
    parse: Bytes -> Message)

  /** A header's value: one string, or all of them in source order when the name repeats. */
  datatype HeaderValue = Single(text: string) | Multiple(texts: seq<string>)

  /** The `parsed` part of a stored record. */
  datatype Parsed = Parsed(
    headers: map<string, HeaderValue>,
    bodyText: Option<string>,
    bodyHtml: Option<string>)

  const TextPlain := "text/plain"
  const TextHtml := "text/html"
  const Utf8 := "utf-8"

  // ---------------------------------------------------------------------
  // Header decoding and grouping
  // ---------------------------------------------------------------------

  /** A header value decoded, or the value itself when decoding raises. */
  function DecodeHeader(d: Decoders, v: string): (r: string)
    ensures d.header(v).Some? ==> r == d.header(v).value
    ensures d.header(v).None? ==> r == v
  {
    match d.header(v)
    case Some(h) => h
    case None => v
  }

  function LowerChar(c: char): char
  {
    if 'A' <= c <= 'Z' then (c as int + 32) as char else c
  }

  function Lower(s: string): (r: string)
    ensures |r| == |s|
  {
    seq(|s|, i requires 0 <= i < |s| => LowerChar(s[i]))
  }

  /** `Message.get_all` compares header names case-insensitively. */
  predicate SameName(a: string, b: string)
  {
    Lower(a) == Lower(b)
  }

  /** `set(msg.keys())`: every name, in its source spelling. */
  function Names(hs: seq<Header>): set<string>
  {
    set i | 0 <= i < |hs| :: hs[i].name
  }

  /** `msg.get_all(key)`: the values of every header whose name matches `key`, in source order. */
  function GetAll(hs: seq<Header>, key: string): seq<string>
    decreases |hs|
  {
    if hs == [] then []
    else (if SameName(hs[0].name, key) then [hs[0].value] else []) + GetAll(hs[1..], key)
  }

  function DecodeAll(d: Decoders, vs: seq<string>): (r: seq<string>)
    ensures |r| == |vs|
    ensures forall i :: 0 <= i < |vs| ==> r[i] == DecodeHeader(d, vs[i])
  {
    seq(|vs|, i requires 0 <= i < |vs| => DecodeHeader(d, vs[i]))
  }

  /** One decoded value is kept as a string, any other number as a list. */
  function Group(decoded: seq<string>): HeaderValue
  {
    if |decoded| == 1 then Single(decoded[0]) else Multiple(decoded)
  }

  /** The header table `_parse_email` builds. */
  function GroupedHeaders(d: Decoders, hs: seq<Header>): map<string, HeaderValue>
  {
    map k | k in Names(hs) :: Group(DecodeAll(d, GetAll(hs, k)))
  }

  /** `get_all` keeps source order: it distributes over concatenation. */
  lemma {:induction false} GetAllAppend(a: seq<Header>, b: seq<Header>, key: string)
    ensures GetAll(a + b, key) == GetAll(a, key) + GetAll(b, key)
    decreases |a|
  {
    if a != [] {
      var head := if SameName(a[0].name, key) then [a[0].value] else [];
      assert (a + b)[0] == a[0];
      assert (a + b)[1..] == a[1..] + b;
      GetAllAppend(a[1..], b, key);
      assert GetAll(a + b, key) == head + (GetAll(a[1..], key) + GetAll(b, key));
      assert GetAll(a, key) == head + GetAll(a[1..], key);
    } else {
      assert a + b == b;
    }
  }

  /** `get_all` finds nothing exactly when no header has a matching name. */
  lemma {:induction false} GetAllEmpty(hs: seq<Header>, key: string)
    ensures GetAll(hs, key) == [] <==> forall i :: 0 <= i < |hs| ==> !SameName(hs[i].name, key)
    decreases |hs|
  {
    if hs != [] {
      GetAllEmpty(hs[1..], key);
      assert forall i :: 1 <= i < |hs| ==> hs[i] == hs[1..][i - 1];
    }
  }

  /** Every value `get_all` returns belongs to a header of a matching name, and back. */
  lemma {:induction false} GetAllMembers(hs: seq<Header>, key: string)
    ensures forall i :: 0 <= i < |hs| && SameName(hs[i].name, key) ==> hs[i].value in GetAll(hs, key)
    ensures forall v :: v in GetAll(hs, key) ==>
              exists i :: 0 <= i < |hs| && SameName(hs[i].name, key) && hs[i].value == v
    decreases |hs|
  {
    if hs != [] {
      GetAllMembers(hs[1..], key);
      forall v | v in GetAll(hs, key)
        ensures exists i :: 0 <= i < |hs| && SameName(hs[i].name, key) && hs[i].value == v
      {
        if !(SameName(hs[0].name, key) && hs[0].value == v) {
          var i :| 0 <= i < |hs[1..]| && SameName(hs[1..][i].name, key) && hs[1..][i].value == v;
          assert hs[i + 1] == hs[1..][i];
        }
      }
      forall i | 0 <= i < |hs| && SameName(hs[i].name, key)
        ensures hs[i].value in GetAll(hs, key)
      {
        if i > 0 {
          assert hs[1..][i - 1] == hs[i];
        }
      }
    }
  }

  /** Exactly one header has a name matching `key`. */
  predicate UniqueMatch(hs: seq<Header>, key: string, i: int)
  {
    && 0 <= i < |hs| && SameName(hs[i].name, key)
    && forall j :: 0 <= j < |hs| && j != i ==> !SameName(hs[j].name, key)
  }

  /** Two matching headers give `get_all` at least two values. */
  lemma TwoMatches(hs: seq<Header>, key: string, i: int, j: int)
    requires 0 <= i < j < |hs| && SameName(hs[i].name, key) && SameName(hs[j].name, key)
    ensures |GetAll(hs, key)| >= 2
  {
    assert hs == hs[..j] + hs[j..];
    GetAllAppend(hs[..j], hs[j..], key);
    assert hs[..j][i] == hs[i];
    GetAllEmpty(hs[..j], key);
    assert hs[j..][0] == hs[j];
    GetAllEmpty(hs[j..], key);
  }

  /** `get_all` returns exactly one value when exactly one header has a matching name. */
  lemma GetAllSingle(hs: seq<Header>, key: string)
    ensures |GetAll(hs, key)| == 1 <==> exists i :: UniqueMatch(hs, key, i)
  {
    if |GetAll(hs, key)| == 1 {
      GetAllMembers(hs, key);
      var v := GetAll(hs, key)[0];
      assert v in GetAll(hs, key);
      var i :| 0 <= i < |hs| && SameName(hs[i].name, key) && hs[i].value == v;
      forall j | 0 <= j < |hs| && j != i ensures !SameName(hs[j].name, key) {
        if SameName(hs[j].name, key) {
          if i < j { TwoMatches(hs, key, i, j); } else { TwoMatches(hs, key, j, i); }
        }
      }
      assert UniqueMatch(hs, key, i);
    }
    if i :| UniqueMatch(hs, key, i) {
      assert hs == hs[..i] + [hs[i]] + hs[i + 1..];
      GetAllAppend(hs[..i] + [hs[i]], hs[i + 1..], key);
      GetAllAppend(hs[..i], [hs[i]], key);
      GetAllEmpty(hs[..i], key);
      GetAllEmpty(hs[i + 1..], key);
      assert GetAll([hs[i]], key) == [hs[i].value];
    }
  }

  /** `get_all` depends on the key only through its lower-case form. */
  lemma {:induction false} GetAllIgnoresCase(hs: seq<Header>, k1: string, k2: string)
    requires SameName(k1, k2)
    ensures GetAll(hs, k1) == GetAll(hs, k2)
    decreases |hs|
  {
    if hs != [] {
      GetAllIgnoresCase(hs[1..], k1, k2);
    }
  }

  /** The table has one entry per header name as spelled in the source. */
  lemma HeaderNames(d: Decoders, hs: seq<Header>)
    ensures GroupedHeaders(d, hs).Keys == Names(hs)
    ensures forall i :: 0 <= i < |hs| ==> hs[i].name in GroupedHeaders(d, hs)
  {
  }

  /**
   * A name with exactly one matching header maps to that header's decoded
   * value; any other name present maps to the list of all matching values,
   * decoded, in source order, and that list has at least two entries.
   */
  lemma HeaderGrouping(d: Decoders, hs: seq<Header>, k: string)
    requires k in Names(hs)
    ensures forall i :: UniqueMatch(hs, k, i) ==> GroupedHeaders(d, hs)[k] == Single(DecodeHeader(d, hs[i].value))
    ensures (forall i :: !UniqueMatch(hs, k, i)) ==>
              && GroupedHeaders(d, hs)[k] == Multiple(DecodeAll(d, GetAll(hs, k)))
              && |GroupedHeaders(d, hs)[k].texts| >= 2
  {
    var i0 :| 0 <= i0 < |hs| && hs[i0].name == k;
    assert SameName(hs[i0].name, k);
    GetAllEmpty(hs, k);
    GetAllSingle(hs, k);
    forall i | UniqueMatch(hs, k, i)
      ensures GroupedHeaders(d, hs)[k] == Single(DecodeHeader(d, hs[i].value))
    {
      GetAllMembers(hs, k);
      var v := GetAll(hs, k)[0];
      assert v in GetAll(hs, k);
      var j :| 0 <= j < |hs| && SameName(hs[j].name, k) && hs[j].value == v;
      assert j == i;
    }
  }

  /**
   * Names that differ only in letter case are separate keys, yet both map
   * to the same grouped value, because `get_all` ignores case.
   */
  lemma CaseVariantsShareValue(d: Decoders, hs: seq<Header>, k1: string, k2: string)
    requires k1 in Names(hs) && k2 in Names(hs) && SameName(k1, k2)
    ensures GroupedHeaders(d, hs)[k1] == GroupedHeaders(d, hs)[k2]
  {
    GetAllIgnoresCase(hs, k1, k2);
  }

  /** The inner loop of the header loop: decode each value, falling back to the value itself. */
  method DecodeValues(d: Decoders, values: seq<string>) returns (decoded: seq<string>)
    ensures decoded == DecodeAll(d, values)
  {
    decoded := [];
    for j := 0 to |values|
      invariant |decoded| == j
      invariant forall i :: 0 <= i < j ==> decoded[i] == DecodeHeader(d, values[i])
    {
      var h := d.header(values[j]);
      var text := if h.Some? then h.value else values[j];
      decoded := decoded + [text];
    }
  }

  /**
   * The header loop of `_parse_email`: for each distinct name, decode every
   * value `get_all` returns and store one string or the list.
   */
  method GroupHeaders(d: Decoders, hs: seq<Header>) returns (headers: map<string, HeaderValue>)
    ensures headers == GroupedHeaders(d, hs)
  {
    ghost var spec := GroupedHeaders(d, hs);
    headers := map[];
    var keys := Names(hs);
    while keys != {}
      invariant keys <= spec.Keys
      invariant headers.Keys == spec.Keys - keys
      invariant forall k :: k in headers ==> headers[k] == spec[k]
      decreases |keys|
    {
      var key :| key in keys;
      var decoded := DecodeValues(d, GetAll(hs, key));
      if |decoded| == 1 {
        headers := headers[key := Single(decoded[0])];
      } else {
        headers := headers[key := Multiple(decoded)];
      }
      keys := keys - {key};
    }
  }

  // ---------------------------------------------------------------------
  // Body selection
  // ---------------------------------------------------------------------

  /** The parts `extract_part` sees: the walk of a multipart message, or the message itself. */
  function Walk(m: Message): seq<Part>
  {
    match m.body
    case SinglePart(p) => [p]
    case Multipart(ps) => ps
  }

  /** A part that can supply the body of type `ct`: of that type and with a non-empty payload. */
  predicate Eligible(p: Part, ct: string)
  {
    p.contentType == ct && |p.payload| > 0
  }

  /** `part.get_content_charset() or "utf-8"`: a missing or empty charset means utf-8. */
  function Charset(p: Part): (cs: string)
    ensures cs != ""
    ensures p.charset.Some? && p.charset.value != "" ==> cs == p.charset.value
    ensures p.charset.None? || p.charset.value == "" ==> cs == Utf8
  {
    if p.charset.Some? && p.charset.value != "" then p.charset.value else Utf8
  }

  /** The payload decoded with its charset, or with utf-8 when Python does not know the charset. */
  function DecodePayload(d: Decoders, p: Part): (text: string)
    ensures d.known(Charset(p)) ==> text == d.decode(Charset(p), p.payload)
    ensures !d.known(Charset(p)) ==> text == d.decode(Utf8, p.payload)
  {
    var cs := Charset(p);
    if d.known(cs) then d.decode(cs, p.payload) else d.decode(Utf8, p.payload)
  }

  /**
   * The body of type `ct`: the decoded payload of the FIRST eligible part
   * in walk order, or None when no part is eligible.
   */
  function FirstBody(d: Decoders, parts: seq<Part>, ct: string): Option<string>
    decreases |parts|
  {
    if parts == [] then None
    else if Eligible(parts[0], ct) then Some(DecodePayload(d, parts[0]))
    else FirstBody(d, parts[1..], ct)
  }

  /** `FirstBody` is None exactly when no part is eligible, and otherwise the payload of the first eligible part. */
  lemma {:induction false} FirstBodyIsFirst(d: Decoders, parts: seq<Part>, ct: string)
    ensures FirstBody(d, parts, ct).None? <==> forall i :: 0 <= i < |parts| ==> !Eligible(parts[i], ct)
    ensures FirstBody(d, parts, ct).Some? ==>
              exists i :: 0 <= i < |parts| && Eligible(parts[i], ct) &&
                          (forall j :: 0 <= j < i ==> !Eligible(parts[j], ct)) &&
                          FirstBody(d, parts, ct).value == DecodePayload(d, parts[i])
    decreases |parts|
  {
    if parts != [] && !Eligible(parts[0], ct) {
      FirstBodyIsFirst(d, parts[1..], ct);
      assert forall i :: 1 <= i < |parts| ==> parts[i] == parts[1..][i - 1];
      if FirstBody(d, parts, ct).Some? {
        var k :| 0 <= k < |parts[1..]| && Eligible(parts[1..][k], ct) &&
                 (forall j :: 0 <= j < k ==> !Eligible(parts[1..][j], ct)) &&
                 FirstBody(d, parts[1..], ct).value == DecodePayload(d, parts[1..][k]);
        assert Eligible(parts[k + 1], ct) && forall j :: 0 <= j < k + 1 ==> !Eligible(parts[j], ct);
      }
    } else if parts != [] {
      assert Eligible(parts[0], ct);
    }
  }

  /** Once a body is found, later parts never change it; until then the next eligible part supplies it. */
  lemma {:induction false} FirstBodyAppend(d: Decoders, parts: seq<Part>, p: Part, ct: string)
    ensures FirstBody(d, parts + [p], ct) ==
            if FirstBody(d, parts, ct).Some? then FirstBody(d, parts, ct)
            else if Eligible(p, ct) then Some(DecodePayload(d, p))
            else None
    decreases |parts|
  {
    if parts != [] {
      assert (parts + [p])[1..] == parts[1..] + [p];
      FirstBodyAppend(d, parts[1..], p, ct);
    }
  }

  /** Later parts are ignored: a body found in a prefix of the walk is the body of the whole walk. */
  lemma {:induction false} FirstBodyKeepsFirst(d: Decoders, parts: seq<Part>, more: seq<Part>, ct: string)
    requires FirstBody(d, parts, ct).Some?
    ensures FirstBody(d, parts + more, ct) == FirstBody(d, parts, ct)
    decreases |parts|
  {
    assert parts != [] && (parts + more)[0] == parts[0];
    if !Eligible(parts[0], ct) {
      assert (parts + more)[1..] == parts[1..] + more;
      FirstBodyKeepsFirst(d, parts[1..], more, ct);
    }
  }

  /** One more part of the walk, in terms of the walk's prefixes. */
  lemma FirstBodyStep(d: Decoders, walk: seq<Part>, i: nat, ct: string)
    requires i < |walk|
    ensures FirstBody(d, walk[..i + 1], ct) ==
            if FirstBody(d, walk[..i], ct).Some? then FirstBody(d, walk[..i], ct)
            else if Eligible(walk[i], ct) then Some(DecodePayload(d, walk[i]))
            else None
  {
    assert walk[..i + 1] == walk[..i] + [walk[i]];
    FirstBodyAppend(d, walk[..i], walk[i], ct);
  }

  /** `extract_part`: decode a non-empty payload and keep it if its type has no body yet. */
  method ExtractPart(d: Decoders, part: Part, text0: Option<string>, html0: Option<string>)
    returns (text: Option<string>, html: Option<string>)
    ensures text == if text0.None? && Eligible(part, TextPlain) then Some(DecodePayload(d, part)) else text0
    ensures html == if html0.None? && Eligible(part, TextHtml) then Some(DecodePayload(d, part)) else html0
  {
    text, html := text0, html0;
    if |part.payload| > 0 {
      var charset := Charset(part);
      var decoded: string;
      if d.known(charset) {
        decoded := d.decode(charset, part.payload);
      } else {
        decoded := d.decode(Utf8, part.payload);
      }
      if part.contentType == TextPlain && text.None? {
        text := Some(decoded);
      } else if part.contentType == TextHtml && html.None? {
        html := Some(decoded);
      }
    }
  }

  /** The body half of `_parse_email`: walk the parts and let the first of each type win. */
  method ExtractBodies(d: Decoders, m: Message) returns (text: Option<string>, html: Option<string>)
    ensures text == FirstBody(d, Walk(m), TextPlain)
    ensures html == FirstBody(d, Walk(m), TextHtml)
  {
    text, html := None, None;
    match m.body {
      case SinglePart(p) =>
        text, html := ExtractPart(d, p, text, html);
        FirstBodyAppend(d, [], p, TextPlain);
        FirstBodyAppend(d, [], p, TextHtml);
      case Multipart(walk) =>
        for i := 0 to |walk|
          invariant text == FirstBody(d, walk[..i], TextPlain)
          invariant html == FirstBody(d, walk[..i], TextHtml)
        {
          FirstBodyStep(d, walk, i, TextPlain);
          FirstBodyStep(d, walk, i, TextHtml);
          text, html := ExtractPart(d, walk[i], text, html);
        }
        assert walk[..|walk|] == walk;
    }
  }

  // ---------------------------------------------------------------------
  // The whole parse
  // ---------------------------------------------------------------------

  /** What `_parse_email(raw)` returns. */
  function ParsedOf(d: Decoders, raw: Bytes): Parsed
  {
    var m := d.parse(raw);
    Parsed(GroupedHeaders(d, m.headers), FirstBody(d, Walk(m), TextPlain), FirstBody(d, Walk(m), TextHtml))
  }

  /** `_parse_email`: parse, group the headers, pick the bodies. */
  method ParseEmail(d: Decoders, raw: Bytes) returns (p: Parsed)
    ensures p == ParsedOf(d, raw)
  {
    var msg := d.parse(raw);
    var headers := GroupHeaders(d, msg.headers);
    var text, html := ExtractBodies(d, msg);
    p := Parsed(headers, text, html);
  }
}
