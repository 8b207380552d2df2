/**
 * `urlize_text` (src/mailorca/web.py, identical in mailorca.py): HTML-escape
 * a body, then wrap every match of the regular expression
 * `https?://[^\s]+` in an anchor tag, as `re.sub` does: leftmost matches,
 * scanned from left to right, never overlapping.
 */
module Urlize {
  import opened Wrappers

  // ---------------------------------------------------------------------
  // html.escape(s, quote=True)
  // ---------------------------------------------------------------------

  /** The characters `html.escape` rewrites. */
  predicate IsEscaped(c: char)
  {
    c == '&' || c == '<' || c == '>' || c == '"' || c == '\''
  }

  /** The characters that may not appear outside the inserted tags. */
  predicate IsMarkup(c: char)
  {
    c == '<' || c == '>' || c == '"' || c == '\''
  }

  predicate NoMarkup(s: string)
  {
    forall i :: 0 <= i < |s| ==> !IsMarkup(s[i])
  }

  function EscapeChar(c: char): string
  {
    if c == '&' then "&amp;"
    else if c == '<' then "&lt;"
    else if c == '>' then "&gt;"
    else if c == '"' then "&quot;"
    else if c == '\'' then "&#x27;"
    else [c]
  }

  /**
   * `html.escape(s)`. The library replaces `&` first and then the other
   * four characters, which is the same as rewriting each character on its own.
   */
  function Escape(s: string): string
    decreases |s|
  {
    if s == [] then [] else EscapeChar(s[0]) + Escape(s[1..])
  }

  /** The inverse of `Escape` on the five entities it writes. */
  function Unescape(s: string): string
    decreases |s|
  {
    if s == [] then []
    else if "&amp;" <= s then "&" + Unescape(s[5..])
    else if "&lt;" <= s then "<" + Unescape(s[4..])
    else if "&gt;" <= s then ">" + Unescape(s[4..])
    else if "&quot;" <= s then "\"" + Unescape(s[6..])
    else if "&#x27;" <= s then "'" + Unescape(s[6..])
    else [s[0]] + Unescape(s[1..])
  }

  /** Unescaping undoes the escape of one character, whatever follows it. */
  lemma UnescapeChar(c: char, rest: string)
    ensures Unescape(EscapeChar(c) + rest) == [c] + Unescape(rest)
  {
    var o := EscapeChar(c) + rest;
    if c == '&' {
      assert o[..5] == "&amp;" && o[5..] == rest;
    } else if c == '<' {
      assert o[1] == 'l' && o[..4] == "&lt;" && o[4..] == rest;
    } else if c == '>' {
      assert o[1] == 'g' && o[..4] == "&gt;" && o[4..] == rest;
    } else if c == '"' {
      assert o[1] == 'q' && o[..6] == "&quot;" && o[6..] == rest;
    } else if c == '\'' {
      assert o[1] == '#' && o[..6] == "&#x27;" && o[6..] == rest;
    } else {
      assert o[0] == c && o[1..] == rest;
    }
  }

  /** Escaping loses nothing: unescaping gives the text back. */
  lemma {:induction false} UnescapeEscape(s: string)
    ensures Unescape(Escape(s)) == s
    decreases |s|
  {
    if s != [] {
      UnescapeChar(s[0], Escape(s[1..]));
      UnescapeEscape(s[1..]);
    }
  }

  /** Escaped text holds no `<`, `>`, `"` or `'`. */
  lemma {:induction false} EscapeNoMarkup(s: string)
    ensures NoMarkup(Escape(s))
    decreases |s|
  {
    if s != [] {
      EscapeNoMarkup(s[1..]);
      var e := EscapeChar(s[0]);
      assert NoMarkup(e);
      forall i | 0 <= i < |Escape(s)| ensures !IsMarkup(Escape(s)[i]) {
        if i >= |e| { assert Escape(s)[i] == Escape(s[1..])[i - |e|]; }
      }
    }
  }

  // ---------------------------------------------------------------------
  // The pattern https?://[^\s]+
  // ---------------------------------------------------------------------

  /** `\s` in a Python `str` pattern: the characters for which `str.isspace()` holds. */
  predicate IsSpace(c: char)
  {
    || ('\t' <= c <= '\r')
    || ('\U{1c}' <= c <= ' ')
    || c == '\U{85}' || c == '\U{a0}' || c == '\U{1680}'
    || ('\U{2000}' <= c <= '\U{200a}')
    || c == '\U{2028}' || c == '\U{2029}' || c == '\U{202f}' || c == '\U{205f}' || c == '\U{3000}'
  }

  const Http := "http://"
  const Https := "https://"

  /** The length of the `https?://` a match at the start of `s` begins with, or 0. */
  function SchemeLen(s: string): (k: nat)
    ensures k == 0 || k == 7 || k == 8
    ensures k == 8 <==> Https <= s
    ensures k == 7 <==> Http <= s
  {
    assert Https <= s ==> s[4] == 's';
    if Https <= s then 8 else if Http <= s then 7 else 0
  }

  /** The length of the run of non-whitespace characters `[^\s]+` consumes greedily. */
  function RunLen(t: string): (n: nat)
    ensures n <= |t|
    ensures forall i :: 0 <= i < n ==> !IsSpace(t[i])
    ensures n < |t| ==> IsSpace(t[n])
    decreases |t|
  {
    if t == [] || IsSpace(t[0]) then 0
    else
      var n := RunLen(t[1..]);
      assert forall i :: 1 <= i < n + 1 ==> t[i] == t[1..][i - 1];
      1 + n
  }

  /**
   * The match of `https?://[^\s]+` that starts at the beginning of `s`:
   * the scheme, at least one non-whitespace character, and everything up to
   * the next whitespace or the end.
   */
  function UrlMatch(s: string): (r: Option<nat>)
    ensures r.None? <==> SchemeLen(s) == 0 || |s| == SchemeLen(s) || IsSpace(s[SchemeLen(s)])
    ensures r.Some? ==> && SchemeLen(s) > 0 && SchemeLen(s) < r.value <= |s|
                        && (forall i :: SchemeLen(s) <= i < r.value ==> !IsSpace(s[i]))
                        && (r.value < |s| ==> IsSpace(s[r.value]))
  {
    var k := SchemeLen(s);
    if k == 0 || |s| == k || IsSpace(s[k]) then None
    else
      var n := RunLen(s[k..]);
      assert forall i :: k <= i < k + n ==> s[i] == s[k..][i - k];
      Some(k + n)
  }

  /** A match, cut out of its text, is a whole match on its own. */
  lemma UrlMatchWhole(s: string)
    requires UrlMatch(s).Some?
    ensures UrlMatch(s[..UrlMatch(s).value]) == Some(UrlMatch(s).value)
  {
    var n := UrlMatch(s).value;
    var u := s[..n];
    var k := SchemeLen(s);
    assert Https <= u <==> Https <= s;
    assert Http <= u <==> Http <= s;
    assert SchemeLen(u) == k;
    assert u[k] == s[k];
    assert forall i :: 0 <= i < n - k ==> u[k..][i] == s[k + i];
  }

  // ---------------------------------------------------------------------
  // The substitution
  // ---------------------------------------------------------------------

  const Open := "<a href=\""
  const Mid := "\" target=\"_blank\" rel=\"noopener noreferrer\">"
  const Close := "</a>"

  /** The replacement `re.sub` writes for a match `u`. */
  function Anchor(u: string): string
  {
    Open + u + Mid + u + Close
  }

  /** `re.sub` of `https?://[^\s]+` with `Anchor`, scanning from the left. */
  function Linkify(s: string): string
    decreases |s|
  {
    if s == [] then []
    else match UrlMatch(s)
      case Some(n) => Anchor(s[..n]) + Linkify(s[n..])
      case None => [s[0]] + Linkify(s[1..])
  }

  /** `urlize_text(text)`: empty or missing text gives "", anything else is escaped and linked. */
  function UrlizeText(text: Option<string>): (r: string)
    ensures text.None? || text == Some("") ==> r == ""
  {
    if text.None? || text.value == "" then "" else Linkify(Escape(text.value))
  }

  // ---------------------------------------------------------------------
  // Reading the output back
  // ---------------------------------------------------------------------

  /** The longest prefix without a double quote. */
  function UpToQuote(s: string): (r: string)
    ensures r <= s
    ensures forall i :: 0 <= i < |r| ==> r[i] != '"'
    ensures |r| < |s| ==> s[|r|] == '"'
    decreases |s|
  {
    if s == [] || s[0] == '"' then [] else [s[0]] + UpToQuote(s[1..])
  }

  /** The URL of the anchor `o` starts with, when it starts with one written by `Anchor`. */
  function AnchorAt(o: string): (r: Option<string>)
    ensures r.Some? ==> Anchor(r.value) <= o
  {
    if Open <= o then
      var u := UpToQuote(o[|Open|..]);
      if Anchor(u) <= o then Some(u) else None
    else None
  }

  /** Remove every anchor wrapper, keeping one copy of its URL. */
  function StripLinks(o: string): string
    decreases |o|
  {
    if o == [] then []
    else match AnchorAt(o)
      case Some(u) => u + StripLinks(o[|Anchor(u)|..])
      case None => [o[0]] + StripLinks(o[1..])
  }

  /**
   * The output is plain characters other than `<`, `>`, `"`, `'`, and
   * anchors whose URL is a whole match of the pattern and holds none of them.
   */
  predicate SafeOutput(o: string)
    decreases |o|
  {
    if o == [] then true
    else match AnchorAt(o)
      case Some(u) => NoMarkup(u) && UrlMatch(u) == Some(|u|) && SafeOutput(o[|Anchor(u)|..])
      case None => !IsMarkup(o[0]) && SafeOutput(o[1..])
  }

  lemma AnchorAtAnchor(u: string, rest: string)
    requires NoMarkup(u)
    ensures AnchorAt(Anchor(u) + rest) == Some(u)
  {
    var o := Anchor(u) + rest;
    assert Open <= o;
    var t := o[|Open|..];
    assert t == u + (Mid + u + Close + rest);
    var w := UpToQuote(t);
    assert forall i :: 0 <= i < |u| ==> u[i] != '"' by {
      forall i | 0 <= i < |u| ensures u[i] != '"' { assert !IsMarkup(u[i]); }
    }
    assert forall i :: 0 <= i < |u| ==> t[i] == u[i];
    assert t[|u|] == (Mid + u + Close + rest)[0] == Mid[0] == '"';
    assert w == u;
  }

  /** Both pieces of text without markup are without markup. */
  lemma NoMarkupSplit(s: string, n: nat)
    requires NoMarkup(s) && n <= |s|
    ensures NoMarkup(s[..n]) && NoMarkup(s[n..])
  {
    assert forall i :: 0 <= i < n ==> s[..n][i] == s[i];
    assert forall i :: 0 <= i < |s| - n ==> s[n..][i] == s[n + i];
  }

  /** Stripping an anchor keeps its URL once. */
  lemma StripAnchor(u: string, rest: string)
    requires NoMarkup(u)
    ensures StripLinks(Anchor(u) + rest) == u + StripLinks(rest)
  {
    AnchorAtAnchor(u, rest);
    var o := Anchor(u) + rest;
    assert o[|Anchor(u)|..] == rest;
  }

  /** A character that is not markup cannot start an anchor. */
  lemma PlainNotAnchor(c: char, rest: string)
    requires !IsMarkup(c)
    ensures AnchorAt([c] + rest).None?
  {
    var o := [c] + rest;
    assert Open[0] == '<';
    assert !(Open <= o) by { assert o[0] == c; }
  }

  /** Stripping leaves a plain character where it is. */
  lemma StripPlain(c: char, rest: string)
    requires !IsMarkup(c)
    ensures StripLinks([c] + rest) == [c] + StripLinks(rest)
  {
    PlainNotAnchor(c, rest);
    var o := [c] + rest;
    assert o[1..] == rest;
  }

  /** An anchor around a whole match without markup, followed by safe output, is safe. */
  lemma SafeAnchor(u: string, rest: string)
    requires NoMarkup(u) && UrlMatch(u) == Some(|u|) && SafeOutput(rest)
    ensures SafeOutput(Anchor(u) + rest)
  {
    AnchorAtAnchor(u, rest);
    var o := Anchor(u) + rest;
    assert o[|Anchor(u)|..] == rest;
  }

  /** A plain character that is not markup, followed by safe output, is safe. */
  lemma SafePlain(c: char, rest: string)
    requires !IsMarkup(c) && SafeOutput(rest)
    ensures SafeOutput([c] + rest)
  {
    PlainNotAnchor(c, rest);
    var o := [c] + rest;
    assert o[1..] == rest;
  }

  /** The substitution at a match: the anchor, then the substitution of the rest. */
  lemma LinkifyAnchorStep(s: string, n: nat)
    requires s != [] && UrlMatch(s) == Some(n)
    ensures Linkify(s) == Anchor(s[..n]) + Linkify(s[n..])
  {
  }

  /** The substitution without a match: the first character, then the substitution of the rest. */
  lemma LinkifyPlainStep(s: string)
    requires s != [] && UrlMatch(s).None?
    ensures Linkify(s) == [s[0]] + Linkify(s[1..])
  {
  }

  /** Stripping an anchor followed by output that strips to `rest`. */
  lemma StripAnchorThen(u: string, rest: string, l: string, t: string)
    requires NoMarkup(u) && t == Anchor(u) + l && StripLinks(l) == rest
    ensures StripLinks(t) == u + rest
  {
    StripAnchor(u, l);
  }

  /** Stripping a plain character followed by output that strips to `rest`. */
  lemma StripPlainThen(c: char, rest: string, l: string, t: string)
    requires !IsMarkup(c) && t == [c] + l && StripLinks(l) == rest
    ensures StripLinks(t) == [c] + rest
  {
    StripPlain(c, l);
  }

  /** On text without `<`, `>`, `"` or `'` (which escaped text is), stripping the anchors gives the text back. */
  lemma {:induction false} LinkifyReadsBack(s: string)
    requires NoMarkup(s)
    ensures StripLinks(Linkify(s)) == s
    decreases |s|
  {
    if s != [] {
      if UrlMatch(s).Some? {
        var n := UrlMatch(s).value;
        NoMarkupSplit(s, n);
        LinkifyReadsBack(s[n..]);
        LinkifyAnchorStep(s, n);
        StripAnchorThen(s[..n], s[n..], Linkify(s[n..]), Linkify(s));
        assert s[..n] + s[n..] == s;
      } else {
        NoMarkupSplit(s, 1);
        LinkifyReadsBack(s[1..]);
        LinkifyPlainStep(s);
        assert !IsMarkup(s[0]);
        StripPlainThen(s[0], s[1..], Linkify(s[1..]), Linkify(s));
        assert [s[0]] + s[1..] == s;
      }
    }
  }

  /** On text without markup the output is safe: plain characters and anchors around whole matches. */
  lemma {:induction false} LinkifySafe(s: string)
    requires NoMarkup(s)
    ensures SafeOutput(Linkify(s))
    decreases |s|
  {
    if s != [] {
      if UrlMatch(s).Some? {
        var n := UrlMatch(s).value;
        LinkifyAnchorStep(s, n);
        NoMarkupSplit(s, n);
        LinkifySafe(s[n..]);
        UrlMatchWhole(s);
        SafeAnchor(s[..n], Linkify(s[n..]));
      } else {
        LinkifyPlainStep(s);
        NoMarkupSplit(s, 1);
        LinkifySafe(s[1..]);
        assert !IsMarkup(s[0]);
        SafePlain(s[0], Linkify(s[1..]));
      }
    }
  }

  /**
   * The matches `re.sub` replaces, as an independent list: the leftmost
   * match, then the matches of what follows it, never overlapping.
   */
  function Matches(s: string): seq<string>
    decreases |s|
  {
    if s == [] then []
    else match UrlMatch(s)
      case Some(n) => [s[..n]] + Matches(s[n..])
      case None => Matches(s[1..])
  }

  /** The URLs of the anchors in the output, read back from left to right. */
  function Urls(o: string): seq<string>
    decreases |o|
  {
    if o == [] then []
    else match AnchorAt(o)
      case Some(u) => [u] + Urls(o[|Anchor(u)|..])
      case None => Urls(o[1..])
  }

  /** An anchor is read back as its URL. */
  lemma UrlsAnchorThen(u: string, rest: seq<string>, l: string, t: string)
    requires NoMarkup(u) && t == Anchor(u) + l && Urls(l) == rest
    ensures Urls(t) == [u] + rest
  {
    AnchorAtAnchor(u, l);
    assert t[|Anchor(u)|..] == l;
  }

  /** A plain character is not read back as a URL. */
  lemma UrlsPlainThen(c: char, rest: seq<string>, l: string, t: string)
    requires !IsMarkup(c) && t == [c] + l && Urls(l) == rest
    ensures Urls(t) == rest
  {
    PlainNotAnchor(c, l);
    assert t[1..] == l;
  }

  /** On text without markup, the anchors of the output wrap exactly the matches, in order. */
  lemma {:induction false} LinkifyUrls(s: string)
    requires NoMarkup(s)
    ensures Urls(Linkify(s)) == Matches(s)
    decreases |s|
  {
    if s != [] {
      if UrlMatch(s).Some? {
        var n := UrlMatch(s).value;
        NoMarkupSplit(s, n);
        LinkifyUrls(s[n..]);
        LinkifyAnchorStep(s, n);
        UrlsAnchorThen(s[..n], Matches(s[n..]), Linkify(s[n..]), Linkify(s));
      } else {
        NoMarkupSplit(s, 1);
        LinkifyUrls(s[1..]);
        LinkifyPlainStep(s);
        assert !IsMarkup(s[0]);
        UrlsPlainThen(s[0], Matches(s[1..]), Linkify(s[1..]), Linkify(s));
      }
    }
  }

  /** Every listed match is a whole match of the pattern, taken from the text. */
  lemma {:induction false} MatchesAreMatches(s: string)
    ensures forall i :: 0 <= i < |Matches(s)| ==>
              UrlMatch(Matches(s)[i]) == Some(|Matches(s)[i]|) && Matches(s)[i] != []
    decreases |s|
  {
    if s != [] {
      match UrlMatch(s)
      case Some(n) =>
        MatchesAreMatches(s[n..]);
        UrlMatchWhole(s);
        var ms := Matches(s);
        assert ms == [s[..n]] + Matches(s[n..]);
        assert forall i :: 1 <= i < |ms| ==> ms[i] == Matches(s[n..])[i - 1];
      case None =>
        MatchesAreMatches(s[1..]);
    }
  }

  /** A text in which the pattern matches anywhere yields at least one match. */
  lemma {:induction false} MatchesFindsUrl(s: string, i: nat)
    requires i < |s| && UrlMatch(s[i..]).Some?
    ensures |Matches(s)| >= 1
    decreases i
  {
    if UrlMatch(s).None? {
      assert i != 0 by { assert s[0..] == s; }
      assert s[1..][i - 1..] == s[i..];
      MatchesFindsUrl(s[1..], i - 1);
    }
  }

  /**
   * `urlize_text` wraps every match of the escaped body, in order, in an
   * anchor, and a body in which a URL occurs gets at least one anchor.
   */
  lemma UrlizeLinksUrls(t: string)
    ensures Urls(UrlizeText(Some(t))) == Matches(Escape(t))
    ensures forall i :: 0 <= i < |Escape(t)| && UrlMatch(Escape(t)[i..]).Some? ==> |Urls(UrlizeText(Some(t)))| >= 1
  {
    EscapeNoMarkup(t);
    if t == [] {
      assert Escape(t) == [];
    } else {
      LinkifyUrls(Escape(t));
      forall i | 0 <= i < |Escape(t)| && UrlMatch(Escape(t)[i..]).Some?
        ensures |Urls(UrlizeText(Some(t)))| >= 1
      {
        MatchesFindsUrl(Escape(t), i);
      }
    }
  }

  /** No match anywhere in the text. */
  predicate NoUrl(s: string)
  {
    forall i :: 0 <= i < |s| ==> UrlMatch(s[i..]).None?
  }

  /** Without a match the substitution changes nothing. */
  lemma {:induction false} LinkifyNoUrl(s: string)
    requires NoUrl(s)
    ensures Linkify(s) == s
    decreases |s|
  {
    if s != [] {
      assert UrlMatch(s[0..]).None? && s[0..] == s;
      forall i | 0 <= i < |s[1..]| ensures UrlMatch(s[1..][i..]).None? {
        assert s[1..][i..] == s[i + 1..];
      }
      LinkifyNoUrl(s[1..]);
    }
  }

  /** Stripping the inserted anchors from `urlize_text(t)` gives `html.escape(t)`, which unescapes to `t`. */
  lemma UrlizeReadsBack(t: string)
    ensures StripLinks(UrlizeText(Some(t))) == Escape(t)
    ensures Unescape(StripLinks(UrlizeText(Some(t)))) == t
  {
    EscapeNoMarkup(t);
    LinkifyReadsBack(Escape(t));
    UnescapeEscape(t);
  }

  /** Outside the inserted tags `urlize_text` never emits a raw `<`, `>`, `"` or `'`. */
  lemma UrlizeSafe(text: Option<string>)
    ensures SafeOutput(UrlizeText(text))
  {
    if text.Some? && text.value != "" {
      EscapeNoMarkup(text.value);
      LinkifySafe(Escape(text.value));
    }
  }

  /** When the escaped text holds no match, `urlize_text` is `html.escape`. */
  lemma UrlizeWithoutUrl(t: string)
    requires NoUrl(Escape(t))
    ensures UrlizeText(Some(t)) == Escape(t)
  {
    LinkifyNoUrl(Escape(t));
  }
}
