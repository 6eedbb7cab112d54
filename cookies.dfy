/** getCookie from the front end's helpers: the value of a named cookie in
    document.cookie, which is passed in as a string. A URIError thrown by
    decodeURIComponent is the Failure result. */
module Cookies {
  import opened Wrappers
  import opened Text
  import opened Uri

  const URI_ERROR := "URIError: URI malformed"

  /** String.prototype.substring(start, end) for non-negative arguments:
      both are clamped to the length and swapped when start > end. */
  function JsSubstring(s: string, start: nat, end: nat): (r: string)
    ensures |r| <= |s|
  {
    var a := if start <= |s| then start else |s|;
    var b := if end <= |s| then end else |s|;
    if a <= b then s[a..b] else s[b..a]
  }

  /** String.prototype.substring(start) for a non-negative start. */
  function JsSuffix(s: string, start: nat): string {
    if start <= |s| then s[start..] else ""
  }

  /** The test of the loop: the trimmed cookie's first |name| + 1 characters are name + '='. */
  predicate MatchesName(cookie: string, name: string) {
    JsSubstring(JsTrim(cookie), 0, |name| + 1) == name + "="
  }

  /** The index of the first cookie that matches, if any. */
  function FirstMatch(cookies: seq<string>, name: string): (k: Option<nat>)
    ensures k.Some? ==> k.value < |cookies| && MatchesName(cookies[k.value], name)
    ensures k.Some? ==> forall j :: 0 <= j < k.value ==> !MatchesName(cookies[j], name)
    ensures k.None? ==> forall j :: 0 <= j < |cookies| ==> !MatchesName(cookies[j], name)
    decreases |cookies|
  {
    if cookies == [] then None
    else if MatchesName(cookies[0], name) then Some(0)
    else
      var rest := cookies[1..];
      assert forall j :: 1 <= j < |cookies| ==> cookies[j] == rest[j - 1];
      match FirstMatch(rest, name)
      case None => None
      case Some(k) => Some(k + 1)
  }

  /** What getCookie returns: null (None) when document.cookie is empty or no
      cookie matches, otherwise the decoded text after `name=` of the first
      match, or the URIError decoding it throws. */
  function CookieValue(documentCookie: string, name: string): Result<Option<string>, string> {
    if documentCookie == "" then Success(None)
    else
      var cookies := Split(documentCookie, ';');
      match FirstMatch(cookies, name)
      case None => Success(None)
      case Some(k) =>
        match DecodeURIComponent(JsSuffix(JsTrim(cookies[k]), |name| + 1))
        case None => Failure(URI_ERROR)
        case Some(v) => Success(Some(v))
  }

  /** getCookie: the loop stops at the first matching cookie. */
  method GetCookie(documentCookie: string, name: string) returns (cookieValue: Result<Option<string>, string>)
    ensures cookieValue == CookieValue(documentCookie, name)
  {
    cookieValue := Success(None);
    if documentCookie != "" {
      var cookies := Split(documentCookie, ';');
      var i := 0;
      while i < |cookies|
        invariant 0 <= i <= |cookies|
        invariant forall j :: 0 <= j < i ==> !MatchesName(cookies[j], name)
        invariant cookieValue == Success(None)
      {
        var cookie := JsTrim(cookies[i]);
        if JsSubstring(cookie, 0, |name| + 1) == name + "=" {
          FirstMatchAt(cookies, name, i);
          var decoded := DecodeURIComponent(JsSuffix(cookie, |name| + 1));
          if decoded.None? {
            return Failure(URI_ERROR);
          }
          cookieValue := Success(Some(decoded.value));
          break;
        }
        i := i + 1;
      }
      if cookieValue == Success(None) {
        NoMatchAt(cookies, name);
      }
    }
  }

  /** The first cookie that matches, after none that did, is FirstMatch's. */
  lemma {:induction false} FirstMatchAt(cookies: seq<string>, name: string, i: nat)
    requires i < |cookies| && MatchesName(cookies[i], name)
    requires forall j :: 0 <= j < i ==> !MatchesName(cookies[j], name)
    ensures FirstMatch(cookies, name) == Some(i)
    decreases i
  {
    if i > 0 {
      FirstMatchAt(cookies[1..], name, i - 1);
    }
  }

  /** No cookie matches: FirstMatch finds none. */
  lemma {:induction false} NoMatchAt(cookies: seq<string>, name: string)
    requires forall j :: 0 <= j < |cookies| ==> !MatchesName(cookies[j], name)
    ensures FirstMatch(cookies, name) == None
    decreases |cookies|
  {
    if cookies != [] {
      NoMatchAt(cookies[1..], name);
    }
  }

  /** The clamped-substring test is exactly "the trimmed cookie starts with name=". */
  lemma MatchesNameIsPrefix(cookie: string, name: string)
    ensures MatchesName(cookie, name) <==> StartsWith(JsTrim(cookie), name + "=")
  {
    var t := JsTrim(cookie);
    if |t| < |name| + 1 {
      assert |JsSubstring(t, 0, |name| + 1)| < |name + "="|;
    }
  }

  /** A cookie whose name merely begins with `name` does not match. */
  lemma LongerNameDoesNotMatch(cookie: string, name: string, c: char, rest: string)
    requires JsTrim(cookie) == name + [c] + rest && c != '='
    ensures !MatchesName(cookie, name)
  {
    MatchesNameIsPrefix(cookie, name);
    assert JsTrim(cookie)[|name|] == c;
    assert (name + "=")[|name|] == '=';
  }

  /** An empty document.cookie gives null for every name. */
  lemma EmptyDocumentHasNoCookie(name: string)
    ensures CookieValue("", name) == Success(None)
  {
  }

  lemma TrimKeeps(s: string)
    requires s != [] ==> !IsJsWhitespace(s[0]) && !IsJsWhitespace(s[|s| - 1])
    ensures JsTrim(s) == s
  {
  }

  /** Every character encodeURIComponent writes is neither ';' nor white space. */
  lemma EncodedCharsAreClean(v: string)
    ensures forall i :: 0 <= i < |EncodeURIComponent(v)| ==>
      EncodeURIComponent(v)[i] != ';' && !IsJsWhitespace(EncodeURIComponent(v)[i])
  {
  }

  lemma NoSeparatorIn(name: string, enc: string)
    requires ';' !in name && ';' !in enc
    ensures ';' !in name + "=" + enc
  {
    var p := name + "=" + enc;
    forall i | 0 <= i < |p|
      ensures p[i] != ';'
    {
      if i < |name| {
        assert p[i] == name[i];
      } else if i > |name| {
        assert p[i] == enc[i - |name| - 1];
      }
    }
  }

  lemma EndsAreNotSpace(name: string, enc: string)
    requires name != [] ==> !IsJsWhitespace(name[0])
    requires forall i :: 0 <= i < |enc| ==> !IsJsWhitespace(enc[i])
    ensures var p := name + "=" + enc; !IsJsWhitespace(p[0]) && !IsJsWhitespace(p[|p| - 1])
  {
    var p := name + "=" + enc;
    assert p[0] == (if name != [] then name[0] else '=');
    if enc != [] {
      assert p[|p| - 1] == enc[|enc| - 1];
    }
  }

  /** `name=<encodeURIComponent(v)>` holds no separator and trims to itself. */
  lemma EncodedCookieIsClean(name: string, v: string)
    requires ';' !in name
    requires name != [] ==> !IsJsWhitespace(name[0])
    ensures ';' !in name + "=" + EncodeURIComponent(v)
    ensures JsTrim(name + "=" + EncodeURIComponent(v)) == name + "=" + EncodeURIComponent(v)
  {
    var enc := EncodeURIComponent(v);
    EncodedCharsAreClean(v);
    assert ';' !in enc;
    NoSeparatorIn(name, enc);
    EndsAreNotSpace(name, enc);
    TrimKeeps(name + "=" + enc);
  }

  /** A clean cookie piece placed first is the first match. */
  lemma CleanPieceMatchesFirst(p: string, name: string, following: string)
    requires ';' !in p && JsTrim(p) == p
    requires |name| + 1 <= |p| && p[..|name| + 1] == name + "="
    ensures Split(p + ";" + following, ';')[0] == p
    ensures FirstMatch(Split(p + ";" + following, ';'), name) == Some(0)
  {
    assert p + ";" + following == p + [';'] + following;
    SplitAfterPiece(p, ';', following);
    MatchesNameIsPrefix(p, name);
  }

  /** A cookie written as `name=<encodeURIComponent(v)>` and placed first is
      read back as v, whatever follows it: later duplicates are ignored. */
  lemma ReadsBackFirstCookie(name: string, v: string, following: string)
    requires ';' !in name
    requires name != [] ==> !IsJsWhitespace(name[0])
    ensures CookieValue(name + "=" + EncodeURIComponent(v) + ";" + following, name) == Success(Some(v))
  {
    var enc := EncodeURIComponent(v);
    var p := name + "=" + enc;
    EncodedCookieIsClean(name, v);
    assert p[..|name| + 1] == name + "=";
    CleanPieceMatchesFirst(p, name, following);
    assert JsSuffix(p, |name| + 1) == enc;
    DecodeEncode(v);
  }
}
