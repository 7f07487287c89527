/** URL classification: the authority (netloc) that Python's `urlparse`
    extracts, the three host tests, and the first-match-wins dispatch that
    `handle_message` performs on an incoming text. */
module Classifier {
  import opened Wrappers
  import opened Text

  // ---------------------------------------------------------------------
  // urlparse(url).netloc, as CPython 3.9 and later compute it

  /** C0 control characters and space, which `urlsplit` strips from the left. */
  predicate IsC0OrSpace(c: char) {
    c <= ' '
  }

  /** Tab, carriage return and line feed, which `urlsplit` deletes anywhere. */
  predicate IsUnsafe(c: char) {
    c == '\t' || c == '\r' || c == '\n'
  }

  function LStripC0(s: string): (r: string)
    ensures |r| <= |s| && r == s[|s| - |r|..]
    ensures forall k :: 0 <= k < |s| - |r| ==> IsC0OrSpace(s[k])
    ensures r == [] || !IsC0OrSpace(r[0])
  {
    if |s| > 0 && IsC0OrSpace(s[0]) then LStripC0(s[1..]) else s
  }

  function RemoveUnsafe(s: string): (r: string)
    ensures |r| <= |s|
    ensures forall k :: 0 <= k < |r| ==> !IsUnsafe(r[k])
  {
    if s == [] then []
    else if IsUnsafe(s[0]) then RemoveUnsafe(s[1..])
    else [s[0]] + RemoveUnsafe(s[1..])
  }

  /** Deleting works character by character: the text of two parts loses
      what each part loses. */
  lemma {:induction false} RemoveUnsafeAppend(a: string, b: string)
    ensures RemoveUnsafe(a + b) == RemoveUnsafe(a) + RemoveUnsafe(b)
  {
    if a == [] {
      assert a + b == b;
    } else {
      assert (a + b)[1..] == a[1..] + b;
      RemoveUnsafeAppend(a[1..], b);
    }
  }

  /** One character is deleted exactly when it is tab, CR or LF. */
  lemma RemoveUnsafeChar(c: char)
    ensures RemoveUnsafe([c]) == if IsUnsafe(c) then [] else [c]
  {
    assert [c][1..] == [];
  }

  predicate IsAsciiAlpha(c: char) {
    ('a' <= c <= 'z') || ('A' <= c <= 'Z')
  }

  /** `urllib.parse.scheme_chars` */
  predicate IsSchemeChar(c: char) {
    IsAsciiAlpha(c) || ('0' <= c <= '9') || c == '+' || c == '-' || c == '.'
  }

  /** What `urlsplit` has left once it has taken off a scheme: the text after
      the first `:` when everything before it is a scheme that starts with an
      ASCII letter, otherwise the whole (sanitised) text. */
  function AfterScheme(u: string): (r: string)
    ensures r == u || (exists i :: 0 < i < |u| && u[i] == ':' && r == u[i + 1..])
  {
    var i := IndexOf(u, ':');
    if 0 < i < |u| && IsAsciiAlpha(u[0]) && (forall k :: 0 <= k < i ==> IsSchemeChar(u[k]))
    then u[i + 1..]
    else u
  }

  /** With its first `:` at `i`, the text loses everything up to that `:`
      exactly when what comes before is a scheme starting with a letter. */
  lemma AfterSchemeAt(u: string, i: nat)
    requires 0 < i < |u| && u[i] == ':'
    requires forall k :: 0 <= k < i ==> u[k] != ':'
    ensures AfterScheme(u)
            == if IsAsciiAlpha(u[0]) && (forall k :: 0 <= k < i ==> IsSchemeChar(u[k])) then u[i + 1..] else u
  {
    var j := IndexOf(u, ':');
    assert j <= i && !(j < i) by {
      assert forall k :: 0 <= k < i ==> u[k] != ':';
    }
  }

  /** Without a `:` past the first character there is no scheme to take off. */
  lemma AfterSchemeKeeps(u: string)
    requires forall k :: 0 < k < |u| ==> u[k] != ':'
    ensures AfterScheme(u) == u
  {
  }

  /** The delimiters that end the authority: section 3.2 of RFC 3986. */
  predicate IsAuthorityEnd(c: char) {
    c == '/' || c == '?' || c == '#'
  }

  /** The longest prefix of `s` free of `/`, `?` and `#`. */
  function Authority(s: string): (a: string)
    ensures StartsWith(s, a)
    ensures forall k :: 0 <= k < |a| ==> !IsAuthorityEnd(a[k])
    ensures |a| < |s| ==> IsAuthorityEnd(s[|a|])
  {
    if s == [] || IsAuthorityEnd(s[0]) then [] else [s[0]] + Authority(s[1..])
  }

  /** True when exactly one of `[` and `]` occurs: `urlsplit` then raises
      `ValueError("Invalid IPv6 URL")`. */
  predicate UnbalancedBrackets(n: string) {
    ('[' in n) != (']' in n)
  }

  /** `urlparse(url).netloc`, or `None` when `urlparse` raises. */
  function Netloc(url: string): (r: Option<string>)
    ensures r.Some? ==> !UnbalancedBrackets(r.value)
  {
    var u := AfterScheme(RemoveUnsafe(LStripC0(url)));
    if StartsWith(u, "//") then
      var n := Authority(u[2..]);
      if UnbalancedBrackets(n) then None else Some(n)
    else Some("")
  }

  /** A text `handle_message` goes on to route. */
  predicate IsWebUrl(s: string) {
    StartsWith(s, "http://") || StartsWith(s, "https://")
  }

  /** The host of an `http://` or `https://` URL is the authority that follows
      the `//`, computed after tab, CR and LF are deleted. */
  lemma NetlocOfWebUrl(url: string)
    requires IsWebUrl(url)
    ensures var scheme := if StartsWith(url, "https://") then "https" else "http";
            var n := Authority(RemoveUnsafe(url[|scheme| + 3..]));
            Netloc(url) == if UnbalancedBrackets(n) then None else Some(n)
  {
    var scheme := if StartsWith(url, "https://") then "https" else "http";
    var rest := url[|scheme| + 3..];
    assert url == scheme + "://" + rest;
    NetlocAfterScheme(scheme, rest);
  }

  lemma NetlocAfterScheme(scheme: string, rest: string)
    requires scheme == "http" || scheme == "https"
    ensures var n := Authority(RemoveUnsafe(rest));
            Netloc(scheme + "://" + rest) == if UnbalancedBrackets(n) then None else Some(n)
  {
    var url := scheme + "://" + rest;
    var r := RemoveUnsafe(rest);
    SanitiseWebUrl(scheme, rest);
    AfterWebScheme(scheme, "//" + r);
    NetlocOfDoubleSlash(url, r);
  }

  /** The netloc of `scheme://host` followed by a path, query or fragment is
      exactly `host`, when neither part holds tab, CR or LF. */
  lemma HostOfWebUrl(url: string, scheme: string, host: string, tail: string)
    requires scheme == "http" || scheme == "https"
    requires url == scheme + "://" + host + tail
    requires forall k :: 0 <= k < |host| ==> !IsUnsafe(host[k]) && !IsAuthorityEnd(host[k])
    requires forall k :: 0 <= k < |tail| ==> !IsUnsafe(tail[k])
    requires tail == [] || IsAuthorityEnd(tail[0])
    ensures Netloc(url) == if UnbalancedBrackets(host) then None else Some(host)
  {
    assert url == scheme + "://" + (host + tail);
    NetlocAfterScheme(scheme, host + tail);
    RemoveUnsafeKeepsSafe(host + tail);
    AuthorityUpTo(host, tail);
  }

  lemma {:induction false} AuthorityUpTo(host: string, tail: string)
    requires forall k :: 0 <= k < |host| ==> !IsAuthorityEnd(host[k])
    requires tail == [] || IsAuthorityEnd(tail[0])
    ensures Authority(host + tail) == host
  {
    if host == [] {
      assert host + tail == tail;
    } else {
      assert (host + tail)[1..] == host[1..] + tail;
      AuthorityUpTo(host[1..], tail);
      assert host == [host[0]] + host[1..];
    }
  }

  /** Sanitising keeps the scheme and `://` of a web URL in front. */
  lemma SanitiseWebUrl(scheme: string, rest: string)
    requires scheme == "http" || scheme == "https"
    ensures RemoveUnsafe(LStripC0(scheme + "://" + rest)) == scheme + [':'] + ("//" + RemoveUnsafe(rest))
  {
    var url := scheme + "://" + rest;
    assert LStripC0(url) == url by {
      assert url[0] == 'h';
    }
    assert url == (scheme + "://") + rest;
    RemoveUnsafePrefix(scheme + "://", rest);
    assert (scheme + "://") + RemoveUnsafe(rest) == scheme + [':'] + ("//" + RemoveUnsafe(rest));
  }

  lemma NetlocOfDoubleSlash(url: string, r: string)
    requires AfterScheme(RemoveUnsafe(LStripC0(url))) == "//" + r
    ensures var n := Authority(r);
            Netloc(url) == if UnbalancedBrackets(n) then None else Some(n)
  {
    var u := AfterScheme(RemoveUnsafe(LStripC0(url)));
    assert StartsWith(u, "//");
    assert u[2..] == r;
  }

  /** `http:` and `https:` are taken off as a scheme. */
  lemma AfterWebScheme(scheme: string, tail: string)
    requires scheme == "http" || scheme == "https"
    ensures AfterScheme(scheme + [':'] + tail) == tail
  {
    var u := scheme + [':'] + tail;
    IndexOfAfter(scheme, ':', tail);
    assert IsAsciiAlpha(u[0]);
    assert forall k :: 0 <= k < |scheme| ==> IsSchemeChar(u[k]);
    assert u[|scheme| + 1..] == tail;
  }

  /** Deleting tab, CR and LF leaves a part free of them as it is. */
  lemma {:induction false} RemoveUnsafePrefix(a: string, b: string)
    requires forall k :: 0 <= k < |a| ==> !IsUnsafe(a[k])
    ensures RemoveUnsafe(a + b) == a + RemoveUnsafe(b)
  {
    if a == [] {
      assert a + b == b;
    } else {
      var s := a + b;
      var t := a[1..];
      assert s[1..] == t + b;
      RemoveUnsafePrefix(t, b);
      assert RemoveUnsafe(s) == [a[0]] + (t + RemoveUnsafe(b));
      assert a == [a[0]] + t;
    }
  }

  /** Text free of tab, CR and LF is left unchanged. */
  lemma RemoveUnsafeKeepsSafe(s: string)
    requires forall k :: 0 <= k < |s| ==> !IsUnsafe(s[k])
    ensures RemoveUnsafe(s) == s
  {
    RemoveUnsafePrefix(s, []);
    assert s + [] == s;
  }

  // ---------------------------------------------------------------------
  // The host tests

  /** The host part of `is_spotify_url`: `spotify.com` in the netloc as it
      is, NOT lowercased. */
  predicate SpotifyHost(n: string) {
    Contains(n, "spotify.com")
  }

  /** The host part of `is_pinterest_url`: `pinterest.` or `pin.it` in the
      lowercased netloc. */
  predicate PinterestHost(n: string) {
    Contains(Lower(n), "pinterest.") || Contains(Lower(n), "pin.it")
  }

  /** The host part of `is_youtube_url`: `youtube.com` or `youtu.be` in the
      lowercased netloc. */
  predicate YouTubeHost(n: string) {
    Contains(Lower(n), "youtube.com") || Contains(Lower(n), "youtu.be")
  }

  /** `is_spotify_url`, or `None` when `urlparse` raises. */
  function IsSpotifyUrl(url: string): (r: Option<bool>)
    ensures r.None? <==> Netloc(url).None?
    ensures r.Some? ==> (r.value <==> SpotifyHost(Netloc(url).value))
  {
    match Netloc(url)
    case None => None
    case Some(n) => Some(SpotifyHost(n))
  }

  /** `is_pinterest_url`, or `None` when `urlparse` raises. */
  function IsPinterestUrl(url: string): (r: Option<bool>)
    ensures r.None? <==> Netloc(url).None?
    ensures r.Some? ==> (r.value <==> PinterestHost(Netloc(url).value))
  {
    match Netloc(url)
    case None => None
    case Some(n) => Some(PinterestHost(n))
  }

  /** `is_youtube_url`, or `None` when `urlparse` raises. */
  function IsYouTubeUrl(url: string): (r: Option<bool>)
    ensures r.None? <==> Netloc(url).None?
    ensures r.Some? ==> (r.value <==> YouTubeHost(Netloc(url).value))
  {
    match Netloc(url)
    case None => None
    case Some(n) => Some(YouTubeHost(n))
  }

  // ---------------------------------------------------------------------
  // Dispatch in handle_message

  datatype Route =
    | Ignored                 // not an http(s) URL: the handler returns silently
    | ParseError              // urlparse raised inside the first host test
    | ToSpotify(url: string)
    | ToPinterest(url: string)
    | ToYouTube(url: string)
    | Unsupported             // answered with the "Only Spotify, ..." text

  /** The branch `handle_message` takes for a text: it strips the text,
      then routes the result. */
  function Classify(text: string): (r: Route)
    ensures r == Ignored <==> !IsWebUrl(Strip(text))
    ensures r.ToSpotify? || r.ToPinterest? || r.ToYouTube? ==> r.url == Strip(text)
  {
    Dispatch(Strip(text))
  }

  /** The branch taken for a stripped text, checked in the order Spotify,
      Pinterest, YouTube. */
  function Dispatch(url: string): (r: Route)
    ensures r == Ignored <==> !IsWebUrl(url)
    ensures r == ParseError <==> IsWebUrl(url) && Netloc(url).None?
    ensures r.ToSpotify? ==> r.url == url && SpotifyHost(Netloc(url).value)
    ensures r.ToPinterest? ==> r.url == url
                               && !SpotifyHost(Netloc(url).value)
                               && PinterestHost(Netloc(url).value)
    ensures r.ToYouTube? ==> r.url == url
                             && !SpotifyHost(Netloc(url).value)
                             && !PinterestHost(Netloc(url).value)
                             && YouTubeHost(Netloc(url).value)
    ensures r == Unsupported ==> IsWebUrl(url) && Netloc(url).Some?
                                 && !SpotifyHost(Netloc(url).value)
                                 && !PinterestHost(Netloc(url).value)
                                 && !YouTubeHost(Netloc(url).value)
  {
    if !IsWebUrl(url) then Ignored
    else if IsSpotifyUrl(url).None? then ParseError
    else if IsSpotifyUrl(url).value then ToSpotify(url)
    else if IsPinterestUrl(url).value then ToPinterest(url)
    else if IsYouTubeUrl(url).value then ToYouTube(url)
    else Unsupported
  }

  /** Dispatch looks at nothing but the host: two web URLs with the same
      netloc take the same branch. */
  lemma SameHostSameBranch(url1: string, url2: string)
    requires IsWebUrl(url1) && IsWebUrl(url2) && Netloc(url1) == Netloc(url2)
    ensures Dispatch(url1).ToSpotify? == Dispatch(url2).ToSpotify?
    ensures Dispatch(url1).ToPinterest? == Dispatch(url2).ToPinterest?
    ensures Dispatch(url1).ToYouTube? == Dispatch(url2).ToYouTube?
    ensures Dispatch(url1).Unsupported? == Dispatch(url2).Unsupported?
  {
    assert IsSpotifyUrl(url1) == IsSpotifyUrl(url2);
    assert IsPinterestUrl(url1) == IsPinterestUrl(url2);
    assert IsYouTubeUrl(url1) == IsYouTubeUrl(url2);
  }

  /** A host that matches several tests goes to the first one: a Spotify
      host that also names Pinterest and YouTube is still Spotify. */
  lemma FirstMatchWins(text: string)
    requires IsWebUrl(Strip(text))
    requires IsSpotifyUrl(Strip(text)) == Some(true)
    ensures Classify(text) == ToSpotify(Strip(text))
  {
  }

  // ---------------------------------------------------------------------
  // Worked dispatch examples

  lemma WebSchemeIsWebUrl(text: string, scheme: string, host: string, tail: string)
    requires scheme == "http" || scheme == "https"
    requires text == scheme + "://" + host + tail
    ensures IsWebUrl(text)
  {
    assert text[..|scheme| + 3] == scheme + "://";
  }

  lemma StripKeepsWebUrl(text: string, scheme: string, host: string, tail: string)
    requires scheme == "http" || scheme == "https"
    requires text == scheme + "://" + host + tail
    requires !IsSpace(text[|text| - 1])
    ensures Strip(text) == text
  {
    assert text[0] == 'h';
    StripKeepsTrimmed(text);
  }

  /** `scheme://host` followed by a path is kept by `strip()`, is routed,
      and has `host` as its netloc. */
  lemma WebUrlFacts(text: string, scheme: string, host: string, tail: string)
    requires scheme == "http" || scheme == "https"
    requires text == scheme + "://" + host + tail
    requires forall k :: 0 <= k < |host| ==> !IsUnsafe(host[k]) && !IsAuthorityEnd(host[k])
    requires forall k :: 0 <= k < |tail| ==> !IsUnsafe(tail[k])
    requires tail == [] || IsAuthorityEnd(tail[0])
    requires !UnbalancedBrackets(host)
    requires !IsSpace(text[|text| - 1])
    ensures Strip(text) == text && IsWebUrl(text) && Netloc(text) == Some(host)
  {
    WebSchemeIsWebUrl(text, scheme, host, tail);
    StripKeepsWebUrl(text, scheme, host, tail);
    HostOfWebUrl(text, scheme, host, tail);
  }

  /** The Spotify test does not lowercase the host: a host with no lower-case
      `s` is never taken for Spotify, even when it spells `SPOTIFY.COM`. */
  lemma SpotifyTestIsCaseSensitive(text: string, host: string)
    requires IsWebUrl(Strip(text)) && Netloc(Strip(text)) == Some(host)
    requires 's' !in host
    ensures !Classify(text).ToSpotify?
  {
    if Contains(host, "spotify.com") {
      ContainsFirstChar(host, "spotify.com");
    }
  }

  /** The Pinterest and YouTube tests lowercase the host: URLs whose hosts
      agree up to case get the same answer from both. */
  lemma PinterestAndYouTubeIgnoreCase(url1: string, url2: string)
    requires Netloc(url1).Some? && Netloc(url2).Some?
    requires Lower(Netloc(url1).value) == Lower(Netloc(url2).value)
    ensures IsPinterestUrl(url1) == IsPinterestUrl(url2)
    ensures IsYouTubeUrl(url1) == IsYouTubeUrl(url2)
  {
    var n1, n2 := Netloc(url1).value, Netloc(url2).value;
    assert PinterestHost(n1) == PinterestHost(n2);
    assert YouTubeHost(n1) == YouTubeHost(n2);
  }

  /** Plain text gets no branch at all: the handler returns without a reply. */
  lemma PlainTextIsIgnored(t: string)
    requires t == "not a url"
    ensures Classify(t) == Ignored
  {
    PlainTextFacts(t);
  }

  lemma PlainTextFacts(t: string)
    requires t == "not a url"
    ensures Strip(t) == t && !IsWebUrl(t)
  {
    assert t[0] != 'h';
  }
}
