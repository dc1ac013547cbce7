/** The two regular expressions the handlers apply to a link:
    the acceptance pattern `^(https?:\/\/)(www\.)?(youtube\.com|youtu\.be|music\.youtube\.com)\/.+$`
    (Server.js lines 134 and 350) and the identifier pattern
    `(?:v=|\/)([0-9A-Za-z_-]{11})` with JavaScript's leftmost-match semantics
    (Server.js lines 172 and 360). Both are case-sensitive. */
module YouTubeUrl {
  import opened Base

  // ---------------------------------------------------------------------
  // Acceptance pattern
  // ---------------------------------------------------------------------

  datatype Host = YouTube | YouTuBe | MusicYouTube

  function HostName(h: Host): string {
    match h
    case YouTube => "youtube.com"
    case YouTuBe => "youtu.be"
    case MusicYouTube => "music.youtube.com"
  }

  /** A reading of a link against the acceptance pattern: scheme, optional
      `www.`, host, and what follows the first `/` after the host. */
  datatype UrlShape = UrlShape(secure: bool, www: bool, host: Host, rest: string)

  function Scheme(secure: bool): string {
    if secure then "https://" else "http://"
  }

  function WwwPrefix(www: bool): string {
    if www then "www." else ""
  }

  /** The link a reading stands for. */
  function Render(u: UrlShape): string {
    Scheme(u.secure) + (WwwPrefix(u.www) + (HostName(u.host) + ("/" + u.rest)))
  }

  /** `.+$` without the multiline flag: at least one character, none a line terminator. */
  predicate ValidRest(rest: string) {
    |rest| > 0 && forall i :: 0 <= i < |rest| ==> !IsLineTerminator(rest[i])
  }

  predicate StartsWith(s: string, p: string) {
    |p| <= |s| && s[..|p|] == p
  }

  /** Reads `https?:\/\/`; yields whether the `s` was there and the remainder. */
  function ParseScheme(s: string): (r: Option<(bool, string)>)
    ensures r.Some? ==> s == Scheme(r.value.0) + r.value.1
  {
    if StartsWith(s, "https://") then Some((true, s[8..]))
    else if StartsWith(s, "http://") then Some((false, s[7..]))
    else None
  }

  /** Reads `(www\.)?`; yields whether it was there and the remainder. */
  function ParseWww(s: string): (r: (bool, string))
    ensures s == WwwPrefix(r.0) + r.1
  {
    if StartsWith(s, "www.") then (true, s[4..]) else (false, s)
  }

  /** Reads a host and the `/` after it; yields the host and the remainder. */
  function ParseHost(s: string): (r: Option<(Host, string)>)
    ensures r.Some? ==> s == HostName(r.value.0) + ("/" + r.value.1)
  {
    if StartsWith(s, "youtube.com/") then Some((YouTube, s[12..]))
    else if StartsWith(s, "youtu.be/") then Some((YouTuBe, s[9..]))
    else if StartsWith(s, "music.youtube.com/") then Some((MusicYouTube, s[18..]))
    else None
  }

  /** Reads s against the acceptance pattern. */
  function ParseUrl(s: string): Option<UrlShape> {
    match ParseScheme(s)
    case None => None
    case Some((secure, a)) =>
      var (www, b) := ParseWww(a);
      match ParseHost(b)
      case None => None
      case Some((h, rest)) => if ValidRest(rest) then Some(UrlShape(secure, www, h, rest)) else None
  }

  /** `urlPattern.test(s)`. */
  predicate IsAccepted(s: string) {
    ParseUrl(s).Some?
  }

  lemma SchemeRoundTrip(secure: bool, t: string)
    ensures ParseScheme(Scheme(secure) + t) == Some((secure, t))
  {
    var s := Scheme(secure) + t;
    if secure {
      assert s[..8] == "https://";
      assert s[8..] == t;
    } else {
      assert s[4] == ':';
      assert s[..7] == "http://";
      assert s[7..] == t;
    }
  }

  lemma WwwRoundTrip(www: bool, h: Host, t: string)
    ensures ParseWww(WwwPrefix(www) + (HostName(h) + t)) == (www, HostName(h) + t)
  {
    var s := WwwPrefix(www) + (HostName(h) + t);
    if www {
      assert s[..4] == "www.";
      assert s[4..] == HostName(h) + t;
    } else {
      assert s == HostName(h) + t;
      assert s[0] == 'y' || s[0] == 'm';
    }
  }

  lemma HostRoundTrip(h: Host, rest: string)
    ensures ParseHost(HostName(h) + ("/" + rest)) == Some((h, rest))
  {
    var s := HostName(h) + ("/" + rest);
    match h
    case YouTube =>
      assert s[..12] == "youtube.com/";
      assert s[12..] == rest;
    case YouTuBe =>
      assert s[..9] == "youtu.be/";
      assert s[9..] == rest;
      assert s[5] == '.';
    case MusicYouTube =>
      assert s[..18] == "music.youtube.com/";
      assert s[18..] == rest;
      assert s[0] == 'm';
  }

  /** Reading the rendering of a valid reading gives that reading back. */
  lemma ParseRender(u: UrlShape)
    requires ValidRest(u.rest)
    ensures ParseUrl(Render(u)) == Some(u)
  {
    var afterWww := HostName(u.host) + ("/" + u.rest);
    var tail := WwwPrefix(u.www) + afterWww;
    SchemeRoundTrip(u.secure, tail);
    assert ParseScheme(Render(u)) == Some((u.secure, tail));
    WwwRoundTrip(u.www, u.host, "/" + u.rest);
    assert ParseWww(tail) == (u.www, afterWww);
    HostRoundTrip(u.host, u.rest);
    assert ParseHost(afterWww) == Some((u.host, u.rest));
  }

  /** Every reading the parser produces is valid and renders to its input. */
  lemma RenderParse(s: string)
    requires ParseUrl(s).Some?
    ensures Render(ParseUrl(s).value) == s && ValidRest(ParseUrl(s).value.rest)
  {
    var (secure, a) := ParseScheme(s).value;
    var (www, b) := ParseWww(a);
    var (h, rest) := ParseHost(b).value;
    assert ParseUrl(s) == Some(UrlShape(secure, www, h, rest));
    assert s == Scheme(secure) + a;
    assert a == WwwPrefix(www) + b;
    assert b == HostName(h) + ("/" + rest);
  }

  /** A link is accepted exactly when it is `http://` or `https://`, an optional
      `www.`, one of the three hosts, `/`, and a non-empty rest without line
      terminators; and it can be read so in only one way. */
  lemma AcceptedIff(s: string)
    ensures IsAccepted(s) <==> exists u :: Render(u) == s && ValidRest(u.rest)
    ensures forall u, v :: Render(u) == s && ValidRest(u.rest) && Render(v) == s && ValidRest(v.rest) ==> u == v
  {
    if IsAccepted(s) {
      RenderParse(s);
    }
    forall u | Render(u) == s && ValidRest(u.rest)
      ensures ParseUrl(s) == Some(u)
    {
      ParseRender(u);
    }
  }

  /** The match is case-sensitive: a capitalised host is not accepted. */
  lemma HostIsCaseSensitive(rest: string)
    ensures !IsAccepted("https://YouTube.com/" + rest)
  {
    var s := "https://YouTube.com/" + rest;
    var a := s[8..];
    assert a[0] == 'Y';
  }

  // ---------------------------------------------------------------------
  // Identifier pattern
  // ---------------------------------------------------------------------

  /** `[0-9A-Za-z_-]` */
  predicate IsIdChar(c: char) {
    ('0' <= c <= '9') || ('A' <= c <= 'Z') || ('a' <= c <= 'z') || c == '_' || c == '-'
  }

  const IdLength: nat := 11

  predicate IdCharsFrom(s: string, j: nat) {
    j + IdLength <= |s| && forall k :: j <= k < j + IdLength ==> IsIdChar(s[k])
  }

  /** `(?:v=|\/)([0-9A-Za-z_-]{11})` matches when started at index i. */
  predicate MatchesAt(s: string, i: nat) {
    || (i + 1 < |s| && s[i] == 'v' && s[i + 1] == '=' && IdCharsFrom(s, i + 2))
    || (i < |s| && s[i] == '/' && IdCharsFrom(s, i + 1))
  }

  /** The text of the capture group of a match at i. */
  function MatchedId(s: string, i: nat): (id: string)
    requires MatchesAt(s, i)
    ensures |id| == IdLength
    ensures forall k :: 0 <= k < |id| ==> IsIdChar(id[k])
  {
    var start := if s[i] == 'v' then i + 2 else i + 1;
    s[start..start + IdLength]
  }

  /** The first index at or after `from` where the pattern matches. */
  function LeftmostMatch(s: string, from: nat): (r: Option<nat>)
    ensures r.Some? ==> from <= r.value && MatchesAt(s, r.value)
    ensures r.Some? ==> forall j :: from <= j < r.value ==> !MatchesAt(s, j)
    ensures r.None? ==> forall j :: from <= j ==> !MatchesAt(s, j)
    decreases |s| - from
  {
    if from >= |s| then None
    else if MatchesAt(s, from) then Some(from)
    else LeftmostMatch(s, from + 1)
  }

  /** `url.match(/(?:v=|\/)([0-9A-Za-z_-]{11})/)?.[1]`. */
  function ExtractVideoId(url: string): Option<string> {
    match LeftmostMatch(url, 0)
    case None => None
    case Some(i) => Some(MatchedId(url, i))
  }

  /** Extraction fails exactly when the pattern matches nowhere; otherwise it
      yields the 11 identifier characters right after the leftmost `v=` or `/`
      that is followed by 11 such characters. */
  lemma ExtractVideoIdSpec(url: string)
    ensures ExtractVideoId(url).None? <==> forall i: nat :: !MatchesAt(url, i)
    ensures forall i: nat :: MatchesAt(url, i) && (forall j: nat :: j < i ==> !MatchesAt(url, j)) ==>
              ExtractVideoId(url) == Some(MatchedId(url, i))
    ensures ExtractVideoId(url).Some? ==>
              |ExtractVideoId(url).value| == IdLength &&
              forall k :: 0 <= k < IdLength ==> IsIdChar(ExtractVideoId(url).value[k])
  {
    var r := LeftmostMatch(url, 0);
    forall i: nat | MatchesAt(url, i) && (forall j: nat :: j < i ==> !MatchesAt(url, j))
      ensures r == Some(i)
    {
    }
  }
}
