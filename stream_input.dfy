/** The free-text entry point of the registry: `isValidStreamInput` and
    `parseStreamInput` turn a channel name or a channel URL into a channel
    name, a platform and a player URL, or reject it. */
module StreamInput {
  import opened Basics
  import opened Text

  datatype Platform = Twitch | Kick | YouTube | Custom

  datatype Parsed = Parsed(channelName: string, platform: Platform, url: string)

  const MinInputLength := 2
  const MaxInputLength := 100
  const MinNameLength := 2
  const MaxNameLength := 25

  /** One character of the class `[a-zA-Z0-9_-]`. */
  predicate IsNameChar(c: char) {
    'a' <= c <= 'z' || 'A' <= c <= 'Z' || '0' <= c <= '9' || c == '_' || c == '-'
  }

  /** `/^[a-zA-Z0-9_-]{2,25}$/`: anchored at both ends. */
  predicate MatchesNamePattern(s: string) {
    MinNameLength <= |s| <= MaxNameLength && forall i :: 0 <= i < |s| ==> IsNameChar(s[i])
  }

  /** One way the URL pattern
      `/^https?:\/\/(www\.)?(twitch\.tv|kick\.com)\/[a-zA-Z0-9_-]+/` can match:
      a choice for `https?`, for `(www\.)?` and for the domain, spelled out as a
      literal prefix followed by one name character. The pattern is anchored
      only at the start, so nothing after that character is looked at. */
  predicate MatchesWith(s: string, scheme: string, www: string, domain: string) {
    && (scheme == "http://" || scheme == "https://")
    && (www == "" || www == "www.")
    && (domain == "twitch.tv" || domain == "kick.com")
    && OccursAt(s, scheme + www + domain + "/", 0)
    && |scheme + www + domain + "/"| < |s| && IsNameChar(s[|scheme + www + domain + "/"|])
  }

  /** The meaning of the URL pattern: some choice of the alternatives matches. */
  ghost predicate UrlPatternMatches(s: string) {
    exists scheme, www, domain :: MatchesWith(s, scheme, www, domain)
  }

  /** The URL pattern tested left to right, one element of the pattern at a time. */
  function UrlPatternTest(s: string): bool {
    var i := if OccursAt(s, "https://", 0) then 8 else if OccursAt(s, "http://", 0) then 7 else 0;
    var j := if OccursAt(s, "www.", i) then i + 4 else i;
    var k := if OccursAt(s, "twitch.tv/", j) then j + 10 else if OccursAt(s, "kick.com/", j) then j + 9 else 0;
    i > 0 && k > 0 && k < |s| && IsNameChar(s[k])
  }

  /** `isValidStreamInput`: the trimmed text is 2 to 100 UTF-16 code units
      long and matches the URL pattern or the name pattern. */
  predicate IsValidStreamInput(input: string) {
    var t := Trim(input);
    !(t == [] || JsLength(t) < MinInputLength || JsLength(t) > MaxInputLength)
    && (UrlPatternTest(t) || MatchesNamePattern(t))
  }

  function TwitchPlayerUrl(name: string, host: string): string {
    "https://player.twitch.tv/?channel=" + name + "&parent=" + host
  }

  function KickPlayerUrl(name: string): string {
    "https://player.kick.com/" + name
  }

  /** `t.split(marker)[1].split('?')[0].split('/')[0]`. */
  function ChannelAfter(t: string, marker: string): (name: string)
    requires marker != [] && Contains(t, marker)
    ensures IsPrefixOf(name, t[IndexOf(t, marker).value + |marker|..])
    ensures forall i :: 0 <= i < |name| ==> name[i] != '?' && name[i] != '/'
    ensures var rest := t[IndexOf(t, marker).value + |marker|..];
      forall j :: 0 <= j < |name| ==> !OccursAt(rest, marker, j)
  {
    var piece := SplitSecond(t, marker);
    var beforeQuery := SplitFirst(piece, "?");
    var name := SplitFirst(beforeQuery, "/");
    SplitFirstExcludes(piece, '?');
    SplitFirstExcludes(beforeQuery, '/');
    assert IsPrefixOf(name, piece);
    name
  }

  /** `parseStreamInput`, with `window.location.hostname` passed in as `host`. */
  function ParseStreamInput(input: string, host: string): (r: Option<Parsed>)
    ensures r.Some? ==> r.value.platform in {Twitch, Kick}
    ensures r.Some? && r.value.platform == Twitch ==> r.value.url == TwitchPlayerUrl(r.value.channelName, host)
    ensures r.Some? && r.value.platform == Kick ==> r.value.url == KickPlayerUrl(r.value.channelName)
    ensures r.Some? ==> forall i :: 0 <= i < |r.value.channelName| ==>
                          r.value.channelName[i] != '?' && r.value.channelName[i] != '/'
  {
    var t := Trim(input);
    if !IsValidStreamInput(t) then None
    else if Contains(t, "twitch.tv/") then
      var name := ChannelAfter(t, "twitch.tv/");
      Some(Parsed(name, Twitch, TwitchPlayerUrl(name, host)))
    else if Contains(t, "kick.com/") then
      var name := ChannelAfter(t, "kick.com/");
      Some(Parsed(name, Kick, KickPlayerUrl(name)))
    else
      TrimIdempotent(input);
      NonUrlValidIsName(t);
      Some(Parsed(t, Twitch, TwitchPlayerUrl(t, host)))
  }

  /** A valid text that holds neither `twitch.tv/` nor `kick.com/` matched the name pattern. */
  lemma NonUrlValidIsName(t: string)
    requires IsValidStreamInput(t) && Trim(t) == t
    requires !Contains(t, "twitch.tv/") && !Contains(t, "kick.com/")
    ensures MatchesNamePattern(t)
    ensures forall i :: 0 <= i < |t| ==> t[i] != '?' && t[i] != '/'
  {
  }
}

module StreamInputFacts {
  import opened Basics
  import opened Text
  import opened StreamInput

  lemma OccursAtConcat(s: string, a: string, b: string, i: nat)
    ensures OccursAt(s, a + b, i) <==> OccursAt(s, a, i) && OccursAt(s, b, i + |a|)
  {
    if OccursAt(s, a, i) && OccursAt(s, b, i + |a|) {
      assert s[i..i + |a + b|] == s[i..i + |a|] + s[i + |a|..i + |a| + |b|];
    }
    if OccursAt(s, a + b, i) {
      assert s[i..i + |a|] == (a + b)[..|a|];
      assert s[i + |a|..i + |a| + |b|] == (a + b)[|a|..];
    }
  }

  /** The pattern's pieces in sequence: a scheme, an optional `www.`, a
      domain and a slash, followed by a name character. */
  predicate PiecesMatch(s: string, scheme: string, www: string, domain: string) {
    && (scheme == "http://" || scheme == "https://")
    && (www == "" || www == "www.")
    && (domain == "twitch.tv" || domain == "kick.com")
    && OccursAt(s, scheme, 0) && OccursAt(s, www, |scheme|) && OccursAt(s, domain + "/", |scheme| + |www|)
    && |scheme| + |www| + |domain| + 1 < |s| && IsNameChar(s[|scheme| + |www| + |domain| + 1])
  }

  lemma PiecesMatchPrefix(s: string, scheme: string, www: string, domain: string)
    ensures OccursAt(s, scheme + www + domain + "/", 0)
        <==> OccursAt(s, scheme, 0) && OccursAt(s, www, |scheme|) && OccursAt(s, domain + "/", |scheme| + |www|)
  {
    assert scheme + www + domain + "/" == scheme + (www + (domain + "/"));
    OccursAtConcat(s, scheme, www + (domain + "/"), 0);
    OccursAtConcat(s, www, domain + "/", |scheme|);
  }

  lemma TestAcceptsPieces(s: string, scheme: string, www: string, domain: string)
    requires PiecesMatch(s, scheme, www, domain)
    ensures UrlPatternTest(s)
  {
    if scheme == "http://" {
      assert s[0..7] == "http://";
      assert s[4] == s[0..7][4] == ':';
      assert !OccursAt(s, "https://", 0) by { assert "https://"[4] == 's'; }
    }
    var j := |scheme| + |www|;
    if www == "" {
      var d := domain + "/";
      assert s[j..j + |d|] == d;
      assert s[j] == s[j..j + |d|][0] == d[0] != 'w';
      assert !OccursAt(s, "www.", j) by { assert "www."[0] == 'w'; }
    }
    if domain == "kick.com" {
      assert s[j..j + 9] == "kick.com/";
      assert s[j] == s[j..j + 9][0] == 'k';
      assert !OccursAt(s, "twitch.tv/", j) by { assert "twitch.tv/"[0] == 't'; }
    }
  }

  lemma PiecesFromTest(s: string)
    requires UrlPatternTest(s)
    ensures exists scheme, www, domain :: PiecesMatch(s, scheme, www, domain)
  {
    var scheme := if OccursAt(s, "https://", 0) then "https://" else "http://";
    var www := if OccursAt(s, "www.", |scheme|) then "www." else "";
    var j := |scheme| + |www|;
    var domain := if OccursAt(s, "twitch.tv/", j) then "twitch.tv" else "kick.com";
    assert PiecesMatch(s, scheme, www, domain);
  }

  /** The left-to-right test agrees with the meaning of the URL pattern: a
      regular-expression engine that backtracks over `s?` and `(www\.)?` finds
      a match exactly when the test succeeds. */
  lemma UrlPatternTestCorrect(s: string)
    ensures UrlPatternTest(s) <==> UrlPatternMatches(s)
  {
    if UrlPatternMatches(s) {
      var scheme, www, domain :| MatchesWith(s, scheme, www, domain);
      PiecesMatchPrefix(s, scheme, www, domain);
      TestAcceptsPieces(s, scheme, www, domain);
    }
    if UrlPatternTest(s) {
      PiecesFromTest(s);
      var scheme, www, domain :| PiecesMatch(s, scheme, www, domain);
      PiecesMatchPrefix(s, scheme, www, domain);
      assert MatchesWith(s, scheme, www, domain);
    }
  }
}

/** What `parseStreamInput` promises its callers. */
module StreamInputProperties {
  import opened Basics
  import opened Text
  import opened StreamInput
  import opened StreamInputFacts

  /** The channel page URL a user copies from the address bar. */
  function ChannelPageUrl(platform: Platform, name: string): string
    requires platform == Twitch || platform == Kick
  {
    if platform == Twitch then "https://www.twitch.tv/" + name else "https://www.kick.com/" + name
  }

  function PlayerUrl(platform: Platform, name: string, host: string): string {
    if platform == Twitch then TwitchPlayerUrl(name, host) else KickPlayerUrl(name)
  }

  /** Input is rejected exactly when the trimmed text is shorter than 2 or
      longer than 100 UTF-16 code units, or matches neither pattern. */
  lemma ParseRejectsExactly(input: string, host: string)
    ensures var t := Trim(input);
      ParseStreamInput(input, host).None?
      <==> JsLength(t) < MinInputLength || JsLength(t) > MaxInputLength
           || (!UrlPatternMatches(t) && !MatchesNamePattern(t))
  {
    var t := Trim(input);
    assert ParseStreamInput(input, host).None? <==> !IsValidStreamInput(t) by {
      assert ParseStreamInput(input, host).Some? ==> IsValidStreamInput(t);
    }
    assert IsValidStreamInput(t) <==>
      !(JsLength(t) < MinInputLength || JsLength(t) > MaxInputLength) && (UrlPatternTest(t) || MatchesNamePattern(t)) by {
      TrimIdempotent(input);
    }
    UrlPatternTestCorrect(t);
  }

  lemma NoSlashNoMarker(t: string, marker: string)
    requires |marker| > 0 && marker[|marker| - 1] == '/'
    requires forall i :: 0 <= i < |t| ==> t[i] != '/'
    ensures !Contains(t, marker)
  {
  }

  lemma ValidByName(t: string)
    requires MatchesNamePattern(Trim(t))
    ensures IsValidStreamInput(t)
  {
  }

  lemma BareNameFacts(t: string)
    requires MatchesNamePattern(t) && Trim(t) == t
    ensures IsValidStreamInput(t) && !Contains(t, "twitch.tv/") && !Contains(t, "kick.com/")
  {
    ValidByName(t);
    assert forall i :: 0 <= i < |t| ==> t[i] != '/' by {
      forall i | 0 <= i < |t| ensures t[i] != '/' { assert IsNameChar(t[i]); }
    }
    NoSlashNoMarker(t, "twitch.tv/");
    NoSlashNoMarker(t, "kick.com/");
  }

  /** A bare name is kept unchanged and defaults to Twitch. */
  lemma ParseBareName(input: string, host: string)
    requires MatchesNamePattern(Trim(input))
    ensures var t := Trim(input);
      ParseStreamInput(input, host) == Some(Parsed(t, Twitch, TwitchPlayerUrl(t, host)))
  {
    TrimIdempotent(input);
    BareNameFacts(Trim(input));
  }

  /** Which platform a valid input is given: Kick only when `kick.com/` occurs
      and `twitch.tv/` does not; every other valid input is Twitch. */
  lemma ParsePlatform(input: string, host: string)
    ensures var t := Trim(input); var r := ParseStreamInput(input, host);
      && (r.Some? && r.value.platform == Kick <==>
            IsValidStreamInput(t) && !Contains(t, "twitch.tv/") && Contains(t, "kick.com/"))
      && (r.Some? && r.value.platform == Twitch <==>
            IsValidStreamInput(t) && (Contains(t, "twitch.tv/") || !Contains(t, "kick.com/")))
  {
  }

  /** The name taken from a URL runs from just after the first marker to the
      first `?` or `/`, or to the start of a second marker, or to the end. */
  lemma ChannelAfterMaximal(t: string, marker: string)
    requires marker != [] && Contains(t, marker)
    ensures var rest := t[IndexOf(t, marker).value + |marker|..]; var name := ChannelAfter(t, marker);
      && (forall j :: 0 <= j < |name| ==> !OccursAt(rest, marker, j))
      && (|name| == |rest| || rest[|name|] == '?' || rest[|name|] == '/' || OccursAt(rest, marker, |name|))
  {
    var rest := t[IndexOf(t, marker).value + |marker|..];
    var piece := SplitFirst(rest, marker);
    var beforeQuery := SplitFirst(piece, "?");
    var name := SplitFirst(beforeQuery, "/");
    assert name == ChannelAfter(t, marker);
    if name != beforeQuery {
      assert OccursAt(beforeQuery, "/", |name|);
      assert beforeQuery[|name|..|name| + 1] == "/";
      assert rest[|name|] == beforeQuery[|name|];
    } else if beforeQuery != piece {
      assert OccursAt(piece, "?", |name|);
      assert piece[|name|..|name| + 1] == "?";
      assert rest[|name|] == piece[|name|];
    } else if piece != rest {
      assert OccursAt(rest, marker, |name|);
    }
  }

  /** A name cut from `rest` (the text after the first marker): a prefix with
      no `?` or `/`, no marker starting inside it, and ending at the end of
      `rest`, a `?`, a `/` or a marker. */
  predicate StopsAtFirst(rest: string, marker: string, n: string) {
    && IsPrefixOf(n, rest)
    && (forall i :: 0 <= i < |n| ==> n[i] != '?' && n[i] != '/')
    && (forall j :: 0 <= j < |n| ==> !OccursAt(rest, marker, j))
    && (|n| == |rest| || rest[|n|] == '?' || rest[|n|] == '/' || OccursAt(rest, marker, |n|))
  }

  /** The stopping rule determines the name: the extracted name is the only
      text that meets it. */
  lemma ChannelAfterUnique(t: string, marker: string, n: string)
    requires marker != [] && Contains(t, marker)
    requires StopsAtFirst(t[IndexOf(t, marker).value + |marker|..], marker, n)
    ensures n == ChannelAfter(t, marker)
  {
    var rest := t[IndexOf(t, marker).value + |marker|..];
    ChannelAfterMaximal(t, marker);
    StopsAtFirstUnique(rest, marker, n, ChannelAfter(t, marker));
  }

  lemma StopsAtFirstUnique(rest: string, marker: string, n: string, m: string)
    requires StopsAtFirst(rest, marker, n) && StopsAtFirst(rest, marker, m)
    ensures n == m
  {
    assert n == rest[..|n|] && m == rest[..|m|];
  }
}

/** Channel page URLs round-trip through the parser. */
module StreamInputRoundTrip {
  import opened Basics
  import opened Text
  import opened StreamInput
  import opened StreamInputFacts
  import opened StreamInputProperties

  lemma NameHasNoSpecials(name: string)
    requires MatchesNamePattern(name)
    ensures forall i :: 0 <= i < |name| ==> name[i] != '/' && name[i] != '?' && !IsJsSpace(name[i])
  {
    forall i | 0 <= i < |name| ensures name[i] != '/' && name[i] != '?' && !IsJsSpace(name[i]) {
      assert IsNameChar(name[i]);
    }
  }

  /** In `prefix + name`, where the name has no `/` and the prefix has none
      between the marker's length and its last character, a marker ending in
      `/` can only end at the last character of the prefix. */
  lemma OnlyFinalMarker(prefix: string, name: string, marker: string)
    requires forall i :: 0 <= i < |name| ==> name[i] != '/'
    requires |marker| > 0 && marker[|marker| - 1] == '/'
    requires |marker| <= |prefix|
    requires forall k :: |marker| - 1 <= k < |prefix| - 1 ==> prefix[k] != '/'
    ensures forall j: nat :: OccursAt(prefix + name, marker, j) ==> j + |marker| == |prefix|
  {
    var s := prefix + name;
    forall j: nat | OccursAt(s, marker, j) ensures j + |marker| == |prefix| {
      var e := j + |marker| - 1;
      assert s[e] == s[j..j + |marker|][|marker| - 1] == '/';
      if e < |prefix| {
        assert s[e] == prefix[e];
      }
    }
  }

  /** The first occurrence of `marker` in `prefix + name` is the one that ends
      the prefix. */
  lemma FirstMarker(prefix: string, name: string, marker: string)
    requires MatchesNamePattern(name)
    requires |marker| > 0 && marker[|marker| - 1] == '/'
    requires |marker| <= |prefix| && prefix[|prefix| - |marker|..] == marker
    requires forall k :: |marker| - 1 <= k < |prefix| - 1 ==> prefix[k] != '/'
    ensures IndexOf(prefix + name, marker) == Some(|prefix| - |marker|)
  {
    var s := prefix + name;
    var at := |prefix| - |marker|;
    NameHasNoSpecials(name);
    OnlyFinalMarker(prefix, name, marker);
    assert s[at..at + |marker|] == marker;
    assert OccursAt(s, marker, at);
  }

  lemma ChannelOfName(s: string, marker: string, name: string)
    requires MatchesNamePattern(name) && marker != [] && marker[|marker| - 1] == '/'
    requires Contains(s, marker) && s[IndexOf(s, marker).value + |marker|..] == name
    ensures ChannelAfter(s, marker) == name
  {
    NameHasNoSpecials(name);
    NoSlashNoMarker(name, marker);
    SplitFirstWhole(name, '?');
    SplitFirstWhole(name, '/');
  }

  lemma ValidByUrl(t: string, u: string)
    requires u == Trim(t) && MinInputLength <= |u| && 2 * |u| <= MaxInputLength && UrlPatternTest(u)
    ensures IsValidStreamInput(t)
  {
  }

  /** A channel page URL with a name has the pieces of the URL pattern. */
  lemma PagePieces(prefix: string, domain: string, name: string)
    requires domain == "twitch.tv" || domain == "kick.com"
    requires prefix == "https://" + "www." + domain + "/"
    requires MatchesNamePattern(name)
    ensures PiecesMatch(prefix + name, "https://", "www.", domain)
    ensures MinInputLength <= |prefix + name| && 2 * |prefix + name| <= MaxInputLength
  {
    var s := prefix + name;
    assert |prefix| <= 22;
    assert s[0..|prefix|] == prefix;
    PiecesMatchPrefix(s, "https://", "www.", domain);
    assert s[|prefix|] == name[0];
  }

  /** A trimmed text of fitting length with the pieces of the URL pattern is
      valid input. */
  lemma ValidFromPieces(s: string, domain: string)
    requires PiecesMatch(s, "https://", "www.", domain)
    requires Trim(s) == s && MinInputLength <= |s| && 2 * |s| <= MaxInputLength
    ensures IsValidStreamInput(s)
  {
    TestAcceptsPieces(s, "https://", "www.", domain);
    ValidByUrl(s, s);
  }

  /** What the parser does with a valid text in which `twitch.tv/` occurs. */
  lemma ParseTwitchMarker(s: string, host: string)
    requires Trim(s) == s && IsValidStreamInput(s) && Contains(s, "twitch.tv/")
    ensures ParseStreamInput(s, host)
         == Some(Parsed(ChannelAfter(s, "twitch.tv/"), Twitch, TwitchPlayerUrl(ChannelAfter(s, "twitch.tv/"), host)))
  {
  }

  /** What the parser does with a valid text in which only `kick.com/` occurs. */
  lemma ParseKickMarker(s: string, host: string)
    requires Trim(s) == s && IsValidStreamInput(s)
    requires !Contains(s, "twitch.tv/") && Contains(s, "kick.com/")
    ensures ParseStreamInput(s, host)
         == Some(Parsed(ChannelAfter(s, "kick.com/"), Kick, KickPlayerUrl(ChannelAfter(s, "kick.com/"))))
  {
  }

  lemma TwitchPrefixPieces()
    ensures "https://www.twitch.tv/" == "https://" + "www." + "twitch.tv" + "/"
  {
  }

  lemma KickPrefixPieces()
    ensures "https://www.kick.com/" == "https://" + "www." + "kick.com" + "/"
  {
  }

  lemma TwitchPrefixFacts()
    ensures var prefix := "https://www.twitch.tv/";
      && prefix[12..] == "twitch.tv/"
      && forall k :: 9 <= k < 21 ==> prefix[k] != '/'
  {
  }

  lemma KickPrefixFacts()
    ensures var prefix := "https://www.kick.com/";
      && prefix[12..] == "kick.com/"
      && (forall k :: 8 <= k < 20 ==> prefix[k] != '/')
      && (forall k :: 9 <= k < 20 ==> prefix[k] != '/')
      && prefix[11] == '.'
  {
  }

  lemma KickPageHasNoTwitchMarker(name: string)
    requires MatchesNamePattern(name)
    ensures !Contains("https://www.kick.com/" + name, "twitch.tv/")
  {
    var prefix := "https://www.kick.com/";
    var s := prefix + name;
    KickPrefixFacts();
    NameHasNoSpecials(name);
    OnlyFinalMarker(prefix, name, "twitch.tv/");
    if Contains(s, "twitch.tv/") {
      assert false;
    }
  }

  /** A text with the pieces of the URL pattern, of fitting length, that
      neither starts nor ends with white space is trimmed, valid input. */
  lemma TrimmedValid(s: string, domain: string)
    requires PiecesMatch(s, "https://", "www.", domain)
    requires MinInputLength <= |s| && 2 * |s| <= MaxInputLength
    requires !IsJsSpace(s[0]) && !IsJsSpace(s[|s| - 1])
    ensures Trim(s) == s && IsValidStreamInput(s)
  {
    TrimStartNoop(s);
    TrimEndNoop(s);
    ValidFromPieces(s, domain);
  }

  /** A channel page URL of a valid name is trimmed, valid input. */
  lemma PageValid(prefix: string, domain: string, name: string)
    requires domain == "twitch.tv" || domain == "kick.com"
    requires prefix == "https://" + "www." + domain + "/"
    requires MatchesNamePattern(name)
    ensures Trim(prefix + name) == prefix + name && IsValidStreamInput(prefix + name)
  {
    var s := prefix + name;
    PagePieces(prefix, domain, name);
    assert s[0] == 'h';
    assert s[|s| - 1] == name[|name| - 1];
    assert IsNameChar(name[|name| - 1]);
    TrimmedValid(s, domain);
  }

  lemma TwitchPageValid(name: string)
    requires MatchesNamePattern(name)
    ensures var s := "https://www.twitch.tv/" + name; Trim(s) == s && IsValidStreamInput(s)
  {
    TwitchPrefixPieces();
    PageValid("https://www.twitch.tv/", "twitch.tv", name);
  }

  lemma TwitchPageChannel(name: string)
    requires MatchesNamePattern(name)
    ensures var s := "https://www.twitch.tv/" + name;
      Contains(s, "twitch.tv/") && ChannelAfter(s, "twitch.tv/") == name
  {
    var prefix := "https://www.twitch.tv/";
    var s := prefix + name;
    TwitchPrefixFacts();
    FirstMarker(prefix, name, "twitch.tv/");
    assert s[22..] == name;
    ChannelOfName(s, "twitch.tv/", name);
  }

  lemma KickPageValid(name: string)
    requires MatchesNamePattern(name)
    ensures var s := "https://www.kick.com/" + name; Trim(s) == s && IsValidStreamInput(s)
  {
    KickPrefixPieces();
    PageValid("https://www.kick.com/", "kick.com", name);
  }

  lemma KickPageChannel(name: string)
    requires MatchesNamePattern(name)
    ensures var s := "https://www.kick.com/" + name;
      Contains(s, "kick.com/") && ChannelAfter(s, "kick.com/") == name
  {
    var prefix := "https://www.kick.com/";
    var s := prefix + name;
    KickPrefixFacts();
    FirstMarker(prefix, name, "kick.com/");
    assert s[21..] == name;
    ChannelOfName(s, "kick.com/", name);
  }

  lemma ParseTwitchPage(name: string, host: string)
    requires MatchesNamePattern(name)
    ensures ParseStreamInput("https://www.twitch.tv/" + name, host)
         == Some(Parsed(name, Twitch, TwitchPlayerUrl(name, host)))
  {
    TwitchPageValid(name);
    TwitchPageChannel(name);
    ParseTwitchMarker("https://www.twitch.tv/" + name, host);
  }

  lemma ParseKickPage(name: string, host: string)
    requires MatchesNamePattern(name)
    ensures ParseStreamInput("https://www.kick.com/" + name, host)
         == Some(Parsed(name, Kick, KickPlayerUrl(name)))
  {
    KickPageValid(name);
    KickPageChannel(name);
    KickPageHasNoTwitchMarker(name);
    ParseKickMarker("https://www.kick.com/" + name, host);
  }

  /** Parsing a channel page URL gives back the channel name and the platform. */
  lemma ParseChannelPage(platform: Platform, name: string, host: string)
    requires platform == Twitch || platform == Kick
    requires MatchesNamePattern(name)
    ensures ParseStreamInput(ChannelPageUrl(platform, name), host)
         == Some(Parsed(name, platform, PlayerUrl(platform, name, host)))
  {
    if platform == Twitch {
      ParseTwitchPage(name, host);
    } else {
      ParseKickPage(name, host);
    }
  }
}
