/** `StreamTile`: the player a tile embeds and the tile's loading and error
    state. */
module StreamTile {
  import opened StreamInput
  import opened Registry

  /** The mute flag the Twitch player takes in its query string. */
  function MutedParam(isMuted: bool): string {
    "&muted=" + (if isMuted then "true" else "false")
  }

  /** `getEmbedUrl`, with `window.location.hostname` passed in as `host`.
      Volume has no URL parameter, so only the mute state reaches the player. */
  function EmbedUrl(st: Stream, host: string): (r: string)
    ensures r == "" <==> st.platform !in {Twitch, Kick}
  {
    match st.platform
    case Twitch => TwitchPlayerUrl(st.channelName, host) + MutedParam(st.isMuted)
    case Kick => KickPlayerUrl(st.channelName)
    case _ => ""
  }

  /** The URL is a function of platform, channel name, mute state and host:
      volume, reload key, metadata and the stream's own `url` never enter it. */
  lemma EmbedUrlInputs(a: Stream, b: Stream, host: string)
    requires a.platform == b.platform && a.channelName == b.channelName
    requires a.platform == Twitch ==> a.isMuted == b.isMuted
    ensures EmbedUrl(a, host) == EmbedUrl(b, host)
  {
  }

  /** A Kick player ignores the mute state; a Twitch player reads it back
      from the end of its URL. */
  lemma EmbedUrlMuteFlag(st: Stream, host: string)
    ensures st.platform == Kick ==> EmbedUrl(st, host) == EmbedUrl(st.(isMuted := !st.isMuted), host)
    ensures st.platform == Twitch ==>
      (EndsWith(EmbedUrl(st, host), "&muted=true") <==> st.isMuted)
  {
    if st.platform == Twitch {
      var base := TwitchPlayerUrl(st.channelName, host);
      var u := EmbedUrl(st, host);
      if st.isMuted {
        assert u[|u| - 11..] == "&muted=true";
      } else {
        assert u[|u| - 11..] == "muted=false";
        assert "muted=false" != "&muted=true" by { assert "muted=false"[0] != "&muted=true"[0]; }
      }
    }
  }

  predicate EndsWith(s: string, suffix: string) {
    |suffix| <= |s| && s[|s| - |suffix|..] == suffix
  }

  /** A stream added from a channel name or URL plays exactly the player URL
      the parser stored for it, with the Twitch mute flag appended. */
  lemma EmbedUrlExtendsStoredUrl(input: string, host: string, id: string)
    requires ParseStreamInput(input, host).Some?
    ensures var p := ParseStreamInput(input, host).value;
      && (p.platform == Twitch ==> EmbedUrl(NewStream(id, p), host) == p.url + MutedParam(false))
      && (p.platform == Kick ==> EmbedUrl(NewStream(id, p), host) == p.url)
  {
  }

  /** What the tile shows over its player. */
  datatype Phase = Loading | Playing | Failed

  /** The `isLoading`/`hasError` pair of one tile. */
  class TileState {
    var isLoading: bool
    var hasError: bool

    /** Never loading and failed at once. */
    predicate Valid()
      reads this
    {
      !(isLoading && hasError)
    }

    /** The overlay: the error panel wins, then the spinner. */
    function Phase(): Phase
      reads this
    {
      if hasError then Failed else if isLoading then Loading else Playing
    }

    /** The player iframe is mounted exactly when there is no error. */
    predicate PlayerMounted()
      reads this
    {
      !hasError
    }

    constructor ()
      ensures isLoading && !hasError && Valid() && Phase() == Loading && PlayerMounted()
    {
      isLoading := true;
      hasError := false;
    }

    /** The iframe's `onLoad`. */
    method OnLoad()
      modifies this
      ensures !isLoading && hasError == old(hasError)
      ensures old(Valid()) ==> Valid()
      ensures old(Phase()) != Failed ==> Phase() == Playing
    {
      isLoading := false;
    }

    /** The iframe's `onError`. */
    method OnError()
      modifies this
      ensures hasError && !isLoading && Valid() && Phase() == Failed && !PlayerMounted()
    {
      hasError := true;
      isLoading := false;
    }

    /** `handleRetry`: back to loading, which mounts the player again. */
    method Retry()
      modifies this
      ensures isLoading && !hasError && Valid() && Phase() == Loading && PlayerMounted()
    {
      hasError := false;
      isLoading := true;
    }
  }
}
