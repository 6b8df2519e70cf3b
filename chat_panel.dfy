/** `ChatPanel`: which stream's chat is shown, the chat and popout URLs, and
    the tab strip that switches the chat stream. */
module ChatPanel {
  import opened Basics
  import opened StreamInput
  import opened Registry
  import opened StreamLists

  /** `streams.find(s => s.id === activeChatStreamId) || streams[0]`. */
  function ActiveChatStream(l: seq<Stream>, activeId: Option<string>): (r: Option<Stream>)
    ensures r.None? <==> l == []
    ensures r.Some? ==> r.value in l
    ensures activeId.Some? && HasId(l, activeId.value) ==> r == Some(l[FindIndex(l, activeId.value)])
    ensures !(activeId.Some? && HasId(l, activeId.value)) && l != [] ==> r == Some(l[0])
  {
    var found := if activeId.Some? then FindById(l, activeId.value) else None;
    if found.Some? then found
    else if l != [] then Some(l[0])
    else None
  }

  function TwitchPopoutBase(name: string): string {
    "https://www.twitch.tv/popout/" + name + "/chat"
  }

  function KickChatUrl(name: string): string {
    "https://chat.kick.cx/embed/" + name
  }

  /** `getChatUrl`, with `window.location.hostname` passed in as `host`. */
  function ChatUrl(st: Option<Stream>, host: string): (r: string)
    ensures r == "" <==> st.None? || st.value.platform !in {Twitch, Kick}
  {
    if st.None? then ""
    else match st.value.platform
      case Twitch => TwitchPopoutBase(st.value.channelName) + "?parent=" + host + "&darkpopout=true"
      case Kick => KickChatUrl(st.value.channelName)
      case _ => ""
  }

  /** `handlePopout`: the window it opens, or nothing without a stream. */
  function PopoutUrl(st: Option<Stream>): (r: Option<string>)
    ensures r.None? <==> st.None?
  {
    if st.None? then None
    else if st.value.platform == Twitch then Some(TwitchPopoutBase(st.value.channelName) + "?darkpopout")
    else Some(KickChatUrl(st.value.channelName))
  }

  /** The popout opens the embedded chat for Kick, the same Twitch chat
      without the embedding host, and for any other platform the Kick chat
      of that channel although nothing is embedded. */
  lemma PopoutMatchesChat(st: Stream, host: string)
    ensures st.platform == Kick ==> PopoutUrl(Some(st)) == Some(ChatUrl(Some(st), host))
    ensures st.platform == Twitch ==>
      && PopoutUrl(Some(st)).value[..|TwitchPopoutBase(st.channelName)|] == TwitchPopoutBase(st.channelName)
      && ChatUrl(Some(st), host)[..|TwitchPopoutBase(st.channelName)|] == TwitchPopoutBase(st.channelName)
    ensures st.platform !in {Twitch, Kick} ==>
      ChatUrl(Some(st), host) == "" && PopoutUrl(Some(st)) == Some(KickChatUrl(st.channelName))
  {
    if st.platform == Twitch {
      var base := TwitchPopoutBase(st.channelName);
      assert (base + "?darkpopout")[..|base|] == base;
      assert (base + "?parent=" + host + "&darkpopout=true")[..|base|] == base;
    }
  }

  /** The tab strip is shown only for more than one stream. */
  predicate ShowsTabs(l: seq<Stream>) {
    |l| > 1
  }

  /** Clicking the tab of a listed stream makes its chat the one shown. */
  lemma TabClickSelects(s: State, i: nat)
    requires IdsUnique(s.streams) && i < |s.streams|
    ensures var r := Step(s, SetActiveChatStreamAction(Some(s.streams[i].id)));
      && r == s.(activeChatStreamId := Some(s.streams[i].id))
      && ActiveChatStream(r.streams, r.activeChatStreamId) == Some(s.streams[i])
  {
    var l, id := s.streams, s.streams[i].id;
    FindByIdUnique(l, id, l[i]);
    assert HasId(l, id);
  }

  /** A chat reference to a stream that is gone shows the first stream. */
  lemma DanglingChatFallsBack(l: seq<Stream>, id: string)
    requires l != [] && !HasId(l, id)
    ensures ActiveChatStream(l, Some(id)) == Some(l[0])
    ensures ActiveChatStream(l, None) == Some(l[0])
  {
  }
}
