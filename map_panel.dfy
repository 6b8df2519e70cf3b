/** `MapPanel`: the RTIRL map it embeds and opens in a popout. */
module MapPanel {
  import opened Registry

  const MapBase := "https://rtirl.com/embed"

  /** `getMapUrl`: a set custom URL, else the first stream's RTIRL map, else
      the bare RTIRL embed. */
  function MapUrl(l: seq<Stream>, customMapUrl: string): (r: string)
    ensures r != ""
  {
    if customMapUrl != "" then customMapUrl
    else if |l| > 0 then MapBase + "/" + l[0].channelName
    else MapBase
  }

  /** The popout opens the URL that is embedded. */
  function PopoutUrl(l: seq<Stream>, customMapUrl: string): (r: string)
    ensures r == MapUrl(l, customMapUrl) && r != ""
  {
    var currentUrl := MapUrl(l, customMapUrl);
    currentUrl
  }

  /** A custom URL wins whatever the list; without one the map follows the
      first stream only, so reordering the rest never changes it. */
  lemma MapUrlPrecedence(l: seq<Stream>, l': seq<Stream>, customMapUrl: string)
    requires (l == [] <==> l' == []) && (l != [] ==> l[0].channelName == l'[0].channelName)
    ensures customMapUrl != "" ==> MapUrl(l, customMapUrl) == customMapUrl
    ensures MapUrl(l, customMapUrl) == MapUrl(l', customMapUrl)
  {
  }

  /** Without a custom URL the map is on RTIRL: the bare embed, or the bare
      embed followed by `/` and the first channel name. */
  lemma MapUrlOnRtirl(l: seq<Stream>)
    ensures var r := MapUrl(l, "");
      && |MapBase| <= |r| && r[..|MapBase|] == MapBase
      && (l == [] <==> r == MapBase)
  {
    if l != [] {
      var r := MapUrl(l, "");
      assert r == MapBase + ("/" + l[0].channelName);
      assert |r| > |MapBase|;
    }
  }
}
