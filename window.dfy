/** The main window's controller logic (ui.py), apart from the widgets: station selection at start-up,
    the now-playing refresh with its cover cache and presence step, the player-state synchronisation,
    the play/stop button, the volume slider, station changes and the theme. HTTP answers, presence
    client outcomes and player states are inputs; widget texts are string fields. */
module Window {
  import opened Wrappers
  import opened Json
  import Text
  import Config
  import ImageMaps
  import Catalog
  import Presence

  /** What `str(player.state())` can denote; `Unavailable` is the `None` returned when VLC fails. */
  datatype PlayerState = NothingSpecial | Opening | Buffering | Playing | Paused | Stopped | Ended | Error | Unavailable

  /** A call made into the audio player. `StartStream(url)` plays `url or STREAM_URL`. */
  datatype PlayerCall = SetVolume(volume: Value) | StartStream(url: Value) | StopStream

  /** The values one refresh reads from the now-playing document. */
  datatype Snapshot = Snapshot(title: Value, artist: Value, art: Value, nextTitle: Value, nextArtist: Value,
                               listeners: Value, live: Value)

  /** The value of `_last_art_url`; `Unset` while the attribute does not exist yet. */
  datatype ArtCache = Unset | Cached(url: Value)

  /** How one `refresh_nowplaying` ends. Every failure is caught by the method's own `except`. */
  datatype Tick =
    | NoEndpoint              // the current station is not a dict
    | FetchFailed             // the request or the JSON decoding failed
    | ExtractFailed           // a section of the document is not a dict
    | CoverFailed             // `_set_cover` raised
    | Reconnected(ok: bool)   // presence was disabled: one connection attempt
    | ImageFailed             // `choose_image` raised
    | UpdateRejected(image: Value)  // the presence call with extra keywords raised

  const RpcConnected := "RPC : connecté ✅"
  const RpcInactive := "RPC : inactif ❌"
  const PlayStop := "⏹\U{FE0F}  Stop"
  const PlayStart := "▶\U{FE0F}  Lecture"
  const PlayLoading := "⏳  Chargement…"
  const NowStopped := "⏸\U{FE0F} Radio arrêtée"
  const NowSwitching := "⏳ Changement de station…"
  const NowReady := "✅ Station prête. Appuie sur Lecture."
  const NextPrefix := "🔜 À suivre : "

  // ---------------- start-up station ----------------

  /** The start-up station name: the first truthy value among the saved station, the catalog default
      and the first catalog name, else "InsporaRadio". */
  function InitialName(settings: Entries, catalog: Entries, names: seq<string>): Value {
    Or(Get(settings, "station", Null), Or(Get(catalog, "default", Null), if names != [] then Str(names[0]) else Str("InsporaRadio")))
  }

  /** Lines 72-76 of the window's start-up: list the names, pick the name, look the station up. */
  function StartupStation(settings: Entries, catalog: Value): Result<(Value, Value)> {
    match Catalog.StationNames(catalog)
    case Raised => Raised
    case Ok(names) =>
      var name := InitialName(settings, catalog.fields, names);
      match Catalog.StationOf(catalog, name)
      case Raised => Raised
      case Ok(station) => Ok((name, station))
  }

  /** The start-up name is the saved station when truthy, else the catalog default when truthy, else the
      first listed name, else "InsporaRadio"; selection raises only for an empty station dict or an
      unhashable name, and otherwise yields the station the catalog lists under that name. */
  lemma StartupPrecedence(settings: Entries, catalog: Value)
    requires WellFormed(catalog) && Catalog.HasStationDict(catalog)
    ensures var sts := Lookup(catalog.fields, "stations").value.fields;
      var name := InitialName(settings, catalog.fields, Keys(sts));
      && (Truthy(Get(settings, "station", Null)) ==> name == Get(settings, "station", Null))
      && (!Truthy(Get(settings, "station", Null)) && Truthy(Get(catalog.fields, "default", Null)) ==> name == Get(catalog.fields, "default", Null))
      && (!Truthy(Get(settings, "station", Null)) && !Truthy(Get(catalog.fields, "default", Null)) ==>
            name == (if sts != [] then Str(sts[0].0) else Str("InsporaRadio")))
      && (StartupStation(settings, catalog).Raised? <==> sts == [] || name.Array? || name.Object?)
      && (forall i :: 0 <= i < |sts| && name == Str(sts[i].0) ==> StartupStation(settings, catalog) == Ok((name, sts[i].1)))
  {
    Catalog.StationNamesInOrder(catalog);
    var sts := Lookup(catalog.fields, "stations").value.fields;
    var name := InitialName(settings, catalog.fields, Keys(sts));
    Catalog.StationOfPicks(catalog, name);
  }

  /** On the fallback catalog (what an unusable hosted one gives), a player with no saved station
      starts on the built-in station. */
  lemma StartupOnFallback(settings: Entries)
    requires !Truthy(Get(settings, "station", Null))
    ensures StartupStation(settings, Catalog.FallbackCatalog) ==
      Ok((Str(Catalog.FallbackName), Object([("stream_url", Str(Config.StreamUrl)), ("nowplaying_url", Str(Config.ApiUrl))])))
  {
    Catalog.FallbackIsSingleStation(Str(Catalog.FallbackName));
  }

  // ---------------- now-playing extraction ----------------

  /** `(d.get(key, {}) or {})`; the `listeners` and `live` sections use `None` as the default of `get`,
      which `or {}` turns into the same `{}`. */
  function Section(d: Entries, key: string): Value {
    Or(Get(d, key, Object([])), Object([]))
  }

  /** The reads of lines 279-294 of `refresh_nowplaying`: a section that is absent or falsy reads as `{}`,
      and `.get` on anything that is not a dict raises. */
  function Extract(data: Value): Result<Snapshot> {
    if !data.Object? then Raised
    else
      var np := Section(data.fields, "now_playing");
      var pn := Section(data.fields, "playing_next");
      var listeners := Section(data.fields, "listeners");
      var live := Section(data.fields, "live");
      if !np.Object? || !pn.Object? || !listeners.Object? || !live.Object? then Raised
      else
        var song := Section(np.fields, "song");
        var pnSong := Section(pn.fields, "song");
        if !song.Object? || !pnSong.Object? then Raised
        else Ok(Snapshot(
          Get(song.fields, "title", Str("Inconnu")), Get(song.fields, "artist", Str("")), Get(song.fields, "art", Null),
          Get(pnSong.fields, "title", Null), Get(pnSong.fields, "artist", Null),
          Get(listeners.fields, "total", Int(0)), Get(live.fields, "is_live", Bool(false))))
  }

  /** The document the now-playing endpoint serves for a snapshot. */
  function NowPlayingDoc(s: Snapshot): Value {
    Object([
      ("now_playing", Object([("song", Object([("title", s.title), ("artist", s.artist), ("art", s.art)]))])),
      ("playing_next", Object([("song", Object([("title", s.nextTitle), ("artist", s.nextArtist)]))])),
      ("listeners", Object([("total", s.listeners)])),
      ("live", Object([("is_live", s.live)]))])
  }

  /** The four sections of the document have distinct keys. */
  lemma DocKeysDistinct(s: Snapshot)
    ensures DistinctKeys(NowPlayingDoc(s).fields)
  {
    var fs := NowPlayingDoc(s).fields;
    assert Keys(fs) == ["now_playing", "playing_next", "listeners", "live"];
    assert |"now_playing"| == 11 && |"playing_next"| == 12 && |"listeners"| == 9 && |"live"| == 4;
  }

  /** The sections of a fully populated document are the dicts it was built from. */
  lemma DocSections(s: Snapshot)
    ensures var fs := NowPlayingDoc(s).fields;
      && Section(fs, "now_playing") == Object([("song", Object([("title", s.title), ("artist", s.artist), ("art", s.art)]))])
      && Section(fs, "playing_next") == Object([("song", Object([("title", s.nextTitle), ("artist", s.nextArtist)]))])
      && Section(fs, "listeners") == Object([("total", s.listeners)])
      && Section(fs, "live") == Object([("is_live", s.live)])
  {
    var fs := NowPlayingDoc(s).fields;
    DocKeysDistinct(s);
    LookupDistinct(fs, 0);
    LookupDistinct(fs, 1);
    LookupDistinct(fs, 2);
    LookupDistinct(fs, 3);
  }

  /** Extraction reads back every field of a fully populated document. */
  lemma ExtractDoc(s: Snapshot)
    ensures Extract(NowPlayingDoc(s)) == Ok(s)
  {
    var fs := NowPlayingDoc(s).fields;
    var song := [("title", s.title), ("artist", s.artist), ("art", s.art)];
    var pnSong := [("title", s.nextTitle), ("artist", s.nextArtist)];
    DocSections(s);
    assert Section([("song", Object(song))], "song") == Object(song);
    assert Section([("song", Object(pnSong))], "song") == Object(pnSong);
    SongFields(song, s.title, s.artist, s.art);
    NextSongFields(pnSong, s.nextTitle, s.nextArtist);
  }

  lemma SongFields(song: Entries, title: Value, artist: Value, art: Value)
    requires song == [("title", title), ("artist", artist), ("art", art)]
    ensures Get(song, "title", Str("Inconnu")) == title && Get(song, "artist", Str("")) == artist && Get(song, "art", Null) == art
  {
    assert Keys(song) == ["title", "artist", "art"];
    assert DistinctKeys(song) by { assert |"title"| == 5 && |"artist"| == 6 && |"art"| == 3; }
    LookupDistinct(song, 0);
    LookupDistinct(song, 1);
    LookupDistinct(song, 2);
  }

  lemma NextSongFields(song: Entries, title: Value, artist: Value)
    requires song == [("title", title), ("artist", artist)]
    ensures Get(song, "title", Null) == title && Get(song, "artist", Null) == artist
  {
    assert Keys(song) == ["title", "artist"];
    assert DistinctKeys(song) by { assert |"title"| == 5 && |"artist"| == 6; }
    LookupDistinct(song, 0);
    LookupDistinct(song, 1);
  }

  /** The snapshot of a document with no usable section: every field takes its default. */
  const Defaults := Snapshot(Str("Inconnu"), Str(""), Null, Null, Null, Int(0), Bool(false))

  /** Sections that are absent, null or otherwise falsy are read as `{}`, so the snapshot is all defaults. */
  lemma FalsySectionsDefault(fs: Entries)
    requires !Truthy(Get(fs, "now_playing", Null)) && !Truthy(Get(fs, "playing_next", Null))
    requires !Truthy(Get(fs, "listeners", Null)) && !Truthy(Get(fs, "live", Null))
    ensures Extract(Object(fs)) == Ok(Defaults)
  {
    assert Section(fs, "now_playing") == Object([]) by { LookupFindsFirst(fs, "now_playing"); }
    assert Section(fs, "playing_next") == Object([]) by { LookupFindsFirst(fs, "playing_next"); }
    assert Section(fs, "listeners") == Object([]) by { LookupFindsFirst(fs, "listeners"); }
    assert Section(fs, "live") == Object([]) by { LookupFindsFirst(fs, "live"); }
  }

  /** The title falls back to "Inconnu" only when the song has no `title` key; a present title, even
      `null`, is taken as it is. */
  lemma TitleDefaultsOnlyWhenAbsent(data: Value)
    requires Extract(data).Ok?
    ensures var song := Section(Section(data.fields, "now_playing").fields, "song").fields;
      && ("title" !in Keys(song) ==> Extract(data).value.title == Str("Inconnu"))
      && (forall t :: Lookup(song, "title") == Some(t) ==> Extract(data).value.title == t)
  {
    var song := Section(Section(data.fields, "now_playing").fields, "song").fields;
    LookupFindsFirst(song, "title");
  }

  /** A null title is shown as `None`, not replaced by the default. */
  lemma NullTitleKept(title: Value)
    requires title == Null
    ensures Extract(Object([("now_playing", Object([("song", Object([("title", title)]))]))])) ==
      Ok(Snapshot(Null, Str(""), Null, Null, Null, Int(0), Bool(false)))
  {
    var song := [("title", title)];
    var fs := [("now_playing", Object([("song", Object(song))]))];
    assert Keys(fs) == ["now_playing"] && Keys(song) == ["title"];
    assert |"now_playing"| == 11 && |"playing_next"| == 12 && |"listeners"| == 9 && |"live"| == 4;
    assert |"title"| == 5 && |"artist"| == 6 && |"art"| == 3;
    LookupFindsFirst(fs, "playing_next");
    LookupFindsFirst(fs, "listeners");
    LookupFindsFirst(fs, "live");
    LookupFindsFirst(song, "artist");
    LookupFindsFirst(song, "art");
    assert Section(fs, "now_playing") == Object([("song", Object(song))]);
    assert Section([("song", Object(song))], "song") == Object(song);
  }

  // ---------------- labels ----------------

  /** "🎼 <title> — <artist>". */
  function NowLabel(s: Snapshot): string {
    "🎼 " + Show(s.title) + " — " + Show(s.artist)
  }

  /** "👥 <listeners>". */
  function BadgeLabel(s: Snapshot): string {
    "👥 " + Show(s.listeners)
  }

  /** The next-track label: empty when the next title is falsy, else the prefix and the title, followed
      by " — <artist>" only when the next artist is truthy. */
  function NextLabel(nextTitle: Value, nextArtist: Value): (r: string)
    ensures r == "" <==> !Truthy(nextTitle)
    ensures Truthy(nextTitle) ==> |r| >= |NextPrefix| + |Show(nextTitle)|
    ensures Truthy(nextTitle) ==>
      && r[..|NextPrefix|] == NextPrefix
      && r[|NextPrefix|..|NextPrefix| + |Show(nextTitle)|] == Show(nextTitle)
      && r[|NextPrefix| + |Show(nextTitle)|..] == (if Truthy(nextArtist) then " — " + Show(nextArtist) else "")
  {
    if Truthy(nextTitle) then
      var na := if Truthy(nextArtist) then " — " + Show(nextArtist) else "";
      NextPrefix + Show(nextTitle) + na
    else ""
  }

  function RpcLabel(ok: bool): string {
    if ok then RpcConnected else RpcInactive
  }

  // ---------------- cover art ----------------

  /** `_set_cover(url)` on the cache. A falsy URL does nothing; comparing a truthy one with a cache
      that does not exist yet raises; the cached URL does nothing; otherwise the cache takes the URL
      only when the download answered 200 (`status` is `None` when the request raised). */
  function CoverStep(cache: ArtCache, url: Value, status: Option<int>): Result<ArtCache> {
    if !Truthy(url) then Ok(cache)
    else if cache.Unset? then Raised
    else if url == cache.url then Ok(cache)
    else if status == Some(200) then Ok(Cached(url))
    else Ok(cache)
  }

  /** Whether `_set_cover(url)` downloads anything. */
  predicate Downloads(cache: ArtCache, url: Value) {
    Truthy(url) && cache.Cached? && url != cache.url
  }

  /** The cache changes only after a 200 answer for a new truthy URL, and then holds that URL; once it
      holds a URL, showing the same URL again downloads nothing and keeps it. */
  lemma CoverCache(cache: ArtCache, url: Value, status: Option<int>, again: Option<int>)
    ensures CoverStep(cache, url, status).Raised? <==> Truthy(url) && cache.Unset?
    ensures CoverStep(cache, url, status).Ok? && CoverStep(cache, url, status).value != cache ==>
      Downloads(cache, url) && status == Some(200) && CoverStep(cache, url, status).value == Cached(url)
    ensures Downloads(cache, url) && status == Some(200) ==>
      !Downloads(Cached(url), url) && CoverStep(Cached(url), url, again) == Ok(Cached(url))
  {
  }

  // ---------------- player state ----------------

  /** The player is producing or about to produce sound. */
  predicate Active(s: PlayerState) {
    s == Playing || s == Opening || s == Buffering
  }

  predicate Idle(s: PlayerState) {
    s == Stopped || s == Ended || s == NothingSpecial
  }

  /** `sync_player_state` on the flag: Playing sets it, an idle state clears it, any other state keeps it. */
  function SyncedPlaying(playing: bool, s: PlayerState): (r: bool)
    ensures s == Playing ==> r
    ensures Idle(s) ==> !r
    ensures s != Playing && !Idle(s) ==> r == playing
  {
    if s == Playing then true else if Idle(s) then false else playing
  }

  /** The play button stops when the flag is set or the player is active, and starts otherwise. */
  predicate StopsOnPress(playing: bool, s: PlayerState) {
    playing || Active(s)
  }

  /** Synchronising twice is synchronising once; after a synchronisation the button stops exactly when
      the player is active, or when it is paused, failed or unavailable while the flag was set. */
  lemma SyncThenPress(playing: bool, s: PlayerState)
    ensures SyncedPlaying(SyncedPlaying(playing, s), s) == SyncedPlaying(playing, s)
    ensures StopsOnPress(SyncedPlaying(playing, s), s) <==> Active(s) || (playing && !Idle(s))
  {
  }

  /** `station["stream_url"]`: raises unless the station is a dict holding that key. */
  function StreamUrl(station: Value): (r: Result<Value>)
    ensures r.Ok? <==> station.Object? && "stream_url" in Keys(station.fields)
  {
    LookupFindsFirst(if station.Object? then station.fields else [], "stream_url");
    if station.Object? && Lookup(station.fields, "stream_url").Some? then Ok(Lookup(station.fields, "stream_url").value)
    else Raised
  }

  // ---------------- theme ----------------

  /** `(theme or "dark").lower()`; lowering a value that is not a string raises. */
  function ThemeName(theme: Value): Result<string> {
    var t := Or(theme, Str("dark"));
    if t.Str? then Ok(Text.Lower(t.s)) else Raised
  }

  /** `toggle_theme`'s argument. */
  function Toggled(current: string): string {
    if current == "dark" then "light" else "dark"
  }

  /** The applied theme name never holds a capital, and a falsy theme is "dark"; toggling always yields
      "light" or "dark", which apply unchanged, and toggling twice restores either of them. */
  lemma ThemeToggle(theme: Value, current: string)
    ensures ThemeName(theme).Ok? ==> forall i :: 0 <= i < |ThemeName(theme).value| ==> !('A' <= ThemeName(theme).value[i] <= 'Z')
    ensures !Truthy(theme) ==> ThemeName(theme) == Ok("dark")
    ensures Toggled(current) in {"light", "dark"}
    ensures ThemeName(Str(Toggled(current))) == Ok(Toggled(current))
    ensures current in {"light", "dark"} ==> Toggled(Toggled(current)) == current
  {
    Text.LowerNoCapitals("dark");
    Text.LowerNoCapitals("light");
  }

  /** The texts of the window's labels and play button. */
  datatype Labels = Labels(now: string, next: string, badge: string, rpc: string, play: string, volume: string)

  /** The main window's controller state. */
  class MainWindow {
    var settings: Entries
    /** The settings documents written so far, in order. */
    ghost var saved: seq<Entries>
    const catalog: Value
    const names: seq<string>
    var stationName: Value
    var station: Value
    var imagesMap: ImageMaps.ImageMap
    const rpc: Presence.Manager
    var theme: string
    /** Whether the light stylesheet is applied. */
    var light: bool
    var playing: bool
    var lastArtUrl: ArtCache
    var texts: Labels
    /** The calls made into the audio player so far. */
    ghost var playerCalls: seq<PlayerCall>

    /** The applied theme is the saved one and decides the stylesheet; the presence manager is consistent. */
    ghost predicate Valid()
      reads this, rpc
    {
      rpc.Valid() && Lookup(settings, "theme") == Some(Str(theme)) && (light <==> theme == "light")
    }

    /** Lines 66-99 of the window's start-up. `settings` is the loaded settings dict, the fetches are
        the catalog, the global image map and the station's image map, `rpcAttempt` the outcome of the
        first presence connection and `now` the clock; `loaded`, `picked` and `images` are the results of
        loading the catalog, choosing the start-up station and loading its image map, which the
        preconditions tie to their definitions. The preconditions say that no step raises. */
    constructor (settings: Entries, stationsFetched: Option<Value>, globalFetched: Option<Value>,
                 stationFetched: Option<Value>, rpcAttempt: Presence.Outcome, now: int,
                 loaded: Result<Value>, picked: Result<(Value, Value)>, images: Result<ImageMaps.ImageMap>)
      requires loaded == Catalog.LoadStations(stationsFetched) && loaded.Ok?
      requires picked == StartupStation(settings, loaded.value) && picked.Ok?
      requires "volume" in Keys(settings)
      requires images == ImageMaps.LoadForStation(picked.value.1, globalFetched, stationFetched) && images.Ok?
      requires ThemeName(Get(settings, "theme", Str("dark"))).Ok?
      ensures Valid() && fresh(rpc)
      ensures catalog == Catalog.LoadStations(stationsFetched).value
      ensures names == Catalog.StationNames(catalog).value
      ensures (stationName, station) == StartupStation(settings, catalog).value
      ensures imagesMap == ImageMaps.LoadForStation(station, globalFetched, stationFetched).value
      ensures theme == ThemeName(Get(settings, "theme", Str("dark"))).value
      ensures this.settings == Put(settings, "theme", Str(theme)) && saved == [this.settings]
      ensures playerCalls == [SetVolume(Get(settings, "volume", Null))]
      ensures rpc.clientId == Config.DiscordClientId && rpc.appName == Config.AppName && rpc.startTs == now
      ensures rpc.connected == rpcAttempt.Succeeds? && rpc.calls == [Presence.ClientCall.Connect]
      ensures rpc.lastError == (if rpcAttempt.Succeeds? then None else Some(rpcAttempt.message))
      ensures !playing && lastArtUrl == Unset
      ensures texts == Labels(NowStopped, "", "👥 0", RpcLabel(rpcAttempt.Succeeds?), PlayStart,
                              Show(Get(settings, "volume", Null)) + "%")
    {
      var cat := loaded.value;
      catalog := cat;
      names := Catalog.StationNames(cat).value;
      stationName := picked.value.0;
      station := picked.value.1;
      this.settings := settings;
      saved := [];
      playerCalls := [SetVolume(Get(settings, "volume", Null))];
      var manager := new Presence.Manager(Config.DiscordClientId, Config.AppName, now);
      rpc := manager;
      imagesMap := images.value;
      texts := Labels(NowStopped, "", "👥 0", "RPC : …", PlayStart, Show(Get(settings, "volume", Null)) + "%");
      theme := "dark";
      light := false;
      playing := false;
      lastArtUrl := Unset;
      new;
      var ok := manager.Connect(rpcAttempt);
      var failed := ApplyTheme(Get(settings, "theme", Str("dark")));
      texts := texts.(rpc := RpcLabel(ok));
    }

    /** `settings[key] = value` followed by saving the settings: only that key is overwritten. */
    method Store(key: string, value: Value)
      modifies this
      ensures settings == Put(old(settings), key, value) && saved == old(saved) + [settings]
      ensures Lookup(settings, key) == Some(value)
      ensures forall k :: k != key ==> Lookup(settings, k) == Lookup(old(settings), k)
      ensures stationName == old(stationName) && station == old(station) && imagesMap == old(imagesMap)
      ensures theme == old(theme) && light == old(light) && playing == old(playing)
      ensures lastArtUrl == old(lastArtUrl) && texts == old(texts) && playerCalls == old(playerCalls)
    {
      settings := Put(settings, key, value);
      saved := saved + [settings];
      forall k | k != key ensures Lookup(settings, k) == Lookup(old(settings), k) {
        PutLookup(old(settings), key, value, k);
      }
      PutLookup(old(settings), key, value, key);
    }

    /** `apply_theme(t)`: the lowered name (a falsy one is "dark") becomes the current theme, picks the
        stylesheet and is stored under `settings["theme"]`. A value that is not a string raises before
        anything changes. */
    method ApplyTheme(t: Value) returns (raised: bool)
      requires rpc.Valid()
      modifies this
      ensures raised <==> ThemeName(t).Raised?
      ensures raised ==> settings == old(settings) && saved == old(saved) && theme == old(theme) && light == old(light)
      ensures !raised ==> Valid() && theme == ThemeName(t).value
      ensures !raised ==> settings == Put(old(settings), "theme", Str(theme)) && saved == old(saved) + [settings]
      ensures !raised ==> forall k :: k != "theme" ==> Lookup(settings, k) == Lookup(old(settings), k)
      ensures stationName == old(stationName) && station == old(station) && imagesMap == old(imagesMap)
      ensures playing == old(playing) && lastArtUrl == old(lastArtUrl) && texts == old(texts) && playerCalls == old(playerCalls)
    {
      var name := ThemeName(t);
      if name.Raised? {
        return true;
      }
      theme := name.value;
      light := theme == "light";
      Store("theme", Str(theme));
      return false;
    }

    /** `toggle_theme()`: "dark" becomes "light" and anything else "dark". */
    method ToggleTheme()
      requires Valid()
      modifies this
      ensures Valid()
      ensures theme == Toggled(old(theme)) && (light <==> old(theme) == "dark")
      ensures settings == Put(old(settings), "theme", Str(theme)) && saved == old(saved) + [settings]
      ensures stationName == old(stationName) && station == old(station) && imagesMap == old(imagesMap)
      ensures playing == old(playing) && lastArtUrl == old(lastArtUrl) && texts == old(texts) && playerCalls == old(playerCalls)
    {
      ThemeToggle(Null, theme);
      var failed := ApplyTheme(Str(Toggled(theme)));
    }

    /** `on_volume(v)`: the player gets the volume, the label shows it, and only `settings["volume"]` is
        overwritten before saving. */
    method OnVolume(v: int)
      requires Valid()
      modifies this
      ensures Valid()
      ensures playerCalls == old(playerCalls) + [SetVolume(Int(v))]
      ensures texts == old(texts).(volume := Text.IntToString(v) + "%")
      ensures settings == Put(old(settings), "volume", Int(v)) && saved == old(saved) + [settings]
      ensures Lookup(settings, "volume") == Some(Int(v))
      ensures forall k :: k != "volume" ==> Lookup(settings, k) == Lookup(old(settings), k)
      ensures theme == old(theme) && light == old(light) && playing == old(playing) && station == old(station)
      ensures stationName == old(stationName) && imagesMap == old(imagesMap) && lastArtUrl == old(lastArtUrl)
    {
      playerCalls := playerCalls + [SetVolume(Int(v))];
      texts := texts.(volume := Text.IntToString(v) + "%");
      Store("volume", Int(v));
    }

    /** `handle_play()`: stops when the flag is set or the player is active; otherwise starts the current
        station's stream, which raises when the station has no `stream_url`. */
    method HandlePlay(s: PlayerState) returns (raised: bool)
      modifies this
      ensures StopsOnPress(playing, s) ==> !raised && playerCalls == old(playerCalls) + [StopStream]
      ensures !StopsOnPress(playing, s) ==> (raised <==> StreamUrl(station).Raised?)
      ensures !StopsOnPress(playing, s) && !raised ==> playerCalls == old(playerCalls) + [StartStream(StreamUrl(station).value)]
      ensures raised ==> playerCalls == old(playerCalls)
      ensures settings == old(settings) && saved == old(saved) && playing == old(playing) && station == old(station)
      ensures theme == old(theme) && light == old(light) && lastArtUrl == old(lastArtUrl) && texts == old(texts)
      ensures stationName == old(stationName) && imagesMap == old(imagesMap)
    {
      if StopsOnPress(playing, s) {
        playerCalls := playerCalls + [StopStream];
        return false;
      }
      var url := StreamUrl(station);
      if url.Raised? {
        return true;
      }
      playerCalls := playerCalls + [StartStream(url.value)];
      return false;
    }

    /** `sync_player_state()`: the flag follows `SyncedPlaying`; the button reads Stop when playing starts,
        Lecture (with the stopped notice) when an idle state ends playback, and Chargement while opening or
        buffering; an error asks for a retry of the stream later. */
    method SyncPlayerState(s: PlayerState) returns (retry: bool)
      modifies this
      ensures playing == SyncedPlaying(old(playing), s)
      ensures retry <==> s == Error
      ensures s == Playing && !old(playing) ==> texts == old(texts).(play := PlayStop)
      ensures Idle(s) && old(playing) ==> texts == old(texts).(play := PlayStart, now := NowStopped)
      ensures s == Opening || s == Buffering ==> texts == old(texts).(play := PlayLoading)
      ensures (s == Playing && old(playing)) || (Idle(s) && !old(playing)) || s == Paused || s == Error || s == Unavailable
        ==> texts == old(texts)
      ensures settings == old(settings) && saved == old(saved) && playerCalls == old(playerCalls) && station == old(station)
      ensures theme == old(theme) && light == old(light) && lastArtUrl == old(lastArtUrl) && stationName == old(stationName)
      ensures imagesMap == old(imagesMap)
    {
      retry := false;
      if s == Playing {
        if !playing {
          playing := true;
          texts := texts.(play := PlayStop);
        }
      } else if Idle(s) {
        if playing {
          playing := false;
          texts := texts.(play := PlayStart, now := NowStopped);
        }
      } else if s == Opening || s == Buffering {
        texts := texts.(play := PlayLoading);
      } else if s == Error {
        retry := true;
      }
    }

    /** The delayed retry after an error: restart the current station's stream. */
    method RetryStream() returns (raised: bool)
      modifies this
      ensures raised <==> StreamUrl(station).Raised?
      ensures playerCalls == old(playerCalls) + (if raised then [] else [StartStream(StreamUrl(station).value)])
      ensures settings == old(settings) && saved == old(saved) && playing == old(playing) && station == old(station)
      ensures theme == old(theme) && light == old(light) && lastArtUrl == old(lastArtUrl) && stationName == old(stationName)
      ensures imagesMap == old(imagesMap) && texts == old(texts)
    {
      var url := StreamUrl(station);
      if url.Raised? {
        return true;
      }
      playerCalls := playerCalls + [StartStream(url.value)];
      return false;
    }

    /** `on_station_changed(name)`. The name is recorded first; then the station is looked up, its image
        map loaded and the name stored under `settings["station"]`; the new stream starts when the
        player was busy, and a refresh is scheduled. A raising step stops the handler where it is. */
    method OnStationChanged(name: string, globalFetched: Option<Value>, stationFetched: Option<Value>, s: PlayerState)
      returns (raised: bool)
      requires Valid()
      modifies this
      ensures Valid()
      ensures stationName == Str(name)
      ensures Catalog.StationOf(catalog, Str(name)).Raised? ==>
        raised && station == old(station) && imagesMap == old(imagesMap) && settings == old(settings) && saved == old(saved)
      ensures Catalog.StationOf(catalog, Str(name)).Ok? ==> station == Catalog.StationOf(catalog, Str(name)).value
      ensures Catalog.StationOf(catalog, Str(name)).Ok? && ImageMaps.LoadForStation(station, globalFetched, stationFetched).Raised? ==>
        raised && imagesMap == old(imagesMap) && settings == old(settings) && saved == old(saved)
      ensures Catalog.StationOf(catalog, Str(name)).Ok? && ImageMaps.LoadForStation(station, globalFetched, stationFetched).Ok? ==>
        && imagesMap == ImageMaps.LoadForStation(station, globalFetched, stationFetched).value
        && settings == Put(old(settings), "station", Str(name)) && saved == old(saved) + [settings]
        && (raised <==> StopsOnPress(playing, s) && StreamUrl(station).Raised?)
        && (StopsOnPress(playing, s) && !raised ==>
              playerCalls == old(playerCalls) + [StartStream(StreamUrl(station).value)] && texts == old(texts).(now := NowSwitching))
        && (!StopsOnPress(playing, s) ==> playerCalls == old(playerCalls) && texts == old(texts).(now := NowReady))
      ensures raised ==> playerCalls == old(playerCalls) && texts == old(texts)
      ensures playing == old(playing) && theme == old(theme) && light == old(light) && lastArtUrl == old(lastArtUrl)
    {
      stationName := Str(name);
      var picked := Catalog.StationOf(catalog, Str(name));
      if picked.Raised? {
        return true;
      }
      raised := SwitchTo(picked.value, ImageMaps.LoadForStation(picked.value, globalFetched, stationFetched), name, s);
    }

    /** The rest of `on_station_changed` once the station `st` is found: it becomes the current station,
        the image map `loaded` (what loading its map gives) is taken, the name is stored, and the player
        follows. */
    method SwitchTo(st: Value, loaded: Result<ImageMaps.ImageMap>, name: string, s: PlayerState) returns (raised: bool)
      requires Valid()
      modifies this
      ensures Valid()
      ensures station == st && stationName == old(stationName)
      ensures loaded.Raised? ==>
        raised && imagesMap == old(imagesMap) && settings == old(settings) && saved == old(saved)
        && playerCalls == old(playerCalls) && texts == old(texts)
      ensures loaded.Ok? ==>
        && imagesMap == loaded.value
        && settings == Put(old(settings), "station", Str(name)) && saved == old(saved) + [settings]
        && (raised <==> StopsOnPress(playing, s) && StreamUrl(st).Raised?)
        && (raised ==> playerCalls == old(playerCalls) && texts == old(texts))
        && (StopsOnPress(playing, s) && !raised ==>
              playerCalls == old(playerCalls) + [StartStream(StreamUrl(st).value)] && texts == old(texts).(now := NowSwitching))
        && (!StopsOnPress(playing, s) ==> playerCalls == old(playerCalls) && texts == old(texts).(now := NowReady))
      ensures playing == old(playing) && theme == old(theme) && light == old(light) && lastArtUrl == old(lastArtUrl)
    {
      station := st;
      if loaded.Raised? {
        return true;
      }
      imagesMap := loaded.value;
      Store("station", Str(name));
      raised := FollowStation(s);
    }

    /** Lines 254-259 of `on_station_changed`: a busy player switches to the new stream, an idle one
        announces that the station is ready. */
    method FollowStation(s: PlayerState) returns (raised: bool)
      modifies this
      ensures raised <==> StopsOnPress(playing, s) && StreamUrl(station).Raised?
      ensures raised ==> playerCalls == old(playerCalls) && texts == old(texts)
      ensures StopsOnPress(playing, s) && !raised ==>
        playerCalls == old(playerCalls) + [StartStream(StreamUrl(station).value)] && texts == old(texts).(now := NowSwitching)
      ensures !StopsOnPress(playing, s) ==> playerCalls == old(playerCalls) && texts == old(texts).(now := NowReady)
      ensures settings == old(settings) && saved == old(saved) && playing == old(playing) && station == old(station)
      ensures theme == old(theme) && light == old(light) && lastArtUrl == old(lastArtUrl) && stationName == old(stationName)
      ensures imagesMap == old(imagesMap)
    {
      if StopsOnPress(playing, s) {
        var url := StreamUrl(station);
        if url.Raised? {
          return true;
        }
        playerCalls := playerCalls + [StartStream(url.value)];
        texts := texts.(now := NowSwitching);
      } else {
        texts := texts.(now := NowReady);
      }
      return false;
    }

    /** `_set_cover(url)`: the cache follows `CoverStep`; `status` is the download's status code, `None`
        when the request raised. The cover shown is the image of the cached URL. */
    method SetCover(url: Value, status: Option<int>) returns (raised: bool)
      modifies this
      ensures raised <==> CoverStep(old(lastArtUrl), url, status).Raised?
      ensures lastArtUrl == (if raised then old(lastArtUrl) else CoverStep(old(lastArtUrl), url, status).value)
      ensures settings == old(settings) && saved == old(saved) && playing == old(playing) && station == old(station)
      ensures theme == old(theme) && light == old(light) && playerCalls == old(playerCalls) && stationName == old(stationName)
      ensures imagesMap == old(imagesMap) && texts == old(texts)
    {
      if !Truthy(url) {
        return false;
      }
      if lastArtUrl.Unset? {
        return true;
      }
      if url == lastArtUrl.url {
        return false;
      }
      if status == Some(200) {
        lastArtUrl := Cached(url);
      }
      return false;
    }

    /** The fields a refresh leaves alone. */
    twostate predicate Unmoved()
      reads this
    {
      && settings == old(settings) && saved == old(saved) && playing == old(playing) && station == old(station)
      && theme == old(theme) && light == old(light) && stationName == old(stationName) && imagesMap == old(imagesMap)
    }

    /** The presence side of a refresh: a reconnection attempt connects the manager exactly as
        `connect()` does and sets the presence label from its answer; any other outcome leaves the
        manager and the label as they were. */
    twostate predicate PresenceStep(attempt: Presence.Outcome, outcome: Tick)
      reads this, rpc
    {
      && (outcome.Reconnected? ==>
            && outcome.ok == attempt.Succeeds? && rpc.connected == outcome.ok
            && rpc.lastError == (if attempt.Succeeds? then None else Some(attempt.message))
            && rpc.calls == old(rpc.calls) + [Presence.ClientCall.Connect] && texts.rpc == RpcLabel(outcome.ok))
      && (!outcome.Reconnected? ==>
            && rpc.connected == old(rpc.connected) && rpc.lastError == old(rpc.lastError)
            && rpc.calls == old(rpc.calls) && texts.rpc == old(texts).rpc)
    }

    /** What a refresh shows once the document has been read into `sn`: the three labels, then a cover
        failure exactly when the cover step raises, and otherwise a reconnection attempt when presence
        was disabled, else the image choice, whose update the presence manager rejects. */
    twostate predicate Shown(sn: Snapshot, coverStatus: Option<int>, attempt: Presence.Outcome, outcome: Tick)
      reads this, rpc
    {
      && texts.now == NowLabel(sn) && texts.badge == BadgeLabel(sn) && texts.next == NextLabel(sn.nextTitle, sn.nextArtist)
      && texts.play == old(texts).play && texts.volume == old(texts).volume
      && (outcome == CoverFailed <==> CoverStep(old(lastArtUrl), sn.art, coverStatus).Raised?)
      && (outcome != CoverFailed && !old(rpc.connected) ==> outcome == Reconnected(attempt.Succeeds?))
      && (outcome != CoverFailed && old(rpc.connected) ==>
            match ImageMaps.Choice(ImageMaps.ToValue(imagesMap).fields, sn.title, sn.live)
            case Raised => outcome == ImageFailed
            case Ok(img) => outcome == UpdateRejected(img))
    }

    /** What one whole refresh does: no endpoint for a station that is not a dict, a failed fetch, a
        document that cannot be read, each leaving the labels alone; otherwise what `Shown` says of the
        document's snapshot. Presence follows `PresenceStep`, and the fields of `Unmoved` keep. */
    twostate predicate Refreshed(response: Option<Value>, coverStatus: Option<int>, attempt: Presence.Outcome, outcome: Tick)
      reads this, rpc
    {
      && (outcome == NoEndpoint <==> !station.Object?)
      && (outcome == FetchFailed <==> station.Object? && response.None?)
      && (outcome == ExtractFailed <==> station.Object? && response.Some? && Extract(response.value).Raised?)
      && (outcome in {NoEndpoint, FetchFailed, ExtractFailed} ==> texts == old(texts))
      && (outcome !in {NoEndpoint, FetchFailed, ExtractFailed} ==>
            response.Some? && Extract(response.value).Ok? && Shown(Extract(response.value).value, coverStatus, attempt, outcome))
      && PresenceStep(attempt, outcome)
      && Unmoved()
    }

    /** `refresh_nowplaying()`. `response` is the decoded answer of the now-playing endpoint (`None`
        when the request or decoding raised), `coverStatus` the cover download's status and `attempt`
        the outcome of a reconnection. Every failure is swallowed; the labels change only once the
        document has been read, and the presence manager never receives an update: when disabled it is
        reconnected, and when enabled the call with the extra keywords is rejected. */
    method Refresh(response: Option<Value>, coverStatus: Option<int>, attempt: Presence.Outcome)
      returns (endpoint: Option<Value>, outcome: Tick)
      requires Valid()
      modifies this, rpc
      ensures Valid()
      ensures endpoint == (if station.Object? then Some(Get(station.fields, "nowplaying_url", Str(Config.ApiUrl))) else None)
      ensures Refreshed(response, coverStatus, attempt, outcome)
      ensures outcome in {NoEndpoint, FetchFailed, ExtractFailed, CoverFailed} ==> lastArtUrl == old(lastArtUrl)
      ensures outcome !in {NoEndpoint, FetchFailed, ExtractFailed, CoverFailed} ==>
        lastArtUrl == CoverStep(old(lastArtUrl), Extract(response.value).value.art, coverStatus).value
      ensures old(lastArtUrl).Unset? ==> lastArtUrl.Unset?
      ensures playerCalls == old(playerCalls)
    {
      if !station.Object? {
        return None, NoEndpoint;
      }
      endpoint := Some(Get(station.fields, "nowplaying_url", Str(Config.ApiUrl)));
      if response.None? {
        return endpoint, FetchFailed;
      }
      var snap := Extract(response.value);
      if snap.Raised? {
        return endpoint, ExtractFailed;
      }
      outcome := Display(snap.value, coverStatus, attempt);
    }

    /** The part of `refresh_nowplaying()` after the document has been read into `sn`: the labels,
        the cover, then the presence step. */
    method Display(sn: Snapshot, coverStatus: Option<int>, attempt: Presence.Outcome) returns (outcome: Tick)
      requires Valid()
      modifies this, rpc
      ensures Valid()
      ensures outcome !in {NoEndpoint, FetchFailed, ExtractFailed}
      ensures Shown(sn, coverStatus, attempt, outcome) && PresenceStep(attempt, outcome) && Unmoved()
      ensures lastArtUrl == if outcome == CoverFailed then old(lastArtUrl) else CoverStep(old(lastArtUrl), sn.art, coverStatus).value
      ensures playerCalls == old(playerCalls)
    {
      texts := texts.(now := NowLabel(sn), badge := BadgeLabel(sn), next := NextLabel(sn.nextTitle, sn.nextArtist));
      var coverRaised := SetCover(sn.art, coverStatus);
      if coverRaised {
        return CoverFailed;
      }
      if !rpc.Enabled() {
        var ok := rpc.Connect(attempt);
        texts := texts.(rpc := RpcLabel(ok));
        return Reconnected(ok);
      }
      var img := ImageMaps.ChooseImage(ImageMaps.ToValue(imagesMap).fields, sn.title, sn.live);
      if img.Raised? {
        return ImageFailed;
      }
      return UpdateRejected(img.value);
    }

    /** Lines 101-116 of the start-up: the first refresh runs while the cover cache does not exist yet,
        so a truthy cover URL makes it fail; then autoplay (`settings.get("autoplay", True)`) presses
        play, and only then is the cache created empty. A raising press aborts the start-up before the
        cache exists. */
    method Startup(response: Option<Value>, coverStatus: Option<int>, attempt: Presence.Outcome, s: PlayerState)
      returns (first: Tick, raised: bool)
      requires Valid() && lastArtUrl.Unset?
      modifies this, rpc
      ensures Valid()
      ensures Refreshed(response, coverStatus, attempt, first)
      ensures station.Object? && response.Some? && Extract(response.value).Ok? && Truthy(Extract(response.value).value.art)
        ==> first == CoverFailed
      ensures raised <==> Truthy(Get(settings, "autoplay", Bool(true))) && !StopsOnPress(playing, s) && StreamUrl(station).Raised?
      ensures lastArtUrl == (if raised then Unset else Cached(Null))
      ensures Truthy(Get(settings, "autoplay", Bool(true))) && !raised ==>
        playerCalls == old(playerCalls) + [if StopsOnPress(playing, s) then StopStream else StartStream(StreamUrl(station).value)]
      ensures !Truthy(Get(settings, "autoplay", Bool(true))) || raised ==> playerCalls == old(playerCalls)
    {
      var _, tick := Refresh(response, coverStatus, attempt);
      first := tick;
      raised := Autoplay(s);
    }

    /** Lines 108-116 of the start-up: autoplay presses play, then the cover cache is created empty. */
    method Autoplay(s: PlayerState) returns (raised: bool)
      modifies this
      ensures raised <==> Truthy(Get(settings, "autoplay", Bool(true))) && !StopsOnPress(playing, s) && StreamUrl(station).Raised?
      ensures lastArtUrl == (if raised then old(lastArtUrl) else Cached(Null))
      ensures Truthy(Get(settings, "autoplay", Bool(true))) && !raised ==>
        playerCalls == old(playerCalls) + [if StopsOnPress(playing, s) then StopStream else StartStream(StreamUrl(station).value)]
      ensures !Truthy(Get(settings, "autoplay", Bool(true))) || raised ==> playerCalls == old(playerCalls)
      ensures texts == old(texts) && Unmoved()
    {
      raised := false;
      if Truthy(Get(settings, "autoplay", Bool(true))) {
        raised := HandlePlay(s);
      }
      if !raised {
        lastArtUrl := Cached(Null);
      }
    }
  }
}
