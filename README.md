# AppWebRadio data-handling core in Dafny

AppWebRadio is a desktop player for the InsporaRadio web radio. This project models the logic that
sits between its widgets, its audio library, its HTTP calls and its presence client. It covers:

- the image map, which picks the presence picture for a title: live first, then the first title key
  contained in the title (case-insensitive, in key order), then the default;
- the station catalog, its built-in single-station fallback and the per-station image map;
- the parser for the "latest release" document;
- the presence manager, with connect, update-with-reconnect and clear-and-close;
- the main window's controller: start-up station choice, the now-playing refresh, the cover-art
  cache, the playing flag, play/stop, volume, station change, and the theme and settings writes;
- the two update workers: the release checker and the chunked downloader with its progress signals;
- the earlier single-file player: its image choice and one iteration of its now-playing loop.

JSON values are a datatype whose objects are ordered key/value sequences (`Json.Value`). Lookup finds
the first occurrence, and a write replaces in place or appends, as a Python dict does. The network,
the files, the clock and the external clients are inputs:

- a fetched document is an `Option<Value>` (`None` when the request failed);
- the player state is an enumeration;
- each presence-client call ends as an `Outcome`;
- a download is an answer, a `content-length` header, a chunk sequence and an optional failure point.

A Python exception is `Raised` in a `Result`. Stateful parts are Dafny classes:

- `Presence.Manager` (rpc.py);
- `Window.MainWindow` (ui.py);
- `Updater.Downloader` (updater.py);
- `Legacy.App` (main.py).

Each method states every field it changes and that the other fields keep their values. Ghost traces record the presence calls, the player calls
and the settings saves.

Where the design text and the code disagree, the model follows the code:

- `load_stations` keeps a document whose `"stations"` is an empty dict. Looking a station up in
  it then raises.
- `merge_image_maps` never uses the base map's `default` and `live`.
- ui.py calls the presence update with two extra keyword arguments. That call always raises, and
  the handler swallows it, so that window never updates presence (`Window.Tick.UpdateRejected`).
- `_last_art_url` is first assigned after the first refresh at start-up. That refresh fails on any
  truthy art URL (`Window.ArtCache.Unset`).

Modules: `Wrappers`, `Text` (ASCII lowercasing, substrings, decimal printing), `Json`, `Config`,
`ImageMaps`, `Catalog`, `Releases`, `Presence`, `Window`, `Updater`, `Legacy`.

## Model

| member | source | states |
|---|---|---|
| ImageMaps.Normalize | utils.py:55-62 | defines `normalize_image_map`; its properties are NormalizeKeeps, NormalizeEmpty and NormalizeIdempotent |
| ImageMaps.Merge | utils.py:64-71 | defines `merge_image_maps`; its properties are MergeIgnoresBaseDefaults, MergeTitles and OverGlobal |
| ImageMaps.LoadGlobal | utils.py:73-75 | defines `load_images_map` on the fetched document; see LoadGlobalFailure and GlobalTitlesDistinct |
| ImageMaps.Matches | utils.py:81 | defines the case-insensitive containment test; see EmptyKeyMatches and FirstMatchIsFirstHit |
| ImageMaps.FirstMatch | utils.py:80-82 | defines the first title key contained in the title; see FirstMatchIsFirstHit |
| ImageMaps.Choice | utils.py:77-83 | defines `choose_image`'s result or raise; see ChooseImage, LiveWins, OffAirFirstHit and NormalizedChoiceRaises |
| ImageMaps.LoadForStation | utils.py:107-120 | defines `load_images_map_for_station`; see InlineBeatsUrl, StationKeepsGlobalTitles and FailedStationFetchResetsDefaults |
| ImageMaps.NormalizeKeeps | utils.py:55-62 | keys present in a dict are kept; absent `default`/`live` take "logo_default"/"logo_live"; a non-dict `titles` becomes `{}` |
| ImageMaps.NormalizeEmpty | utils.py:55-62 | a non-dict or `{}` normalizes to the fallback map |
| ImageMaps.NormalizeIdempotent | utils.py:55-62 | normalizing a normalized map changes nothing |
| ImageMaps.ToValueLookups | utils.py:58-62 | the three keys of a normalized map read back its fields, and normalizing it is the identity |
| ImageMaps.NormalizedTitlesDistinct | utils.py:58-62 | a normalized map's title keys are distinct |
| ImageMaps.MergeIgnoresBaseDefaults | utils.py:64-69 | the merged `default`/`live` are the override's, with "logo_default"/"logo_live" when it lacks them |
| ImageMaps.UnionOfDicts | utils.py:70 | `{**b, **o}` has the base keys, then the new override keys; its keys are distinct, and the override wins on a collision |
| ImageMaps.MergeTitles | utils.py:64-71 | the merged titles are that union of the two normalized title dicts |
| ImageMaps.OverGlobal | utils.py:64-71 | merging over the global map keeps every global title key, and the keys stay distinct |
| ImageMaps.LoadGlobalFailure | utils.py:73-75 | a failed or falsy global fetch gives the fallback map |
| ImageMaps.GlobalTitlesDistinct | utils.py:73-75 | the global map's title keys are distinct |
| ImageMaps.ChooseImage | utils.py:77-83 | the search loop returns the image choice, including the raise on a non-string title |
| ImageMaps.LiveWins | utils.py:78-79 | when live, the `live` entry (or "logo_live") is returned whatever `titles` holds |
| ImageMaps.EmptyKeyMatches | utils.py:81 | the empty key matches every title |
| ImageMaps.FirstMatchIsFirstHit | utils.py:80-82 | the search finds an image iff some key matches, and then returns the first matching key's image |
| ImageMaps.ScanTitles | utils.py:80-82 | the title loop raises iff there is an entry and the title is not a string; otherwise it yields the first matching key's image, or none |
| ImageMaps.OffAirFirstHit | utils.py:80-83 | off air, the first matching key's image is returned, else the default |
| ImageMaps.FirstNotLongest | utils.py:80-82 | `{"A":1,"Ab":2}` with "Abc" gives 1 |
| ImageMaps.NormalizedChoiceRaises | utils.py:77-83 | on a normalized map the choice raises iff off air, with titles, and the title is not a string |
| ImageMaps.InlineBeatsUrl | utils.py:111-113 | an inline dict map wins over any map URL and its fetch |
| ImageMaps.StationKeepsGlobalTitles | utils.py:107-120 | a resolved station map keeps every global title key, with distinct keys |
| ImageMaps.FailedStationFetchResetsDefaults | utils.py:115-118 | for any station map URL starting with "http" whose fetch fails, the global titles are kept but `default`/`live` reset to the logo constants |
| Catalog.LoadStations | utils.py:86-99 | defines `load_stations` on the fetched document; see LoadStationsShape |
| Catalog.StationNames | utils.py:101-102 | defines `get_station_names`; see StationNamesInOrder and MissingStationsNoNames |
| Catalog.StationOf | utils.py:104-105 | defines `get_station`; see StationOfPicks |
| Catalog.LoadStationsShape | utils.py:86-99 | the fetched document is kept iff it is a truthy dict whose `"stations"` is a dict; a failed, falsy or unusable one gives the fallback; it raises only for a truthy non-dict; the result always has a `"stations"` dict |
| Catalog.FallbackIsSingleStation | utils.py:90-99 | the fallback lists only "InsporaRadio", names it the default, and every name picks its stream and now-playing URLs |
| Catalog.EmptyStationsKept | utils.py:88-105 | a document with an empty `"stations"` dict is kept, and picking any station in it raises |
| Catalog.MissingStationsNoNames | utils.py:101-102 | without `"stations"` no names are listed |
| Catalog.StationNamesInOrder | utils.py:101-102 | the names are the station keys in catalog order, each once |
| Catalog.StationOfPicks | utils.py:104-105 | a listed name gives its station, any other name the first station; it raises only for an empty catalog or an unhashable name |
| Releases.AssetItems | utils.py:128 | defines what iterating `assets` yields: a list's items, a dict's keys, a string's characters, else a raise; used by Parse |
| Releases.IsExe | utils.py:129 | defines the `.exe` test on an asset's name, raising for a non-dict asset or a non-string name; see ExeUrlStopsAtFirst and OneExeAsset |
| Releases.ExeUrl | utils.py:127-131 | defines the asset search with its `break`; see ExeUrlStopsAtFirst and OneExeAsset |
| Releases.Offer | utils.py:132-133 | defines the final test on tag, URL and current version; see OfferedReleases |
| Releases.Parse | utils.py:123-136 | defines `get_latest_release`'s answer; see LatestRelease, ParseTagAndAssets and OfferedReleases |
| Releases.ExeUrlStopsAtFirst | utils.py:128-131 | the asset search stops at the first `.exe` asset, even one without a URL |
| Releases.OneExeAsset | utils.py:128-131 | a single lower-case `.exe` asset yields its URL |
| Releases.LatestRelease | utils.py:123-136 | the loop with `break` computes the release parse |
| Releases.OfferedReleases | utils.py:126-133 | an offered version is non-empty, has no leading `v`, differs from the current one, and comes with a truthy URL |
| Releases.ParseTagAndAssets | utils.py:124-133 | for a tag and an asset list, the result is the offer made from the stripped tag and the first `.exe` URL |
| Releases.ScenarioNewerRelease | utils.py:123-136 | "v2.0.0" with an `.exe` asset against "1.0.3" gives ("2.0.0", url) |
| Releases.AllLeadingVsStripped | utils.py:126 | every leading `v` is stripped: "vv2" against "2" offers nothing |
| Presence.Details | rpc.py:31 | defines the `details` line "<title> — <artist>"; used in Update's contract |
| Presence.ListenerLine | rpc.py:32 | defines the `state` line "👥 <listeners> auditeurs"; used in Update's contract |
| Presence.Manager.constructor | rpc.py:5-10 | no handle, no error, no calls, and the start timestamp is the clock reading |
| Presence.Manager.Enabled | rpc.py:23-24 | defines `enabled()` as whether the handle is present; Connect and ClearClose state it |
| Presence.Manager.Connect | rpc.py:12-21 | success: enabled, no error, true; failure: disabled, the message recorded, false |
| Presence.Manager.Update | rpc.py:26-42 | disabled: nothing changes; success: one update carrying the fixed start, state kept; failure: one update, then one reconnect whose outcome decides the final state |
| Presence.Manager.ClearClose | rpc.py:44-51 | the handle always ends absent; close is called only after a successful clear |
| Window.InitialName | ui.py:74 | defines the start-up name; see StartupPrecedence |
| Window.StartupStation | ui.py:72-76 | defines the start-up listing, naming and lookup; see StartupPrecedence and StartupOnFallback |
| Window.StartupPrecedence | ui.py:72-76 | the start-up name is the saved station, else the catalog default, else the first name, else "InsporaRadio"; choosing raises only for an empty catalog or an unhashable name |
| Window.StartupOnFallback | ui.py:72-76 | on the fallback catalog with no saved station, "InsporaRadio" and its URLs are chosen |
| Window.MainWindow.constructor | ui.py:66-99 | catalog, names, station, image map, theme, settings write, player volume, one presence connect with its recorded error, and the initial labels |
| Window.MainWindow.Store | ui.py:251-252 | a settings write changes only that key, and the settings are saved |
| Window.MainWindow.ApplyTheme | ui.py:205-212 | the lowered theme (falsy means "dark") is applied and stored; a non-string theme raises and changes nothing |
| Window.MainWindow.ToggleTheme | ui.py:214-215 | "dark" becomes "light", anything else "dark", and the choice is stored |
| Window.ThemeName | ui.py:206 | defines `(theme or "dark").lower()`, raising for a non-string; see ThemeToggle and ApplyTheme |
| Window.Toggled | ui.py:215 | defines `toggle_theme`'s argument; see ThemeToggle and ToggleTheme |
| Window.ThemeToggle | ui.py:205-215 | an applied theme has no capitals; toggling yields "light" or "dark", and toggling twice restores them |
| Window.MainWindow.OnVolume | ui.py:242-244 | the player gets the volume, the label shows it, and only `settings["volume"]` changes |
| Window.StopsOnPress | ui.py:220 | defines the test shared by the play button (ui.py:220) and station changes (ui.py:255); see SyncThenPress, HandlePlay and FollowStation |
| Window.MainWindow.HandlePlay | ui.py:218-223 | stops when the flag is set or the player is active, else starts the station's stream; a station without `stream_url` raises |
| Window.StreamUrl | ui.py:223 | reading the stream URL succeeds iff the station is a dict with `stream_url` |
| Window.SyncedPlaying | ui.py:225-235 | Playing sets the flag, Stopped/Ended/NothingSpecial clear it, any other state keeps it |
| Window.SyncThenPress | ui.py:218-235 | synchronising twice is synchronising once; after it, the button stops exactly when the player is active, or the flag was set and the state is not idle |
| Window.MainWindow.SyncPlayerState | ui.py:225-240 | the new flag, the button and now-playing labels per state, and a retry exactly on Error |
| Window.MainWindow.RetryStream | ui.py:240 | the retry restarts the station's stream or raises without a `stream_url` |
| Window.MainWindow.OnStationChanged | ui.py:247-260 | the name is recorded first; a raising lookup or map load changes nothing else; otherwise the station and its image map are stored, only `settings["station"]` changes, and the stream is restarted when the player is active, with the label saying so |
| Window.MainWindow.SwitchTo | ui.py:249-259 | a station whose image map fails to load changes nothing else; otherwise the map and `settings["station"]` are stored and the stream restarts only when the player is active |
| Window.MainWindow.FollowStation | ui.py:254-259 | after a station change: restart and "switching" when active, else "ready" |
| Window.Section | ui.py:281-294 | defines `(d.get(k, {}) or {})`; see FalsySectionsDefault |
| Window.Extract | ui.py:279-294 | defines the reads of the document; see ExtractDoc, FalsySectionsDefault, TitleDefaultsOnlyWhenAbsent and NullTitleKept |
| Window.NowLabel | ui.py:297 | defines the now-playing label "🎼 <title> — <artist>"; used in Shown |
| Window.BadgeLabel | ui.py:298 | defines the listener badge "👥 <listeners>"; used in Shown |
| Window.ExtractDoc | ui.py:281-294 | extraction reads back every field of a fully populated document |
| Window.DocKeysDistinct | ui.py:281-294 | the four sections of a served document have distinct keys |
| Window.DocSections | ui.py:281-294 | each section of a fully populated document reads back as the dict it was built from |
| Window.FalsySectionsDefault | ui.py:281-294 | absent or falsy sections read as `{}`, giving the defaults |
| Window.TitleDefaultsOnlyWhenAbsent | ui.py:283 | the title is "Inconnu" only when the key is absent, else the stored value |
| Window.NullTitleKept | ui.py:283 | a `null` title is kept as `null` |
| Window.NextLabel | ui.py:299-303 | empty iff the next title is falsy; else the prefix, the title, and " — artist" only for a truthy artist |
| Window.RpcLabel | ui.py:310-312 | defines the presence label after a connection attempt, also used at ui.py:92; stated by the constructor and PresenceStep |
| Window.CoverStep | ui.py:263-274 | defines `_set_cover` on the cache; see CoverCache and SetCover |
| Window.CoverCache | ui.py:263-274 | a truthy URL before the cache exists raises; the cache changes only after a 200 for a new URL; the same URL again downloads nothing |
| Window.MainWindow.SetCover | ui.py:263-274 | the cache becomes the cover step's result, and nothing else changes |
| Window.MainWindow.Refreshed | ui.py:276-319 | defines what one refresh does to the window and the presence manager; stated by Refresh and Startup |
| Window.MainWindow.Refresh | ui.py:276-319 | the endpoint read, then what `Refreshed` states: labels change only after a successful extraction; disabled presence reconnects, recording the error or clearing it, and sets its label; enabled presence chooses the image and its rejected update changes nothing; the cache follows `CoverStep` |
| Window.MainWindow.Display | ui.py:296-317 | what `Shown` and `PresenceStep` state: the snapshot's labels, a cover failure exactly when the cover step raises, then a reconnect (manager and error as `connect()` leaves them) or the rejected update; the fields of `Unmoved` keep |
| Window.MainWindow.Startup | ui.py:101-116 | the first refresh does what `Refreshed` states, so a truthy art URL fails it; autoplay presses play (stop when active, else start the station's stream); the cache ends as `None` unless that press raises |
| Window.MainWindow.Autoplay | ui.py:108-116 | autoplay presses play and then the cache is created empty, unless the press raises; the labels and the other fields keep |
| Updater.ParseInt | updater.py:34 | defines `int()` on a signed decimal string; see ContentLengthReads |
| Updater.ContentLength | updater.py:34 | defines the total read from the header; see ContentLengthReads |
| Updater.Percent | updater.py:42 | defines the truncated percentage; see PercentMonotone and ReachesHundred |
| Updater.Download | updater.py:29-45 | defines the signals and writes of a download; see Downloader.Run, DownloadEnds and NoLengthDownload |
| Updater.CheckerRun | updater.py:9-17 | exactly one signal, `found` iff a release is offered, carrying its version and URL |
| Updater.ContentLengthReads | updater.py:34 | a missing or empty header is 0, signed or unsigned decimal digits are their value, and a header starting with anything else raises |
| Updater.NonEmpty | updater.py:38 | the kept chunks are all non-empty and no more than the chunks received |
| Updater.Downloader.constructor | updater.py:24-27 | URL and destination are recorded |
| Updater.Downloader.Run | updater.py:29-45 | the loop yields exactly the download's signals and written chunks |
| Updater.StreamChunks | updater.py:37-42 | the chunk loop writes exactly the non-empty chunks and emits exactly their progress signals |
| Updater.NoLengthNoProgress | updater.py:40 | with a zero total no progress is reported |
| Updater.NoLengthDownload | updater.py:34-43 | with no length, a good answer writes every non-empty chunk and emits only `done` |
| Updater.ProgressValues | updater.py:38-42 | one progress per non-empty chunk, each the truncated percentage of the bytes so far |
| Updater.ProgressCount | updater.py:38-42 | with a length, there is one progress signal per non-empty chunk |
| Updater.ProgressAt | updater.py:38-42 | the k-th progress is the truncated percentage of the bytes of the first k+1 non-empty chunks |
| Updater.PercentMonotone | updater.py:42 | the percentage grows with the bytes received |
| Updater.ProgressNondecreasing | updater.py:38-42 | the reported percentages never go down |
| Updater.Progresses | updater.py:38-42 | defines the progress signals of the chunk loop; see StreamChunks, ProgressValues, ProgressNondecreasing and ReachesHundred |
| Updater.NonEmptySize | updater.py:38-41 | skipping empty chunks keeps the byte count |
| Updater.SizeAppend | updater.py:41 | byte counts add over concatenation |
| Updater.ReachesHundred | updater.py:40-42 | when the bytes equal the length, the last progress is 100 |
| Updater.NonEmptyIdempotent | updater.py:38 | skipping empty chunks twice is skipping them once |
| Updater.NonEmptyAppend | updater.py:38 | skipping empty chunks distributes over concatenation |
| Updater.EmptyChunksSkipped | updater.py:38-42 | empty chunks change no progress |
| Updater.DownloadIgnoresEmptyChunks | updater.py:37-43 | the download is the same without its empty chunks |
| Updater.DownloadEnds | updater.py:29-45 | progress signals, then exactly one `done` or `fail`; `done` iff nothing raised |
| Legacy.Choice | main.py:26-34 | defines the earlier `choose_image`'s result or raise; see ChooseImage and SameRuleAsWindow |
| Legacy.Section | main.py:98-102 | defines `d.get(k, {})` whose result must be a dict for the next `.get`; see NullSectionRaises |
| Legacy.Extract | main.py:97-102 | defines the earlier reads of the document; see SameReadsAsWindow, NullSectionRaises and ExtractDoc |
| Legacy.Label | main.py:104 | defines the earlier label: a note sign, title and artist, then a bar and the listener count with "auditeurs"; stated by InfoTick |
| Legacy.Index | main.py:28 | `config[key]` succeeds iff the document is a dict with that key |
| Legacy.ChooseImage | main.py:26-34 | the loop returns the earlier image choice, which raises on a missing key |
| Legacy.SameRuleAsWindow | main.py:26-34 | with all three keys the earlier choice equals the later one; a missing `live` or `default` raises where the later one falls back |
| Legacy.SameReadsAsWindow | main.py:97-102 | when both extractions succeed they read the same title, artist, listeners and live flag |
| Legacy.NullSectionRaises | main.py:98 | a null `now_playing` raises in the earlier version but gives the defaults in the later one |
| Legacy.ExtractDoc | main.py:97-102 | the earlier extraction reads back a fully populated document |
| Legacy.App.constructor | main.py:50-60 | presence is connected iff the one start-up attempt succeeded; the timestamp is fixed; the label says stopped |
| Legacy.App.InfoTick | main.py:96-121 | the label is set before presence; a raising choice skips the update; a rejected update is caught; no reconnect, and every update carries the fixed start |

## Left out

- HTTP, files and the clock are inputs: fetched documents, answers, chunks, flags and timestamps.
  These cover `fetch_json`, `requests.get`, `load_json`/`save_json` and `time.time`.
- Settings saves are a ghost trace. The saved file's contents and write failures are not modelled.
- Qt widgets, stylesheets, dialogs, timers and signals are not modelled. Timers become method calls
  (`Refresh`, `SyncPlayerState`, `RetryStream`). Signals become an output trace.
- Threads are not modelled. The daemon thread of main.py and the QThread workers run sequentially.
- The VLC player (player.py) is not modelled. Its state is the `PlayerState` input, and its calls
  are the `playerCalls` trace.
- player.py's `url or STREAM_URL` fallback is not modelled. `StartStream` records the URL as given.
- ImageMaps.ChooseImage: lowercasing (ImageMaps.Matches) is ASCII only, not Unicode `str.lower()`.
- Legacy.ChooseImage: lowercasing is ASCII only, as in the later version.
- Window.ThemeName / Window.MainWindow.ApplyTheme: the theme is lowered ASCII only, so a theme
  such as "É" is stored as given, where `str.lower()` stores "é". Releases.IsExe is unaffected:
  no other character lowers to `.`, `e` or `x`.
- Window.CoverStep: the cached URL is compared by structural equality, not Python's `==` (which
  ignores dict order and equates `1` with `True`), and `status` is not tied to the URL being a
  string. A 200 answer for a non-string URL, which requests never gives, would be cached.
- Updater.Percent: `int(done * 100 / total)` is modelled as integer division truncated toward
  zero, not as a float division.
- Updater.ParseInt: `int()` here takes an optional sign and decimal digits. Surrounding
  whitespace and digit separators are refused.
- JSON numbers are integers only. A float `listeners.total`, printed by the f-strings of ui.py:298,
  rpc.py:32 and main.py:104, cannot be represented, nor a float `is_live` (where 0.0 is falsy).
- Json.Repr: `repr` of a string leaves out the escaping of quotes and control characters.
- Exception messages are not modelled. `Raised`, `CheckFailed` and `DownloadFailed` carry none.
  `Presence.Outcome` carries the message that `last_error` records.
- Updater.CheckerRun: never emits `fail`. A `found` emission rejected by Qt for its argument
  types is not modelled.
- Window.MainWindow.constructor: requires that no start-up step raises. A raising step would
  abort the window. A settings file that is not a dict is not modelled.
- Legacy.App.constructor: the presence-client constructor outside the `try` is not modelled as
  raising.
- Legacy.App.InfoTick: models one iteration of `update_info_loop`. The endless loop and its sleep
  are not modelled.
- main.py's `toggle_play` and `set_volume` only drive the player and two labels. They are outside
  the modelled core.
- ui.py's `reload_images_map` repeats the station-map resolution, which
  `ImageMaps.LoadForStation` models. Its dialog is not modelled.
- The update dialogs and the install path are not modelled. This covers
  `start_silent_update_check`, `on_check_update_clicked`, `ask_install_update`, `download_update`,
  `install_update` and `safe_quit`. `install_update` passes three arguments to a two-parameter
  function, so installation always ends in its error dialog.
- `download_file`, `write_updater_and_run`, `load_vlc_portable`, `app_dir`, `is_frozen_exe`,
  `this_exe_path` and `temp_path` are not modelled. They are OS side effects or environment reads.
- tools/make_assets.py is not modelled. It generates assets with image libraries.
