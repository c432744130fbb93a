/** The earlier single-file player (main.py): its image choice over the image-map document loaded at
    import time, and one iteration of its now-playing loop, which reads the endpoint without any
    fallback for null sections and updates presence only when the start-up connection succeeded. */
module Legacy {
  import opened Wrappers
  import opened Json
  import ImageMaps
  import Presence
  import Window

  /** `d[key]` on a JSON value: raises unless it is a dict holding that key. */
  function Index(d: Value, key: string): (r: Result<Value>)
    ensures r.Ok? <==> d.Object? && key in Keys(d.fields)
    ensures r.Ok? ==> Lookup(d.fields, key) == Some(r.value)
  {
    LookupFindsFirst(if d.Object? then d.fields else [], key);
    if d.Object? && Lookup(d.fields, key).Some? then Ok(Lookup(d.fields, key).value) else Raised
  }

  /** What main.py's `choose_image(title, live)` returns or whether it raises, `config` being the
      image-map document: `config["live"]` when live, else the first title key contained in the title
      (both lowered), else `config["default"]`; a missing key raises instead of falling back. */
  function Choice(config: Value, title: Value, live: Value): Result<Value> {
    if Truthy(live) then Index(config, "live")
    else match Index(config, "titles")
      case Raised => Raised
      case Ok(titles) =>
        if !titles.Object? then Raised
        else if titles.fields != [] && !title.Str? then Raised
        else if titles.fields != [] && ImageMaps.FirstMatch(titles.fields, title.s).Some? then
          Ok(ImageMaps.FirstMatch(titles.fields, title.s).value)
        else Index(config, "default")
  }

  /** main.py's `choose_image`: the same loop as the window's, over lookups that raise. */
  method ChooseImage(config: Value, title: Value, live: Value) returns (r: Result<Value>)
    ensures r == Choice(config, title, live)
  {
    if Truthy(live) {
      return Index(config, "live");
    }
    var titles := Index(config, "titles");
    if titles.Raised? || !titles.value.Object? {
      return Raised;
    }
    var hit := ImageMaps.ScanTitles(titles.value.fields, title);
    if hit.Raised? {
      return Raised;
    }
    if hit.value.Some? {
      return Ok(hit.value.value);
    }
    return Index(config, "default");
  }

  /** Both versions apply the same rule to a document that has all three keys and a dict of titles;
      the earlier one raises where the later one falls back to "logo_live" or "logo_default". */
  lemma SameRuleAsWindow(config: Entries, title: Value, live: Value)
    ensures "live" in Keys(config) && "default" in Keys(config) && Get(config, "titles", Null).Object? ==>
      Choice(Object(config), title, live) == ImageMaps.Choice(config, title, live)
    ensures "live" !in Keys(config) && Truthy(live) ==>
      Choice(Object(config), title, live).Raised? && ImageMaps.Choice(config, title, live) == Ok(Str(ImageMaps.LogoLive))
    ensures "default" !in Keys(config) && !Truthy(live) && Lookup(config, "titles") == Some(Object([])) ==>
      Choice(Object(config), title, live).Raised? && ImageMaps.Choice(config, title, live) == Ok(Str(ImageMaps.LogoDefault))
  {
    LookupFindsFirst(config, "live");
    LookupFindsFirst(config, "default");
    LookupFindsFirst(config, "titles");
  }

  /** What one iteration reads from the endpoint's answer. */
  datatype Snapshot = Snapshot(title: Value, artist: Value, listeners: Value, live: Value)

  /** `d.get(key, {})` followed by `.get`: the section must be a dict, since there is no `or {}`. */
  function Section(d: Entries, key: string): Result<Entries> {
    var v := Get(d, key, Object([]));
    if v.Object? then Ok(v.fields) else Raised
  }

  /** Lines 97-102 of main.py. */
  function Extract(r: Value): Result<Snapshot> {
    if !r.Object? then Raised
    else match (Section(r.fields, "now_playing"), Section(r.fields, "listeners"), Section(r.fields, "live"))
      case (Ok(np), Ok(listeners), Ok(live)) =>
        (match Section(np, "song")
         case Ok(song) =>
           Ok(Snapshot(Get(song, "title", Str("Inconnu")), Get(song, "artist", Str("")),
                       Get(listeners, "total", Int(0)), Get(live, "is_live", Bool(false))))
         case Raised => Raised)
      case _ => Raised
  }

  /** Where the earlier extraction succeeds and the later one does too, they read the same values. */
  lemma SameReadsAsWindow(r: Value)
    requires Extract(r).Ok? && Window.Extract(r).Ok?
    ensures var l := Extract(r).value;
      var w := Window.Extract(r).value;
      l == Snapshot(w.title, w.artist, w.listeners, w.live)
  {
    var fs := r.fields;
    var np := Section(fs, "now_playing").value;
    assert Window.Section(fs, "now_playing") == Object(np);
    assert Window.Section(fs, "listeners") == Object(Section(fs, "listeners").value);
    assert Window.Section(fs, "live") == Object(Section(fs, "live").value);
    assert Window.Section(np, "song") == Object(Section(np, "song").value);
  }

  /** A null `now_playing` makes the earlier extraction raise, while the later one reads defaults. */
  lemma NullSectionRaises(fs: Entries)
    requires Lookup(fs, "now_playing") == Some(Null)
    requires !Truthy(Get(fs, "playing_next", Null)) && !Truthy(Get(fs, "listeners", Null)) && !Truthy(Get(fs, "live", Null))
    ensures Extract(Object(fs)) == Raised
    ensures Window.Extract(Object(fs)) == Ok(Window.Defaults)
  {
    Window.FalsySectionsDefault(fs);
  }

  /** The earlier extraction reads back a fully populated document too. */
  lemma ExtractDoc(s: Window.Snapshot)
    ensures Extract(Window.NowPlayingDoc(s)) == Ok(Snapshot(s.title, s.artist, s.listeners, s.live))
  {
    var fs := Window.NowPlayingDoc(s).fields;
    assert Keys(fs) == ["now_playing", "playing_next", "listeners", "live"];
    assert DistinctKeys(fs) by {
      assert |"now_playing"| == 11 && |"playing_next"| == 12 && |"listeners"| == 9 && |"live"| == 4;
    }
    LookupDistinct(fs, 0);
    LookupDistinct(fs, 2);
    LookupDistinct(fs, 3);
    var np := Get(fs, "now_playing", Object([])).fields;
    assert Section(np, "song").Ok?;
    Window.ExtractDoc(s);
    SameReadsAsWindow(Window.NowPlayingDoc(s));
  }

  /** "🎶 <title> — <artist> | 👥 <listeners> auditeurs". */
  function Label(s: Snapshot): string {
    "🎶 " + Show(s.title) + " — " + Show(s.artist) + " | 👥 " + Show(s.listeners) + " auditeurs"
  }

  /** How one iteration of the loop ends. */
  datatype Tick =
    | FetchFailed               // the request or the decoding raised
    | ExtractFailed             // a section is not a dict
    | NoPresence                // the start-up connection had failed
    | ImageFailed               // `choose_image` raised, caught by the outer handler
    | Updated(image: Value)     // the presence client accepted the update
    | UpdateFailed(image: Value)  // the presence client raised, caught by the inner handler

  /** The state `update_info_loop` works on. */
  class App {
    /** The image-map document loaded at import time. */
    const config: Value
    /** Whether the presence client connected at start-up; it is never reconnected. */
    const connected: bool
    const startTs: int
    var text: string
    /** The presence updates sent so far. */
    ghost var updates: seq<Presence.Activity>

    ghost predicate Valid()
      reads this
    {
      forall i :: 0 <= i < |updates| ==> updates[i].start == startTs
    }

    /** The presence part of `RadioApp.__init__`: one connection attempt, then the clock is read. */
    constructor (config: Value, connect: Presence.Outcome, now: int)
      ensures Valid()
      ensures this.config == config && connected == connect.Succeeds? && startTs == now
      ensures text == Window.NowStopped && updates == []
    {
      this.config := config;
      connected := connect.Succeeds?;
      startTs := now;
      text := Window.NowStopped;
      updates := [];
    }

    /** One iteration of `update_info_loop`; `response` is the decoded answer (`None` when the request
        or decoding raised) and `sent` the outcome of the presence call. The text is set before the
        presence step, so a failing image choice or update leaves it set. */
    method InfoTick(response: Option<Value>, sent: Presence.Outcome) returns (outcome: Tick)
      requires Valid()
      modifies this
      ensures Valid()
      ensures response.None? ==> outcome == FetchFailed
      ensures response.Some? && Extract(response.value).Raised? ==> outcome == ExtractFailed
      ensures outcome in {FetchFailed, ExtractFailed} ==> text == old(text) && updates == old(updates)
      ensures response.Some? && Extract(response.value).Ok? ==>
        var s := Extract(response.value).value;
        && text == Label(s)
        && (!connected ==> outcome == NoPresence && updates == old(updates))
        && (connected ==>
              match Choice(config, s.title, s.live)
              case Raised => outcome == ImageFailed && updates == old(updates)
              case Ok(img) =>
                && updates == old(updates) + [Presence.Activity(Presence.Details(s.title, s.artist),
                                                                Presence.ListenerLine(s.listeners), startTs, img, "InsporaRadio")]
                && outcome == (if sent.Succeeds? then Updated(img) else UpdateFailed(img)))
    {
      if response.None? {
        return FetchFailed;
      }
      var snap := Extract(response.value);
      if snap.Raised? {
        return ExtractFailed;
      }
      var s := snap.value;
      text := Label(s);
      if !connected {
        return NoPresence;
      }
      var img := ChooseImage(config, s.title, s.live);
      if img.Raised? {
        return ImageFailed;
      }
      updates := updates + [Presence.Activity(Presence.Details(s.title, s.artist), Presence.ListenerLine(s.listeners),
                                              startTs, img.value, "InsporaRadio")];
      outcome := if sent.Succeeds? then Updated(img.value) else UpdateFailed(img.value);
    }
  }
}
