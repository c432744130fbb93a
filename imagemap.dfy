/** Image maps (utils.py): which display image goes with a track title or the live flag,
    and how a station's own map is laid over the global one. */
module ImageMaps {
  import opened Wrappers
  import opened Json
  import Text

  const LogoDefault := "logo_default"
  const LogoLive := "logo_live"

  /** A normalized image map: the dict {"default": ..., "live": ..., "titles": {...}}.
      `default` and `live` are whatever JSON value the document held. */
  datatype ImageMap = ImageMap(default: Value, live: Value, titles: Entries)

  /** The dict a normalized map is, with its three keys in the order the source builds them. */
  function ToValue(m: ImageMap): Value {
    Object([("default", m.default), ("live", m.live), ("titles", Object(m.titles))])
  }

  /** `normalize_image_map`: anything but a dict counts as `{}`; missing keys take the logo
      constants; a `titles` that is not a dict becomes `{}`. */
  function Normalize(v: Value): ImageMap {
    var fs := if v.Object? then v.fields else [];
    var titles := Get(fs, "titles", Object([]));
    ImageMap(Get(fs, "default", Str(LogoDefault)), Get(fs, "live", Str(LogoLive)),
             if titles.Object? then titles.fields else [])
  }

  /** The map used when no document is available. */
  const Fallback := ImageMap(Str(LogoDefault), Str(LogoLive), [])

  /** A dict's present keys are kept unchanged; absent ones take the constants. */
  lemma NormalizeKeeps(fs: Entries)
    ensures forall d :: Lookup(fs, "default") == Some(d) ==> Normalize(Object(fs)).default == d
    ensures forall l :: Lookup(fs, "live") == Some(l) ==> Normalize(Object(fs)).live == l
    ensures forall ts :: Lookup(fs, "titles") == Some(Object(ts)) ==> Normalize(Object(fs)).titles == ts
    ensures "default" !in Keys(fs) ==> Normalize(Object(fs)).default == Str(LogoDefault)
    ensures "live" !in Keys(fs) ==> Normalize(Object(fs)).live == Str(LogoLive)
    ensures Lookup(fs, "titles").Some? && !Lookup(fs, "titles").value.Object? ==> Normalize(Object(fs)).titles == []
  {
    LookupFindsFirst(fs, "default");
    LookupFindsFirst(fs, "live");
  }

  /** A value that is not a dict, and the empty dict, normalize to the fallback map. */
  lemma NormalizeEmpty(v: Value)
    requires !v.Object? || v.fields == []
    ensures Normalize(v) == Fallback
  {
  }

  /** Normalizing a normalized map changes nothing. */
  lemma NormalizeIdempotent(v: Value)
    ensures Normalize(ToValue(Normalize(v))) == Normalize(v)
  {
    ToValueLookups(Normalize(v));
  }

  /** The three entries of a normalized map's dict. */
  lemma ToValueLookups(m: ImageMap)
    ensures Lookup(ToValue(m).fields, "default") == Some(m.default)
    ensures Lookup(ToValue(m).fields, "live") == Some(m.live)
    ensures Lookup(ToValue(m).fields, "titles") == Some(Object(m.titles))
    ensures Normalize(ToValue(m)) == m
  {
    var fs := ToValue(m).fields;
    assert fs[1..] == [("live", m.live), ("titles", Object(m.titles))];
    assert fs[1..][1..] == [("titles", Object(m.titles))];
    assert Lookup(fs[1..][1..], "titles") == Some(Object(m.titles));
    assert Lookup(fs[1..], "titles") == Some(Object(m.titles));
  }

  /** `merge_image_maps`: both sides are normalized; `default`/`live` come from the override
      (which always has them, so the base's are never used); titles are `{**base, **override}`. */
  function Merge(base: Value, override: Value): ImageMap {
    var b := Normalize(base);
    var o := Normalize(override);
    var ov := ToValue(o).fields;
    ImageMap(Get(ov, "default", b.default), Get(ov, "live", b.live), PutAll(PutAll([], b.titles), o.titles))
  }

  /** The base map's `default` and `live` never reach the result: an override without
      "default" yields "logo_default", whatever the base says. */
  lemma MergeIgnoresBaseDefaults(base: Value, override: Value)
    ensures Merge(base, override).default == Normalize(override).default
    ensures Merge(base, override).live == Normalize(override).live
    ensures override.Object? && "default" !in Keys(override.fields) ==> Merge(base, override).default == Str(LogoDefault)
    ensures override.Object? && "live" !in Keys(override.fields) ==> Merge(base, override).live == Str(LogoLive)
  {
    if override.Object? {
      LookupFindsFirst(override.fields, "default");
      LookupFindsFirst(override.fields, "live");
    }
  }

  /** `{**bt, **ot}` of two dicts: exactly the keys of `bt` followed by the `ot`-only keys; on a
      collision the value from `ot` wins, and `bt`-only keys keep theirs. */
  lemma {:induction false} UnionOfDicts(bt: Entries, ot: Entries)
    requires DistinctKeys(bt) && DistinctKeys(ot)
    ensures var r := PutAll(PutAll([], bt), ot);
      && Keys(r) == Keys(bt) + Fresh(Keys(bt), Keys(ot))
      && DistinctKeys(r)
      && (forall k :: k in Keys(r) <==> k in Keys(bt) || k in Keys(ot))
      && (forall k :: Lookup(r, k) == if k in Keys(ot) then Lookup(ot, k) else Lookup(bt, k))
  {
    PutAllDisjoint([], bt);
    assert PutAll([], bt) == bt;
    var r := PutAll(bt, ot);
    PutAllKeys(bt, ot);
    FreshMembers(Keys(bt), Keys(ot));
    assert DistinctKeys(r) by {
      var ks, fr := Keys(bt), Fresh(Keys(bt), Keys(ot));
      assert Keys(r) == ks + fr;
      forall i, j | 0 <= i < j < |ks + fr| ensures (ks + fr)[i] != (ks + fr)[j] {
        if j < |ks| {
        } else if i >= |ks| {
          assert (ks + fr)[i] == fr[i - |ks|] && (ks + fr)[j] == fr[j - |ks|];
        } else {
          assert (ks + fr)[j] in fr;
        }
      }
    }
    forall k ensures Lookup(r, k) == if k in Keys(ot) then Lookup(ot, k) else Lookup(bt, k) {
      PutAllLookup(bt, ot, k);
    }
  }

  /** Merged titles are the union of the two maps' titles, with the override winning collisions
      and the base keys first in the order. */
  lemma MergeTitles(base: Value, override: Value)
    requires DistinctKeys(Normalize(base).titles) && DistinctKeys(Normalize(override).titles)
    ensures var bt, ot, r := Normalize(base).titles, Normalize(override).titles, Merge(base, override).titles;
      && Keys(r) == Keys(bt) + Fresh(Keys(bt), Keys(ot))
      && DistinctKeys(r)
      && (forall k :: k in Keys(r) <==> k in Keys(bt) || k in Keys(ot))
      && (forall k :: Lookup(r, k) == if k in Keys(ot) then Lookup(ot, k) else Lookup(bt, k))
  {
    UnionOfDicts(Normalize(base).titles, Normalize(override).titles);
  }

  /** `load_images_map`: the global map, from the fetched document or `{}` when the fetch failed. */
  function LoadGlobal(fetched: Option<Value>): ImageMap {
    Normalize(OrElse(fetched, Object([])))
  }

  /** A failed or empty global fetch leaves the fallback map. */
  lemma LoadGlobalFailure(fetched: Option<Value>)
    requires fetched.None? || !Truthy(fetched.value)
    ensures LoadGlobal(fetched) == Fallback
  {
  }

  /** One title key matches when its lowercase form occurs in the lowercased title. */
  predicate Matches(key: string, title: string) {
    Text.Contains(Text.Lower(title), Text.Lower(key))
  }

  /** The empty key matches every title. */
  lemma EmptyKeyMatches(title: string)
    ensures Matches("", title)
  {
  }

  /** The image of the first entry, in iteration order, whose key matches the title. */
  function FirstMatch(ts: Entries, title: string): Option<Value> {
    if ts == [] then None
    else if Matches(ts[0].0, title) then Some(ts[0].1)
    else FirstMatch(ts[1..], title)
  }

  /** `FirstMatch` is the first hit: it returns an image exactly when some entry matches, and
      then the image of the lowest-positioned matching entry. */
  lemma {:induction false} FirstMatchIsFirstHit(ts: Entries, title: string)
    ensures FirstMatch(ts, title).None? <==> forall i :: 0 <= i < |ts| ==> !Matches(ts[i].0, title)
    ensures forall i :: (0 <= i < |ts| && Matches(ts[i].0, title) && (forall j :: 0 <= j < i ==> !Matches(ts[j].0, title))
      ==> FirstMatch(ts, title) == Some(ts[i].1))
  {
    if ts != [] {
      FirstMatchIsFirstHit(ts[1..], title);
      forall i | 0 <= i < |ts| && Matches(ts[i].0, title) && (forall j :: 0 <= j < i ==> !Matches(ts[j].0, title))
        ensures FirstMatch(ts, title) == Some(ts[i].1)
      {
        if i > 0 {
          assert !Matches(ts[0].0, title);
          assert forall j :: 0 <= j < i - 1 ==> !Matches(ts[1..][j].0, title) by {
            forall j | 0 <= j < i - 1 ensures !Matches(ts[1..][j].0, title) {
              assert ts[1..][j] == ts[j + 1];
            }
          }
        }
      }
      if !Matches(ts[0].0, title) && FirstMatch(ts, title).None? {
        forall i | 0 <= i < |ts| ensures !Matches(ts[i].0, title) {
          if i > 0 { assert ts[i] == ts[1..][i - 1]; }
        }
      }
    }
  }

  /** What `choose_image(images_map, title, live)` returns or whether it raises:
      the live entry when `live` is truthy; otherwise the first matching title's image, else the
      default entry. Walking `titles` raises when it is not a dict, and lowering a title that is
      not a string raises as soon as there is one entry to compare. */
  function Choice(m: Entries, title: Value, live: Value): Result<Value> {
    if Truthy(live) then Ok(Get(m, "live", Str(LogoLive)))
    else
      var titles := Get(m, "titles", Object([]));
      var default := Get(m, "default", Str(LogoDefault));
      if !titles.Object? then Raised
      else if titles.fields == [] then Ok(default)
      else if !title.Str? then Raised
      else match FirstMatch(titles.fields, title.s)
        case Some(img) => Ok(img)
        case None => Ok(default)
  }

  /** The loop over the items of `titles` inside `choose_image`: lowering a title that is not a
      string raises at the first entry; otherwise the loop returns early with the image of the
      first matching key, or finds none. */
  method ScanTitles(ts: Entries, title: Value) returns (r: Result<Option<Value>>)
    ensures r.Raised? <==> ts != [] && !title.Str?
    ensures r.Ok? ==> r.value == (if title.Str? then FirstMatch(ts, title.s) else None)
  {
    var i := 0;
    while i < |ts|
      invariant 0 <= i <= |ts|
      invariant i > 0 ==> title.Str?
      invariant title.Str? ==> FirstMatch(ts[i..], title.s) == FirstMatch(ts, title.s)
    {
      if !title.Str? {
        return Raised;
      }
      if Matches(ts[i].0, title.s) {
        return Ok(Some(ts[i].1));
      }
      assert ts[i..][0] == ts[i] && ts[i..][1..] == ts[i + 1..];
      assert FirstMatch(ts[i..], title.s) == FirstMatch(ts[i + 1..], title.s);
      i := i + 1;
    }
    return Ok(None);
  }

  /** `choose_image`: the live check, then the search loop with early return, then the default. */
  method ChooseImage(m: Entries, title: Value, live: Value) returns (r: Result<Value>)
    ensures r == Choice(m, title, live)
  {
    if Truthy(live) {
      return Ok(Get(m, "live", Str(LogoLive)));
    }
    var titles := Get(m, "titles", Object([]));
    if !titles.Object? {
      return Raised;
    }
    var hit := ScanTitles(titles.fields, title);
    if hit.Raised? {
      return Raised;
    }
    if hit.value.Some? {
      return Ok(hit.value.value);
    }
    return Ok(Get(m, "default", Str(LogoDefault)));
  }

  /** Live status overrides the titles: the result is the live entry, whatever `titles` holds. */
  lemma LiveWins(m: Entries, title: Value, live: Value, titles: Value)
    requires Truthy(live)
    ensures Choice(Put(m, "titles", titles), title, live) == Choice(m, title, live)
    ensures forall l :: Lookup(m, "live") == Some(l) ==> Choice(m, title, live) == Ok(l)
    ensures "live" !in Keys(m) ==> Choice(m, title, live) == Ok(Str(LogoLive))
  {
    PutLookup(m, "titles", titles, "live");
    LookupFindsFirst(m, "live");
  }

  /** Off air, a string title gets the image of the first matching key in iteration order, and
      the default entry (or "logo_default") when no key matches. */
  lemma OffAirFirstHit(m: Entries, title: string, live: Value, ts: Entries)
    requires !Truthy(live) && Lookup(m, "titles") == Some(Object(ts))
    ensures forall i :: (0 <= i < |ts| && Matches(ts[i].0, title) && (forall j :: 0 <= j < i ==> !Matches(ts[j].0, title))
      ==> Choice(m, Str(title), live) == Ok(ts[i].1))
    ensures (forall i :: 0 <= i < |ts| ==> !Matches(ts[i].0, title))
      ==> Choice(m, Str(title), live) == Ok(Get(m, "default", Str(LogoDefault)))
  {
    FirstMatchIsFirstHit(ts, title);
  }

  /** First declared match wins, not the longest: {"A": 1, "Ab": 2} with "Abc" gives 1. */
  lemma FirstNotLongest()
    ensures Choice([("titles", Object([("A", Int(1)), ("Ab", Int(2))]))], Str("Abc"), Bool(false)) == Ok(Int(1))
  {
    assert Text.Lower("Abc") == "abc";
    assert Text.Lower("A") == "a";
    assert Matches("A", "Abc");
  }

  /** On a normalized map, `choose_image` raises exactly when it is off air, the map has titles
      and the title is not a string. */
  lemma NormalizedChoiceRaises(n: ImageMap, title: Value, live: Value)
    ensures Choice(ToValue(n).fields, title, live).Raised? <==> !Truthy(live) && n.titles != [] && !title.Str?
  {
    ToValueLookups(n);
  }

  /** `load_images_map_for_station`: the global map is loaded first; then an inline `images_map`
      dict is merged over it; else a string `images_map_url` starting with "http" has its document
      (or `{}`) merged over it; else the global map is used. A descriptor that is not a dict makes
      `station.get` raise. */
  function LoadForStation(station: Value, globalFetched: Option<Value>, stationFetched: Option<Value>): Result<ImageMap> {
    var global := LoadGlobal(globalFetched);
    if !station.Object? then Raised
    else
      var inline := Get(station.fields, "images_map", Null);
      var url := Get(station.fields, "images_map_url", Null);
      if inline.Object? then Ok(Merge(ToValue(global), inline))
      else if url.Str? && Text.StartsWith(url.s, "http") then Ok(Merge(ToValue(global), OrElse(stationFetched, Object([]))))
      else Ok(global)
  }

  /** An inline map takes precedence: the map URL and what it would fetch play no part. */
  lemma InlineBeatsUrl(fs: Entries, url: Value, g: Option<Value>, s1: Option<Value>, s2: Option<Value>)
    requires Lookup(fs, "images_map").Some? && Lookup(fs, "images_map").value.Object?
    ensures LoadForStation(Object(Put(fs, "images_map_url", url)), g, s1) == LoadForStation(Object(fs), g, s2)
    ensures LoadForStation(Object(fs), g, s1) == Ok(Merge(ToValue(LoadGlobal(g)), Lookup(fs, "images_map").value))
  {
    PutLookup(fs, "images_map_url", url, "images_map");
  }

  /** A station's map never loses a global title: the global keys come first, in order, and a key
      the station map does not mention keeps its global image. */
  lemma StationKeepsGlobalTitles(station: Value, g: Option<Value>, s: Option<Value>)
    requires WellFormed(station) && WellFormedFetch(g) && WellFormedFetch(s)
    requires LoadForStation(station, g, s).Ok?
    ensures var gt, rt := LoadGlobal(g).titles, LoadForStation(station, g, s).value.titles;
      Keys(gt) <= Keys(rt) && DistinctKeys(rt)
  {
    var global := LoadGlobal(g);
    GlobalTitlesDistinct(g);
    var fs := station.fields;
    var inline := Get(fs, "images_map", Null);
    var url := Get(fs, "images_map_url", Null);
    if inline.Object? || (url.Str? && Text.StartsWith(url.s, "http")) {
      var over := if inline.Object? then inline else OrElse(s, Object([]));
      WellFormedGet(fs, "images_map", Null);
      NormalizedTitlesDistinct(over);
      OverGlobal(global, over);
      assert LoadForStation(station, g, s).value == Merge(ToValue(global), over);
    }
  }

  /** Merging over a normalized global map keeps its titles as a prefix. */
  lemma OverGlobal(global: ImageMap, over: Value)
    requires DistinctKeys(global.titles) && DistinctKeys(Normalize(over).titles)
    ensures Keys(global.titles) <= Keys(Merge(ToValue(global), over).titles)
    ensures DistinctKeys(Merge(ToValue(global), over).titles)
  {
    ToValueLookups(global);
    MergeTitles(ToValue(global), over);
  }

  lemma GlobalTitlesDistinct(g: Option<Value>)
    requires WellFormedFetch(g)
    ensures DistinctKeys(LoadGlobal(g).titles)
  {
    NormalizedTitlesDistinct(OrElse(g, Object([])));
  }

  /** The titles of a normalized well-formed document are a dict. */
  lemma NormalizedTitlesDistinct(v: Value)
    requires WellFormed(v)
    ensures DistinctKeys(Normalize(v).titles)
  {
    if v.Object? {
      WellFormedGet(v.fields, "titles", Object([]));
    }
  }

  /** When the per-station URL cannot be fetched, the station keeps the global titles but its
      `default` and `live` fall back to the logo constants, not to the global map's. */
  lemma FailedStationFetchResetsDefaults(station: Value, g: Option<Value>, url: string)
    requires WellFormedFetch(g) && station.Object?
    requires !Get(station.fields, "images_map", Null).Object?
    requires Get(station.fields, "images_map_url", Null) == Str(url) && Text.StartsWith(url, "http")
    ensures LoadForStation(station, g, None) == Ok(ImageMap(Str(LogoDefault), Str(LogoLive), LoadGlobal(g).titles))
  {
    var global := LoadGlobal(g);
    GlobalTitlesDistinct(g);
    ToValueLookups(global);
    ToValueLookups(Normalize(Object([])));
    PutAllDisjoint([], global.titles);
    assert LoadForStation(station, g, None) == Ok(Merge(ToValue(global), Object([])));
    var o := Normalize(Object([]));
    assert o == Fallback;
    assert Normalize(ToValue(global)) == global;
    assert Merge(ToValue(global), Object([])).titles == PutAll(PutAll([], global.titles), []);
    assert PutAll(PutAll([], global.titles), []) == global.titles;
    assert Merge(ToValue(global), Object([])).default == Str(LogoDefault);
    assert Merge(ToValue(global), Object([])).live == Str(LogoLive);
  }
}
