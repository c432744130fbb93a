/** The station catalog (utils.py): loading with a built-in fallback, listing and picking stations. */
module Catalog {
  import opened Wrappers
  import opened Json
  import Config

  const FallbackName := "InsporaRadio"

  /** The one-station catalog used when the hosted one is unusable. */
  const FallbackCatalog := Object([
    ("default", Str(FallbackName)),
    ("stations", Object([(FallbackName, Object([("stream_url", Str(Config.StreamUrl)), ("nowplaying_url", Str(Config.ApiUrl))]))]))])

  /** A catalog whose `"stations"` entry is a dict. */
  predicate HasStationDict(v: Value) {
    v.Object? && Lookup(v.fields, "stations").Some? && Lookup(v.fields, "stations").value.Object?
  }

  /** `load_stations`: the fetched document when it is truthy and its `"stations"` is a dict (even an
      empty one); the fallback when it is missing or falsy or has no such dict; a truthy document that
      is not a dict makes `data.get` raise. */
  function LoadStations(fetched: Option<Value>): Result<Value> {
    if fetched.None? || !Truthy(fetched.value) then Ok(FallbackCatalog)
    else if !fetched.value.Object? then Raised
    else if Get(fetched.value.fields, "stations", Null).Object? then Ok(fetched.value)
    else Ok(FallbackCatalog)
  }

  /** The loaded catalog always has a `"stations"` dict; it is the fetched document itself exactly when
      that is a truthy dict whose `"stations"` is a dict, the fallback when the fetch failed or gave a
      falsy or otherwise unusable dict, and the only way to raise is a truthy document that is not a dict. */
  lemma LoadStationsShape(fetched: Option<Value>)
    ensures LoadStations(fetched).Raised? <==> fetched.Some? && Truthy(fetched.value) && !fetched.value.Object?
    ensures fetched.None? || !Truthy(fetched.value) ==> LoadStations(fetched) == Ok(FallbackCatalog)
    ensures fetched.Some? && Truthy(fetched.value) && fetched.value.Object? ==>
      LoadStations(fetched) == (if HasStationDict(fetched.value) then Ok(fetched.value) else Ok(FallbackCatalog))
    ensures LoadStations(fetched).Ok? ==> HasStationDict(LoadStations(fetched).value)
    ensures LoadStations(fetched).Ok? ==> LoadStations(fetched).value in {FallbackCatalog, OrElse(fetched, Null)}
  {
    assert HasStationDict(FallbackCatalog);
  }

  /** The fallback catalog names exactly one station, "InsporaRadio", marked as the default, whose
      descriptor streams from the configured stream URL and polls the configured now-playing URL. */
  lemma FallbackIsSingleStation(name: Value)
    requires !name.Array? && !name.Object?
    ensures StationNames(FallbackCatalog) == Ok([FallbackName])
    ensures Get(FallbackCatalog.fields, "default", Null) == Str(FallbackName)
    ensures StationOf(FallbackCatalog, name) ==
      Ok(Object([("stream_url", Str(Config.StreamUrl)), ("nowplaying_url", Str(Config.ApiUrl))]))
  {
    var fs := FallbackCatalog.fields;
    var sts := [(FallbackName, Object([("stream_url", Str(Config.StreamUrl)), ("nowplaying_url", Str(Config.ApiUrl))]))];
    assert fs[1..] == [("stations", Object(sts))];
    assert Lookup(fs, "stations") == Some(Object(sts));
    assert Keys(sts) == [FallbackName];
    if name.Str? && name.s != FallbackName {
      assert Lookup(sts[1..], name.s) == None;
      assert Lookup(sts, name.s) == None;
    }
  }

  /** A catalog whose `"stations"` is an empty dict is kept as it is, and picking any station then
      raises (the eagerly evaluated `next(iter(...))` on no values). */
  lemma EmptyStationsKept(name: Value)
    ensures LoadStations(Some(Object([("stations", Object([]))]))) == Ok(Object([("stations", Object([]))]))
    ensures StationOf(Object([("stations", Object([]))]), name) == Raised
  {
  }

  /** `get_station_names`: the keys of `"stations"` in catalog order, `[]` when it is missing;
      `.keys()` raises on anything but a dict. */
  function StationNames(catalog: Value): Result<seq<string>> {
    if !catalog.Object? then Raised
    else
      var stations := Get(catalog.fields, "stations", Object([]));
      if stations.Object? then Ok(Keys(stations.fields)) else Raised
  }

  /** A catalog without a `"stations"` key lists no names. */
  lemma MissingStationsNoNames(fs: Entries)
    requires "stations" !in Keys(fs)
    ensures StationNames(Object(fs)) == Ok([])
  {
    LookupFindsFirst(fs, "stations");
  }

  /** The names listed are those of the catalog's stations, in order, each once for a dict. */
  lemma StationNamesInOrder(catalog: Value)
    requires WellFormed(catalog) && HasStationDict(catalog)
    ensures var sts := Lookup(catalog.fields, "stations").value.fields;
      && StationNames(catalog) == Ok(Keys(sts))
      && |StationNames(catalog).value| == |sts|
      && Distinct(StationNames(catalog).value)
      && forall i :: 0 <= i < |sts| ==> StationNames(catalog).value[i] == sts[i].0
  {
    WellFormedGet(catalog.fields, "stations", Object([]));
  }

  /** `get_station`: `stations["stations"].get(name, <first descriptor>)`. The default argument is
      evaluated first, so an empty dict raises; a list or dict name is unhashable and raises; a name
      that is not a string never equals a JSON key. */
  function StationOf(catalog: Value, name: Value): Result<Value> {
    if !catalog.Object? || Lookup(catalog.fields, "stations").None? then Raised
    else
      var stations := Lookup(catalog.fields, "stations").value;
      if !stations.Object? || stations.fields == [] then Raised
      else if name.Array? || name.Object? then Raised
      else if name.Str? && Lookup(stations.fields, name.s).Some? then Ok(Lookup(stations.fields, name.s).value)
      else Ok(stations.fields[0].1)
  }

  /** A named station is returned as listed; any other name falls back to the first station in catalog
      order; picking only raises for an empty catalog or an unhashable name. */
  lemma StationOfPicks(catalog: Value, name: Value)
    requires WellFormed(catalog) && HasStationDict(catalog)
    ensures var sts := Lookup(catalog.fields, "stations").value.fields;
      && (StationOf(catalog, name).Raised? <==> sts == [] || name.Array? || name.Object?)
      && (forall i :: 0 <= i < |sts| && name == Str(sts[i].0) ==> StationOf(catalog, name) == Ok(sts[i].1))
      && (sts != [] && !name.Array? && !name.Object? && (forall i :: 0 <= i < |sts| ==> name != Str(sts[i].0))
          ==> StationOf(catalog, name) == Ok(sts[0].1))
  {
    var sts := Lookup(catalog.fields, "stations").value.fields;
    WellFormedGet(catalog.fields, "stations", Object([]));
    LookupFindsFirst(catalog.fields, "stations");
    forall i | 0 <= i < |sts| && name == Str(sts[i].0) ensures StationOf(catalog, name) == Ok(sts[i].1) {
      LookupDistinct(sts, i);
    }
    if name.Str? && sts != [] && (forall i :: 0 <= i < |sts| ==> name != Str(sts[i].0)) {
      LookupFindsFirst(sts, name.s);
    }
  }
}
