/** The "latest release" lookup (utils.py `get_latest_release`): which version and download URL,
    if any, the hosted release document offers over the running version. */
module Releases {
  import opened Wrappers
  import opened Json
  import Text

  /** A release worth offering: the tag without its leading "v"s and the asset's download URL. */
  datatype Release = Release(version: string, url: Value)

  /** `for asset in assets`: a list yields its items, a dict its keys and a string its characters
      (both as strings); iterating anything else raises. */
  function AssetItems(assets: Value): Result<seq<Value>> {
    match assets
    case Array(xs) => Ok(xs)
    case Object(fs) => Ok(seq(|fs|, i requires 0 <= i < |fs| => Str(fs[i].0)))
    case Str(s) => Ok(seq(|s|, i requires 0 <= i < |s| => Str([s[i]])))
    case _ => Raised
  }

  /** `asset.get("name", "").lower().endswith(".exe")`, raising when the asset is not a dict or its
      name is not a string. */
  function IsExe(asset: Value): Result<bool> {
    if !asset.Object? then Raised
    else
      var name := Get(asset.fields, "name", Str(""));
      if !name.Str? then Raised else Ok(Text.EndsWith(Text.Lower(name.s), ".exe"))
  }

  /** What the asset loop leaves in `asset_url`: the `browser_download_url` of the first `.exe` asset
      (`None` when that asset has none), `None` when no asset is one. A malformed asset before the
      first `.exe` one raises. */
  function ExeUrl(items: seq<Value>): Result<Value> {
    if items == [] then Ok(Null)
    else match IsExe(items[0])
      case Raised => Raised
      case Ok(exe) =>
        if exe then Ok(Get(items[0].fields, "browser_download_url", Null)) else ExeUrl(items[1..])
  }

  /** The search stops at the first `.exe` asset, even when that asset has no URL. */
  lemma {:induction false} ExeUrlStopsAtFirst(items: seq<Value>, i: nat)
    requires i < |items| && IsExe(items[i]) == Ok(true)
    requires forall j :: 0 <= j < i ==> IsExe(items[j]) == Ok(false)
    ensures ExeUrl(items) == Ok(Get(items[i].fields, "browser_download_url", Null))
  {
    if i > 0 {
      assert IsExe(items[0]) == Ok(false);
      assert forall j :: 0 <= j < i - 1 ==> items[1..][j] == items[j + 1];
      ExeUrlStopsAtFirst(items[1..], i - 1);
    }
  }

  /** What `get_latest_release` returns for the fetched document (`None` for a failed fetch): the
      pair only when the stripped tag and the URL are both truthy and the tag differs from the
      running version as a string; every exception inside the parse gives `None`. */
  function Parse(fetched: Option<Value>, current: string): Option<Release> {
    var data := OrElse(fetched, Object([]));
    if !data.Object? then None
    else
      var rawTag := Or(Get(data.fields, "tag_name", Null), Str(""));
      if !rawTag.Str? then None
      else
        match AssetItems(Get(data.fields, "assets", Array([])))
        case Raised => None
        case Ok(items) => Offer(Text.StripLeading(rawTag.s, 'v'), ExeUrl(items), current)
  }

  /** The final test `if tag and asset_url and tag != current_version`, after the asset search. */
  function Offer(tag: string, url: Result<Value>, current: string): Option<Release> {
    match url
    case Raised => None
    case Ok(u) => if tag != "" && Truthy(u) && tag != current then Some(Release(tag, u)) else None
  }

  /** `get_latest_release`, with its tag normalization and its asset search loop that breaks at the
      first `.exe`. */
  method LatestRelease(fetched: Option<Value>, current: string) returns (r: Option<Release>)
    ensures r == Parse(fetched, current)
  {
    var data := OrElse(fetched, Object([]));
    if !data.Object? {
      return None;
    }
    var rawTag := Or(Get(data.fields, "tag_name", Null), Str(""));
    if !rawTag.Str? {
      return None;
    }
    var tag := Text.StripLeading(rawTag.s, 'v');
    var assets := AssetItems(Get(data.fields, "assets", Array([])));
    if assets.Raised? {
      return None;
    }
    var items := assets.value;
    var assetUrl := Null;
    var i := 0;
    while i < |items|
      invariant 0 <= i <= |items|
      invariant assetUrl == Null
      invariant ExeUrl(items[i..]) == ExeUrl(items)
    {
      var exe := IsExe(items[i]);
      if exe.Raised? {
        return None;
      }
      if exe.value {
        assetUrl := Get(items[i].fields, "browser_download_url", Null);
        break;
      }
      assert items[i..][1..] == items[i + 1..];
      i := i + 1;
    }
    assert ExeUrl(items) == Ok(assetUrl);
    assert Parse(fetched, current) == Offer(tag, Ok(assetUrl), current);
    if tag != "" && Truthy(assetUrl) && tag != current {
      r := Some(Release(tag, assetUrl));
    } else {
      r := None;
    }
  }

  /** A release is offered only with a non-empty version that has no leading "v", a truthy URL, and a
      version different from the running one; so an equal tag never yields one, even with an asset. */
  lemma OfferedReleases(fetched: Option<Value>, current: string)
    requires Parse(fetched, current).Some?
    ensures var r := Parse(fetched, current).value;
      r.version != "" && r.version[0] != 'v' && r.version != current && Truthy(r.url)
  {
    var data := OrElse(fetched, Object([]));
    var rawTag := Or(Get(data.fields, "tag_name", Null), Str(""));
    Text.StripLeadingRemovesRun(rawTag.s, 'v');
  }

  /** The parse of a document holding exactly a tag string and a list of assets. */
  lemma ParseTagAndAssets(tag: string, items: seq<Value>, current: string)
    ensures Parse(Some(Object([("tag_name", Str(tag)), ("assets", Array(items))])), current) ==
      Offer(Text.StripLeading(tag, 'v'), ExeUrl(items), current)
  {
    var fs := [("tag_name", Str(tag)), ("assets", Array(items))];
    var data := OrElse(Some(Object(fs)), Object([]));
    assert data == Object(fs);
    assert Lookup(fs, "tag_name") == Some(Str(tag));
    assert fs[1..] == [("assets", Array(items))];
    assert Lookup(fs[1..], "assets") == Some(Array(items));
    assert "tag_name" != "assets" by { assert |"tag_name"| != |"assets"|; }
    assert Lookup(fs, "assets") == Some(Array(items));
    assert Or(Get(fs, "tag_name", Null), Str("")) == Str(tag);
    assert AssetItems(Get(fs, "assets", Array([]))) == Ok(items);
  }

  /** One asset named `name` (no capitals) with download URL `url`. */
  lemma OneExeAsset(name: string, url: Value)
    requires forall i :: 0 <= i < |name| ==> !('A' <= name[i] <= 'Z')
    requires Text.EndsWith(name, ".exe")
    ensures ExeUrl([Object([("name", Str(name)), ("browser_download_url", url)])]) == Ok(url)
  {
    var fs := [("name", Str(name)), ("browser_download_url", url)];
    Text.LowerNoCapitals(name);
    assert fs[1..] == [("browser_download_url", url)];
    assert Lookup(fs[1..], "browser_download_url") == Some(url);
    assert "name" != "browser_download_url" by { assert |"name"| != |"browser_download_url"|; }
    assert Get(fs, "browser_download_url", Null) == url;
    assert IsExe(Object(fs)) == Ok(true);
  }

  /** The tag "v2.0.0" with one "app.exe" asset, against the running "1.0.3", offers 2.0.0 at that URL. */
  lemma ScenarioNewerRelease(tag: string, name: string, url: string, current: string)
    requires tag == "v2.0.0" && name == "app.exe" && url == "http://x/app.exe" && current == "1.0.3"
    ensures Parse(Some(Object([
        ("tag_name", Str(tag)),
        ("assets", Array([Object([("name", Str(name)), ("browser_download_url", Str(url))])]))])),
      current) == Some(Release("2.0.0", Str(url)))
  {
    assert name[|name| - 4..] == ".exe";
    OneExeAsset(name, Str(url));
    ParseTagAndAssets(tag, [Object([("name", Str(name)), ("browser_download_url", Str(url))])], current);
    assert tag[1..] == "2.0.0";
    assert Text.StripLeading(tag, 'v') == Text.StripLeading(tag[1..], 'v') == "2.0.0";
    assert "2.0.0" != current by { assert "2.0.0"[0] != current[0]; }
  }

  /** `lstrip("v")` removes every leading "v": the tag "vv2" against "2" offers nothing. */
  lemma AllLeadingVsStripped(tag: string, name: string, url: string, current: string)
    requires tag == "vv2" && name == "a.exe" && url == "u" && current == "2"
    ensures Parse(Some(Object([
        ("tag_name", Str(tag)),
        ("assets", Array([Object([("name", Str(name)), ("browser_download_url", Str(url))])]))])),
      current) == None
  {
    assert name[|name| - 4..] == ".exe";
    OneExeAsset(name, Str(url));
    ParseTagAndAssets(tag, [Object([("name", Str(name)), ("browser_download_url", Str(url))])], current);
    assert tag[1..][1..] == "2";
    assert Text.StripLeading(tag, 'v') == Text.StripLeading(tag[1..][1..], 'v') == "2";
  }

}
