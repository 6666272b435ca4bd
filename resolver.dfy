/**
 * The decisions of the theme updater as functions of its state: the transients table,
 * the table of pending updates and the log of URLs fetched. Each function returns the
 * result of one operation and the state it leaves; the class in module Updater performs
 * the same steps in place and is proved equal to these functions.
 */
module Resolver {
  import opened Wrappers
  import opened Php
  import opened Versions
  import opened Remote
  import opened Transients

  /**
   * The updater's fixed configuration: its `cache_key`, the index base URL
   * (UNREPRESS_INDEX), and the two helpers `Helpers::normalizeTagUrl` and
   * `Helpers::getNewestVersionFromTags`, which this model takes as given functions.
   */
  datatype Config = Config(
    cacheKey: string,
    index: string,
    normalizeTagUrl: string -> string,
    newestVersionFromTags: seq<Tag> -> Tag)

  /** `UNREPRESS_PREFIX . 'updates_theme_'`. */
  function CacheKeyFor(prefix: string): string {
    prefix + "updates_theme_"
  }

  /** The transient holding the raw descriptor response of a slug. */
  function DescriptorKey(cfg: Config, slug: string): string {
    cfg.cacheKey + slug
  }

  /** The transient holding the resolved latest version of a slug. */
  function VersionKey(cfg: Config, slug: string): string {
    cfg.cacheKey + "remote-version-" + slug
  }

  /** The transient holding the download URL of that version. */
  function DownloadKey(cfg: Config, slug: string): string {
    cfg.cacheKey + "download-url-" + slug
  }

  /** Every options row the updater can write on behalf of one slug. */
  function Footprint(cfg: Config, slug: string): set<string> {
    RowsOf(DescriptorKey(cfg, slug)) + RowsOf(VersionKey(cfg, slug)) + RowsOf(DownloadKey(cfg, slug))
  }

  /** The version and download transients of a slug never share a row (their names differ in length). */
  lemma VersionAndDownloadApart(cfg: Config, slug: string)
    ensures RowsOf(VersionKey(cfg, slug)) !! RowsOf(DownloadKey(cfg, slug))
  {
    var n := |cfg.cacheKey| + |slug|;
    assert |ValueName(VersionKey(cfg, slug))| == 26 + n;
    assert |TimeoutName(VersionKey(cfg, slug))| == 34 + n;
    assert |ValueName(DownloadKey(cfg, slug))| == 24 + n;
    assert |TimeoutName(DownloadKey(cfg, slug))| == 32 + n;
  }

  /** The result of one operation and the state it leaves: the table and the URLs it fetched. */
  datatype Step<T> = Step(result: T, cache: Table, requested: seq<string>)

  /** The result of a chain of fetches and the URLs it fetched. */
  datatype Fetch<T> = Fetch(value: Option<T>, requested: seq<string>)

  /** `json_decode(wp_remote_retrieve_body($row))`: only a stored HTTP response has a body. */
  function DecodeRow(row: Row): Json {
    match row
    case StoredResponse(Http(_, _, payload)) => payload
    case _ => JNull
  }

  // ---------------------------------------------------------------------------
  // requestRemoteInfo
  // ---------------------------------------------------------------------------

  /**
   * `requestRemoteInfo($slug)`: the decoded descriptor (None for PHP's false), read
   * through the descriptor transient, which is bypassed when `cache_results` is off.
   */
  function RemoteInfo(cfg: Config, cacheResults: bool, cache: Table, slug: string, now: int, web: string -> Response)
    : (out: Step<Option<Json>>)
    // an empty slug changes nothing
    ensures Empty(slug) ==> out == Step(None, cache, [])
    // at most one fetch, always of the index URL of the slug
    ensures out.requested == [] || out.requested == [IndexUrl(cfg.index, slug)]
    // a fetch happens exactly when the slug is non-empty and no cached entry may be reused
    ensures out.requested == [] <==> Empty(slug) || (cacheResults && Get(cache, DescriptorKey(cfg, slug), now).Some?)
    // a reused entry is decoded and nothing is written
    ensures !Empty(slug) && out.requested == [] ==>
      out.cache == cache && out.result == Some(DecodeRow(Get(cache, DescriptorKey(cfg, slug), now).value))
    // a fetch fails exactly on a WP_Error, a non-200 status or an empty body
    ensures out.requested != [] ==> (out.result.None? <==> Failed(web(IndexUrl(cfg.index, slug))))
    // failure writes nothing
    ensures out.result.None? ==> out.cache == cache
    // whatever is returned is the decoding of what the descriptor transient now holds
    ensures out.result.Some? ==>
      Get(out.cache, DescriptorKey(cfg, slug), now).Some?
      && out.result.value == DecodeRow(Get(out.cache, DescriptorKey(cfg, slug), now).value)
    // a fresh success stores the response for a day and touches no other row
    ensures out.requested != [] && out.result.Some? ==>
      ValueName(DescriptorKey(cfg, slug)) in out.cache && TimeoutName(DescriptorKey(cfg, slug)) in out.cache
      && out.cache[ValueName(DescriptorKey(cfg, slug))] == StoredResponse(web(IndexUrl(cfg.index, slug)))
      && out.cache[TimeoutName(DescriptorKey(cfg, slug))] == Timeout(now + DAY_IN_SECONDS)
    ensures SameOutside(cache, out.cache, RowsOf(DescriptorKey(cfg, slug)))
  {
    if Empty(slug) then Step(None, cache, [])
    else
      var key := DescriptorKey(cfg, slug);
      var cached := Get(cache, key, now);
      if cached.Some? && cacheResults then Step(Some(DecodeRow(cached.value)), cache, [])
      else
        var url := IndexUrl(cfg.index, slug);
        var response := web(url);
        if Failed(response) then Step(None, cache, [url])
        else
          var cache' := Set(cache, key, StoredResponse(response), DAY_IN_SECONDS, now);
          SetThenGet(cache, key, StoredResponse(response), DAY_IN_SECONDS, now, now);
          Step(Some(response.payload), cache', [url])
  }

  /** Truthiness of what requestRemoteInfo returns: PHP's false is falsy. */
  predicate IsTruthy(info: Option<Json>) {
    info.Some? && Truthy(info.value)
  }

  // ---------------------------------------------------------------------------
  // getRemoteVersion
  // ---------------------------------------------------------------------------

  /**
   * The uncached part of `getRemoteVersion`: fetch the descriptor, follow its `tags`
   * URL, and pick the newest tag; None at the first of its failure points.
   */
  function NewestTag(cfg: Config, slug: string, web: string -> Response): (out: Fetch<Tag>)
    // the descriptor fetch comes first, the tag fetch (if any) second
    ensures |out.requested| >= 1 && out.requested[0] == IndexUrl(cfg.index, slug)
    // a failed descriptor fetch stops the chain
    ensures Failed(web(IndexUrl(cfg.index, slug))) ==> out == Fetch(None, [IndexUrl(cfg.index, slug)])
    // so does a descriptor without a non-empty `tags` URL
    ensures !Failed(web(IndexUrl(cfg.index, slug))) && Empty(TagsUrl(web(IndexUrl(cfg.index, slug)).payload)) ==>
      out == Fetch(None, [IndexUrl(cfg.index, slug)])
    // otherwise the normalized tags URL is fetched, and a failure there, a listing that is not
    // a non-empty array, or a newest tag with an empty name gives None
    ensures !Failed(web(IndexUrl(cfg.index, slug))) && !Empty(TagsUrl(web(IndexUrl(cfg.index, slug)).payload)) ==>
      var tagsUrl := cfg.normalizeTagUrl(TagsUrl(web(IndexUrl(cfg.index, slug)).payload));
      && out.requested == [IndexUrl(cfg.index, slug), tagsUrl]
      && (Failed(web(tagsUrl)) || !NonEmptyArray(web(tagsUrl).payload) ==> out.value.None?)
      && (!Failed(web(tagsUrl)) && NonEmptyArray(web(tagsUrl).payload) ==>
            var chosen := cfg.newestVersionFromTags(web(tagsUrl).payload.items);
            out.value == if Empty(chosen.name) then None else Some(chosen))
    // a tag is only ever returned with a non-empty name
    ensures out.value.Some? ==> !Empty(out.value.value.name)
  {
    var url := IndexUrl(cfg.index, slug);
    var descriptor := web(url);
    if Failed(descriptor) then Fetch(None, [url])
    else
      var tagsField := TagsUrl(descriptor.payload);
      if Empty(tagsField) then Fetch(None, [url])
      else
        var tagsUrl := cfg.normalizeTagUrl(tagsField);
        var listing := web(tagsUrl);
        if Failed(listing) || !NonEmptyArray(listing.payload) then Fetch(None, [url, tagsUrl])
        else
          var chosen := cfg.newestVersionFromTags(listing.payload.items);
          if Empty(chosen.name) then Fetch(None, [url, tagsUrl]) else Fetch(Some(chosen), [url, tagsUrl])
  }

  /** The two `set_transient` calls of a successful getRemoteVersion: download URL first, then the version. */
  function StoreVersion(cfg: Config, cache: Table, slug: string, tag: Tag, now: int): (r: Table)
    ensures GetText(r, VersionKey(cfg, slug), now) == Some(LTrim(tag.name, 'v'))
    ensures GetText(r, DownloadKey(cfg, slug), now) == Some(tag.zipballUrl)
    ensures TimeoutName(VersionKey(cfg, slug)) in r && r[TimeoutName(VersionKey(cfg, slug))] == Timeout(now + DAY_IN_SECONDS)
    ensures TimeoutName(DownloadKey(cfg, slug)) in r && r[TimeoutName(DownloadKey(cfg, slug))] == Timeout(now + DAY_IN_SECONDS)
    ensures SameOutside(cache, r, RowsOf(DownloadKey(cfg, slug)) + RowsOf(VersionKey(cfg, slug)))
  {
    var version := LTrim(tag.name, 'v');
    var withUrl := Set(cache, DownloadKey(cfg, slug), StoredText(tag.zipballUrl), DAY_IN_SECONDS, now);
    var r := Set(withUrl, VersionKey(cfg, slug), StoredText(version), DAY_IN_SECONDS, now);
    VersionAndDownloadApart(cfg, slug);
    SetThenGet(cache, DownloadKey(cfg, slug), StoredText(tag.zipballUrl), DAY_IN_SECONDS, now, now);
    GetAfterSetElsewhere(withUrl, VersionKey(cfg, slug), StoredText(version), DAY_IN_SECONDS, now, DownloadKey(cfg, slug), now);
    SetThenGet(withUrl, VersionKey(cfg, slug), StoredText(version), DAY_IN_SECONDS, now, now);
    SameOutsideTrans(cache, withUrl, r, RowsOf(DownloadKey(cfg, slug)), RowsOf(VersionKey(cfg, slug)));
    r
  }

  /**
   * `getRemoteVersion($slug)`: the latest version (None for PHP's false), read through the
   * version transient; `cache_results` plays no part here.
   */
  function RemoteVersion(cfg: Config, cache: Table, slug: string, now: int, web: string -> Response)
    : (out: Step<Option<string>>)
    // a cached version is returned as it is, with no fetch and no write
    ensures GetText(cache, VersionKey(cfg, slug), now).Some? ==>
      out == Step(GetText(cache, VersionKey(cfg, slug), now), cache, [])
    // otherwise the fetch chain runs and decides success
    ensures GetText(cache, VersionKey(cfg, slug), now).None? ==>
      out.requested == NewestTag(cfg, slug, web).requested
      && (out.result.Some? <==> NewestTag(cfg, slug, web).value.Some?)
    // all or nothing: a failure writes no row at all
    ensures out.result.None? ==> out.cache == cache
    // a fresh success strips the leading 'v's and writes both transients with the same lifetime
    ensures GetText(cache, VersionKey(cfg, slug), now).None? && out.result.Some? ==>
      var tag := NewestTag(cfg, slug, web).value.value;
      && out.result.value == LTrim(tag.name, 'v')
      && GetText(out.cache, DownloadKey(cfg, slug), now) == Some(tag.zipballUrl)
      && TimeoutName(VersionKey(cfg, slug)) in out.cache && TimeoutName(DownloadKey(cfg, slug)) in out.cache
      && out.cache[TimeoutName(VersionKey(cfg, slug))] == Timeout(now + DAY_IN_SECONDS)
      && out.cache[TimeoutName(DownloadKey(cfg, slug))] == Timeout(now + DAY_IN_SECONDS)
    // whatever is returned is what the version transient now holds
    ensures out.result.Some? ==> GetText(out.cache, VersionKey(cfg, slug), now) == out.result
    ensures SameOutside(cache, out.cache, RowsOf(DownloadKey(cfg, slug)) + RowsOf(VersionKey(cfg, slug)))
  {
    var cached := GetText(cache, VersionKey(cfg, slug), now);
    if cached.Some? then Step(cached, cache, [])
    else
      var fetched := NewestTag(cfg, slug, web);
      match fetched.value
      case None => Step(None, cache, fetched.requested)
      case Some(tag) => Step(Some(LTrim(tag.name, 'v')), StoreVersion(cfg, cache, slug, tag, now), fetched.requested)
  }

  /** Asking again before the day is over returns the same version without any fetch. */
  lemma RemoteVersionReused(cfg: Config, cache: Table, slug: string, now: int, later: int, web: string -> Response, web': string -> Response)
    requires now <= later <= now + DAY_IN_SECONDS
    requires RemoteVersion(cfg, cache, slug, now, web).result.Some?
    requires GetText(cache, VersionKey(cfg, slug), now).None?
    ensures var first := RemoteVersion(cfg, cache, slug, now, web);
            RemoteVersion(cfg, first.cache, slug, later, web') == Step(first.result, first.cache, [])
  {
    var first := RemoteVersion(cfg, cache, slug, now, web);
    var key := VersionKey(cfg, slug);
    assert first.cache[TimeoutName(key)] == Timeout(now + DAY_IN_SECONDS);
    assert GetText(first.cache, key, now) == first.result;
    RowsOfOneKeyDiffer(key);
    assert !Expired(first.cache, key, later);
    assert GetText(first.cache, key, later) == first.result;
  }

  // ---------------------------------------------------------------------------
  // getInstalledVersion and checkForThemeUpdate
  // ---------------------------------------------------------------------------

  /** The local theme data the updater reads through `wp_get_theme($slug)->get(...)`. */
  datatype InstalledTheme = InstalledTheme(
    version: string,
    name: string,
    themeUri: string,
    description: string,
    author: string,
    authorUri: string,
    tags: seq<string>,
    textDomain: string,
    template: string)

  /** `getInstalledVersion($slug)`: the installed `Version` header, None when missing or empty. */
  function InstalledVersion(themes: map<string, InstalledTheme>, slug: string): (r: Option<string>)
    ensures r.Some? <==> slug in themes && !Empty(themes[slug].version)
    ensures r.Some? ==> r.value == themes[slug].version
  {
    if slug in themes && !Empty(themes[slug].version) then Some(themes[slug].version) else None
  }

  /** `last_updated`: the descriptor's own value, or the time of the check when it has none. */
  datatype Stamp = RemoteStamp(text: string) | LocalTime(seconds: int)

  /** One entry of the `updateInfo` table. */
  datatype UpdateRecord = UpdateRecord(
    requiresWp: string,
    tested: string,
    requiresPhp: string,
    name: string,
    themeUri: string,
    description: string,
    author: string,
    authorUri: string,
    tags: seq<string>,
    textDomain: string,
    template: string,
    lastUpdated: Stamp,
    changelog: string,
    screenshot: string,
    version: string,
    downloadLink: Option<string>)

  /** The record checkForThemeUpdate stores: remote fields with `''` defaults, local fields, the new version. */
  function BuildRecord(remote: Json, theme: InstalledTheme, latest: string, downloadLink: Option<string>, now: int)
    : UpdateRecord
  {
    var d := DescriptorOf(remote);
    UpdateRecord(
      d.requiresWp.GetOr(""), d.tested.GetOr(""), d.requiresPhp.GetOr(""),
      theme.name, theme.themeUri, theme.description, theme.author, theme.authorUri,
      theme.tags, theme.textDomain, theme.template,
      if d.lastUpdated.Some? then RemoteStamp(d.lastUpdated.value) else LocalTime(now),
      d.changelog.GetOr(""), d.screenshotUrl.GetOr(""),
      latest, downloadLink)
  }

  /** The updater's whole state: the options table, `updateInfo`, and the URLs fetched so far. */
  datatype State = State(cache: Table, updateInfo: map<string, UpdateRecord>, requested: seq<string>)

  /** A record for `slug` announces a strict upgrade of the installed theme. */
  predicate IsUpgrade(themes: map<string, InstalledTheme>, slug: string, rec: UpdateRecord) {
    slug in themes && !Empty(themes[slug].version) && !Empty(rec.version)
    && VersionLess(themes[slug].version, rec.version)
  }

  /** Every record in the table announces a strict upgrade. */
  predicate UpgradesOnly(themes: map<string, InstalledTheme>, info: map<string, UpdateRecord>) {
    forall s :: s in info ==> IsUpgrade(themes, s, info[s])
  }

  /** The condition under which checkForThemeUpdate stores a record. */
  predicate Creates(info: Option<Json>, installed: Option<string>, latest: Option<string>) {
    IsTruthy(info) && installed.Some? && latest.Some? && !Empty(latest.value)
    && VersionLess(installed.value, latest.value)
  }

  /** `checkForThemeUpdate($slug)`: both lookups in order, then a record when the theme is behind. */
  function CheckTheme(cfg: Config, cacheResults: bool, st: State, themes: map<string, InstalledTheme>,
                      slug: string, now: int, net: Network): State
  {
    var info := RemoteInfo(cfg, cacheResults, st.cache, slug, now, net.descriptorGet);
    var installed := InstalledVersion(themes, slug);
    var latest := RemoteVersion(cfg, info.cache, slug, now, net.versionGet);
    var after := State(latest.cache, st.updateInfo, st.requested + info.requested + latest.requested);
    if Creates(info.result, installed, latest.result) then
      var link := GetText(latest.cache, DownloadKey(cfg, slug), now);
      after.(updateInfo := st.updateInfo[slug := BuildRecord(info.result.value, themes[slug], latest.result.value, link, now)])
    else after
  }

  /** checkForThemeUpdate writes only the slug's own transients and logs the fetches of its two lookups. */
  lemma CheckThemeFrame(cfg: Config, cacheResults: bool, st: State, themes: map<string, InstalledTheme>,
                        slug: string, now: int, net: Network)
    ensures var out := CheckTheme(cfg, cacheResults, st, themes, slug, now, net);
            SameOutside(st.cache, out.cache, Footprint(cfg, slug))
    ensures var info := RemoteInfo(cfg, cacheResults, st.cache, slug, now, net.descriptorGet);
            CheckTheme(cfg, cacheResults, st, themes, slug, now, net).requested
              == st.requested + info.requested + RemoteVersion(cfg, info.cache, slug, now, net.versionGet).requested
  {
    var info := RemoteInfo(cfg, cacheResults, st.cache, slug, now, net.descriptorGet);
    var latest := RemoteVersion(cfg, info.cache, slug, now, net.versionGet);
    SameOutsideTrans(st.cache, info.cache, latest.cache, RowsOf(DescriptorKey(cfg, slug)),
                     RowsOf(DownloadKey(cfg, slug)) + RowsOf(VersionKey(cfg, slug)));
  }

  /**
   * checkForThemeUpdate stores a record for the slug exactly when the descriptor is truthy,
   * the installed and latest versions are non-empty and installed < latest; the record
   * carries the latest version, and no other slug's record changes.
   */
  lemma CheckThemeRecord(cfg: Config, cacheResults: bool, st: State, themes: map<string, InstalledTheme>,
                         slug: string, now: int, net: Network)
    ensures
      var info := RemoteInfo(cfg, cacheResults, st.cache, slug, now, net.descriptorGet);
      var latest := RemoteVersion(cfg, info.cache, slug, now, net.versionGet);
      var out := CheckTheme(cfg, cacheResults, st, themes, slug, now, net);
      && (Creates(info.result, InstalledVersion(themes, slug), latest.result) ==>
            && slug in out.updateInfo
            && out.updateInfo == st.updateInfo[slug := out.updateInfo[slug]]
            && out.updateInfo[slug] == BuildRecord(info.result.value, themes[slug], latest.result.value,
                                                   GetText(latest.cache, DownloadKey(cfg, slug), now), now)
            && out.updateInfo[slug].version == latest.result.value
            && IsUpgrade(themes, slug, out.updateInfo[slug]))
      && (!Creates(info.result, InstalledVersion(themes, slug), latest.result) ==> out.updateInfo == st.updateInfo)
  {
  }

  /** A slug with no reusable descriptor entry is fetched from the index. */
  lemma CheckThemeFetches(cfg: Config, cacheResults: bool, st: State, themes: map<string, InstalledTheme>,
                          slug: string, now: int, net: Network)
    requires !Empty(slug) && (!cacheResults || Get(st.cache, DescriptorKey(cfg, slug), now).None?)
    ensures IndexUrl(cfg.index, slug) in CheckTheme(cfg, cacheResults, st, themes, slug, now, net).requested
    ensures st.requested <= CheckTheme(cfg, cacheResults, st, themes, slug, now, net).requested
  {
    CheckThemeFrame(cfg, cacheResults, st, themes, slug, now, net);
    var out := CheckTheme(cfg, cacheResults, st, themes, slug, now, net);
    var info := RemoteInfo(cfg, cacheResults, st.cache, slug, now, net.descriptorGet);
    assert out.requested[|st.requested|] == IndexUrl(cfg.index, slug);
  }

  /**
   * The two lookups ask the network separately: when requestRemoteInfo's request fails, no
   * record is stored, yet getRemoteVersion still runs on its own answers and caches the
   * version and download link it finds.
   */
  lemma DescriptorFailureKeepsVersion(cfg: Config, cacheResults: bool, st: State, themes: map<string, InstalledTheme>,
                                      slug: string, now: int, net: Network)
    requires !Empty(slug) && Get(st.cache, DescriptorKey(cfg, slug), now).None?
    requires GetText(st.cache, VersionKey(cfg, slug), now).None?
    requires Failed(net.descriptorGet(IndexUrl(cfg.index, slug)))
    requires NewestTag(cfg, slug, net.versionGet).value.Some?
    ensures var out := CheckTheme(cfg, cacheResults, st, themes, slug, now, net);
            var tag := NewestTag(cfg, slug, net.versionGet).value.value;
            && out.updateInfo == st.updateInfo
            && GetText(out.cache, VersionKey(cfg, slug), now) == Some(LTrim(tag.name, 'v'))
            && GetText(out.cache, DownloadKey(cfg, slug), now) == Some(tag.zipballUrl)
  {
    var info := RemoteInfo(cfg, cacheResults, st.cache, slug, now, net.descriptorGet);
    assert info.result.None? && info.cache == st.cache;
    CheckThemeRecord(cfg, cacheResults, st, themes, slug, now, net);
  }

  /** `checkforUpdates()`: checkForThemeUpdate for each installed slug, in enumeration order. */
  function Pass(cfg: Config, cacheResults: bool, st: State, themes: map<string, InstalledTheme>,
                order: seq<string>, now: int, net: Network): State
    decreases |order|
  {
    if |order| == 0 then st
    else CheckTheme(cfg, cacheResults, Pass(cfg, cacheResults, st, themes, order[..|order| - 1], now, net),
                    themes, order[|order| - 1], now, net)
  }

  /** One more slug extends the pass by one checkForThemeUpdate. */
  lemma PassStep(cfg: Config, cacheResults: bool, st: State, themes: map<string, InstalledTheme>,
                 order: seq<string>, i: nat, now: int, net: Network)
    requires i < |order|
    ensures Pass(cfg, cacheResults, st, themes, order[..i + 1], now, net)
            == CheckTheme(cfg, cacheResults, Pass(cfg, cacheResults, st, themes, order[..i], now, net), themes, order[i], now, net)
  {
    assert order[..i + 1][..i] == order[..i];
  }

  /** A pass never stores a record that is not a strict upgrade, and only for the slugs it visits. */
  lemma {:induction false} PassKeepsUpgrades(cfg: Config, cacheResults: bool, st: State, themes: map<string, InstalledTheme>,
                                            order: seq<string>, now: int, net: Network)
    requires UpgradesOnly(themes, st.updateInfo)
    ensures UpgradesOnly(themes, Pass(cfg, cacheResults, st, themes, order, now, net).updateInfo)
    ensures Pass(cfg, cacheResults, st, themes, order, now, net).updateInfo.Keys <= st.updateInfo.Keys + set s | s in order
    decreases |order|
  {
    if |order| > 0 {
      var init := order[..|order| - 1];
      PassKeepsUpgrades(cfg, cacheResults, st, themes, init, now, net);
      CheckThemeRecord(cfg, cacheResults, Pass(cfg, cacheResults, st, themes, init, now, net), themes, order[|order| - 1], now, net);
      assert forall s :: s in init ==> s in order;
    }
  }

  /** A row that belongs to none of the visited slugs is the same after the pass. */
  lemma {:induction false} PassKeepsRow(cfg: Config, cacheResults: bool, st: State, themes: map<string, InstalledTheme>,
                                       order: seq<string>, now: int, net: Network, name: string)
    requires forall i :: 0 <= i < |order| ==> name !in Footprint(cfg, order[i])
    ensures var out := Pass(cfg, cacheResults, st, themes, order, now, net);
            (name in out.cache <==> name in st.cache) && (name in st.cache ==> out.cache[name] == st.cache[name])
    ensures st.requested <= Pass(cfg, cacheResults, st, themes, order, now, net).requested
    decreases |order|
  {
    if |order| > 0 {
      var init := order[..|order| - 1];
      PassKeepsRow(cfg, cacheResults, st, themes, init, now, net, name);
      CheckThemeFrame(cfg, cacheResults, Pass(cfg, cacheResults, st, themes, init, now, net), themes, order[|order| - 1], now, net);
    }
  }

  /**
   * No slug's descriptor transient is one of another slug's rows. This fails only for
   * slugs such as "remote-version-x" beside "x", whose transients collide.
   */
  predicate Separated(cfg: Config, order: seq<string>) {
    forall i, j :: 0 <= i < |order| && 0 <= j < |order| && i != j ==>
      ValueName(DescriptorKey(cfg, order[j])) !in Footprint(cfg, order[i])
  }

  /**
   * When no visited slug has a descriptor transient (as after the forced purge), the pass
   * fetches every non-empty slug's descriptor from the index, whatever `cache_results` says.
   */
  lemma {:induction false} PassFetchesFresh(cfg: Config, cacheResults: bool, st: State, themes: map<string, InstalledTheme>,
                                           order: seq<string>, now: int, net: Network)
    requires forall i :: 0 <= i < |order| ==> ValueName(DescriptorKey(cfg, order[i])) !in st.cache
    requires Separated(cfg, order)
    ensures forall i :: 0 <= i < |order| && !Empty(order[i]) ==>
      IndexUrl(cfg.index, order[i]) in Pass(cfg, cacheResults, st, themes, order, now, net).requested
    decreases |order|
  {
    if |order| > 0 {
      var n := |order| - 1;
      var init, last := order[..n], order[n];
      assert Separated(cfg, init);
      PassFetchesFresh(cfg, cacheResults, st, themes, init, now, net);
      var mid := Pass(cfg, cacheResults, st, themes, init, now, net);
      PassKeepsRow(cfg, cacheResults, st, themes, init, now, net, ValueName(DescriptorKey(cfg, last)));
      assert Get(mid.cache, DescriptorKey(cfg, last), now).None?;
      var out := CheckTheme(cfg, cacheResults, mid, themes, last, now, net);
      CheckThemeFrame(cfg, cacheResults, mid, themes, last, now, net);
      assert mid.requested <= out.requested;
      if !Empty(last) {
        CheckThemeFetches(cfg, cacheResults, mid, themes, last, now, net);
      }
      forall i | 0 <= i < |order| && !Empty(order[i])
        ensures IndexUrl(cfg.index, order[i]) in out.requested
      {
        if i < n {
          assert order[i] == init[i];
          assert IndexUrl(cfg.index, order[i]) in mid.requested;
        }
      }
    }
  }

  // ---------------------------------------------------------------------------
  // hasUpdate
  // ---------------------------------------------------------------------------

  /** One `response[$slug]` entry of the WordPress update transient. */
  datatype ThemeUpdate = ThemeUpdate(
    theme: string,
    newVersion: string,
    url: string,
    package: Option<string>,
    requiresWp: string,
    requiresPhp: string)

  function Entry(slug: string, rec: UpdateRecord): ThemeUpdate {
    ThemeUpdate(slug, rec.version, rec.themeUri, rec.downloadLink, rec.requiresWp, rec.requiresPhp)
  }

  /** `checked` after hasUpdate: the installed versions when it was empty, unchanged otherwise. */
  function FillChecked(checked: map<string, string>, themes: map<string, InstalledTheme>): (r: map<string, string>)
    ensures |checked| > 0 ==> r == checked
    ensures |checked| == 0 ==> r.Keys == themes.Keys && forall s :: s in r ==> r[s] == themes[s].version
  {
    if |checked| == 0 then map s | s in themes :: themes[s].version else checked
  }

  /** hasUpdate's defensive re-check: listed in `checked` with a non-empty version below the record's. */
  predicate Qualifies(checked: map<string, string>, slug: string, rec: UpdateRecord) {
    slug in checked && !Empty(checked[slug]) && !Empty(rec.version) && VersionLess(checked[slug], rec.version)
  }

  /** The entries hasUpdate writes into `response`. */
  function Reported(updateInfo: map<string, UpdateRecord>, checked: map<string, string>): (r: map<string, ThemeUpdate>)
    ensures forall s :: s in r <==> s in updateInfo && Qualifies(checked, s, updateInfo[s])
    ensures forall s :: s in r ==> r[s] == Entry(s, updateInfo[s])
  {
    map s | s in updateInfo && Qualifies(checked, s, updateInfo[s]) :: Entry(s, updateInfo[s])
  }

  /** The entries hasUpdate has written once it has visited the slugs in `done`. */
  function ReportedAmong(updateInfo: map<string, UpdateRecord>, checked: map<string, string>, done: set<string>)
    : map<string, ThemeUpdate>
  {
    map s | s in updateInfo && s in done && Qualifies(checked, s, updateInfo[s]) :: Entry(s, updateInfo[s])
  }

  /** Visiting one more slug adds its entry exactly when it qualifies. */
  lemma ReportedAmongStep(updateInfo: map<string, UpdateRecord>, checked: map<string, string>, done: set<string>, slug: string)
    requires slug in updateInfo
    ensures Qualifies(checked, slug, updateInfo[slug]) ==>
      ReportedAmong(updateInfo, checked, done + {slug})
        == ReportedAmong(updateInfo, checked, done)[slug := Entry(slug, updateInfo[slug])]
    ensures !Qualifies(checked, slug, updateInfo[slug]) ==>
      ReportedAmong(updateInfo, checked, done + {slug}) == ReportedAmong(updateInfo, checked, done)
  {
  }

  lemma ReportedAmongAll(updateInfo: map<string, UpdateRecord>, checked: map<string, string>)
    ensures ReportedAmong(updateInfo, checked, updateInfo.Keys) == Reported(updateInfo, checked)
  {
  }

  /** A reported slug is strictly behind: its current version is neither equal to nor above the new one. */
  lemma ReportedIsStrictUpgrade(updateInfo: map<string, UpdateRecord>, checked: map<string, string>, slug: string)
    requires slug in Reported(updateInfo, checked)
    ensures var current, next := checked[slug], Reported(updateInfo, checked)[slug].newVersion;
            && VersionLess(current, next)
            && !VersionLess(next, current)
            && Numbers(current) != Numbers(next)
  {
    var current, next := checked[slug], updateInfo[slug].version;
    VersionLessAsymmetric(current, next);
  }

  /** Every record a pass stores is reported by hasUpdate on a transient whose `checked` was empty. */
  lemma PassRecordsAreReported(themes: map<string, InstalledTheme>, info: map<string, UpdateRecord>)
    requires UpgradesOnly(themes, info)
    ensures Reported(info, FillChecked(map[], themes)).Keys == info.Keys
  {
  }

  // ---------------------------------------------------------------------------
  // cleanAfterUpdate and the forced check
  // ---------------------------------------------------------------------------

  /** The `$options` of `upgrader_process_complete`: `action`, `type` and `themes` ("" for a missing key). */
  datatype UpgradeOptions = UpgradeOptions(action: string, kind: string, themes: seq<string>)

  /** `$options['themes'][0]`, which PHP reads as null (and concatenates as "") when the list is empty. */
  function UpdatedSlug(opts: UpgradeOptions): string {
    if |opts.themes| > 0 then opts.themes[0] else ""
  }

  /** `cleanAfterUpdate`: after a theme update, the three transients of the updated slug go. */
  function CleanAfterUpdate(cfg: Config, cacheResults: bool, cache: Table, opts: UpgradeOptions): (r: Table)
    ensures !(cacheResults && opts.action == "update" && opts.kind == "theme") ==> r == cache
    ensures cacheResults && opts.action == "update" && opts.kind == "theme" ==>
      && SameOutside(cache, r, Footprint(cfg, UpdatedSlug(opts)))
      && (forall k :: k in Footprint(cfg, UpdatedSlug(opts)) ==> k !in r)
  {
    if cacheResults && opts.action == "update" && opts.kind == "theme" then
      var slug := UpdatedSlug(opts);
      Delete(Delete(Delete(cache, DescriptorKey(cfg, slug)), VersionKey(cfg, slug)), DownloadKey(cfg, slug))
    else cache
  }

  /** After the cleanup the next lookups of the updated slug miss the cache and go to the index. */
  lemma CleanForcesRefetch(cfg: Config, cache: Table, opts: UpgradeOptions, now: int, web: string -> Response)
    requires opts.action == "update" && opts.kind == "theme" && !Empty(UpdatedSlug(opts))
    ensures var r := CleanAfterUpdate(cfg, true, cache, opts);
            && RemoteInfo(cfg, true, r, UpdatedSlug(opts), now, web).requested == [IndexUrl(cfg.index, UpdatedSlug(opts))]
            && RemoteVersion(cfg, r, UpdatedSlug(opts), now, web).requested == NewestTag(cfg, UpdatedSlug(opts), web).requested
  {
    var slug := UpdatedSlug(opts);
    var r := CleanAfterUpdate(cfg, true, cache, opts);
    assert ValueName(DescriptorKey(cfg, slug)) in Footprint(cfg, slug);
    assert ValueName(VersionKey(cfg, slug)) in Footprint(cfg, slug);
    assert Get(r, DescriptorKey(cfg, slug), now).None?;
    assert GetText(r, VersionKey(cfg, slug), now).None?;
  }

  /** The constructor's guard: `$_GET['force-check'] === '1'` and `$_GET['page'] === 'unrepress-updater'`. */
  predicate ForceCheckRequested(query: map<string, string>) {
    "force-check" in query && query["force-check"] == "1" && "page" in query && query["page"] == "unrepress-updater"
  }

  /** The guard compares the page with 'unrepress-updater'; the page 'unrepress-updates' does not trigger it. */
  lemma ForceCheckPage(query: map<string, string>)
    ensures ForceCheckRequested(query) ==> query["page"] == "unrepress-updater"
    ensures !ForceCheckRequested(query["page" := "unrepress-updates"])
  {
    assert "unrepress-updates" != "unrepress-updater" by {
      assert "unrepress-updates"[16] == 's' && "unrepress-updater"[16] == 'r';
    }
  }
}
