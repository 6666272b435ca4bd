/**
 * The `UpdateThemes` object as the plugin runs it: the constructor performs the optional
 * forced invalidation and a full update pass, and the hooked methods read and change the
 * object's `updateInfo`, the WordPress options table and the update transient in place.
 * Every method is proved to leave exactly the state the functions of module Resolver
 * describe, so the properties proved there hold of the object.
 */
module Updater {
  import opened Wrappers
  import opened Php
  import opened Versions
  import opened Remote
  import opened Transients
  import opened Resolver

  /** The WordPress options table, shared by everything that stores transients. */
  class OptionsTable {
    var rows: Table

    constructor (rows: Table)
      ensures this.rows == rows
    {
      this.rows := rows;
    }
  }

  /** The `site_transient_update_themes` value: installed versions and the updates found. */
  class UpdateTransient {
    var checked: map<string, string>
    var response: map<string, ThemeUpdate>

    /** `new \stdClass()`: neither property set. */
    constructor ()
      ensures checked == map[] && response == map[]
    {
      checked := map[];
      response := map[];
    }
  }

  /** `wp_get_themes()` enumerates every installed slug exactly once, in `order`. */
  predicate Enumerates(order: seq<string>, themes: map<string, InstalledTheme>) {
    && themes.Keys == set s | s in order
    && (forall i, j :: 0 <= i < j < |order| ==> order[i] != order[j])
  }

  /** `wp_get_themes()` read into `[$slug => $theme->get('Version')]`. */
  method InstalledVersions(themes: map<string, InstalledTheme>) returns (versions: map<string, string>)
    ensures versions.Keys == themes.Keys
    ensures forall s :: s in versions ==> versions[s] == themes[s].version
  {
    versions := map[];
    var remaining := themes.Keys;
    while remaining != {}
      invariant remaining <= themes.Keys
      invariant versions.Keys == themes.Keys - remaining
      invariant forall s :: s in versions ==> versions[s] == themes[s].version
      decreases |remaining|
    {
      var slug :| slug in remaining;
      versions := versions[slug := themes[slug].version];
      remaining := remaining - {slug};
    }
  }

  /** Writing a key after a merge is writing it into the right-hand map. */
  lemma UpdateAfterMerge<K, V>(a: map<K, V>, m: map<K, V>, k: K, v: V)
    ensures (a + m)[k := v] == a + m[k := v]
  {
  }

  class ThemeUpdater {
    /** `cache_key` and the index and helpers the object works with. */
    const cfg: Config
    const db: OptionsTable
    var cacheResults: bool
    var updateInfo: map<string, UpdateRecord>
    /** Every URL fetched so far, in order. */
    ghost var requested: seq<string>

    ghost function Snapshot(): State
      reads this, db
    {
      State(db.rows, updateInfo, requested)
    }

    /**
     * `new UpdateThemes()`: on the updater's admin page with `force-check=1` the theme
     * transients are purged first; then every installed theme is checked.
     */
    constructor (prefix: string, index: string, normalizeTagUrl: string -> string,
                 newestVersionFromTags: seq<Tag> -> Tag, db: OptionsTable,
                 query: map<string, string>, themes: map<string, InstalledTheme>, order: seq<string>,
                 now: int, net: Network)
      requires Enumerates(order, themes)
      modifies db
      ensures this.db == db && cacheResults
      ensures cfg == Config(CacheKeyFor(prefix), index, normalizeTagUrl, newestVersionFromTags)
      ensures var start := if ForceCheckRequested(query) then Purge(old(db.rows), cfg.cacheKey) else old(db.rows);
              Snapshot() == Pass(cfg, true, State(start, map[], []), themes, order, now, net)
      // only strict upgrades are ever recorded
      ensures UpgradesOnly(themes, updateInfo)
      // a forced check asks the index again for every theme
      ensures ForceCheckRequested(query) && Separated(cfg, order) ==>
        forall i :: 0 <= i < |order| && !Empty(order[i]) ==> IndexUrl(cfg.index, order[i]) in requested
    {
      cfg := Config(CacheKeyFor(prefix), index, normalizeTagUrl, newestVersionFromTags);
      this.db := db;
      cacheResults := true;
      updateInfo := map[];
      requested := [];
      new;
      if ForceCheckRequested(query) {
        DeleteAllUpdateTransients();
      }
      ghost var start := Snapshot();
      CheckforUpdates(themes, order, now, net);
      PassKeepsUpgrades(cfg, true, start, themes, order, now, net);
      if ForceCheckRequested(query) && Separated(cfg, order) {
        forall i | 0 <= i < |order|
          ensures ValueName(DescriptorKey(cfg, order[i])) !in start.cache
        {
          PurgeMisses(old(db.rows), cfg.cacheKey, order[i], now);
        }
        PassFetchesFresh(cfg, true, start, themes, order, now, net);
      }
    }

    /** `requestRemoteInfo($slug)`. */
    method RequestRemoteInfo(slug: string, now: int, web: string -> Response) returns (info: Option<Json>)
      modifies db, this`requested
      ensures var s := RemoteInfo(cfg, cacheResults, old(db.rows), slug, now, web);
              info == s.result && db.rows == s.cache && requested == old(requested) + s.requested
    {
      if Empty(slug) {
        return None;
      }
      var remote := Get(db.rows, DescriptorKey(cfg, slug), now);
      if remote.None? || !cacheResults {
        var url := IndexUrl(cfg.index, slug);
        var response := web(url);
        requested := requested + [url];
        if Failed(response) {
          return None;
        }
        db.rows := Set(db.rows, DescriptorKey(cfg, slug), StoredResponse(response), DAY_IN_SECONDS, now);
        remote := Some(StoredResponse(response));
      }
      info := Some(DecodeRow(remote.value));
    }

    /** `getRemoteVersion($slug)`, failing at each of its checks in the order the source makes them. */
    method GetRemoteVersion(slug: string, now: int, web: string -> Response) returns (version: Option<string>)
      modifies db, this`requested
      ensures var s := RemoteVersion(cfg, old(db.rows), slug, now, web);
              version == s.result && db.rows == s.cache && requested == old(requested) + s.requested
    {
      version := GetText(db.rows, VersionKey(cfg, slug), now);
      if version.None? {
        var url := IndexUrl(cfg.index, slug);
        var remote := web(url);
        requested := requested + [url];
        if remote.WpError? {
          return None;
        }
        if remote.status != 200 {
          return None;
        }
        if Empty(remote.body) {
          return None;
        }
        var tagUrl := TagsUrl(remote.payload);
        if Empty(tagUrl) {
          return None;
        }
        tagUrl := cfg.normalizeTagUrl(tagUrl);
        remote := web(tagUrl);
        requested := requested + [tagUrl];
        if remote.WpError? {
          return None;
        }
        if remote.status != 200 {
          return None;
        }
        if Empty(remote.body) {
          return None;
        }
        if !NonEmptyArray(remote.payload) {
          return None;
        }
        var latestTag := cfg.newestVersionFromTags(remote.payload.items);
        if !Empty(latestTag.name) {
          var remoteVersion := LTrim(latestTag.name, 'v');
          db.rows := Set(db.rows, DownloadKey(cfg, slug), StoredText(latestTag.zipballUrl), DAY_IN_SECONDS, now);
          db.rows := Set(db.rows, VersionKey(cfg, slug), StoredText(remoteVersion), DAY_IN_SECONDS, now);
          version := Some(remoteVersion);
        } else {
          return None;
        }
      }
    }

    /** `checkForThemeUpdate($slug)`. */
    method CheckForThemeUpdate(slug: string, themes: map<string, InstalledTheme>, now: int, net: Network)
      modifies db, this`updateInfo, this`requested
      ensures Snapshot() == CheckTheme(cfg, cacheResults, old(Snapshot()), themes, slug, now, net)
    {
      ghost var info := RemoteInfo(cfg, cacheResults, db.rows, slug, now, net.descriptorGet);
      var remoteData := RequestRemoteInfo(slug, now, net.descriptorGet);
      var installedVersion := InstalledVersion(themes, slug);
      ghost var latest := RemoteVersion(cfg, info.cache, slug, now, net.versionGet);
      var latestVersion := GetRemoteVersion(slug, now, net.versionGet);
      assert remoteData == info.result && latestVersion == latest.result && db.rows == latest.cache;
      if IsTruthy(remoteData) && installedVersion.Some? && latestVersion.Some? && !Empty(latestVersion.value) {
        if VersionLess(installedVersion.value, latestVersion.value) {
          var link := GetText(db.rows, DownloadKey(cfg, slug), now);
          updateInfo := updateInfo[slug := BuildRecord(remoteData.value, themes[slug], latestVersion.value, link, now)];
        }
      }
    }

    /** One iteration of checkforUpdates: the pass over `order[..i]` becomes the pass over `order[..i + 1]`. */
    method CheckNext(themes: map<string, InstalledTheme>, order: seq<string>, i: nat, ghost start: State,
                     now: int, net: Network)
      requires i < |order|
      requires State(db.rows, updateInfo, requested) == Pass(cfg, cacheResults, start, themes, order[..i], now, net)
      modifies db, this`updateInfo, this`requested
      ensures State(db.rows, updateInfo, requested) == Pass(cfg, cacheResults, start, themes, order[..i + 1], now, net)
    {
      CheckForThemeUpdate(order[i], themes, now, net);
      PassStep(cfg, cacheResults, start, themes, order, i, now, net);
    }

    /** `checkforUpdates()`: one checkForThemeUpdate per installed theme. */
    method CheckforUpdates(themes: map<string, InstalledTheme>, order: seq<string>, now: int, net: Network)
      requires Enumerates(order, themes)
      modifies db, this`updateInfo, this`requested
      ensures Snapshot() == Pass(cfg, cacheResults, old(Snapshot()), themes, order, now, net)
    {
      ghost var start := Snapshot();
      assert order[..0] == [];
      var i := 0;
      while i < |order|
        invariant 0 <= i <= |order|
        invariant State(db.rows, updateInfo, requested) == Pass(cfg, cacheResults, start, themes, order[..i], now, net)
      {
        CheckNext(themes, order, i, start, now, net);
        i := i + 1;
      }
      assert order[..|order|] == order;
    }

    /**
     * `hasUpdate($transient)`: fills `checked` with the installed versions when it is empty,
     * then adds a `response` entry for every recorded update that is still ahead of `checked`.
     */
    method HasUpdate(transient: UpdateTransient?, themes: map<string, InstalledTheme>) returns (t: UpdateTransient)
      modifies transient
      ensures transient != null ==> t == transient
      ensures transient == null ==> fresh(t)
      ensures t.checked == FillChecked(if transient == null then map[] else old(transient.checked), themes)
      ensures t.response == (if transient == null then map[] else old(transient.response))
                            + Reported(updateInfo, t.checked)
    {
      if transient == null {
        t := new UpdateTransient();
      } else {
        t := transient;
      }
      if |t.checked| == 0 {
        var versions := InstalledVersions(themes);
        assert versions == FillChecked(map[], themes);
        t.checked := versions;
      }
      ReportUpdates(t);
    }

    /** hasUpdate's loop over `updateInfo`: one `response` entry per update still ahead of `checked`. */
    method ReportUpdates(t: UpdateTransient)
      modifies t`response
      ensures t.response == old(t.response) + Reported(updateInfo, t.checked)
    {
      ghost var before := t.response;
      var pending := updateInfo.Keys;
      ghost var done: set<string> := {};
      while pending != {}
        invariant pending <= updateInfo.Keys && done == updateInfo.Keys - pending
        invariant t.response == before + ReportedAmong(updateInfo, t.checked, done)
        decreases |pending|
      {
        var slug :| slug in pending;
        ReportedAmongStep(updateInfo, t.checked, done, slug);
        if Qualifies(t.checked, slug, updateInfo[slug]) {
          UpdateAfterMerge(before, ReportedAmong(updateInfo, t.checked, done), slug, Entry(slug, updateInfo[slug]));
        }
        ReportSlug(t, slug);
        pending := pending - {slug};
        done := done + {slug};
      }
      assert done == updateInfo.Keys;
      ReportedAmongAll(updateInfo, t.checked);
    }

    /** One iteration of hasUpdate's loop: the slug's entry is written when its version is behind. */
    method ReportSlug(t: UpdateTransient, slug: string)
      requires slug in updateInfo
      modifies t`response
      ensures Qualifies(t.checked, slug, updateInfo[slug]) ==>
                t.response == old(t.response)[slug := Entry(slug, updateInfo[slug])]
      ensures !Qualifies(t.checked, slug, updateInfo[slug]) ==> t.response == old(t.response)
    {
      if slug in t.checked {
        var currentVersion := t.checked[slug];
        var info := updateInfo[slug];
        if !Empty(currentVersion) && !Empty(info.version) && VersionLess(currentVersion, info.version) {
          t.response := t.response[slug := Entry(slug, info)];
        }
      }
    }

    /** `cleanAfterUpdate($upgrader, $options)`. */
    method CleanAfterUpdate(options: UpgradeOptions)
      modifies db
      ensures db.rows == Resolver.CleanAfterUpdate(cfg, cacheResults, old(db.rows), options)
    {
      if cacheResults && options.action == "update" && options.kind == "theme" {
        var slug := UpdatedSlug(options);
        db.rows := Delete(db.rows, DescriptorKey(cfg, slug));
        db.rows := Delete(db.rows, VersionKey(cfg, slug));
        db.rows := Delete(db.rows, DownloadKey(cfg, slug));
      }
    }

    /** `deleteAllUpdateTransients()`: every transient row under `cache_key`, with its timeout, goes. */
    method DeleteAllUpdateTransients()
      modifies db
      ensures db.rows == Purge(old(db.rows), cfg.cacheKey)
    {
      db.rows := Purge(db.rows, cfg.cacheKey);
    }
  }
}
