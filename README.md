# UnrePress theme updater, modelled in Dafny

UnrePress serves WordPress theme updates from its own package index. The index is a
collection of JSON descriptors, and each descriptor points to a tag listing on a Git host.
This project models the class `UpdateThemes` (`src/Updater/UpdateThemes.php`). It covers:

- the two read-through caches, which hold transients in the WordPress options table;
- building the `updateInfo` table of pending upgrades;
- merging that table into the `update_themes` site transient;
- the two ways of invalidating the cache (after an update, and a forced purge);
- the directory fix-up run before WordPress installs an update.

The model has two layers.

- **Module `Resolver`.** Each operation is a function of the state: the options table, the
  `updateInfo` table and the log of URLs fetched. Each function returns the operation's
  result together with the new state. Lemmas about these functions state what the plugin
  promises: when it fetches, what it writes, what it leaves alone, and when a record or a
  response entry appears.
- **Module `Updater`.** The class `ThemeUpdater` performs the same steps in place. It has
  `modifies` clauses, the loops of `checkforUpdates` and `hasUpdate`, and the options table
  as a shared object. Each method is proved to leave exactly the state the `Resolver`
  function describes, so every lemma about the functions also holds of the object.

The supporting modules:

- `Transients` models `set_transient`, `get_transient` and `delete_transient` on the
  options table. A transient is two rows: `_transient_<key>` and `_transient_timeout_<key>`.
  It also models the prefix purge.
- `Versions` models `version_compare(.., .., '<')` on dotted-numeric versions.
- `Php` models `empty()`, `ltrim`, `trailingslashit` and the first-letter lower-casing.
- `Remote` models HTTP responses and their decoded bodies.
- `SourceDir` models `maybeFixSourceDir`.

The network enters as answers to requests. Within one lookup it is a function `web` from URL
to response. requestRemoteInfo and getRemoteVersion send separate requests, so a pass over
the themes takes a `Remote.Network` that gives each of the two lookups its own function. The
two GETs of the same descriptor URL can therefore disagree. The clock (`now`), the query
string, the installed themes and the result of `move_dir` are parameters.

## Model

| member | source | states |
|---|---|---|
| Php.LTrim | src/Updater/UpdateThemes.php:346-348 | `ltrim($v, 'v')` removes every leading 'v': the result is a suffix, all removed characters are 'v', and the result does not start with 'v' |
| Php.LTrimIdempotent | src/Updater/UpdateThemes.php:348 | stripping the 'v's a second time changes nothing |
| Php.UntrailingSlashIt | src/Updater/UpdateThemes.php:412 | the result is a prefix, only '/' and '\\' are removed, and none is left at the end |
| Php.TrailingSlashIt | src/Updater/UpdateThemes.php:412 | the result ends in exactly one '/' after the path with its trailing slashes removed |
| Php.AsciiLower | src/Updater/UpdateThemes.php:119 | upper-case ASCII letters map to their lower-case letters; other characters are unchanged |
| Php.FirstLetter | src/Updater/UpdateThemes.php:119 | `mb_strtolower(mb_substr($slug, 0, 1))`: empty for an empty slug, otherwise the lower-cased first character |
| Remote.IndexUrlInjective | src/Updater/UpdateThemes.php:119-124 | different slugs are fetched from different descriptor URLs |
| Versions.Split | src/Updater/UpdateThemes.php:64 | splitting a version on '.' gives at least one segment and no segment contains '.' |
| Versions.JoinSplit | src/Updater/UpdateThemes.php:64 | splitting loses nothing: joining the segments with '.' gives back the version |
| Versions.Numbers | src/Updater/UpdateThemes.php:64 | a dotted-numeric version has one number per segment |
| Versions.LexIrreflexive | src/Updater/UpdateThemes.php:64 | the segment-wise order is irreflexive |
| Versions.LexTransitive | src/Updater/UpdateThemes.php:64 | the segment-wise order is transitive |
| Versions.LexTotal | src/Updater/UpdateThemes.php:64 | two different segment lists are ordered one way or the other |
| Versions.VersionLessIrreflexive | src/Updater/UpdateThemes.php:64 | no version is lower than itself |
| Versions.VersionLessTransitive | src/Updater/UpdateThemes.php:64 | `version_compare(.., .., '<')` is transitive |
| Versions.VersionLessAsymmetric | src/Updater/UpdateThemes.php:64 | a strict upgrade is never also a downgrade |
| Versions.VersionLessTotal | src/Updater/UpdateThemes.php:64 | two dotted-numeric versions are ordered unless they have equal numbers in every segment |
| Versions.NumericNotLexical | src/Updater/UpdateThemes.php:64 | segments compare as numbers: "1.9" < "1.10" and not the reverse |
| Versions.TrailingZeroIsHigher | src/Updater/UpdateThemes.php:64 | a version followed by ".0" is strictly higher, as PHP orders "2.0" below "2.0.0" |
| Transients.Get | src/Updater/UpdateThemes.php:116 | `get_transient` returns the stored row exactly when the value row exists and its timeout has not passed |
| Transients.GetText | src/Updater/UpdateThemes.php:274 | a string transient reads back as the stored string, and as absent whenever `get_transient` misses |
| Transients.SetThenGet | src/Updater/UpdateThemes.php:136 | a value written with `set_transient` reads back until its lifetime ends, and only its two rows change |
| Transients.GetAfterSetElsewhere | src/Updater/UpdateThemes.php:350-351 | writing one transient does not change how another transient with different rows reads |
| Transients.DeleteThenGet | src/Updater/UpdateThemes.php:259-261 | a deleted transient reads as absent, and only its two rows are removed |
| Transients.Purge | src/Updater/UpdateThemes.php:376-384 | the forced purge keeps exactly the rows whose names do not start with `_transient_<cache_key>` or `_transient_timeout_<cache_key>`, with their values unchanged |
| Transients.PurgeMisses | src/Updater/UpdateThemes.php:376-384 | after the purge no transient under `cache_key` can be read |
| Transients.PurgeKeepsForeign | src/Updater/UpdateThemes.php:376-384 | every row outside the two prefixes survives the purge unchanged |
| Transients.PurgeIdempotent | src/Updater/UpdateThemes.php:376-384 | purging twice is the same as purging once |
| Transients.PurgeAsWritten | src/Updater/UpdateThemes.php:376-384 | the SQL statement as written keeps exactly the rows that match neither LIKE pattern, in which `_` matches any character |
| Transients.PurgeAsWrittenCoversPurge | src/Updater/UpdateThemes.php:376-384 | the statement as written deletes at least the rows the intended purge deletes |
| Transients.PurgeAsWrittenOverreaches | src/Updater/UpdateThemes.php:376-384 | the statement as written also deletes the foreign transient `<prefix>updates-theme-`, which the intended purge keeps |
| Resolver.VersionAndDownloadApart | src/Updater/UpdateThemes.php:350-351 | the version and download-URL transients of a slug never share a row |
| Resolver.RemoteInfo | src/Updater/UpdateThemes.php:110-142 | see the list after this table |
| Resolver.NewestTag | src/Updater/UpdateThemes.php:278-345 | the descriptor is fetched first. The chain stops with nothing at a failed fetch, an empty `tags` URL, a tag listing that is not a non-empty array, or an empty tag name. Otherwise the normalized tags URL is the second fetch and the chosen tag is returned |
| Resolver.StoreVersion | src/Updater/UpdateThemes.php:346-352 | the stripped version and the zipball URL both read back, and both get the same one-day timeout. No row outside these two transients changes |
| Resolver.RemoteVersion | src/Updater/UpdateThemes.php:272-358 | see the list after this table |
| Resolver.RemoteVersionReused | src/Updater/UpdateThemes.php:274-276 | asking again within the day returns the same version, with no fetch and no write, whatever the network now says |
| Resolver.InstalledVersion | src/Updater/UpdateThemes.php:102-108 | the installed `Version` header, or nothing when the theme is missing or its version is "" or "0" |
| Resolver.CheckThemeFrame | src/Updater/UpdateThemes.php:57-61 | checkForThemeUpdate changes only the six rows of the slug's three transients. It fetches exactly what requestRemoteInfo and then getRemoteVersion fetch |
| Resolver.CheckThemeRecord | src/Updater/UpdateThemes.php:62-93 | see the list after this table |
| Resolver.CheckThemeFetches | src/Updater/UpdateThemes.php:57-61 | a non-empty slug without a reusable descriptor transient is fetched from the index |
| Resolver.DescriptorFailureKeepsVersion | src/Updater/UpdateThemes.php:57-93 | when requestRemoteInfo's request fails on a cold cache, no record is stored. getRemoteVersion still runs on its own answers and caches the version and download URL it finds |
| Resolver.PassKeepsUpgrades | src/Updater/UpdateThemes.php:48-55 | after checkforUpdates every record is a strict upgrade, and records exist only for slugs it visited or that were already there |
| Resolver.PassKeepsRow | src/Updater/UpdateThemes.php:48-55 | a row belonging to none of the visited slugs is the same after the pass, and the fetch log only grows |
| Resolver.PassFetchesFresh | src/Updater/UpdateThemes.php:29-34 | when no visited slug has a descriptor transient, as after the forced purge, the pass fetches every non-empty slug's descriptor from the index |
| Resolver.FillChecked | src/Updater/UpdateThemes.php:204-211 | an empty `checked` is replaced by the installed version of every theme; a non-empty one is kept |
| Resolver.Reported | src/Updater/UpdateThemes.php:213-234 | a response entry exists exactly for slugs in `updateInfo` that are in `checked` with a non-empty current version below the record's non-empty version. The entry carries the slug, new version, URL, package and requirements |
| Resolver.ReportedIsStrictUpgrade | src/Updater/UpdateThemes.php:214-220 | a reported slug's current version is strictly below the new one, never equal and never above |
| Resolver.PassRecordsAreReported | src/Updater/UpdateThemes.php:204-234 | on a transient whose `checked` was empty, hasUpdate reports every record a pass stored |
| Resolver.CleanAfterUpdate | src/Updater/UpdateThemes.php:252-263 | after a theme update with `cache_results` on, exactly the six rows of `cache_key.slug`, `cache_key.'remote-version-'.slug` and `cache_key.'download-url-'.slug` are gone, for `slug = themes[0]`. Otherwise the table is unchanged |
| Resolver.CleanForcesRefetch | src/Updater/UpdateThemes.php:252-263 | after the cleanup, both lookups for the updated slug go back to the index |
| Resolver.ForceCheckPage | src/Updater/UpdateThemes.php:29-30 | the forced purge requires `page` to be 'unrepress-updater'; the page 'unrepress-updates' named in the comment does not trigger it |
| SourceDir.CorrectSource | src/Updater/UpdateThemes.php:412 | the target directory is the remote source with one trailing '/', followed by the slug |
| SourceDir.MaybeFixSourceDir | src/Updater/UpdateThemes.php:397-430 | see the list after this table |
| SourceDir.MoveErrorReturnsTarget | src/Updater/UpdateThemes.php:420-429 | as written, a `move_dir` that returns a WP_Error still hands WordPress the slug's directory, because the error object is truthy. The intended filter returns `rename_failed` there |
| SourceDir.AsWrittenNeverFails | src/Updater/UpdateThemes.php:420-429 | as written, the filter returns the original source or the slug's directory, never `rename_failed`, whatever `move_dir` returns |
| SourceDir.TargetOnlyAfterMove | src/Updater/UpdateThemes.php:419-429 | when a rename is needed, the intended filter returns a path, always the slug's directory, exactly when `move_dir` returned `true` |
| SourceDir.FixedPathNamedAfterSlug | src/Updater/UpdateThemes.php:412-424 | a returned path is either the untouched source or the slug's directory, and a rename always targets the slug's directory |
| SourceDir.FixIdempotent | src/Updater/UpdateThemes.php:414-417 | running the filter again on the path it returned renames nothing and returns that path |
| SourceDir.CorrectSourceExample | src/Updater/UpdateThemes.php:412 | "/tmp/x//" and "/tmp/x" with slug "my-theme" both give "/tmp/x/my-theme" |
| SourceDir.ArchiveDirectoryRenamed | src/Updater/UpdateThemes.php:419-429 | the archive directory "/tmp/x/owner-repo-abc123" is moved to "/tmp/x/my-theme". When `move_dir` fails with `destination_already_exists_move_dir`, the intended filter yields `rename_failed` naming the slug, and the filter as written returns "/tmp/x/my-theme" anyway |
| Updater.InstalledVersions | src/Updater/UpdateThemes.php:206-210 | the loop over `wp_get_themes()` maps every installed slug to its `Version` header |
| Updater.UpdateTransient.constructor | src/Updater/UpdateThemes.php:200-202 | a transient that is not an object is replaced by one with no `checked` and no `response` |
| Updater.ThemeUpdater.constructor | src/Updater/UpdateThemes.php:22-40 | see the list after this table |
| Updater.ThemeUpdater.RequestRemoteInfo | src/Updater/UpdateThemes.php:110-142 | result, options table and fetch log are exactly those of `Resolver.RemoteInfo` |
| Updater.ThemeUpdater.GetRemoteVersion | src/Updater/UpdateThemes.php:272-358 | with each of the eight early returns written out, result, table and fetch log are exactly those of `Resolver.RemoteVersion` |
| Updater.ThemeUpdater.CheckForThemeUpdate | src/Updater/UpdateThemes.php:57-100 | the object's new state is `Resolver.CheckTheme` of its old state |
| Updater.ThemeUpdater.CheckforUpdates | src/Updater/UpdateThemes.php:48-55 | the loop over the installed themes leaves the state `Resolver.Pass` describes |
| Updater.ThemeUpdater.HasUpdate | src/Updater/UpdateThemes.php:198-250 | `checked` becomes `FillChecked` of its old value. `response` becomes its old entries overlaid with `Reported`, so other existing entries stay untouched. The same transient object is returned, or a fresh one when none was given |
| Updater.ThemeUpdater.ReportUpdates | src/Updater/UpdateThemes.php:213-234 | the loop over `updateInfo` adds exactly the `Reported` entries to `response` |
| Updater.ThemeUpdater.ReportSlug | src/Updater/UpdateThemes.php:214-230 | one iteration writes the slug's entry exactly when the defensive re-check passes |
| Updater.ThemeUpdater.CleanAfterUpdate | src/Updater/UpdateThemes.php:252-263 | the table becomes `Resolver.CleanAfterUpdate` of the old table |
| Updater.ThemeUpdater.DeleteAllUpdateTransients | src/Updater/UpdateThemes.php:369-385 | the table becomes `Transients.Purge` of the old table |

The rows whose states cell reads "see the list after this table" state the following.

**Resolver.RemoteInfo**

- An empty slug ("" or "0") returns nothing, fetches nothing and writes nothing.
- A fetch happens exactly when the slug is non-empty and either `cache_results` is off or the transient is missing or expired.
- The only URL ever fetched is `INDEX.'themes/'.<first letter>.'/'.slug.'.json'`.
- A reused entry is decoded and nothing is written.
- A fetch fails exactly on a WP_Error, a status other than 200 or an empty body, and a failure writes nothing.
- A success stores the response with a one-day timeout and changes no other row.
- The result is always the decoding of what the descriptor transient now holds.

**Resolver.RemoteVersion**

- A cached version (the `remote-version-` transient) is returned with no fetch and no write. `cache_results` plays no part.
- Otherwise the fetches and success are those of NewestTag.
- A failure writes nothing.
- A success returns the tag name with its leading 'v's removed, stores the download URL, and gives both transients the same one-day timeout.
- The result is what the version transient then holds.

**Resolver.CheckThemeRecord**

- A record for the slug is stored exactly when all of these hold:
  - the descriptor is truthy;
  - the installed version is non-empty;
  - the latest version is non-empty;
  - installed < latest.
- The record carries the latest version, the stored download URL and the remote fields, each defaulting to '' except `last_updated`, which defaults to the time of the check. It is a strict upgrade.
- No other slug's record changes.

**SourceDir.MaybeFixSourceDir**

- With no filesystem object or no `theme` argument, the source is returned and nothing is moved.
- When the source already is the target, it is returned without a move.
- Otherwise the source is moved to the target. The result is the target when `move_dir` returns `true`. When it returns a WP_Error, the result is `rename_failed` with the message naming the slug. This is the intended behaviour; the code as written differs (see "## Findings").

**Updater.ThemeUpdater.constructor**

- `cache_key` is the prefix followed by 'updates_theme_', and `cache_results` is on.
- With `force-check=1` on the page 'unrepress-updater', the options table is purged first.
- Then one pass runs over the installed themes.
- Every stored record is a strict upgrade.
- After a forced purge, the descriptor of every theme whose slug is non-empty is fetched from the index. This is proved only when no slug's descriptor transient is one of another slug's rows (`Resolver.Separated`).

## Left out

- `getInformation` (the `themes_api` filter, lines 144-196) is not modelled. It copies descriptor fields into a WordPress object; its only decisions are three early returns.
- Hook registration (`add_filter`, `add_action`) and `Debugger::log` are not modelled, since they have no behaviour of their own.
- `wp_remote_get` and `json_decode` are not modelled.
  - A response is a WP_Error or a status, a body and its decoding.
  - The decoding keeps only what the updater reads: a descriptor object, a tag array, null, or another scalar with its truthiness.
  - The `timeout` and `Accept` request arguments are not modelled.
- `$wpdb->query` is reduced to its effect on the options table.
- `wp_get_themes` and `wp_get_theme` are inputs: a map from slug to the theme headers the updater reads, and the enumeration order of the slugs.
- `move_dir` and the filesystem are reduced to what `move_dir` returns: `true`, or a WP_Error with its code.
- `SourceDir.MaybeFixSourceDir` states the intended filter, which reports a failed move as `rename_failed`. As written, the code never reaches that branch with WordPress's `move_dir`, which returns `true` or a WP_Error. `SourceDir.MaybeFixSourceDirAsWritten` models the code as written, and "## Findings" records the difference.
- `time()`, `DAY_IN_SECONDS` expiry and `$_GET` are parameters: `now`, and the query map.
  - One `now` serves a whole call, including the constructor's pass over every theme. PHP calls `time()` on every `get_transient` and `set_transient`, so in PHP a transient can expire partway through a pass. The model does not capture that.
- Within one lookup, and across the themes of one pass, a URL gets the same answer each time it is requested. Two themes whose tag listings normalize to the same URL therefore get the same listing. In PHP each request is answered separately.
- When WordPress reads an expired transient it also deletes the row. This model reads such a transient as absent and leaves the row in place.
- `Helpers::normalizeTagUrl` and `Helpers::getNewestVersionFromTags` are given functions in `Resolver.Config`. Helpers.php is not part of this model, so nothing is claimed about which tag is chosen.
- `version_compare` is modelled only on dotted-numeric strings.
  - Segments compare as numbers, and a version that is a proper prefix of another is lower. PHP orders "2.0" below "2.0.0".
  - The model follows PHP here (`Versions.TrailingZeroIsHigher`).
  - Suffixes such as `RC`, `beta` or `pl` are not modelled. Outside the dotted-numeric domain the comparison is false, so no update is recorded or reported for such versions.
- `Versions.Numbers` reads each segment as an unbounded natural number. PHP's `version_compare` reads a segment with `strtol`, which saturates at `PHP_INT_MAX`. Two segments of 19 or more digits can therefore compare equal in PHP while the model orders them.
- `Versions.VersionLessTotal` is weaker than a total order on spellings. "1.01" and "1.1" have equal numbers, and the lemma only says the two are then not ordered.
- `Resolver.RemoteVersion` and `Resolver.RemoteInfo` read a row that is not a string, or not a stored response, as absent or as null.
  - Such a row can only appear when one slug's transient name collides with another's, for example "remote-version-x" beside "x".
  - `Resolver.Separated` excludes such collisions in `Resolver.PassFetchesFresh`.
- `mb_strtolower` is modelled on ASCII letters only; other characters keep their case.
- LIKE comparisons in MySQL are usually case-insensitive; `Transients.PurgeAsWritten` matches case-sensitively.
- The second `checked`-filling block inside `hasUpdate` (lines 237-244) is not reproduced. It is unreachable, because a slug found in `checked` means `checked` is not empty.
- The `is_wp_error($body)` test after `json_decode` (line 301) can never succeed, so it has no branch in the model.
- `$transient->response` being unset and being an empty array are the same empty map here.
- The unused `$version` and `$provider` properties are not modelled.
- `Resolver.NewestTag` treats a tag name of "0" as empty, as PHP's `if ($remoteVersion)` does. A `name` or `zipball_url` missing from the chosen tag becomes "".

## Findings

| source | as written | input that shows it | evidently intended | confidence | as-written member | corrected member |
|---|---|---|---|---|---|---|
| src/Updater/UpdateThemes.php:376-384 | `'_transient_' . cache_key . '%'` goes to LIKE without `$wpdb->esc_like`, so each `_` in the prefix matches any one character | a row `_transient_<prefix>updates-theme-` belonging to another plugin is deleted by the forced purge | delete only rows whose names literally start with `_transient_<cache_key>` or `_transient_timeout_<cache_key>` | not executed | Transients.PurgeAsWrittenOverreaches | Transients.PurgeKeepsForeign |
| src/Updater/UpdateThemes.php:420-423 | `if ($upgraded)` tests the result of `move_dir`, which is `true` on success and a WP_Error object on failure; an object is truthy in PHP, so the test always passes | source "/tmp/x/owner-repo-abc123", remote source "/tmp/x", theme "my-theme", and `move_dir` fails with `destination_already_exists_move_dir`: the filter returns "/tmp/x/my-theme" although nothing was moved there | return the WP_Error `rename_failed` when `move_dir` does not return `true` (`! is_wp_error($upgraded)` or `true === $upgraded`) | not executed | SourceDir.MoveErrorReturnsTarget | SourceDir.TargetOnlyAfterMove |
