/**
 * WordPress transients as they sit in the options table: `set_transient($key, $v, $ttl)`
 * writes the row `_transient_<key>` holding the value and the row
 * `_transient_timeout_<key>` holding the expiry time; `get_transient` treats a row whose
 * expiry has passed as absent; `delete_transient` removes both rows. The table is a map
 * from option name to row, so a bulk delete by name prefix is a filter on its keys.
 */
module Transients {
  import opened Wrappers
  import opened Remote

  /** WordPress `DAY_IN_SECONDS`, the lifetime of every transient the updater sets. */
  const DAY_IN_SECONDS: int := 86400

  /** An options-table row: a stored HTTP response, a stored string, or an expiry time. */
  datatype Row =
    | StoredResponse(response: Response)
    | StoredText(text: string)
    | Timeout(expiresAt: int)

  type Table = map<string, Row>

  function ValueName(key: string): string {
    "_transient_" + key
  }

  function TimeoutName(key: string): string {
    "_transient_timeout_" + key
  }

  /** The two rows of one transient are different rows. */
  lemma RowsOfOneKeyDiffer(key: string)
    ensures ValueName(key) != TimeoutName(key)
  {
    assert |ValueName(key)| < |TimeoutName(key)|;
  }

  predicate Expired(t: Table, key: string, now: int) {
    TimeoutName(key) in t && t[TimeoutName(key)].Timeout? && t[TimeoutName(key)].expiresAt < now
  }

  /** `get_transient($key)` at time `now`: the value row, unless it is missing or expired. */
  function Get(t: Table, key: string, now: int): (r: Option<Row>)
    ensures r.Some? <==> ValueName(key) in t && !Expired(t, key, now)
    ensures r.Some? ==> r.value == t[ValueName(key)]
  {
    if ValueName(key) in t && !Expired(t, key, now) then Some(t[ValueName(key)]) else None
  }

  /** `get_transient` for a transient the updater stores as a string; any other row reads as absent. */
  function GetText(t: Table, key: string, now: int): (r: Option<string>)
    ensures r.Some? ==> Get(t, key, now) == Some(StoredText(r.value))
    ensures Get(t, key, now).None? ==> r.None?
    ensures Get(t, key, now).Some? && Get(t, key, now).value.StoredText? ==> r == Some(Get(t, key, now).value.text)
  {
    match Get(t, key, now)
    case Some(StoredText(s)) => Some(s)
    case _ => None
  }

  /** `set_transient($key, $v, $ttl)` at time `now`. */
  function Set(t: Table, key: string, v: Row, ttl: int, now: int): Table {
    t[ValueName(key) := v][TimeoutName(key) := Timeout(now + ttl)]
  }

  /** `delete_transient($key)`. */
  function Delete(t: Table, key: string): Table {
    t - {ValueName(key), TimeoutName(key)}
  }

  /** `t` and `r` agree on every row outside `names`. */
  ghost predicate SameOutside(t: Table, r: Table, names: set<string>) {
    forall k :: k !in names ==> (k in t <==> k in r) && (k in t ==> t[k] == r[k])
  }

  /** The two rows of a transient. */
  function RowsOf(key: string): set<string> {
    {ValueName(key), TimeoutName(key)}
  }

  /** Agreement outside a set of rows composes. */
  lemma SameOutsideTrans(a: Table, b: Table, c: Table, n1: set<string>, n2: set<string>)
    requires SameOutside(a, b, n1) && SameOutside(b, c, n2)
    ensures SameOutside(a, c, n1 + n2)
  {
  }

  /** A value just set is read back until it expires, and only its two rows change. */
  lemma SetThenGet(t: Table, key: string, v: Row, ttl: int, now: int, later: int)
    requires now <= later <= now + ttl
    ensures Get(Set(t, key, v, ttl, now), key, later) == Some(v)
    ensures SameOutside(t, Set(t, key, v, ttl, now), RowsOf(key))
  {
    RowsOfOneKeyDiffer(key);
  }

  /** A transient whose rows are untouched by a set reads the same before and after it. */
  lemma GetAfterSetElsewhere(t: Table, key: string, v: Row, ttl: int, now: int, other: string, at: int)
    requires RowsOf(key) !! RowsOf(other)
    ensures Get(Set(t, key, v, ttl, now), other, at) == Get(t, other, at)
  {
  }

  /** A deleted transient is absent, and only its two rows go. */
  lemma DeleteThenGet(t: Table, key: string, at: int)
    ensures Get(Delete(t, key), key, at).None?
    ensures SameOutside(t, Delete(t, key), RowsOf(key))
  {
  }

  /** The option-name prefixes of every transient whose key starts with `cacheKey`. */
  predicate OwnedBy(name: string, cacheKey: string) {
    ValueName(cacheKey) <= name || TimeoutName(cacheKey) <= name
  }

  /**
   * The forced invalidation: every row whose name begins with `_transient_<cacheKey>` or
   * `_transient_timeout_<cacheKey>` is removed and every other row survives.
   */
  function Purge(t: Table, cacheKey: string): (r: Table)
    ensures forall k :: k in r <==> k in t && !OwnedBy(k, cacheKey)
    ensures forall k :: k in r ==> r[k] == t[k]
  {
    map k | k in t && !OwnedBy(k, cacheKey) :: t[k]
  }

  lemma PrefixOfConcat(a: string, b: string, c: string)
    ensures a + b <= a + (b + c)
  {
    assert (a + (b + c))[..|a + b|] == a + b;
  }

  /** After the purge no transient of the updater can be read, expired or not. */
  lemma PurgeMisses(t: Table, cacheKey: string, suffix: string, at: int)
    ensures ValueName(cacheKey + suffix) !in Purge(t, cacheKey)
    ensures TimeoutName(cacheKey + suffix) !in Purge(t, cacheKey)
    ensures Get(Purge(t, cacheKey), cacheKey + suffix, at).None?
  {
    PrefixOfConcat("_transient_", cacheKey, suffix);
    PrefixOfConcat("_transient_timeout_", cacheKey, suffix);
  }

  /** Rows outside the updater's prefixes are untouched by the purge. */
  lemma PurgeKeepsForeign(t: Table, cacheKey: string, name: string)
    requires name in t && !OwnedBy(name, cacheKey)
    ensures name in Purge(t, cacheKey) && Purge(t, cacheKey)[name] == t[name]
  {
  }

  /** Purging twice is purging once. */
  lemma PurgeIdempotent(t: Table, cacheKey: string)
    ensures Purge(Purge(t, cacheKey), cacheKey) == Purge(t, cacheKey)
  {
  }

  // ---------------------------------------------------------------------------
  // The purge as the SQL writes it. The patterns `'_transient_' . cache_key . '%'`
  // and `'_transient_timeout_' . cache_key . '%'` go to LIKE unescaped, and in a LIKE
  // pattern `_` matches any one character, so the statement also deletes rows that
  // merely resemble the updater's prefix.
  // ---------------------------------------------------------------------------

  /** `name LIKE pattern%` for a pattern with no `%` of its own: `_` matches any one character. */
  predicate LikePrefix(pattern: string, name: string) {
    |pattern| <= |name| && forall i :: 0 <= i < |pattern| ==> pattern[i] == '_' || pattern[i] == name[i]
  }

  /** `DELETE ... WHERE option_name LIKE '_transient_<cacheKey>%' OR option_name LIKE '_transient_timeout_<cacheKey>%'`. */
  function PurgeAsWritten(t: Table, cacheKey: string): (r: Table)
    ensures forall k :: k in r <==> k in t && !LikePrefix(ValueName(cacheKey), k) && !LikePrefix(TimeoutName(cacheKey), k)
    ensures forall k :: k in r ==> r[k] == t[k]
  {
    map k | k in t && !LikePrefix(ValueName(cacheKey), k) && !LikePrefix(TimeoutName(cacheKey), k) :: t[k]
  }

  /** A literal prefix is also a LIKE match. */
  lemma LiteralPrefixIsLike(pattern: string, name: string)
    requires pattern <= name
    ensures LikePrefix(pattern, name)
  {
  }

  /** The statement deletes at least every row the intended purge deletes. */
  lemma PurgeAsWrittenCoversPurge(t: Table, cacheKey: string)
    ensures forall k :: OwnedBy(k, cacheKey) ==> k !in PurgeAsWritten(t, cacheKey)
    ensures PurgeAsWritten(t, cacheKey).Keys <= Purge(t, cacheKey).Keys
  {
    forall k | OwnedBy(k, cacheKey)
      ensures k !in PurgeAsWritten(t, cacheKey)
    {
      if ValueName(cacheKey) <= k {
        LiteralPrefixIsLike(ValueName(cacheKey), k);
      } else {
        LiteralPrefixIsLike(TimeoutName(cacheKey), k);
      }
    }
  }

  /**
   * The updater's cache key is `UNREPRESS_PREFIX . 'updates_theme_'`. Whatever the prefix,
   * a foreign transient keyed `<prefix>updates-theme-` survives the intended purge but
   * is deleted by the statement as written.
   */
  lemma PurgeAsWrittenOverreaches(t: Table, prefix: string)
    requires ValueName(prefix + "updates-theme-") in t
    ensures ValueName(prefix + "updates-theme-") in Purge(t, prefix + "updates_theme_")
    ensures ValueName(prefix + "updates-theme-") !in PurgeAsWritten(t, prefix + "updates_theme_")
  {
    var ck := prefix + "updates_theme_";
    var name := ValueName(prefix + "updates-theme-");
    var pat := ValueName(ck);
    var n := |"_transient_" + prefix|;
    assert |name| == |pat|;
    assert name[n + 7] == '-' && pat[n + 7] == '_';
    assert !(pat <= name);
    assert |TimeoutName(ck)| > |name|;
    assert !(TimeoutName(ck) <= name);
    assert LikePrefix(pat, name) by {
      forall i | 0 <= i < |pat|
        ensures pat[i] == '_' || pat[i] == name[i]
      {
        if i < n {
          assert pat[i] == ("_transient_" + prefix)[i] == name[i];
        } else {
          assert pat[i] == "updates_theme_"[i - n];
          assert name[i] == "updates-theme-"[i - n];
        }
      }
    }
  }
}
