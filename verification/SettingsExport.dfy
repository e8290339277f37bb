/**
Export, import into a fresh database, export again.
*/
module SettingsExport {
  import opened Options
  import opened SettingsImport
  import opened SettingsRoundTrip

  /** The documented settings keys but for the one that is secret. */
  const EXPORTED: set<string> := {
    "download_rate_limit", "upload_rate_limit", "alt_download_rate_limit", "alt_upload_rate_limit",
    "schedule_enabled", "default_destination", "min_free_space", "max_active_total", "max_active_per_engine",
    "process_order", "rss_enabled", "rss_interval_s", "auto_extract", "confirm_on_delete" }

  function ExportedSettings(db: Db): map<string, string> {
    map k | k in db.settings && k in EXPORTED :: db.settings[k]
  }

  /** The rows of a table in some order. */
  ghost predicate Lists<V(!new)>(es: seq<(string, V)>, t: map<string, V>) {
    && (forall i, j :: 0 <= i < j < |es| ==> es[i].0 != es[j].0)
    && (forall i :: 0 <= i < |es| ==> es[i].0 in t && t[es[i].0] == es[i].1)
    && (forall k :: k in t ==> exists i :: 0 <= i < |es| && es[i].0 == k)
  }

  function Enabled(db: Db): bool {
    SCHEDULE_ENABLED in db.settings && db.settings[SCHEDULE_ENABLED] == Json(true)
  }

  /** buildExport, whatever order the queries answer in. */
  ghost predicate IsExport(db: Db, d: Document) {
    && Lists(d.settings, ExportedSettings(db)) && Lists(d.categories, db.categories) && Lists(d.feeds, db.feeds)
    && Lists(d.rules, db.rules) && Lists(d.watch, db.watch)
    && d.enabled == Enabled(db) && d.cells == db.cells
  }

  /** Every stored row is one the host would store again as it is: its paths are resolved
      and inside the roots, its rule document is the normal form, its category exists. */
  ghost predicate CanonicalRows(db: Db, h: Host) {
    && (forall k :: k in db.categories ==> h.categoryName(k) && h.resolve(db.categories[k]) == Some(db.categories[k]) && h.checkCategory(k, db.categories[k]))
    && (forall k :: k in db.feeds ==> h.feed(k, db.feeds[k]) && h.checkFeed(k, db.feeds[k]))
    && (forall k :: k in db.rules ==> h.rule(k, db.rules[k]) == Some(db.rules[k]) && h.checkRule(k, db.rules[k]))
    && (forall k :: k in db.watch ==> CanonicalWatch(db, h, k))
  }

  ghost predicate CanonicalWatch(db: Db, h: Host, k: string)
    requires k in db.watch
  {
    && h.resolve(k) == Some(k) && h.resolve(db.watch[k].destination) == Some(db.watch[k].destination)
    && h.checkWatch(k, db.watch[k])
    && (db.watch[k].category.Some? ==> db.watch[k].category.value != "" && db.watch[k].category.value in db.categories)
  }

  predicate GridOk(cells: seq<int>) {
    |cells| == CELLS && forall i :: 0 <= i < |cells| ==> 0 <= cells[i] <= 2
  }

  /** And every stored setting is one its check would encode again as it is. */
  ghost predicate Canonical(db: Db, h: Host) {
    && (forall k :: k in ExportedSettings(db) ==> h.setting(k, db.settings[k]) == Accepted(k, db.settings[k]))
    && (SCHEDULE_ENABLED in db.settings ==> db.settings[SCHEDULE_ENABLED] in {Json(true), Json(false)})
    && CanonicalRows(db, h) && GridOk(db.cells)
  }

  /** A migrated database before anybody used it: seeded settings and a grid. */
  predicate Unused(db: Db) {
    db.categories == map[] && db.feeds == map[] && db.rules == map[] && db.watch == map[] && db.indexers == []
  }

  /** The prepared entries are the listed rows themselves. */
  ghost predicate Unchanged<V>(ps: seq<Entry<V>>, es: seq<(string, V)>, check: (string, V) -> bool) {
    |ps| == |es| && forall i :: 0 <= i < |es| ==> ps[i].row == Accepted(es[i].0, es[i].1) && check(es[i].0, es[i].1)
  }

  lemma {:induction false} ListedPrefix<V>(ps: seq<Entry<V>>, es: seq<(string, V)>, check: (string, V) -> bool, mode: Mode, n: nat)
    requires Unchanged(ps, es, check) && n <= |es| && forall i, j :: 0 <= i < j < |es| ==> es[i].0 != es[j].0
    ensures var t := TableAfter(map[], ps[..n], check, mode);
            && (forall k :: k in t ==> exists i :: 0 <= i < n && es[i].0 == k)
            && (forall i :: 0 <= i < n ==> es[i].0 in t && t[es[i].0] == es[i].1)
  {
    if n > 0 {
      ListedPrefix(ps, es, check, mode, n - 1);
      assert ps[..n][..n - 1] == ps[..n - 1];
      var before := TableAfter(map[], ps[..n - 1], check, mode);
      assert es[n - 1].0 !in before;
      assert TableAfter(map[], ps[..n], check, mode) == before[es[n - 1].0 := es[n - 1].1];
    }
  }

  /** From an empty table, listed rows come back whatever the mode. */
  lemma ListedRowsComeBack<V(!new)>(ps: seq<Entry<V>>, es: seq<(string, V)>, t: map<string, V>, check: (string, V) -> bool, mode: Mode)
    requires Lists(es, t) && Unchanged(ps, es, check)
    ensures TableAfter(map[], ps, check, mode) == t
  {
    ListedPrefix(ps, es, check, mode, |es|);
    assert ps[..|es|] == ps;
  }

  lemma {:induction false} LastOfListed<V>(ps: seq<Entry<V>>, es: seq<(string, V)>, check: (string, V) -> bool, n: nat, k: string)
    requires Unchanged(ps, es, check) && n <= |es| && forall i, j :: 0 <= i < j < |es| ==> es[i].0 != es[j].0
    ensures Last(ps[..n], check, k).Some? <==> exists i :: 0 <= i < n && es[i].0 == k
    ensures forall i :: 0 <= i < n && es[i].0 == k ==> Last(ps[..n], check, k) == Some(es[i].1)
  {
    if n > 0 {
      LastOfListed(ps, es, check, n - 1, k);
      assert ps[..n][..n - 1] == ps[..n - 1];
    }
  }

  lemma ListedOverSeeds(ps: seq<Entry<string>>, es: seq<(string, string)>, seeds: map<string, string>, t: map<string, string>, k: string)
    requires Lists(es, t) && Unchanged(ps, es, Unchecked)
    ensures var t' := TableAfter(seeds, ps, Unchecked, Overwrite);
            (k in t' <==> k in seeds || k in t) && (k in t ==> t'[k] == t[k]) && (k !in t && k in seeds ==> t'[k] == seeds[k])
  {
    OverwriteStoresTheLast(seeds, ps, Unchecked, k);
    LastOfListed(ps, es, Unchecked, |es|, k);
    assert ps[..|es|] == ps;
  }

  /** The rows of the uniquely keyed collections and the grid come back as they went. */
  lemma RowsRoundTrip(db: Db, d: Document, fresh0: Db, h: Host, mode: Mode)
    requires CanonicalRows(db, h) && GridOk(db.cells) && IsExport(db, d) && Unused(fresh0)
    ensures Apply(fresh0, d, h, mode).Some?
    ensures var db' := Apply(fresh0, d, h, mode).value.0; SameRows(db', db) && db'.cells == db.cells
  {
    RowsUnchanged(db, d, h);
    WatchesUnchanged(db, d, h);
    OnlyTheGridAborts(fresh0, d, h, mode);
    TablesOf(fresh0, d, h, mode);
    hide Apply, CanonicalRows, TableAfter, Lists, Unchanged, PrepareCategories, PrepareFeeds, PrepareRules, PrepareWatches;
    ListedRowsComeBack(PrepareCategories(h, d.categories), d.categories, db.categories, h.checkCategory, mode);
    ListedRowsComeBack(PrepareFeeds(h, d.feeds), d.feeds, db.feeds, h.checkFeed, mode);
    ListedRowsComeBack(PrepareRules(h, d.rules), d.rules, db.rules, h.checkRule, mode);
    ListedRowsComeBack(PrepareWatches(h, db.categories, d.watch), d.watch, db.watch, h.checkWatch, mode);
  }

  predicate SameRows(a: Db, b: Db) {
    a.categories == b.categories && a.feeds == b.feeds && a.rules == b.rules && a.watch == b.watch
  }

  lemma RowsUnchanged(db: Db, d: Document, h: Host)
    requires CanonicalRows(db, h) && IsExport(db, d)
    ensures Unchanged(PrepareCategories(h, d.categories), d.categories, h.checkCategory)
    ensures Unchanged(PrepareFeeds(h, d.feeds), d.feeds, h.checkFeed)
    ensures Unchanged(PrepareRules(h, d.rules), d.rules, h.checkRule)
  {
    forall i | 0 <= i < |d.categories| ensures d.categories[i].0 in db.categories && db.categories[d.categories[i].0] == d.categories[i].1 {
    }
    forall i | 0 <= i < |d.feeds| ensures d.feeds[i].0 in db.feeds && db.feeds[d.feeds[i].0] == d.feeds[i].1 {
    }
    forall i | 0 <= i < |d.rules| ensures d.rules[i].0 in db.rules && db.rules[d.rules[i].0] == d.rules[i].1 {
    }
  }

  lemma WatchesUnchanged(db: Db, d: Document, h: Host)
    requires CanonicalRows(db, h) && IsExport(db, d)
    ensures Unchanged(PrepareWatches(h, db.categories, d.watch), d.watch, h.checkWatch)
  {
    forall i | 0 <= i < |d.watch|
      ensures PrepareWatch(h, db.categories, d.watch[i]).row == Accepted(d.watch[i].0, d.watch[i].1) && h.checkWatch(d.watch[i].0, d.watch[i].1) {
      assert d.watch[i].0 in db.watch && db.watch[d.watch[i].0] == d.watch[i].1;
      assert CanonicalWatch(db, h, d.watch[i].0);
    }
  }

  // --------------------------------------------------------- and only those

  /** Entries that keep their listed key. */
  ghost predicate KeepKeys<V>(ps: seq<Entry<V>>, es: seq<(string, V)>) {
    |ps| == |es| && forall i :: 0 <= i < |es| && ps[i].row.Accepted? ==> ps[i].row.key == es[i].0
  }

  lemma {:induction false} StoredPrefix<V>(ps: seq<Entry<V>>, es: seq<(string, V)>, check: (string, V) -> bool, mode: Mode, n: nat)
    requires KeepKeys(ps, es) && n <= |es| && forall i, j :: 0 <= i < j < |es| ==> es[i].0 != es[j].0
    ensures var t := TableAfter(map[], ps[..n], check, mode);
            && (forall k :: k in t ==> exists i :: 0 <= i < n && es[i].0 == k)
            && (forall i :: 0 <= i < n && es[i].0 in t ==> ps[i].row == Accepted(es[i].0, t[es[i].0]) && check(es[i].0, t[es[i].0]))
  {
    if n > 0 {
      StoredPrefix(ps, es, check, mode, n - 1);
      assert ps[..n][..n - 1] == ps[..n - 1];
      var before := TableAfter(map[], ps[..n - 1], check, mode);
      assert es[n - 1].0 !in before;
      assert TableAfter(map[], ps[..n], check, mode) == Written(before, ps[n - 1], check, mode);
    }
  }

  /** From an empty table, listed rows come back only if every one is stored as it was. */
  lemma OnlyUnchangedComeBack<V(!new)>(ps: seq<Entry<V>>, es: seq<(string, V)>, t: map<string, V>, check: (string, V) -> bool, mode: Mode)
    requires Lists(es, t) && KeepKeys(ps, es) && TableAfter(map[], ps, check, mode) == t
    ensures Unchanged(ps, es, check)
  {
    StoredPrefix(ps, es, check, mode, |es|);
    assert ps[..|es|] == ps;
  }

  lemma {:induction false} StoredKeysWereAccepted<V>(ps: seq<Entry<V>>, check: (string, V) -> bool, mode: Mode, k: string)
    requires k in TableAfter(map[], ps, check, mode)
    ensures exists i :: 0 <= i < |ps| && ps[i].row.Accepted? && ps[i].row.key == k
  {
    var n := |ps| - 1;
    if k in TableAfter(map[], ps[..n], check, mode) {
      StoredKeysWereAccepted(ps[..n], check, mode, k);
      var i :| 0 <= i < n && ps[..n][i].row.Accepted? && ps[..n][i].row.key == k;
      assert ps[i].row.key == k;
    } else {
      assert ps[n].row.key == k;
    }
  }

  /** A resolved path resolves to itself. */
  ghost predicate Settles(h: Host) {
    forall p: string :: h.resolve(p).Some? ==> h.resolve(h.resolve(p).value) == h.resolve(p)
  }

  lemma WatchesKeepKeys(h: Host, categories: map<string, string>, es: seq<(string, Watch)>, t: map<string, Watch>, mode: Mode)
    requires Settles(h) && Lists(es, t) && TableAfter(map[], PrepareWatches(h, categories, es), h.checkWatch, mode) == t
    ensures KeepKeys(PrepareWatches(h, categories, es), es)
  {
    var ps := PrepareWatches(h, categories, es);
    hide TableAfter, PrepareWatch, PrepareWatches, Settles;
    forall i | 0 <= i < |es| ensures ps[i].row.Accepted? ==> ps[i].row.key == es[i].0 {
      assert es[i].0 in t;
      StoredKeysWereAccepted(ps, h.checkWatch, mode, es[i].0);
      var j :| 0 <= j < |ps| && ps[j].row.Accepted? && ps[j].row.key == es[i].0;
      WatchKeepsKey(h, categories, es, i, j);
    }
  }

  /** An entry under a key that some entry was stored under keeps it. */
  lemma WatchKeepsKey(h: Host, categories: map<string, string>, es: seq<(string, Watch)>, i: nat, j: nat)
    requires Settles(h) && i < |es| && j < |es|
    requires var p := PrepareWatches(h, categories, es)[j].row; p.Accepted? && p.key == es[i].0
    ensures var p := PrepareWatches(h, categories, es)[i].row; p.Accepted? ==> p.key == es[i].0
  {
    assert PrepareWatches(h, categories, es)[j] == PrepareWatch(h, categories, es[j]);
    assert h.resolve(es[j].0) == Some(es[i].0) && h.resolve(es[j].0).Some?;
    assert PrepareWatches(h, categories, es)[i] == PrepareWatch(h, categories, es[i]);
  }

  lemma CategoriesCanonical(db: Db, d: Document, h: Host, k: string)
    requires IsExport(db, d) && Unchanged(PrepareCategories(h, d.categories), d.categories, h.checkCategory) && k in db.categories
    ensures h.categoryName(k) && h.resolve(db.categories[k]) == Some(db.categories[k]) && h.checkCategory(k, db.categories[k])
  {
    var i :| 0 <= i < |d.categories| && d.categories[i].0 == k;
    assert PrepareCategories(h, d.categories)[i] == PrepareCategory(h, d.categories[i]);
  }

  lemma FeedsCanonical(db: Db, d: Document, h: Host, k: string)
    requires IsExport(db, d) && Unchanged(PrepareFeeds(h, d.feeds), d.feeds, h.checkFeed) && k in db.feeds
    ensures h.feed(k, db.feeds[k]) && h.checkFeed(k, db.feeds[k])
  {
    var i :| 0 <= i < |d.feeds| && d.feeds[i].0 == k;
    assert PrepareFeeds(h, d.feeds)[i] == PrepareFeed(h, d.feeds[i]);
  }

  lemma RulesCanonical(db: Db, d: Document, h: Host, k: string)
    requires IsExport(db, d) && Unchanged(PrepareRules(h, d.rules), d.rules, h.checkRule) && k in db.rules
    ensures h.rule(k, db.rules[k]) == Some(db.rules[k]) && h.checkRule(k, db.rules[k])
  {
    var i :| 0 <= i < |d.rules| && d.rules[i].0 == k;
    assert PrepareRules(h, d.rules)[i] == PrepareRule(h, d.rules[i]);
  }

  lemma WatchCanonical(db: Db, d: Document, h: Host, k: string)
    requires IsExport(db, d) && Unchanged(PrepareWatches(h, db.categories, d.watch), d.watch, h.checkWatch) && k in db.watch
    ensures CanonicalWatch(db, h, k)
  {
    var i :| 0 <= i < |d.watch| && d.watch[i].0 == k;
    assert PrepareWatches(h, db.categories, d.watch)[i] == PrepareWatch(h, db.categories, d.watch[i]);
  }

  lemma CanonicalIfUnchanged(db: Db, d: Document, h: Host)
    requires IsExport(db, d)
    requires Unchanged(PrepareCategories(h, d.categories), d.categories, h.checkCategory)
    requires Unchanged(PrepareFeeds(h, d.feeds), d.feeds, h.checkFeed)
    requires Unchanged(PrepareRules(h, d.rules), d.rules, h.checkRule)
    requires Unchanged(PrepareWatches(h, db.categories, d.watch), d.watch, h.checkWatch)
    ensures CanonicalRows(db, h)
  {
    hide IsExport, Unchanged, CanonicalWatch;
    forall k | k in db.categories
      ensures h.categoryName(k) && h.resolve(db.categories[k]) == Some(db.categories[k]) && h.checkCategory(k, db.categories[k]) {
      CategoriesCanonical(db, d, h, k);
    }
    forall k | k in db.feeds ensures h.feed(k, db.feeds[k]) && h.checkFeed(k, db.feeds[k]) {
      FeedsCanonical(db, d, h, k);
    }
    forall k | k in db.rules ensures h.rule(k, db.rules[k]) == Some(db.rules[k]) && h.checkRule(k, db.rules[k]) {
      RulesCanonical(db, d, h, k);
    }
    forall k | k in db.watch ensures CanonicalWatch(db, h, k) {
      WatchCanonical(db, d, h, k);
    }
  }

  lemma SameKeys(db: Db, d: Document, h: Host)
    ensures KeepKeys(PrepareCategories(h, d.categories), d.categories) && KeepKeys(PrepareFeeds(h, d.feeds), d.feeds)
    ensures KeepKeys(PrepareRules(h, d.rules), d.rules)
  {
  }

  lemma ListsOf(db: Db, d: Document)
    requires IsExport(db, d)
    ensures Lists(d.settings, ExportedSettings(db)) && Lists(d.categories, db.categories) && Lists(d.feeds, db.feeds) && Lists(d.rules, db.rules) && Lists(d.watch, db.watch)
  {
  }

  /** When the rows come back, exactly: if and only if every stored row is one the importing
      host stores as it is.  Another host's paths, or a rule of an older normal form, do
      not; that is what the import's rejections are for. */
  lemma RowsRoundTripExactly(db: Db, d: Document, fresh0: Db, h: Host, mode: Mode)
    requires GridOk(db.cells) && IsExport(db, d) && Unused(fresh0) && Settles(h)
    ensures Apply(fresh0, d, h, mode).Some?
    ensures SameRows(Apply(fresh0, d, h, mode).value.0, db) <==> CanonicalRows(db, h)
  {
    OnlyTheGridAborts(fresh0, d, h, mode);
    if CanonicalRows(db, h) {
      RowsRoundTrip(db, d, fresh0, h, mode);
    }
    hide Apply, CanonicalRows, Settles;
    if SameRows(Apply(fresh0, d, h, mode).value.0, db) {
      TablesOf(fresh0, d, h, mode);
      ListsOf(db, d);
      SameKeys(db, d, h);
      hide IsExport, Lists, TableAfter, KeepKeys, Unchanged, PrepareCategories, PrepareFeeds, PrepareRules, PrepareWatches;
      WatchesKeepKeys(h, db.categories, d.watch, db.watch, mode);
      OnlyUnchangedComeBack(PrepareCategories(h, d.categories), d.categories, db.categories, h.checkCategory, mode);
      OnlyUnchangedComeBack(PrepareFeeds(h, d.feeds), d.feeds, db.feeds, h.checkFeed, mode);
      OnlyUnchangedComeBack(PrepareRules(h, d.rules), d.rules, db.rules, h.checkRule, mode);
      OnlyUnchangedComeBack(PrepareWatches(h, db.categories, d.watch), d.watch, db.watch, h.checkWatch, mode);
      CanonicalIfUnchanged(db, d, h);
    }
  }

  lemma ImportedSetting(db: Db, d: Document, fresh0: Db, h: Host, mode: Mode, k: string)
    requires Canonical(db, h) && IsExport(db, d) && Apply(fresh0, d, h, mode).Some?
    ensures var s := Apply(fresh0, d, h, mode).value.0.settings;
            && (k in s <==> k in fresh0.settings || k in ExportedSettings(db) || k == SCHEDULE_ENABLED)
            && (k in ExportedSettings(db) ==> s[k] == ExportedSettings(db)[k])
  {
    hide *;
    TablesOf(fresh0, d, h, mode);
    SettingsUnchanged(db, d, h);
    ListsOf(db, d);
    FlagTravels(db, d, h);
    ListedOverSeeds(PrepareSettings(h, d.settings), d.settings, fresh0.settings, ExportedSettings(db), k);
  }

  /** The flag beside the grid is the stored one, when one is stored. */
  lemma FlagTravels(db: Db, d: Document, h: Host)
    requires Canonical(db, h) && IsExport(db, d)
    ensures SCHEDULE_ENABLED in ExportedSettings(db) ==> ExportedSettings(db)[SCHEDULE_ENABLED] == Json(d.enabled)
  {
    hide CanonicalRows, Lists;
  }

  /** The settings member comes back too, exactly when the flag that travels beside the
      grid was stored, and the fresh database seeds no exported key that was not: the
      import always writes the flag, and nothing unseeds a key. */
  lemma SettingsRoundTripExactly(db: Db, d: Document, fresh0: Db, h: Host, mode: Mode)
    requires Canonical(db, h) && IsExport(db, d) && Unused(fresh0)
    ensures Apply(fresh0, d, h, mode).Some?
    ensures ExportedSettings(Apply(fresh0, d, h, mode).value.0) == ExportedSettings(db) <==>
            SCHEDULE_ENABLED in db.settings && ExportedSettings(fresh0).Keys <= ExportedSettings(db).Keys
  {
    OnlyTheGridAborts(fresh0, d, h, mode);
    hide Apply;
    var db' := Apply(fresh0, d, h, mode).value.0;
    forall k: string
      ensures k in db'.settings <==> k in fresh0.settings || k in ExportedSettings(db) || k == SCHEDULE_ENABLED
      ensures k in ExportedSettings(db) ==> db'.settings[k] == ExportedSettings(db)[k] {
      ImportedSetting(db, d, fresh0, h, mode, k);
    }
    hide Canonical, IsExport;
    if SCHEDULE_ENABLED in db.settings && ExportedSettings(fresh0).Keys <= ExportedSettings(db).Keys {
      SameSettings(db', db);
    }
    if ExportedSettings(db') == ExportedSettings(db) {
      assert SCHEDULE_ENABLED in ExportedSettings(db');
      forall k | k in ExportedSettings(fresh0) ensures k in ExportedSettings(db) {
        assert k in ExportedSettings(db');
      }
    }
  }

  lemma SameSettings(a: Db, b: Db)
    requires forall k :: k in EXPORTED ==> (k in a.settings <==> k in b.settings) && (k in a.settings ==> a.settings[k] == b.settings[k])
    ensures ExportedSettings(a) == ExportedSettings(b)
  {
  }

  lemma SettingsUnchanged(db: Db, d: Document, h: Host)
    requires Canonical(db, h) && IsExport(db, d)
    ensures Unchanged(PrepareSettings(h, d.settings), d.settings, Unchecked)
  {
    forall i | 0 <= i < |d.settings| ensures PrepareSetting(h, d.settings[i]).row == Accepted(d.settings[i].0, d.settings[i].1) {
      assert d.settings[i].0 in ExportedSettings(db);
    }
  }
}
