/**
Importing twice, and importing what was exported.
*/
module SettingsRoundTrip {
  import opened Options
  import opened SettingsImport

  // ------------------------------------------------ tables without reports

  function Written<V>(t: map<string, V>, e: Entry<V>, check: (string, V) -> bool, mode: Mode): map<string, V> {
    if e.row.Refused? || (e.row.key in t && mode == Skip) || !check(e.row.key, e.row.value) then t
    else t[e.row.key := e.row.value]
  }

  function TableAfter<V>(t: map<string, V>, es: seq<Entry<V>>, check: (string, V) -> bool, mode: Mode): map<string, V> {
    if es == [] then t else Written(TableAfter(t, es[..|es| - 1], check, mode), es[|es| - 1], check, mode)
  }

  lemma {:induction false} TableIgnoresReport<V>(t: map<string, V>, es: seq<Entry<V>>, check: (string, V) -> bool, mode: Mode, c: Collection, r: Report)
    ensures ImportEntries(t, es, check, mode, c, r).0 == TableAfter(t, es, check, mode)
  {
    if es != [] {
      TableIgnoresReport(t, es[..|es| - 1], check, mode, c, r);
    }
  }

  /** What the last accepted entry of a key would store. */
  function Last<V>(es: seq<Entry<V>>, check: (string, V) -> bool, k: string): Option<V> {
    if es == [] then None
    else
      var row := es[|es| - 1].row;
      if row.Accepted? && row.key == k && check(k, row.value) then Some(row.value) else Last(es[..|es| - 1], check, k)
  }

  /** Overwriting, the last accepted entry of a key wins. */
  lemma {:induction false} OverwriteStoresTheLast<V>(t: map<string, V>, es: seq<Entry<V>>, check: (string, V) -> bool, k: string)
    ensures var t' := TableAfter(t, es, check, Overwrite);
            && (k in t' <==> k in t || Last(es, check, k).Some?)
            && (k in t' ==> t'[k] == if Last(es, check, k).Some? then Last(es, check, k).value else t[k])
  {
    if es != [] {
      OverwriteStoresTheLast(t, es[..|es| - 1], check, k);
    }
  }

  lemma OverwriteTwice<V>(t: map<string, V>, es: seq<Entry<V>>, check: (string, V) -> bool)
    ensures TableAfter(TableAfter(t, es, check, Overwrite), es, check, Overwrite) == TableAfter(t, es, check, Overwrite)
  {
    var t1 := TableAfter(t, es, check, Overwrite);
    var t2 := TableAfter(t1, es, check, Overwrite);
    forall k: string ensures (k in t2 <==> k in t1) && (k in t2 ==> t2[k] == t1[k]) {
      OverwriteStoresTheLast(t, es, check, k);
      OverwriteStoresTheLast(t1, es, check, k);
    }
  }

  /** Every entry the table does not hold yet is one it cannot hold. */
  ghost predicate Settled<V>(t: map<string, V>, es: seq<Entry<V>>, check: (string, V) -> bool) {
    forall e :: e in es && e.row.Accepted? ==> e.row.key in t || !check(e.row.key, e.row.value)
  }

  lemma {:induction false} SkipSettles<V>(t: map<string, V>, es: seq<Entry<V>>, check: (string, V) -> bool)
    ensures Settled(TableAfter(t, es, check, Skip), es, check)
  {
    if es != [] {
      var front, last := es[..|es| - 1], es[|es| - 1];
      SkipSettles(t, front, check);
      assert forall e :: e in es ==> e in front || e == last;
    }
  }

  lemma {:induction false} SettledStays<V>(t: map<string, V>, es: seq<Entry<V>>, check: (string, V) -> bool)
    requires Settled(t, es, check)
    ensures TableAfter(t, es, check, Skip) == t
  {
    if es != [] {
      assert forall e :: e in es[..|es| - 1] ==> e in es;
      SettledStays(t, es[..|es| - 1], check);
      assert es[|es| - 1] in es;
    }
  }

  lemma SkipTwice<V>(t: map<string, V>, es: seq<Entry<V>>, check: (string, V) -> bool)
    ensures TableAfter(TableAfter(t, es, check, Skip), es, check, Skip) == TableAfter(t, es, check, Skip)
  {
    SkipSettles(t, es, check);
    SettledStays(TableAfter(t, es, check, Skip), es, check);
  }

  // ----------------------------------------------------------- indexer rows

  function IndexerWritten(rows: seq<Indexer>, e: IndexerEntry, check: Indexer -> bool, mode: Mode): seq<Indexer> {
    var k := MatchIndexer(rows, e.row);
    if e.refused.Some? || (k != -1 && mode == Skip) || Clashes(rows, e.row, k) || !check(e.row) then rows
    else if k != -1 then rows[k := e.row]
    else rows + [e.row]
  }

  function IndexersAfter(rows: seq<Indexer>, es: seq<IndexerEntry>, check: Indexer -> bool, mode: Mode): seq<Indexer> {
    if es == [] then rows else IndexerWritten(IndexersAfter(rows, es[..|es| - 1], check, mode), es[|es| - 1], check, mode)
  }

  lemma {:induction false} IndexersIgnoreReport(rows: seq<Indexer>, es: seq<IndexerEntry>, check: Indexer -> bool, mode: Mode, r: Report)
    ensures ImportIndexers(rows, es, check, mode, r).0 == IndexersAfter(rows, es, check, mode)
  {
    if es != [] {
      IndexersIgnoreReport(rows, es[..|es| - 1], check, mode, r);
    }
  }

  predicate IndexerSettled(rows: seq<Indexer>, e: IndexerEntry, check: Indexer -> bool) {
    e.refused.Some? || MatchIndexer(rows, e.row) != -1 || Clashes(rows, e.row, -1) || !check(e.row)
  }

  lemma MatchSurvivesMoreRows(rows: seq<Indexer>, more: Indexer, i: Indexer)
    requires MatchIndexer(rows, i) != -1
    ensures MatchIndexer(rows + [more], i) != -1
  {
    var k := MatchIndexer(rows, i);
    assert (rows + [more])[k] == rows[k];
  }

  lemma ClashSurvivesMoreRows(rows: seq<Indexer>, more: Indexer, i: Indexer)
    requires Clashes(rows, i, -1)
    ensures Clashes(rows + [more], i, -1)
  {
    var j :| 0 <= j < |rows| && j != -1 && rows[j].definition == i.definition;
    assert (rows + [more])[j] == rows[j];
  }

  lemma AppendedMatches(rows: seq<Indexer>, i: Indexer)
    ensures MatchIndexer(rows + [i], i) != -1
  {
    assert (rows + [i])[|rows|] == i;
  }

  lemma SkipSettlesOne(rows: seq<Indexer>, e: IndexerEntry, other: IndexerEntry, check: Indexer -> bool)
    requires other == e || IndexerSettled(rows, other, check)
    ensures IndexerSettled(IndexerWritten(rows, e, check, Skip), other, check)
  {
    var rows' := IndexerWritten(rows, e, check, Skip);
    if rows' != rows {
      assert rows' == rows + [e.row];
      AppendedMatches(rows, e.row);
      if MatchIndexer(rows, other.row) != -1 {
        MatchSurvivesMoreRows(rows, e.row, other.row);
      }
      if Clashes(rows, other.row, -1) {
        ClashSurvivesMoreRows(rows, e.row, other.row);
      }
    }
  }

  lemma {:induction false} IndexersSettle(rows: seq<Indexer>, es: seq<IndexerEntry>, check: Indexer -> bool, e: IndexerEntry)
    requires e in es
    ensures IndexerSettled(IndexersAfter(rows, es, check, Skip), e, check)
  {
    var front, last := es[..|es| - 1], es[|es| - 1];
    if e != last {
      assert e in front;
      IndexersSettle(rows, front, check, e);
    }
    SkipSettlesOne(IndexersAfter(rows, front, check, Skip), last, e, check);
  }

  lemma {:induction false} SettledIndexersStay(rows: seq<Indexer>, es: seq<IndexerEntry>, check: Indexer -> bool)
    requires forall e :: e in es ==> IndexerSettled(rows, e, check)
    ensures IndexersAfter(rows, es, check, Skip) == rows
  {
    if es != [] {
      assert forall e :: e in es[..|es| - 1] ==> e in es;
      SettledIndexersStay(rows, es[..|es| - 1], check);
      assert es[|es| - 1] in es;
    }
  }

  // ------------------------------------------------------------ importing twice

  lemma TablesOf(db: Db, d: Document, h: Host, mode: Mode)
    requires Apply(db, d, h, mode).Some?
    ensures var db' := Apply(db, d, h, mode).value.0;
            && db'.categories == TableAfter(db.categories, PrepareCategories(h, d.categories), h.checkCategory, mode)
            && db'.indexers == IndexersAfter(db.indexers, d.indexers, h.checkIndexer, mode)
            && db'.feeds == TableAfter(db.feeds, PrepareFeeds(h, d.feeds), h.checkFeed, mode)
            && db'.rules == TableAfter(db.rules, PrepareRules(h, d.rules), h.checkRule, mode)
            && db'.watch == TableAfter(db.watch, PrepareWatches(h, db'.categories, d.watch), h.checkWatch, mode)
            && db'.settings == TableAfter(db.settings, PrepareSettings(h, d.settings), Unchecked, Overwrite)[SCHEDULE_ENABLED := Json(d.enabled)]
            && db'.cells == d.cells
  {
    hide ImportEntries, ImportIndexers, PrepareSettings, PrepareCategories, PrepareFeeds, PrepareRules, PrepareWatches, TableAfter, IndexersAfter, Json;
    var (settings, r1) := ImportEntries(db.settings, PrepareSettings(h, d.settings), Unchecked, Overwrite, Settings, EmptyReport);
    TableIgnoresReport(db.settings, PrepareSettings(h, d.settings), Unchecked, Overwrite, Settings, EmptyReport);
    var (categories, r2) := ImportEntries(db.categories, PrepareCategories(h, d.categories), h.checkCategory, mode, Categories, r1);
    TableIgnoresReport(db.categories, PrepareCategories(h, d.categories), h.checkCategory, mode, Categories, r1);
    var (indexers, r3) := ImportIndexers(db.indexers, d.indexers, h.checkIndexer, mode, r2);
    IndexersIgnoreReport(db.indexers, d.indexers, h.checkIndexer, mode, r2);
    var (feeds, r4) := ImportEntries(db.feeds, PrepareFeeds(h, d.feeds), h.checkFeed, mode, Feeds, r3);
    TableIgnoresReport(db.feeds, PrepareFeeds(h, d.feeds), h.checkFeed, mode, Feeds, r3);
    var (rules, r5) := ImportEntries(db.rules, PrepareRules(h, d.rules), h.checkRule, mode, Rules, r4);
    TableIgnoresReport(db.rules, PrepareRules(h, d.rules), h.checkRule, mode, Rules, r4);
    TableIgnoresReport(db.watch, PrepareWatches(h, categories, d.watch), h.checkWatch, mode, WatchFolders, r5);
  }

  /** Whether the import fails as a whole depends on the grid alone: a week of hours, each with
      one of three modes. */
  lemma OnlyTheGridAborts(db: Db, d: Document, h: Host, mode: Mode)
    ensures Apply(db, d, h, mode).Some? <==> |d.cells| == 7 * 24 && forall k :: 0 <= k < |d.cells| ==> 0 <= d.cells[k] <= 2
  {
    hide ImportEntries, ImportIndexers, PrepareSettings, PrepareCategories, PrepareFeeds, PrepareRules, PrepareWatches;
  }

  /** A second skip import changes none of the five row collections, nor anything else. */
  lemma SecondSkipChangesNothing(db: Db, d: Document, h: Host)
    requires Apply(db, d, h, Skip).Some?
    ensures Apply(Apply(db, d, h, Skip).value.0, d, h, Skip).Some?
    ensures Apply(Apply(db, d, h, Skip).value.0, d, h, Skip).value.0 == Apply(db, d, h, Skip).value.0
  {
    hide *;
    var db1 := Apply(db, d, h, Skip).value.0;
    OnlyTheGridAborts(db, d, h, Skip);
    OnlyTheGridAborts(db1, d, h, Skip);
    TablesOf(db, d, h, Skip);
    TablesOf(db1, d, h, Skip);
    SkipTwice(db.categories, PrepareCategories(h, d.categories), h.checkCategory);
    SkipTwice(db.feeds, PrepareFeeds(h, d.feeds), h.checkFeed);
    SkipTwice(db.rules, PrepareRules(h, d.rules), h.checkRule);
    SkipTwice(db.watch, PrepareWatches(h, db1.categories, d.watch), h.checkWatch);
    forall e | e in d.indexers ensures IndexerSettled(db1.indexers, e, h.checkIndexer) {
      IndexersSettle(db.indexers, d.indexers, h.checkIndexer, e);
    }
    SettledIndexersStay(db1.indexers, d.indexers, h.checkIndexer);
    SettingsTwice(db.settings, PrepareSettings(h, d.settings), d.enabled);
  }

  lemma SettingsTwice(t: map<string, string>, es: seq<Entry<string>>, enabled: bool)
    ensures var t1 := TableAfter(t, es, Unchecked, Overwrite)[SCHEDULE_ENABLED := Json(enabled)];
            TableAfter(t1, es, Unchecked, Overwrite)[SCHEDULE_ENABLED := Json(enabled)] == t1
  {
    var t0 := TableAfter(t, es, Unchecked, Overwrite);
    var t1 := t0[SCHEDULE_ENABLED := Json(enabled)];
    var t2 := TableAfter(t1, es, Unchecked, Overwrite)[SCHEDULE_ENABLED := Json(enabled)];
    forall k: string ensures (k in t2 <==> k in t1) && (k in t2 ==> t2[k] == t1[k]) {
      OverwriteStoresTheLast(t, es, Unchecked, k);
      OverwriteStoresTheLast(t1, es, Unchecked, k);
    }
  }

  /** A second overwrite import leaves the uniquely keyed collections, the settings and
      the grid as the first left them. */
  lemma SecondOverwriteIsFixed(db: Db, d: Document, h: Host)
    requires Apply(db, d, h, Overwrite).Some?
    ensures var db1 := Apply(db, d, h, Overwrite).value.0;
            && Apply(db1, d, h, Overwrite).Some?
            && Apply(db1, d, h, Overwrite).value.0.(indexers := db1.indexers) == db1
  {
    hide *;
    var db1 := Apply(db, d, h, Overwrite).value.0;
    OnlyTheGridAborts(db, d, h, Overwrite);
    OnlyTheGridAborts(db1, d, h, Overwrite);
    TablesOf(db, d, h, Overwrite);
    TablesOf(db1, d, h, Overwrite);
    OverwriteTwice(db.categories, PrepareCategories(h, d.categories), h.checkCategory);
    OverwriteTwice(db.feeds, PrepareFeeds(h, d.feeds), h.checkFeed);
    OverwriteTwice(db.rules, PrepareRules(h, d.rules), h.checkRule);
    OverwriteTwice(db.watch, PrepareWatches(h, db1.categories, d.watch), h.checkWatch);
    SettingsTwice(db.settings, PrepareSettings(h, d.settings), d.enabled);
  }
}
