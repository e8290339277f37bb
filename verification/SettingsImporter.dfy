/**
The importer in its own form: one transaction's tables and one report, updated row by
row.  Each method computes the stage of SettingsImport that carries its name; Import adds
the version gate, the rollback of a failed or dry run, and the totals.
*/
module SettingsImporter {
  import opened SettingsImport
  import L = SettingsLedger

  datatype Response = TooNew | InternalFailure | Reported(dryRun: bool, report: Report, totals: Counts)

  class Importer {
    const host: Host
    /** The committed database. */
    var db: Db
    /** The open transaction's view, and the report so far. */
    var tx: Db
    var report: Report

    constructor (h: Host, d: Db)
      ensures host == h && db == d
    {
      host, db, tx, report := h, d, d, EmptyReport;
    }

    method RejectEntry(c: Collection, key: string, slug: Slug)
      modifies this`report
      ensures report == Reject(old(report), c, key, slug)
    {
      var counts := report.Of(c);
      counts := counts.(rejected := counts.rejected + 1);
      report := Report(report.counts[c := counts], report.rejected + [RejectedRow(c, key, slug)]);
    }

    method Count(c: Collection, matched: bool, mode: Mode) returns (write: bool)
      modifies this`report
      ensures (report, write) == CountRow(old(report), c, matched, mode)
    {
      var counts := report.Of(c);
      if matched && mode == Skip {
        counts := counts.(skipped := counts.skipped + 1);
      } else if matched {
        counts := counts.(updated := counts.updated + 1);
      } else {
        counts := counts.(created := counts.created + 1);
      }
      report := report.(counts := report.counts[c := counts]);
      return !matched || mode == Overwrite;
    }

    method RejectRowError(c: Collection, key: string, matched: bool, slug: Slug)
      modifies this`report
      ensures report == RejectWrite(old(report), c, key, matched, slug)
    {
      var counts := report.Of(c);
      if matched {
        counts := counts.(updated := counts.updated - 1);
      } else {
        counts := counts.(created := counts.created - 1);
      }
      report := report.(counts := report.counts[c := counts]);
      RejectEntry(c, key, slug);
    }

    /** The loop the five keyed collections and the settings share. */
    method ImportRows<V>(table: map<string, V>, entries: seq<Entry<V>>, check: (string, V) -> bool, mode: Mode, c: Collection)
      returns (rows: map<string, V>)
      modifies this`report
      ensures (rows, report) == ImportEntries(table, entries, check, mode, c, old(report))
    {
      rows := table;
      for i := 0 to |entries|
        invariant (rows, report) == ImportEntries(table, entries[..i], check, mode, c, old(report))
      {
        assert entries[..i + 1][..i] == entries[..i];
        var e := entries[i];
        if e.row.Refused? {
          RejectEntry(c, e.shown, e.row.slug);
          continue;
        }
        var matched := e.row.key in rows;
        var write := Count(c, matched, mode);
        if !write {
          continue;
        }
        if !check(e.row.key, e.row.value) {
          RejectRowError(c, e.shown, matched, ValidationFailed);
          continue;
        }
        rows := rows[e.row.key := e.row.value];
      }
      assert entries[..|entries|] == entries;
    }

    method FindIndexer(rows: seq<Indexer>, i: Indexer) returns (k: int)
      ensures k == MatchIndexer(rows, i)
    {
      k := -1;
      if HasDefinition(i) {
        for j := 0 to |rows|
          invariant k == ByDefinition(rows[..j], i.definition.value) && k < j
        {
          assert rows[..j + 1][..j] == rows[..j];
          if k == -1 && rows[j].definition == i.definition {
            k := j;
          }
        }
      } else {
        for j := 0 to |rows|
          invariant k == ByName(rows[..j], i.name) && k < j
        {
          assert rows[..j + 1][..j] == rows[..j];
          if rows[j].name == i.name && (k == -1 || rows[j].priority < rows[k].priority) {
            k := j;
          }
        }
      }
      assert rows[..|rows|] == rows;
    }

    method ImportIndexerRows(table: seq<Indexer>, entries: seq<IndexerEntry>, mode: Mode) returns (rows: seq<Indexer>)
      modifies this`report
      ensures (rows, report) == ImportIndexers(table, entries, host.checkIndexer, mode, old(report))
    {
      rows := table;
      for i := 0 to |entries|
        invariant (rows, report) == ImportIndexers(table, entries[..i], host.checkIndexer, mode, old(report))
      {
        assert entries[..i + 1][..i] == entries[..i];
        var e := entries[i];
        if e.refused.Some? {
          RejectEntry(Indexers, e.row.name, e.refused.value);
          continue;
        }
        var k := FindIndexer(rows, e.row);
        var write := Count(Indexers, k != -1, mode);
        if !write {
          continue;
        }
        if Clashes(rows, e.row, k) {
          RejectRowError(Indexers, e.row.name, k != -1, Conflict);
          continue;
        }
        if !host.checkIndexer(e.row) {
          RejectRowError(Indexers, e.row.name, k != -1, ValidationFailed);
          continue;
        }
        rows := if k != -1 then rows[k := e.row] else rows + [e.row];
      }
      assert entries[..|entries|] == entries;
    }

    /** importSchedule; false is an internal failure. */
    method ImportGrid(d: Document) returns (ok: bool)
      modifies this`report, this`tx
      ensures match ImportSchedule(old(tx), d, old(report))
              case None => !ok
              case Some(result) => ok && (tx, report) == result
    {
      if |d.cells| != CELLS {
        return false;
      }
      var counts := report.Of(Schedule);
      report := report.(counts := report.counts[Schedule := counts.(updated := counts.updated + 1)]);
      tx := tx.(settings := tx.settings[SCHEDULE_ENABLED := Json(d.enabled)]);
      for i := 0 to |d.cells|
        invariant forall k :: 0 <= k < i ==> 0 <= d.cells[k] <= 2
      {
        if !(0 <= d.cells[i] <= 2) {
          return false;
        }
      }
      tx := tx.(cells := d.cells);
      return true;
    }

    /** applyImport, from a transaction that sees the committed database. */
    method ApplyImport(d: Document, mode: Mode) returns (ok: bool)
      requires tx == db && report == EmptyReport
      modifies this`report, this`tx
      ensures match Apply(db, d, host, mode)
              case None => !ok
              case Some(result) => ok && (tx, report) == result
    {
      hide ImportEntries, ImportIndexers, ImportSchedule, PrepareSettings, PrepareCategories, PrepareFeeds, PrepareRules, PrepareWatches;
      var settings := ImportRows(tx.settings, PrepareSettings(host, d.settings), Unchecked, Overwrite, Settings);
      var categories := ImportRows(tx.categories, PrepareCategories(host, d.categories), host.checkCategory, mode, Categories);
      var indexers := ImportIndexerRows(tx.indexers, d.indexers, mode);
      var feeds := ImportRows(tx.feeds, PrepareFeeds(host, d.feeds), host.checkFeed, mode, Feeds);
      var rules := ImportRows(tx.rules, PrepareRules(host, d.rules), host.checkRule, mode, Rules);
      var watch := ImportRows(tx.watch, PrepareWatches(host, categories, d.watch), host.checkWatch, mode, WatchFolders);
      tx := Db(settings, categories, indexers, feeds, rules, watch, tx.cells);
      ok := ImportGrid(d);
    }

    /** A committing call and a dry run answer the same report; only the first changes
        the database, and a failed or too new import changes nothing. */
    method Import(version: int, d: Document, dryRun: bool, mode: Mode) returns (r: Response)
      modifies this
      ensures version > 1 ==> r == TooNew && db == old(db)
      ensures version <= 1 ==>
        match Apply(old(db), d, host, mode)
        case None => r == InternalFailure && db == old(db)
        case Some(result) =>
          && r.Reported? && r.dryRun == dryRun && r.report == result.1
          && r.totals.Sum() == L.EntriesIn(d, L.AllCollections()) && r.totals.rejected == |result.1.rejected|
          && db == if dryRun then old(db) else result.0
    {
      if version > 1 {
        return TooNew;
      }
      tx, report := db, EmptyReport;
      var ok := ApplyImport(d, mode);
      if !ok {
        tx := db;
        return InternalFailure;
      }
      if !dryRun {
        db := tx;
      }
      var totals := AddUp();
      L.LedgerConserves(old(db), d, host, mode);
      L.TotalsConserve(report, d, L.AllCollections());
      L.RejectedTotalIsTheList(report);
      return Reported(dryRun, report, totals);
    }

    method AddUp() returns (totals: Counts)
      ensures totals == L.Totals(report, L.AllCollections())
    {
      totals := Counts(0, 0, 0, 0);
      var cs := L.AllCollections();
      for i := 0 to |cs|
        invariant totals == L.Totals(report, cs[..i])
      {
        assert cs[..i + 1][..i] == cs[..i];
        totals := L.Plus(totals, report.Of(cs[i]));
      }
      assert cs[..|cs|] == cs;
    }
  }
}
