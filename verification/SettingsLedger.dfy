/**
The import's ledger: each collection's created, updated, skipped and rejected add up to
its entries, and the rejected list holds exactly the rejected rows.
*/
module SettingsLedger {
  import opened Options
  import opened SettingsImport

  // -------------------------------------------------------------- the ledger

  function RejectedIn(rs: seq<RejectedRow>, c: Collection): nat {
    if rs == [] then 0 else RejectedIn(rs[..|rs| - 1], c) + (if rs[|rs| - 1].collection == c then 1 else 0)
  }

  /** No counter of the collection is negative and its rejected count is backed by rows. */
  ghost predicate LedgerAt(r: Report, o: Collection) {
    r.Of(o).NonNegative() && RejectedIn(r.rejected, o) == r.Of(o).rejected
  }

  /** n entries of collection c were accounted for, as collection o sees it. */
  ghost predicate Grows(r: Report, r': Report, c: Collection, n: int, o: Collection) {
    LedgerAt(r', o) && r'.Of(o).Sum() == r.Of(o).Sum() + (if o == c then n else 0)
  }

  lemma RejectedNext(rs: seq<RejectedRow>, row: RejectedRow, c: Collection)
    ensures RejectedIn(rs + [row], c) == RejectedIn(rs, c) + (if row.collection == c then 1 else 0)
  {
    assert (rs + [row])[..|rs|] == rs;
  }

  lemma Bumps(n: Counts)
    ensures n.(created := n.created + 1).Sum() == n.Sum() + 1 && n.(updated := n.updated + 1).Sum() == n.Sum() + 1
    ensures n.(skipped := n.skipped + 1).Sum() == n.Sum() + 1 && n.(rejected := n.rejected + 1).Sum() == n.Sum() + 1
    ensures n.NonNegative() ==> n.(created := n.created + 1).NonNegative() && n.(updated := n.updated + 1).NonNegative()
                                && n.(skipped := n.skipped + 1).NonNegative() && n.(rejected := n.rejected + 1).NonNegative()
  {
  }

  lemma RejectCounts(r: Report, c: Collection, key: string, slug: Slug, o: Collection)
    requires LedgerAt(r, o)
    ensures Grows(r, Reject(r, c, key, slug), c, 1, o)
  {
    hide RejectedIn, Counts.Sum, Counts.NonNegative;
    RejectedNext(r.rejected, RejectedRow(c, key, slug), o);
    Bumps(r.Of(c));
  }

  lemma CountRowCounts(r: Report, c: Collection, found: bool, mode: Mode, o: Collection)
    requires LedgerAt(r, o)
    ensures Grows(r, CountRow(r, c, found, mode).0, c, 1, o)
  {
    hide RejectedIn, Counts.Sum, Counts.NonNegative;
    Bumps(r.Of(c));
  }

  /** The tentative count is there to be taken back: nothing goes negative. */
  lemma RejectWriteCounts(r: Report, c: Collection, key: string, found: bool, mode: Mode, slug: Slug, o: Collection)
    requires LedgerAt(r, o) && CountRow(r, c, found, mode).1
    ensures Grows(r, RejectWrite(CountRow(r, c, found, mode).0, c, key, found, slug), c, 1, o)
  {
    var r1 := CountRow(r, c, found, mode).0;
    var n := r1.Of(c);
    var r2 := r1.(counts := r1.counts[c := if found then n.(updated := n.updated - 1) else n.(created := n.created - 1)]);
    hide RejectedIn, Counts.Sum, Counts.NonNegative;
    assert r2.Of(o) == r.Of(o) && r2.rejected == r.rejected;
    hide CountRow;
    RejectCounts(r2, c, key, slug, o);
  }

  lemma EntryCounts<V>(t: map<string, V>, e: Entry<V>, check: (string, V) -> bool, mode: Mode, c: Collection, r: Report, o: Collection)
    requires LedgerAt(r, o)
    ensures Grows(r, ImportEntry(t, e, check, mode, c, r).1, c, 1, o)
  {
    hide LedgerAt, Grows, CountRow, Reject, RejectWrite;
    match e.row
    case Refused(slug) => RejectCounts(r, c, e.shown, slug, o);
    case Accepted(key, value) =>
      CountRowCounts(r, c, key in t, mode, o);
      if CountRow(r, c, key in t, mode).1 {
        RejectWriteCounts(r, c, e.shown, key in t, mode, ValidationFailed, o);
      }
  }

  lemma GrowsMore(r: Report, r1: Report, r2: Report, c: Collection, n: int, o: Collection)
    requires Grows(r, r1, c, n, o)
    ensures LedgerAt(r1, o) && (Grows(r1, r2, c, 1, o) ==> Grows(r, r2, c, n + 1, o))
  {
    hide LedgerAt, Counts.Sum, Report.Of;
  }

  lemma GrowsNot(r: Report, c: Collection, o: Collection)
    requires LedgerAt(r, o)
    ensures Grows(r, r, c, 0, o)
  {
    hide LedgerAt;
  }

  lemma {:induction false} EntriesCount<V>(t: map<string, V>, es: seq<Entry<V>>, check: (string, V) -> bool, mode: Mode, c: Collection, r: Report, o: Collection)
    requires LedgerAt(r, o)
    ensures Grows(r, ImportEntries(t, es, check, mode, c, r).1, c, |es|, o)
  {
    hide LedgerAt, Grows, ImportEntry;
    if es == [] {
      GrowsNot(r, c, o);
    } else {
      var (t1, r1) := ImportEntries(t, es[..|es| - 1], check, mode, c, r);
      EntriesCount(t, es[..|es| - 1], check, mode, c, r, o);
      GrowsMore(r, r1, ImportEntry(t1, es[|es| - 1], check, mode, c, r1).1, c, |es| - 1, o);
      EntryCounts(t1, es[|es| - 1], check, mode, c, r1, o);
    }
  }

  lemma IndexerCounts(rows: seq<Indexer>, e: IndexerEntry, check: Indexer -> bool, mode: Mode, r: Report, o: Collection)
    requires LedgerAt(r, o)
    ensures Grows(r, ImportIndexer(rows, e, check, mode, r).1, Indexers, 1, o)
  {
    hide LedgerAt, Grows, CountRow, Reject, RejectWrite, MatchIndexer, Clashes;
    if e.refused.Some? {
      RejectCounts(r, Indexers, e.row.name, e.refused.value, o);
    } else {
      var found := MatchIndexer(rows, e.row) != -1;
      CountRowCounts(r, Indexers, found, mode, o);
      if CountRow(r, Indexers, found, mode).1 {
        RejectWriteCounts(r, Indexers, e.row.name, found, mode, Conflict, o);
        RejectWriteCounts(r, Indexers, e.row.name, found, mode, ValidationFailed, o);
      }
    }
  }

  lemma {:induction false} IndexersCount(rows: seq<Indexer>, es: seq<IndexerEntry>, check: Indexer -> bool, mode: Mode, r: Report, o: Collection)
    requires LedgerAt(r, o)
    ensures Grows(r, ImportIndexers(rows, es, check, mode, r).1, Indexers, |es|, o)
  {
    hide LedgerAt, Grows, ImportIndexer;
    if es == [] {
      GrowsNot(r, Indexers, o);
    } else {
      var (rows1, r1) := ImportIndexers(rows, es[..|es| - 1], check, mode, r);
      IndexersCount(rows, es[..|es| - 1], check, mode, r, o);
      GrowsMore(r, r1, ImportIndexer(rows1, es[|es| - 1], check, mode, r1).1, Indexers, |es| - 1, o);
      IndexerCounts(rows1, es[|es| - 1], check, mode, r1, o);
    }
  }

  // --------------------------------------------- which counter an entry goes to

  /** The accepted entries whose key the table held at their turn. */
  function Found<V>(t: map<string, V>, es: seq<Entry<V>>, check: (string, V) -> bool, mode: Mode, c: Collection, r: Report): nat {
    if es == [] then 0
    else
      var front, e := es[..|es| - 1], es[|es| - 1];
      Found(t, front, check, mode, c, r)
      + (if e.row.Accepted? && e.row.key in ImportEntries(t, front, check, mode, c, r).0 then 1 else 0)
  }

  lemma TableGrows<V>(t: map<string, V>, key: string, value: V)
    ensures |t[key := value]| == |t| + (if key in t then 0 else 1)
  {
    assert t[key := value].Keys == t.Keys + {key};
    assert |t.Keys| == |t| && |t[key := value].Keys| == |t[key := value]|;
  }

  /** One entry of a collection was found and stored, or would have been. */
  ghost predicate Tells(r: Report, r': Report, c: Collection, mode: Mode, grown: int, found: int) {
    var n, n' := r.Of(c), r'.Of(c);
    && n'.created == n.created + grown
    && (mode == Skip ==> n'.updated == n.updated && n'.skipped == n.skipped + found)
    && (mode == Overwrite ==> n'.skipped == n.skipped)
    && (forall o :: o != c ==> r'.Of(o) == r.Of(o))
  }

  lemma CountRowTells(r: Report, c: Collection, found: bool, mode: Mode)
    ensures var (r', write) := CountRow(r, c, found, mode);
            Tells(r, r', c, mode, if found then 0 else 1, if found then 1 else 0)
  {
  }

  lemma RejectTells(r: Report, c: Collection, key: string, slug: Slug, mode: Mode)
    ensures Tells(r, Reject(r, c, key, slug), c, mode, 0, 0)
  {
  }

  lemma RejectWriteTells(r: Report, c: Collection, key: string, found: bool, mode: Mode, slug: Slug)
    requires CountRow(r, c, found, mode).1
    ensures Tells(r, RejectWrite(CountRow(r, c, found, mode).0, c, key, found, slug), c, mode, 0, if found && mode == Skip then 1 else 0)
  {
    var r1 := CountRow(r, c, found, mode).0;
    var n := r1.Of(c);
    var r2 := r1.(counts := r1.counts[c := if found then n.(updated := n.updated - 1) else n.(created := n.created - 1)]);
    assert forall o :: r2.Of(o) == r.Of(o);
    RejectTells(r2, c, key, slug, mode);
  }

  lemma TellsMore(r: Report, r1: Report, r2: Report, c: Collection, mode: Mode, g: int, f: int, h: int, k: int)
    requires Tells(r, r1, c, mode, g, f) && Tells(r1, r2, c, mode, h, k)
    ensures Tells(r, r2, c, mode, g + h, f + k)
  {
  }

  lemma OneEntryTells<V>(t: map<string, V>, e: Entry<V>, check: (string, V) -> bool, mode: Mode, c: Collection, r: Report)
    ensures var (t', r') := ImportEntry(t, e, check, mode, c, r);
            Tells(r, r', c, mode, |t'| - |t|, if e.row.Accepted? && e.row.key in t then 1 else 0)
  {
    match e.row
    case Refused(slug) => RejectTells(r, c, e.shown, slug, mode);
    case Accepted(key, value) =>
      TableGrows(t, key, value);
      CountRowTells(r, c, key in t, mode);
      CountRowWrites(r, c, key in t, mode);
      if CountRow(r, c, key in t, mode).1 {
        RejectWriteTells(r, c, e.shown, key in t, mode, ValidationFailed);
      }
    hide Tells, CountRow, Reject, RejectWrite;
  }

  lemma CountRowWrites(r: Report, c: Collection, found: bool, mode: Mode)
    ensures CountRow(r, c, found, mode).1 <==> !found || mode == Overwrite
  {
  }

  /** What a collection's counters say of its table: created is what the table grew by; a
      skip import updates nothing and skips exactly the entries already there; an overwrite
      import skips nothing. */
  lemma {:induction false} CountersTellTheTable<V>(t: map<string, V>, es: seq<Entry<V>>, check: (string, V) -> bool, mode: Mode, c: Collection, r: Report)
    ensures var (t', r') := ImportEntries(t, es, check, mode, c, r);
            Tells(r, r', c, mode, |t'| - |t|, Found(t, es, check, mode, c, r))
  {
    hide ImportEntry, Tells;
    if es == [] {
      NothingTells(r, c, mode);
    } else {
      var front := es[..|es| - 1];
      CountersTellTheTable(t, front, check, mode, c, r);
      var (t1, r1) := ImportEntries(t, front, check, mode, c, r);
      var e := es[|es| - 1];
      OneEntryTells(t1, e, check, mode, c, r1);
      TellsMore(r, r1, ImportEntry(t1, e, check, mode, c, r1).1, c, mode, |t1| - |t|, Found(t, front, check, mode, c, r),
                |ImportEntry(t1, e, check, mode, c, r1).0| - |t1|, if e.row.Accepted? && e.row.key in t1 then 1 else 0);
    }
  }

  lemma NothingTells(r: Report, c: Collection, mode: Mode)
    ensures Tells(r, r, c, mode, 0, 0)
  {
  }

  /** The accepted indexer entries that matched a row at their turn. */
  function Matched(rows: seq<Indexer>, es: seq<IndexerEntry>, check: Indexer -> bool, mode: Mode, r: Report): nat {
    if es == [] then 0
    else
      var front, e := es[..|es| - 1], es[|es| - 1];
      Matched(rows, front, check, mode, r)
      + (if e.refused.None? && MatchIndexer(ImportIndexers(rows, front, check, mode, r).0, e.row) != -1 then 1 else 0)
  }

  lemma OneIndexerTells(rows: seq<Indexer>, e: IndexerEntry, check: Indexer -> bool, mode: Mode, r: Report)
    ensures var (rows', r') := ImportIndexer(rows, e, check, mode, r);
            Tells(r, r', Indexers, mode, |rows'| - |rows|, if e.refused.None? && MatchIndexer(rows, e.row) != -1 then 1 else 0)
  {
    if e.refused.Some? {
      RejectTells(r, Indexers, e.row.name, e.refused.value, mode);
    } else {
      var found := MatchIndexer(rows, e.row) != -1;
      CountRowTells(r, Indexers, found, mode);
      CountRowWrites(r, Indexers, found, mode);
      if CountRow(r, Indexers, found, mode).1 {
        RejectWriteTells(r, Indexers, e.row.name, found, mode, Conflict);
        RejectWriteTells(r, Indexers, e.row.name, found, mode, ValidationFailed);
      }
    }
    hide Tells, CountRow, Reject, RejectWrite, Clashes;
  }

  /** The same of the indexers' rows. */
  lemma {:induction false} CountersTellTheIndexers(rows: seq<Indexer>, es: seq<IndexerEntry>, check: Indexer -> bool, mode: Mode, r: Report)
    ensures var (rows', r') := ImportIndexers(rows, es, check, mode, r);
            Tells(r, r', Indexers, mode, |rows'| - |rows|, Matched(rows, es, check, mode, r))
  {
    hide ImportIndexer, Tells;
    if es == [] {
      NothingTells(r, Indexers, mode);
    } else {
      var front := es[..|es| - 1];
      CountersTellTheIndexers(rows, front, check, mode, r);
      var (rows1, r1) := ImportIndexers(rows, front, check, mode, r);
      var e := es[|es| - 1];
      OneIndexerTells(rows1, e, check, mode, r1);
      TellsMore(r, r1, ImportIndexer(rows1, e, check, mode, r1).1, Indexers, mode, |rows1| - |rows|, Matched(rows, front, check, mode, r),
                |ImportIndexer(rows1, e, check, mode, r1).0| - |rows1|, if e.refused.None? && MatchIndexer(rows1, e.row) != -1 then 1 else 0);
    }
  }

  /** A stage as one collection sees it: nothing of another collection's counts. */
  predicate StageTells(r: Report, r': Report, c: Collection, mode: Mode, grown: int, o: Collection) {
    if o == c then
      && r'.Of(o).created == r.Of(o).created + grown
      && (mode == Skip ==> r'.Of(o).updated == r.Of(o).updated)
      && (mode == Overwrite ==> r'.Of(o).skipped == r.Of(o).skipped)
    else r'.Of(o) == r.Of(o)
  }

  lemma TableStage<V>(t: map<string, V>, es: seq<Entry<V>>, check: (string, V) -> bool, mode: Mode, c: Collection, r: Report, o: Collection)
    ensures var (t', r') := ImportEntries(t, es, check, mode, c, r);
            StageTells(r, r', c, mode, |t'| - |t|, o)
  {
    hide ImportEntries, Found, Report.Of;
    CountersTellTheTable(t, es, check, mode, c, r);
  }

  lemma IndexerStage(rows: seq<Indexer>, es: seq<IndexerEntry>, check: Indexer -> bool, mode: Mode, r: Report, o: Collection)
    ensures var (rows', r') := ImportIndexers(rows, es, check, mode, r);
            StageTells(r, r', Indexers, mode, |rows'| - |rows|, o)
  {
    hide ImportIndexers, Matched, Report.Of;
    CountersTellTheIndexers(rows, es, check, mode, r);
  }

  /** How much a table's rows grew over an import. */
  function Grown(db: Db, db': Db, o: Collection): int {
    match o
    case Categories => |db'.categories| - |db.categories|
    case Indexers => |db'.indexers| - |db.indexers|
    case Feeds => |db'.feeds| - |db.feeds|
    case Rules => |db'.rules| - |db.rules|
    case WatchFolders => |db'.watch| - |db.watch|
    case _ => 0
  }

  const RowCollections: set<Collection> := {Categories, Indexers, Feeds, Rules, WatchFolders}

  /** What the report of a whole import says of the database: in every table of rows created
      is what the table grew by, a skip import updated nothing, an overwrite import skipped
      nothing; settings are never skipped, and the grid is one update. */
  lemma ReportTellsTheTables(db: Db, d: Document, h: Host, mode: Mode, o: Collection)
    requires Apply(db, d, h, mode).Some?
    ensures var (db', r) := Apply(db, d, h, mode).value;
            && (o in RowCollections ==> r.Of(o).created == Grown(db, db', o))
            && (o in RowCollections && mode == Skip ==> r.Of(o).updated == 0)
            && (mode == Overwrite || o == Settings ==> r.Of(o).skipped == 0)
            && (o == Schedule ==> r.Of(o) == Counts(0, 1, 0, 0))
  {
    hide *;
    var s := PrepareSettings(h, d.settings);
    var (t1, r1) := ImportEntries(db.settings, s, Unchecked, Overwrite, Settings, EmptyReport);
    TableStage(db.settings, s, Unchecked, Overwrite, Settings, EmptyReport, o);
    var ca := PrepareCategories(h, d.categories);
    var (t2, r2) := ImportEntries(db.categories, ca, h.checkCategory, mode, Categories, r1);
    TableStage(db.categories, ca, h.checkCategory, mode, Categories, r1, o);
    var (t3, r3) := ImportIndexers(db.indexers, d.indexers, h.checkIndexer, mode, r2);
    IndexerStage(db.indexers, d.indexers, h.checkIndexer, mode, r2, o);
    var fe := PrepareFeeds(h, d.feeds);
    var (t4, r4) := ImportEntries(db.feeds, fe, h.checkFeed, mode, Feeds, r3);
    TableStage(db.feeds, fe, h.checkFeed, mode, Feeds, r3, o);
    var ru := PrepareRules(h, d.rules);
    var (t5, r5) := ImportEntries(db.rules, ru, h.checkRule, mode, Rules, r4);
    TableStage(db.rules, ru, h.checkRule, mode, Rules, r4, o);
    var wa := PrepareWatches(h, t2, d.watch);
    var (t6, r6) := ImportEntries(db.watch, wa, h.checkWatch, mode, WatchFolders, r5);
    TableStage(db.watch, wa, h.checkWatch, mode, WatchFolders, r5, o);
    ApplyStages(db, d, h, mode, t1, r1, t2, r2, t3, r3, t4, r4, t5, r5, t6, r6);
    var db6 := Db(t1, t2, t3, t4, t5, t6, db.cells);
    ScheduleTells(db6, d, r6, o);
    SevenTell(mode, r1, r2, r3, r4, r5, r6, |t1| - |db.settings|, db, db6, o);
    GrownRows(db, db6, Apply(db, d, h, mode).value.0, o);
    RowCollectionsAre(o);
  }

  lemma SevenTell(mode: Mode, r1: Report, r2: Report, r3: Report, r4: Report, r5: Report, r6: Report, g: int, db: Db, db6: Db, o: Collection)
    requires StageTells(EmptyReport, r1, Settings, Overwrite, g, o)
    requires StageTells(r1, r2, Categories, mode, |db6.categories| - |db.categories|, o)
    requires StageTells(r2, r3, Indexers, mode, |db6.indexers| - |db.indexers|, o)
    requires StageTells(r3, r4, Feeds, mode, |db6.feeds| - |db.feeds|, o)
    requires StageTells(r4, r5, Rules, mode, |db6.rules| - |db.rules|, o)
    requires StageTells(r5, r6, WatchFolders, mode, |db6.watch| - |db.watch|, o)
    ensures o in RowCollections ==> r6.Of(o).created == Grown(db, db6, o)
    ensures o in RowCollections && mode == Skip ==> r6.Of(o).updated == 0
    ensures mode == Overwrite || o == Settings ==> r6.Of(o).skipped == 0
    ensures o == Schedule ==> r6.Of(o) == Counts(0, 0, 0, 0)
  {
    hide Report.Of, RowCollections;
    NothingReported(o);
    RowCollectionsAre(o);
  }

  lemma NothingReported(o: Collection)
    ensures EmptyReport.Of(o) == Counts(0, 0, 0, 0)
  {
  }

  lemma RowCollectionsAre(o: Collection)
    ensures o in RowCollections <==> o != Settings && o != Schedule
  {
  }

  lemma GrownRows(db: Db, db6: Db, db': Db, o: Collection)
    requires db'.categories == db6.categories && db'.indexers == db6.indexers && db'.feeds == db6.feeds
    requires db'.rules == db6.rules && db'.watch == db6.watch
    ensures Grown(db, db', o) == Grown(db, db6, o)
  {
  }

  lemma ScheduleTells(db: Db, d: Document, r: Report, o: Collection)
    requires ImportSchedule(db, d, r).Some?
    ensures var (db', r') := ImportSchedule(db, d, r).value;
            && db'.categories == db.categories && db'.indexers == db.indexers && db'.feeds == db.feeds
            && db'.rules == db.rules && db'.watch == db.watch
            && r'.Of(o) == if o == Schedule then r.Of(o).(updated := r.Of(o).updated + 1) else r.Of(o)
  {
  }

  // ------------------------------------------------------ the rejected list

  /** The rows an import of these entries refuses, in order: those the host refused, and
      those it would have written but for the table's own check. */
  function Refusals<V>(t: map<string, V>, es: seq<Entry<V>>, check: (string, V) -> bool, mode: Mode, c: Collection, r: Report): seq<RejectedRow> {
    if es == [] then []
    else
      var front, e := es[..|es| - 1], es[|es| - 1];
      var now := ImportEntries(t, front, check, mode, c, r).0;
      Refusals(t, front, check, mode, c, r)
      + match e.row
        case Refused(slug) => [RejectedRow(c, e.shown, slug)]
        case Accepted(key, value) =>
          if (mode == Overwrite || key !in now) && !check(key, value) then [RejectedRow(c, e.shown, ValidationFailed)] else []
  }

  lemma RejectedNow(r: Report, c: Collection, found: bool, mode: Mode, key: string, slug: Slug)
    ensures CountRow(r, c, found, mode).0.rejected == r.rejected
    ensures Reject(r, c, key, slug).rejected == r.rejected + [RejectedRow(c, key, slug)]
    ensures RejectWrite(CountRow(r, c, found, mode).0, c, key, found, slug).rejected == r.rejected + [RejectedRow(c, key, slug)]
  {
  }

  lemma EntryRejects<V>(t: map<string, V>, e: Entry<V>, check: (string, V) -> bool, mode: Mode, c: Collection, r: Report)
    ensures ImportEntry(t, e, check, mode, c, r).1.rejected ==
            r.rejected + match e.row
                         case Refused(slug) => [RejectedRow(c, e.shown, slug)]
                         case Accepted(key, value) =>
                           if (mode == Overwrite || key !in t) && !check(key, value) then [RejectedRow(c, e.shown, ValidationFailed)] else []
  {
    hide CountRow, Reject, RejectWrite;
    match e.row
    case Refused(slug) => RejectedNow(r, c, false, mode, e.shown, slug);
    case Accepted(key, _) =>
      RejectedNow(r, c, key in t, mode, e.shown, ValidationFailed);
      CountRowWrites(r, c, key in t, mode);
  }

  lemma {:induction false} RejectedListIsExact<V>(t: map<string, V>, es: seq<Entry<V>>, check: (string, V) -> bool, mode: Mode, c: Collection, r: Report)
    ensures ImportEntries(t, es, check, mode, c, r).1.rejected == r.rejected + Refusals(t, es, check, mode, c, r)
  {
    hide ImportEntry;
    if es != [] {
      var front := es[..|es| - 1];
      RejectedListIsExact(t, front, check, mode, c, r);
      var (t1, r1) := ImportEntries(t, front, check, mode, c, r);
      EntryRejects(t1, es[|es| - 1], check, mode, c, r1);
    }
  }

  /** The category a watch folder names, if it names one. */
  function NamedCategory(w: Watch): Option<string> {
    if w.category == Some("") then None else w.category
  }

  /** Why the host refuses a row: a path it cannot resolve is rejected as a path, anything else
      as content; and what it stores otherwise. */
  lemma RefusalsSayWhy(h: Host, categories: map<string, string>, category: (string, string), feed: (string, Columns),
                       rule: (string, Columns), watch: (string, Watch))
    ensures var p := PrepareCategory(h, category).row;
            && (p == Refused(ValidationFailed) <==> !h.categoryName(category.0))
            && (p == Refused(PathRejected) <==> h.categoryName(category.0) && h.resolve(category.1).None?)
            && (p.Accepted? ==> p.key == category.0 && Some(p.value) == h.resolve(category.1))
            && p != Refused(Conflict)
    ensures PrepareFeed(h, feed).row == if h.feed(feed.0, feed.1) then Accepted(feed.0, feed.1) else Refused(ValidationFailed)
    ensures var p := PrepareRule(h, rule).row;
            && (p.Accepted? <==> h.rule(rule.0, rule.1).Some?) && (p.Refused? ==> p.slug == ValidationFailed)
            && (p.Accepted? ==> p.key == rule.0 && Some(p.value) == h.rule(rule.0, rule.1))
    ensures var p := PrepareWatch(h, categories, watch).row;
            var (path, destination, named) := (h.resolve(watch.0), h.resolve(watch.1.destination), NamedCategory(watch.1));
            && (p == Refused(PathRejected) <==> path.None? || destination.None?)
            && (p == Refused(ValidationFailed) <==> path.Some? && destination.Some? && named.Some? && named.value !in categories)
            && (p.Accepted? ==> Some(p.key) == path && Some(p.value.destination) == destination && p.value.category == named
                                && p.value.rest == watch.1.rest)
            && p != Refused(Conflict)
  {
  }

  /** The same of the indexers: a row whose definition id another row holds is a conflict. */
  function IndexerRefusals(rows: seq<Indexer>, es: seq<IndexerEntry>, check: Indexer -> bool, mode: Mode, r: Report): seq<RejectedRow> {
    if es == [] then []
    else
      var front, e := es[..|es| - 1], es[|es| - 1];
      IndexerRefusals(rows, front, check, mode, r) + RefusedIndexer(ImportIndexers(rows, front, check, mode, r).0, e, check, mode)
  }

  function RefusedIndexer(rows: seq<Indexer>, e: IndexerEntry, check: Indexer -> bool, mode: Mode): seq<RejectedRow> {
    var k := MatchIndexer(rows, e.row);
    if e.refused.Some? then [RejectedRow(Indexers, e.row.name, e.refused.value)]
    else if mode == Skip && k != -1 then []
    else if e.row.definition.Some? && exists j :: 0 <= j < |rows| && j != k && rows[j].definition == e.row.definition then
      [RejectedRow(Indexers, e.row.name, Conflict)]
    else if check(e.row) then [] else [RejectedRow(Indexers, e.row.name, ValidationFailed)]
  }

  lemma IndexerRejects(rows: seq<Indexer>, e: IndexerEntry, check: Indexer -> bool, mode: Mode, r: Report)
    ensures ImportIndexer(rows, e, check, mode, r).1.rejected == r.rejected + RefusedIndexer(rows, e, check, mode)
  {
    hide CountRow, Reject, RejectWrite, MatchIndexer;
    var found := MatchIndexer(rows, e.row) != -1;
    if e.refused.Some? {
      RejectedNow(r, Indexers, found, mode, e.row.name, e.refused.value);
    }
    RejectedNow(r, Indexers, found, mode, e.row.name, Conflict);
    RejectedNow(r, Indexers, found, mode, e.row.name, ValidationFailed);
    CountRowWrites(r, Indexers, found, mode);
  }

  lemma {:induction false} RejectedIndexersAreExact(rows: seq<Indexer>, es: seq<IndexerEntry>, check: Indexer -> bool, mode: Mode, r: Report)
    ensures ImportIndexers(rows, es, check, mode, r).1.rejected == r.rejected + IndexerRefusals(rows, es, check, mode, r)
  {
    hide ImportIndexer, RefusedIndexer;
    if es != [] {
      var front := es[..|es| - 1];
      RejectedIndexersAreExact(rows, front, check, mode, r);
      var (rows1, r1) := ImportIndexers(rows, front, check, mode, r);
      IndexerRejects(rows1, es[|es| - 1], check, mode, r1);
    }
  }

  /** How many entries of a document each collection holds; the grid counts as one. */
  function Entries(d: Document, c: Collection): nat {
    match c
    case Settings => |d.settings|
    case Categories => |d.categories|
    case Indexers => |d.indexers|
    case Feeds => |d.feeds|
    case Rules => |d.rules|
    case WatchFolders => |d.watch|
    case Schedule => 1
  }

  lemma EmptyLedger(o: Collection)
    ensures LedgerAt(EmptyReport, o) && EmptyReport.Of(o).Sum() == 0
  {
  }

  lemma ScheduleCounts(db: Db, d: Document, r: Report, o: Collection)
    requires LedgerAt(r, o) && ImportSchedule(db, d, r).Some?
    ensures Grows(r, ImportSchedule(db, d, r).value.1, Schedule, 1, o)
  {
    hide RejectedIn, Counts.Sum, Counts.NonNegative;
    Bumps(r.Of(Schedule));
  }

  /** The grid and its switch are stored as they stand, whatever the settings member says. */
  lemma GridIsStored(db: Db, d: Document, h: Host, mode: Mode)
    requires Apply(db, d, h, mode).Some?
    ensures var db' := Apply(db, d, h, mode).value.0;
            && db'.cells == d.cells && "schedule_enabled" in db'.settings
            && db'.settings["schedule_enabled"] == if d.enabled then "true" else "false"
  {
    hide ImportEntries, ImportIndexers;
  }

  /** For every document, database, host and mode: created, updated, skipped and rejected
      add up to the entries of each collection, no counter is negative, and every
      rejected count has exactly its rows in the list. */
  lemma LedgerConserves(db: Db, d: Document, h: Host, mode: Mode)
    requires Apply(db, d, h, mode).Some?
    ensures var r := Apply(db, d, h, mode).value.1;
            forall c: Collection :: LedgerAt(r, c) && r.Of(c).Sum() == Entries(d, c)
  {
    hide *;
    forall c: Collection
      ensures LedgerAt(Apply(db, d, h, mode).value.1, c) && Apply(db, d, h, mode).value.1.Of(c).Sum() == Entries(d, c) {
      LedgerConservesAt(db, d, h, mode, c);
    }
  }

  lemma LedgerConservesAt(db: Db, d: Document, h: Host, mode: Mode, o: Collection)
    requires Apply(db, d, h, mode).Some?
    ensures var r := Apply(db, d, h, mode).value.1;
            LedgerAt(r, o) && r.Of(o).Sum() == Entries(d, o)
  {
    hide *;
    EmptyLedger(o);
    var s := PrepareSettings(h, d.settings);
    var (t1, r1) := ImportEntries(db.settings, s, Unchecked, Overwrite, Settings, EmptyReport);
    EntriesCount(db.settings, s, Unchecked, Overwrite, Settings, EmptyReport, o);
    GrowsMore(EmptyReport, r1, r1, Settings, |s|, o);
    var ca := PrepareCategories(h, d.categories);
    var (t2, r2) := ImportEntries(db.categories, ca, h.checkCategory, mode, Categories, r1);
    EntriesCount(db.categories, ca, h.checkCategory, mode, Categories, r1, o);
    GrowsMore(r1, r2, r2, Categories, |ca|, o);
    var (t3, r3) := ImportIndexers(db.indexers, d.indexers, h.checkIndexer, mode, r2);
    IndexersCount(db.indexers, d.indexers, h.checkIndexer, mode, r2, o);
    GrowsMore(r2, r3, r3, Indexers, |d.indexers|, o);
    var fe := PrepareFeeds(h, d.feeds);
    var (t4, r4) := ImportEntries(db.feeds, fe, h.checkFeed, mode, Feeds, r3);
    EntriesCount(db.feeds, fe, h.checkFeed, mode, Feeds, r3, o);
    GrowsMore(r3, r4, r4, Feeds, |fe|, o);
    var ru := PrepareRules(h, d.rules);
    var (t5, r5) := ImportEntries(db.rules, ru, h.checkRule, mode, Rules, r4);
    EntriesCount(db.rules, ru, h.checkRule, mode, Rules, r4, o);
    GrowsMore(r4, r5, r5, Rules, |ru|, o);
    var wa := PrepareWatches(h, t2, d.watch);
    var (t6, r6) := ImportEntries(db.watch, wa, h.checkWatch, mode, WatchFolders, r5);
    EntriesCount(db.watch, wa, h.checkWatch, mode, WatchFolders, r5, o);
    GrowsMore(r5, r6, r6, WatchFolders, |wa|, o);
    var db6 := Db(t1, t2, t3, t4, t5, t6, db.cells);
    ApplyStages(db, d, h, mode, t1, r1, t2, r2, t3, r3, t4, r4, t5, r5, t6, r6);
    ScheduleCounts(db6, d, r6, o);
    SevenStages(d, EmptyReport, r1, r2, r3, r4, r5, r6, ImportSchedule(db6, d, r6).value.1, o);
  }

  lemma ApplyStages(db: Db, d: Document, h: Host, mode: Mode,
                    t1: map<string, string>, r1: Report, t2: map<string, string>, r2: Report, t3: seq<Indexer>, r3: Report,
                    t4: map<string, Columns>, r4: Report, t5: map<string, Columns>, r5: Report, t6: map<string, Watch>, r6: Report)
    requires (t1, r1) == ImportEntries(db.settings, PrepareSettings(h, d.settings), Unchecked, Overwrite, Settings, EmptyReport)
    requires (t2, r2) == ImportEntries(db.categories, PrepareCategories(h, d.categories), h.checkCategory, mode, Categories, r1)
    requires (t3, r3) == ImportIndexers(db.indexers, d.indexers, h.checkIndexer, mode, r2)
    requires (t4, r4) == ImportEntries(db.feeds, PrepareFeeds(h, d.feeds), h.checkFeed, mode, Feeds, r3)
    requires (t5, r5) == ImportEntries(db.rules, PrepareRules(h, d.rules), h.checkRule, mode, Rules, r4)
    requires (t6, r6) == ImportEntries(db.watch, PrepareWatches(h, t2, d.watch), h.checkWatch, mode, WatchFolders, r5)
    ensures Apply(db, d, h, mode) == ImportSchedule(Db(t1, t2, t3, t4, t5, t6, db.cells), d, r6)
  {
    hide ImportEntries, ImportIndexers, ImportSchedule, PrepareSettings, PrepareCategories, PrepareFeeds, PrepareRules, PrepareWatches;
  }

  lemma SevenStages(d: Document, r0: Report, r1: Report, r2: Report, r3: Report, r4: Report, r5: Report, r6: Report, r7: Report, o: Collection)
    requires r0.Of(o).Sum() == 0
    requires Grows(r0, r1, Settings, |d.settings|, o) && Grows(r1, r2, Categories, |d.categories|, o)
    requires Grows(r2, r3, Indexers, |d.indexers|, o) && Grows(r3, r4, Feeds, |d.feeds|, o)
    requires Grows(r4, r5, Rules, |d.rules|, o) && Grows(r5, r6, WatchFolders, |d.watch|, o) && Grows(r6, r7, Schedule, 1, o)
    ensures LedgerAt(r7, o) && r7.Of(o).Sum() == Entries(d, o)
  {
    hide LedgerAt, Entries, Report.Of, Counts.Sum;
    EntriesOf(d, o);
  }

  lemma EntriesOf(d: Document, c: Collection)
    ensures Entries(d, c) ==
            (if c == Settings then |d.settings| else 0) + (if c == Categories then |d.categories| else 0)
            + (if c == Indexers then |d.indexers| else 0) + (if c == Feeds then |d.feeds| else 0)
            + (if c == Rules then |d.rules| else 0) + (if c == WatchFolders then |d.watch| else 0) + (if c == Schedule then 1 else 0)
  {
  }

  function AllCollections(): seq<Collection> {
    [Settings, Categories, Indexers, Feeds, Rules, WatchFolders, Schedule]
  }

  function Plus(a: Counts, b: Counts): Counts {
    Counts(a.created + b.created, a.updated + b.updated, a.skipped + b.skipped, a.rejected + b.rejected)
  }

  function Totals(r: Report, cs: seq<Collection>): Counts {
    if cs == [] then Counts(0, 0, 0, 0) else Plus(Totals(r, cs[..|cs| - 1]), r.Of(cs[|cs| - 1]))
  }

  function EntriesIn(d: Document, cs: seq<Collection>): nat {
    if cs == [] then 0 else EntriesIn(d, cs[..|cs| - 1]) + Entries(d, cs[|cs| - 1])
  }

  /** The grand total accounts for every entry of the document. */
  lemma {:induction false} TotalsConserve(r: Report, d: Document, cs: seq<Collection>)
    requires forall c: Collection :: r.Of(c).Sum() == Entries(d, c)
    ensures Totals(r, cs).Sum() == EntriesIn(d, cs)
  {
    if cs != [] {
      TotalsConserve(r, d, cs[..|cs| - 1]);
    }
  }

  /** The rejected list is as long as the rejected total. */
  lemma RejectedTotalIsTheList(r: Report)
    requires forall c: Collection :: LedgerAt(r, c)
    ensures Totals(r, AllCollections()).rejected == |r.rejected|
  {
    hide *;
    RejectedSplits(r.rejected);
    TotalsOfSeven(r);
    RejectedAt(r, Settings);
    RejectedAt(r, Categories);
    RejectedAt(r, Indexers);
    RejectedAt(r, Feeds);
    RejectedAt(r, Rules);
    RejectedAt(r, WatchFolders);
    RejectedAt(r, Schedule);
  }

  lemma RejectedAt(r: Report, c: Collection)
    requires LedgerAt(r, c)
    ensures r.Of(c).rejected == RejectedIn(r.rejected, c)
  {
  }

  lemma TotalsOfSeven(r: Report)
    ensures Totals(r, AllCollections()).rejected ==
            r.Of(Settings).rejected + r.Of(Categories).rejected + r.Of(Indexers).rejected + r.Of(Feeds).rejected
            + r.Of(Rules).rejected + r.Of(WatchFolders).rejected + r.Of(Schedule).rejected
  {
    SevenInOrder();
    NothingYet(r);
    hide *;
    var one := [] + [Settings];
    var two := one + [Categories];
    var three := two + [Indexers];
    var four := three + [Feeds];
    var five := four + [Rules];
    var six := five + [WatchFolders];
    TotalsNext(r, [], Settings);
    TotalsNext(r, one, Categories);
    TotalsNext(r, two, Indexers);
    TotalsNext(r, three, Feeds);
    TotalsNext(r, four, Rules);
    TotalsNext(r, five, WatchFolders);
    TotalsNext(r, six, Schedule);
  }

  lemma SevenInOrder()
    ensures [] + [Settings] + [Categories] + [Indexers] + [Feeds] + [Rules] + [WatchFolders] + [Schedule] == AllCollections()
  {
  }

  lemma NothingYet(r: Report)
    ensures Totals(r, []).rejected == 0
  {
  }

  lemma TotalsNext(r: Report, cs: seq<Collection>, c: Collection)
    ensures Totals(r, cs + [c]).rejected == Totals(r, cs).rejected + r.Of(c).rejected
  {
    assert (cs + [c])[..|cs|] == cs;
  }

  lemma {:induction false} RejectedSplits(rs: seq<RejectedRow>)
    ensures RejectedIn(rs, Settings) + RejectedIn(rs, Categories) + RejectedIn(rs, Indexers) + RejectedIn(rs, Feeds)
            + RejectedIn(rs, Rules) + RejectedIn(rs, WatchFolders) + RejectedIn(rs, Schedule) == |rs|
  {
    if rs != [] {
      RejectedSplits(rs[..|rs| - 1]);
    }
  }
}
