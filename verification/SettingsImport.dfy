/**
The settings import of internal/api/settings_export.go: what one document does to the
tables and to the report.

Checks the host makes (path jails, validators, CHECK constraints) are functions of the
host.  A table whose conflict key is unique is a map from that key; the indexers, whose
two conflict keys are not, are a sequence of rows.  Row ids and timestamps are left out.
*/
module SettingsImport {
  import opened Options

  // ------------------------------------------------------------- the report

  datatype Collection = Settings | Categories | Indexers | Feeds | Rules | WatchFolders | Schedule

  datatype Counts = Counts(created: int, updated: int, skipped: int, rejected: int) {
    function Sum(): int {
      created + updated + skipped + rejected
    }

    predicate NonNegative() {
      created >= 0 && updated >= 0 && skipped >= 0 && rejected >= 0
    }
  }

  datatype Slug = PathRejected | ValidationFailed | Conflict

  datatype RejectedRow = RejectedRow(collection: Collection, key: string, slug: Slug)

  datatype Report = Report(counts: map<Collection, Counts>, rejected: seq<RejectedRow>) {
    function Of(c: Collection): Counts {
      if c in counts then counts[c] else Counts(0, 0, 0, 0)
    }
  }

  const EmptyReport: Report := Report(map[], [])

  datatype Mode = Skip | Overwrite

  function Reject(r: Report, c: Collection, key: string, slug: Slug): Report {
    var n := r.Of(c);
    Report(r.counts[c := n.(rejected := n.rejected + 1)], r.rejected + [RejectedRow(c, key, slug)])
  }

  /** countRow: the bool says whether the caller writes. */
  function CountRow(r: Report, c: Collection, found: bool, mode: Mode): (Report, bool) {
    var n := r.Of(c);
    (r.(counts := r.counts[c := if found && mode == Skip then n.(skipped := n.skipped + 1)
                                else if found then n.(updated := n.updated + 1)
                                else n.(created := n.created + 1)]),
     !found || mode == Overwrite)
  }

  /** rejectRowError: the tentative count moves to rejected. */
  function RejectWrite(r: Report, c: Collection, key: string, matched: bool, slug: Slug): Report {
    var n := r.Of(c);
    Reject(r.(counts := r.counts[c := if matched then n.(updated := n.updated - 1) else n.(created := n.created - 1)]), c, key, slug)
  }

  // ------------------------------------------- collections keyed by one value

  /** An entry after the host's checks: refused, or what would be stored under its key. */
  datatype Prepared<V> = Refused(slug: Slug) | Accepted(key: string, value: V)

  datatype Entry<V> = Entry(shown: string, row: Prepared<V>)

  function ImportEntry<V>(t: map<string, V>, e: Entry<V>, check: (string, V) -> bool, mode: Mode, c: Collection, r: Report): (map<string, V>, Report) {
    match e.row
    case Refused(slug) => (t, Reject(r, c, e.shown, slug))
    case Accepted(key, value) =>
      var matched := key in t;
      var (r1, write) := CountRow(r, c, matched, mode);
      if !write then (t, r1)
      else if !check(key, value) then (t, RejectWrite(r1, c, e.shown, matched, ValidationFailed))
      else (t[key := value], r1)
  }

  function ImportEntries<V>(t: map<string, V>, es: seq<Entry<V>>, check: (string, V) -> bool, mode: Mode, c: Collection, r: Report): (map<string, V>, Report) {
    if es == [] then (t, r)
    else
      var (t1, r1) := ImportEntries(t, es[..|es| - 1], check, mode, c, r);
      ImportEntry(t1, es[|es| - 1], check, mode, c, r1)
  }

  // ------------------------------------------------------------ the indexers

  datatype Indexer = Indexer(name: string, definition: Option<string>, priority: int, rest: string)

  datatype IndexerEntry = IndexerEntry(row: Indexer, refused: Option<Slug>)

  /** A definition id that can be matched on: present and not empty. */
  predicate HasDefinition(i: Indexer) {
    i.definition.Some? && i.definition.value != ""
  }

  predicate BestByName(rows: seq<Indexer>, name: string, k: int) {
    && 0 <= k < |rows| && rows[k].name == name
    && forall j :: 0 <= j < |rows| && rows[j].name == name ==> rows[k].priority < rows[j].priority || (rows[k].priority == rows[j].priority && k <= j)
  }

  /** The first row with this definition id, or -1. */
  function ByDefinition(rows: seq<Indexer>, d: string): (k: int)
    ensures k == -1 ==> forall j :: 0 <= j < |rows| ==> rows[j].definition != Some(d)
    ensures k != -1 ==> 0 <= k < |rows| && rows[k].definition == Some(d)
  {
    if rows == [] then -1
    else
      var k := ByDefinition(rows[..|rows| - 1], d);
      if k != -1 then k else if rows[|rows| - 1].definition == Some(d) then |rows| - 1 else -1
  }

  /** The row of this name with the lowest priority, the first of those, or -1. */
  function ByName(rows: seq<Indexer>, name: string): (k: int)
    ensures k == -1 ==> forall j :: 0 <= j < |rows| ==> rows[j].name != name
    ensures k != -1 ==> BestByName(rows, name, k)
  {
    if rows == [] then -1
    else
      var n := |rows| - 1;
      var k := ByName(rows[..n], name);
      if rows[n].name == name && (k == -1 || rows[n].priority < rows[k].priority) then n else k
  }

  function MatchIndexer(rows: seq<Indexer>, i: Indexer): (k: int)
    ensures k == -1 || 0 <= k < |rows|
  {
    if HasDefinition(i) then ByDefinition(rows, i.definition.value) else ByName(rows, i.name)
  }

  /** The unique index over definition ids, with row k about to be written. */
  predicate Clashes(rows: seq<Indexer>, i: Indexer, k: int) {
    i.definition.Some? && exists j :: 0 <= j < |rows| && j != k && rows[j].definition == i.definition
  }

  function ImportIndexer(rows: seq<Indexer>, e: IndexerEntry, check: Indexer -> bool, mode: Mode, r: Report): (seq<Indexer>, Report) {
    if e.refused.Some? then (rows, Reject(r, Indexers, e.row.name, e.refused.value))
    else
      var k := MatchIndexer(rows, e.row);
      var (r1, write) := CountRow(r, Indexers, k != -1, mode);
      if !write then (rows, r1)
      else if Clashes(rows, e.row, k) then (rows, RejectWrite(r1, Indexers, e.row.name, k != -1, Conflict))
      else if !check(e.row) then (rows, RejectWrite(r1, Indexers, e.row.name, k != -1, ValidationFailed))
      else if k != -1 then (rows[k := e.row], r1)
      else (rows + [e.row], r1)
  }

  function ImportIndexers(rows: seq<Indexer>, es: seq<IndexerEntry>, check: Indexer -> bool, mode: Mode, r: Report): (seq<Indexer>, Report) {
    if es == [] then (rows, r)
    else
      var (rows1, r1) := ImportIndexers(rows, es[..|es| - 1], check, mode, r);
      ImportIndexer(rows1, es[|es| - 1], check, mode, r1)
  }

  // --------------------------------------------------------------- documents

  /** The exported columns of a row apart from its conflict key. */
  type Columns = string

  datatype Watch = Watch(destination: string, category: Option<string>, rest: Columns)

  datatype Db = Db(settings: map<string, string>, categories: map<string, string>, indexers: seq<Indexer>,
                   feeds: map<string, Columns>, rules: map<string, Columns>, watch: map<string, Watch>, cells: seq<int>)

  datatype Document = Document(settings: seq<(string, string)>, categories: seq<(string, string)>, indexers: seq<IndexerEntry>,
                               feeds: seq<(string, Columns)>, rules: seq<(string, Columns)>, watch: seq<(string, Watch)>,
                               enabled: bool, cells: seq<int>)

  /** The importing host: its settings checks, path jail, validators and constraints. */
  datatype Host = Host(setting: (string, string) -> Prepared<string>, resolve: string -> Option<string>,
                       categoryName: string -> bool, feed: (string, Columns) -> bool, rule: (string, Columns) -> Option<Columns>,
                       checkCategory: (string, string) -> bool, checkFeed: (string, Columns) -> bool,
                       checkRule: (string, Columns) -> bool, checkWatch: (string, Watch) -> bool, checkIndexer: Indexer -> bool)

  function PrepareSetting(h: Host, e: (string, string)): Entry<string> {
    Entry(e.0, match h.setting(e.0, e.1) case Refused(slug) => Refused(slug) case Accepted(_, v) => Accepted(e.0, v))
  }

  function PrepareCategory(h: Host, e: (string, string)): Entry<string> {
    Entry(e.0, if !h.categoryName(e.0) then Refused(ValidationFailed)
               else match h.resolve(e.1) case None => Refused(PathRejected) case Some(p) => Accepted(e.0, p))
  }

  function PrepareFeed(h: Host, e: (string, Columns)): Entry<Columns> {
    Entry(e.0, if h.feed(e.0, e.1) then Accepted(e.0, e.1) else Refused(ValidationFailed))
  }

  function PrepareRule(h: Host, e: (string, Columns)): Entry<Columns> {
    Entry(e.0, match h.rule(e.0, e.1) case None => Refused(ValidationFailed) case Some(doc) => Accepted(e.0, doc))
  }

  /** An empty category name means none; any other must exist in the transaction. */
  function PrepareWatch(h: Host, categories: map<string, string>, e: (string, Watch)): Entry<Watch> {
    Entry(e.0,
          match h.resolve(e.0)
          case None => Refused(PathRejected)
          case Some(path) =>
            match h.resolve(e.1.destination)
            case None => Refused(PathRejected)
            case Some(destination) =>
              if e.1.category.None? || e.1.category.value == "" then Accepted(path, e.1.(destination := destination, category := None))
              else if e.1.category.value !in categories then Refused(ValidationFailed)
              else Accepted(path, e.1.(destination := destination)))
  }

  function PrepareSettings(h: Host, es: seq<(string, string)>): (r: seq<Entry<string>>)
    ensures |r| == |es|
  {
    seq(|es|, i requires 0 <= i < |es| => PrepareSetting(h, es[i]))
  }

  function PrepareCategories(h: Host, es: seq<(string, string)>): (r: seq<Entry<string>>)
    ensures |r| == |es|
  {
    seq(|es|, i requires 0 <= i < |es| => PrepareCategory(h, es[i]))
  }

  function PrepareFeeds(h: Host, es: seq<(string, Columns)>): (r: seq<Entry<Columns>>)
    ensures |r| == |es|
  {
    seq(|es|, i requires 0 <= i < |es| => PrepareFeed(h, es[i]))
  }

  function PrepareRules(h: Host, es: seq<(string, Columns)>): (r: seq<Entry<Columns>>)
    ensures |r| == |es|
  {
    seq(|es|, i requires 0 <= i < |es| => PrepareRule(h, es[i]))
  }

  function PrepareWatches(h: Host, categories: map<string, string>, es: seq<(string, Watch)>): (r: seq<Entry<Watch>>)
    ensures |r| == |es|
  {
    seq(|es|, i requires 0 <= i < |es| => PrepareWatch(h, categories, es[i]))
  }

  predicate Unchecked(key: string, value: string) {
    true
  }

  const SCHEDULE_ENABLED := "schedule_enabled"
  const CELLS := 168

  function Json(b: bool): string {
    if b then "true" else "false"
  }

  /** None is an internal failure, which rolls the whole import back. */
  function ImportSchedule(db: Db, d: Document, r: Report): Option<(Db, Report)> {
    if |d.cells| != CELLS || exists k :: 0 <= k < |d.cells| && !(0 <= d.cells[k] <= 2) then None
    else
      var n := r.Of(Schedule);
      Some((db.(settings := db.settings[SCHEDULE_ENABLED := Json(d.enabled)], cells := d.cells),
            r.(counts := r.counts[Schedule := n.(updated := n.updated + 1)])))
  }

  /** applyImport: the collections in dependency order.  Settings always overwrite. */
  function Apply(db: Db, d: Document, h: Host, mode: Mode): Option<(Db, Report)> {
    var (settings, r1) := ImportEntries(db.settings, PrepareSettings(h, d.settings), Unchecked, Overwrite, Settings, EmptyReport);
    var (categories, r2) := ImportEntries(db.categories, PrepareCategories(h, d.categories), h.checkCategory, mode, Categories, r1);
    var (indexers, r3) := ImportIndexers(db.indexers, d.indexers, h.checkIndexer, mode, r2);
    var (feeds, r4) := ImportEntries(db.feeds, PrepareFeeds(h, d.feeds), h.checkFeed, mode, Feeds, r3);
    var (rules, r5) := ImportEntries(db.rules, PrepareRules(h, d.rules), h.checkRule, mode, Rules, r4);
    var (watch, r6) := ImportEntries(db.watch, PrepareWatches(h, categories, d.watch), h.checkWatch, mode, WatchFolders, r5);
    ImportSchedule(Db(settings, categories, indexers, feeds, rules, watch, db.cells), d, r6)
  }
}
