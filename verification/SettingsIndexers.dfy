/**
When a second overwrite import leaves the indexers alone.

An indexer is matched by its definition id or, without one, by its name, and only the
first of those is unique in the table, so the two keys of different entries can meet on
one row.  They cannot when names and definition ids are distinct.
*/
module SettingsIndexers {
  import opened Options
  import opened SettingsImport
  import opened SettingsRoundTrip

  ghost predicate UniqueDefinitions(rows: seq<Indexer>) {
    forall i, j :: 0 <= i < j < |rows| && rows[i].definition.Some? ==> rows[i].definition != rows[j].definition
  }

  ghost predicate OneNamed(rows: seq<Indexer>, name: string) {
    forall i, j :: 0 <= i < j < |rows| && rows[i].name == name ==> rows[j].name != name
  }

  /** Neither key of one entry is a key of the other, and no definition id is empty. */
  predicate Apart(e: IndexerEntry, o: IndexerEntry) {
    e.row.name != o.row.name && (e.row.definition.Some? ==> e.row.definition != o.row.definition)
  }

  predicate KeyOk(e: IndexerEntry) {
    e.row.definition != Some("")
  }

  /** Writing the entry again would write what is there. */
  ghost predicate Fixed(rows: seq<Indexer>, e: IndexerEntry, check: Indexer -> bool) {
    || e.refused.Some? || !check(e.row)
    || (exists k :: 0 <= k < |rows| && rows[k] == e.row && k == MatchIndexer(rows, e.row) && !Clashes(rows, e.row, k))
  }

  lemma DefinitionFound(rows: seq<Indexer>, d: string, k: int)
    requires UniqueDefinitions(rows) && 0 <= k < |rows| && rows[k].definition == Some(d)
    ensures ByDefinition(rows, d) == k
  {
  }

  lemma NameFound(rows: seq<Indexer>, name: string, k: int)
    requires OneNamed(rows, name) && 0 <= k < |rows| && rows[k].name == name
    ensures ByName(rows, name) == k
  {
  }

  lemma OnlyOneDefinition(rows: seq<Indexer>, k: int)
    requires UniqueDefinitions(rows) && 0 <= k < |rows|
    ensures !Clashes(rows, rows[k], k)
  {
  }

  /** Row k is where the entry was written, by either key. */
  lemma MatchFound(rows: seq<Indexer>, i: Indexer, k: int)
    requires UniqueDefinitions(rows) && i.definition != Some("") && (i.definition.None? ==> OneNamed(rows, i.name))
    requires 0 <= k < |rows| && rows[k] == i
    ensures MatchIndexer(rows, i) == k && !Clashes(rows, i, k)
  {
    OnlyOneDefinition(rows, k);
    if HasDefinition(i) {
      DefinitionFound(rows, i.definition.value, k);
    } else {
      NameFound(rows, i.name, k);
    }
  }

  lemma WriteKeepsUnique(rows: seq<Indexer>, e: IndexerEntry, check: Indexer -> bool)
    requires UniqueDefinitions(rows)
    ensures UniqueDefinitions(IndexerWritten(rows, e, check, Overwrite))
  {
    var rows' := IndexerWritten(rows, e, check, Overwrite);
    forall i, j | 0 <= i < j < |rows'| && rows'[i].definition.Some? ensures rows'[i].definition != rows'[j].definition {
    }
  }

  lemma WriteKeepsNames(rows: seq<Indexer>, e: IndexerEntry, check: Indexer -> bool, name: string)
    requires OneNamed(rows, name) && (e.row.name == name ==> e.row.definition.None?)
    ensures OneNamed(IndexerWritten(rows, e, check, Overwrite), name)
  {
  }

  lemma WriteFixes(rows: seq<Indexer>, e: IndexerEntry, check: Indexer -> bool)
    requires UniqueDefinitions(rows) && KeyOk(e) && (e.row.definition.None? ==> OneNamed(rows, e.row.name))
    ensures Fixed(IndexerWritten(rows, e, check, Overwrite), e, check)
  {
    if e.refused.None? && check(e.row) {
      var k := MatchIndexer(rows, e.row);
      NoClash(rows, e);
      var rows' := IndexerWritten(rows, e, check, Overwrite);
      var at := if k != -1 then k else |rows|;
      assert rows'[at] == e.row;
      WriteKeepsUnique(rows, e, check);
      if e.row.definition.None? {
        WriteKeepsNames(rows, e, check, e.row.name);
      }
      MatchFound(rows', e.row, at);
    }
  }

  lemma NoClash(rows: seq<Indexer>, e: IndexerEntry)
    requires UniqueDefinitions(rows) && KeyOk(e)
    ensures !Clashes(rows, e.row, MatchIndexer(rows, e.row))
  {
    if e.row.definition.Some? {
      forall j | 0 <= j < |rows| && rows[j].definition == e.row.definition ensures j == MatchIndexer(rows, e.row) {
        DefinitionFound(rows, e.row.definition.value, j);
      }
    }
  }

  lemma WriteKeepsFixed(rows: seq<Indexer>, e: IndexerEntry, o: IndexerEntry, check: Indexer -> bool)
    requires UniqueDefinitions(rows) && KeyOk(e) && KeyOk(o) && Apart(e, o) && Apart(o, e)
    requires o.row.definition.None? ==> OneNamed(rows, o.row.name)
    requires Fixed(rows, o, check)
    ensures Fixed(IndexerWritten(rows, e, check, Overwrite), o, check)
  {
    if o.refused.None? && check(o.row) {
      var k :| 0 <= k < |rows| && rows[k] == o.row && k == MatchIndexer(rows, o.row) && !Clashes(rows, o.row, k);
      var rows' := IndexerWritten(rows, e, check, Overwrite);
      assert MatchIndexer(rows, e.row) != k;
      assert rows'[k] == o.row;
      WriteKeepsUnique(rows, e, check);
      WriteKeepsNames2(rows, e, o, check);
      MatchFound(rows', o.row, k);
    }
  }

  lemma WriteKeepsNames2(rows: seq<Indexer>, e: IndexerEntry, o: IndexerEntry, check: Indexer -> bool)
    requires Apart(e, o) && (o.row.definition.None? ==> OneNamed(rows, o.row.name))
    ensures o.row.definition.None? ==> OneNamed(IndexerWritten(rows, e, check, Overwrite), o.row.name)
  {
    if o.row.definition.None? {
      WriteKeepsNames(rows, e, check, o.row.name);
    }
  }

  ghost predicate DistinctKeys(es: seq<IndexerEntry>) {
    && (forall e :: e in es ==> KeyOk(e))
    && (forall i, j :: 0 <= i < |es| && 0 <= j < |es| && i != j ==> Apart(es[i], es[j]))
  }

  lemma ImportFixes(rows: seq<Indexer>, es: seq<IndexerEntry>, check: Indexer -> bool)
    requires UniqueDefinitions(rows) && DistinctKeys(es)
    requires forall e :: e in es && e.row.definition.None? ==> OneNamed(rows, e.row.name)
    ensures var rows' := IndexersAfter(rows, es, check, Overwrite);
            UniqueDefinitions(rows') && forall e :: e in es ==> Fixed(rows', e, check)
  {
    ImportKeeps(rows, es, check, |es|);
    assert es[..|es|] == es;
  }

  lemma {:induction false} ImportKeeps(rows: seq<Indexer>, es: seq<IndexerEntry>, check: Indexer -> bool, n: int)
    requires UniqueDefinitions(rows) && DistinctKeys(es) && 0 <= n <= |es|
    requires forall e :: e in es && e.row.definition.None? ==> OneNamed(rows, e.row.name)
    ensures var rows' := IndexersAfter(rows, es[..n], check, Overwrite);
            && UniqueDefinitions(rows')
            && (forall e :: e in es && e.row.definition.None? ==> OneNamed(rows', e.row.name))
            && forall e :: e in es[..n] ==> Fixed(rows', e, check)
    decreases n
  {
    if n > 0 {
      ImportKeeps(rows, es, check, n - 1);
      assert es[..n][..n - 1] == es[..n - 1];
      var before := IndexersAfter(rows, es[..n - 1], check, Overwrite);
      var e := es[n - 1];
      assert e in es;
      WriteKeepsUnique(before, e, check);
      WriteFixes(before, e, check);
      forall i | 0 <= i < |es| && es[i].row.definition.None? ensures OneNamed(IndexerWritten(before, e, check, Overwrite), es[i].row.name) {
        assert es[i] in es;
        if i != n - 1 {
          assert Apart(e, es[i]);
        }
        WriteKeepsNames(before, e, check, es[i].row.name);
      }
      forall i | 0 <= i < n - 1 ensures Fixed(IndexerWritten(before, e, check, Overwrite), es[i], check) {
        assert es[i] in es[..n - 1] && es[i] in es;
        assert Apart(e, es[i]) && Apart(es[i], e);
        WriteKeepsFixed(before, e, es[i], check);
      }
    }
  }

  lemma {:induction false} FixedIndexersStay(rows: seq<Indexer>, es: seq<IndexerEntry>, check: Indexer -> bool)
    requires forall e :: e in es ==> Fixed(rows, e, check)
    ensures IndexersAfter(rows, es, check, Overwrite) == rows
  {
    if es != [] {
      assert forall e :: e in es[..|es| - 1] ==> e in es;
      FixedIndexersStay(rows, es[..|es| - 1], check);
      assert es[|es| - 1] in es;
    }
  }

  /** With distinct names and definition ids, in the table and in the document, a second
      overwrite import changes no indexer. */
  lemma SecondOverwriteLeavesIndexers(db: Db, d: Document, h: Host)
    requires Apply(db, d, h, Overwrite).Some?
    requires UniqueDefinitions(db.indexers) && (forall i, j :: 0 <= i < j < |db.indexers| ==> db.indexers[i].name != db.indexers[j].name)
    requires DistinctKeys(d.indexers)
    ensures var db1 := Apply(db, d, h, Overwrite).value.0;
            Apply(db1, d, h, Overwrite).Some? && Apply(db1, d, h, Overwrite).value.0.indexers == db1.indexers
  {
    var db1 := Apply(db, d, h, Overwrite).value.0;
    SecondOverwriteIsFixed(db, d, h);
    TablesOf(db, d, h, Overwrite);
    TablesOf(db1, d, h, Overwrite);
    hide Apply, Fixed, IndexersAfter;
    ImportFixes(db.indexers, d.indexers, h.checkIndexer);
    FixedIndexersStay(db1.indexers, d.indexers, h.checkIndexer);
  }

  // ------------------------------------------------------------- the drift

  /** A row of the same name that stands before row k once k holds the entry. */
  predicate Ahead(rows: seq<Indexer>, k: int, i: Indexer, j: int) {
    && 0 <= j < |rows| && j != k && rows[j].name == i.name
    && (rows[j].priority < i.priority || (rows[j].priority == i.priority && j < k))
  }

  predicate AtOrBefore(rows: seq<Indexer>, i: int, j: int)
    requires 0 <= i < |rows| && 0 <= j < |rows|
  {
    rows[i].priority < rows[j].priority || (rows[i].priority == rows[j].priority && i <= j)
  }

  /** Another row of the name is ahead, and it is not, nor is any ahead of it, the entry. */
  ghost predicate AnotherIsAhead(rows: seq<Indexer>, k: int, i: Indexer) {
    exists j :: Ahead(rows, k, i, j) && forall n :: Ahead(rows, k, i, n) && AtOrBefore(rows, n, j) ==> rows[n] != i
  }

  /** What a caller can see before importing: the entry is accepted, has no definition id,
      and would be written over a row that another of the name then stands ahead of. */
  ghost predicate Drifts(rows: seq<Indexer>, e: IndexerEntry, check: Indexer -> bool) {
    && e.refused.None? && check(e.row) && e.row.definition.None?
    && ByName(rows, e.row.name) != -1 && AnotherIsAhead(rows, ByName(rows, e.row.name), e.row)
  }

  /** The row the second write finds is the first of those ahead, if there is one. */
  lemma SecondMatch(rows: seq<Indexer>, k: int, i: Indexer)
    requires 0 <= k < |rows| && rows[k].name == i.name
    ensures var k1 := ByName(rows[k := i], i.name);
            && 0 <= k1 < |rows| && (k1 != k ==> Ahead(rows, k, i, k1))
            && (forall j :: Ahead(rows, k, i, j) ==> k1 != k && AtOrBefore(rows, k1, j))
  {
    var once := rows[k := i];
    assert once[k].name == i.name;
    var k1 := ByName(once, i.name);
    assert BestByName(once, i.name, k1);
    hide ByName;
    forall j | Ahead(rows, k, i, j) ensures k1 != k && AtOrBefore(rows, k1, j) {
      assert once[j] == rows[j] && once[j].name == i.name;
    }
  }

  lemma SecondWriteDrifts(rows: seq<Indexer>, k: int, i: Indexer)
    requires 0 <= k < |rows| && rows[k].name == i.name
    ensures var k1 := ByName(rows[k := i], i.name);
            0 <= k1 < |rows| && (rows[k := i][k1] != i <==> AnotherIsAhead(rows, k, i))
  {
    SecondMatch(rows, k, i);
    hide ByName;
    var k1 := ByName(rows[k := i], i.name);
    if k1 != k {
      if rows[k1] != i {
        forall n | Ahead(rows, k, i, n) && AtOrBefore(rows, n, k1) ensures rows[n] != i {
          assert AtOrBefore(rows, k1, n);
        }
      } else {
        forall j | Ahead(rows, k, i, j) ensures exists n :: Ahead(rows, k, i, n) && AtOrBefore(rows, n, j) && rows[n] == i {
          assert AtOrBefore(rows, k1, j);
        }
      }
    }
  }

  lemma FixedStays(rows: seq<Indexer>, e: IndexerEntry, check: Indexer -> bool)
    requires Fixed(rows, e, check)
    ensures IndexerWritten(rows, e, check, Overwrite) == rows
  {
  }

  /** An empty definition id is matched by name but unique: the second write clashes. */
  lemma EmptyDefinitionStays(rows: seq<Indexer>, e: IndexerEntry, check: Indexer -> bool)
    requires e.row.definition == Some("")
    ensures var once := IndexerWritten(rows, e, check, Overwrite); IndexerWritten(once, e, check, Overwrite) == once
  {
    var once := IndexerWritten(rows, e, check, Overwrite);
    var k := ByName(rows, e.row.name);
    if once != rows {
      var at := if k != -1 then k else |rows|;
      assert once[at] == e.row;
      var k1 := ByName(once, e.row.name);
      if k1 != at {
        assert Clashes(once, e.row, k1);
      }
    }
  }

  lemma AppendedStays(rows: seq<Indexer>, i: Indexer)
    requires ByName(rows, i.name) == -1
    ensures ByName(rows + [i], i.name) == |rows|
  {
    var once := rows + [i];
    assert once[|rows|] == i;
    hide ByName;
    forall k | 0 <= k < |rows| ensures once[k].name != i.name {
      assert once[k] == rows[k];
    }
  }

  lemma NamedDrift(rows: seq<Indexer>, e: IndexerEntry, check: Indexer -> bool)
    requires e.refused.None? && check(e.row) && e.row.definition.None?
    ensures var once := IndexerWritten(rows, e, check, Overwrite);
            IndexerWritten(once, e, check, Overwrite) != once <==> Drifts(rows, e, check)
  {
    var k := ByName(rows, e.row.name);
    if k == -1 {
      AppendedStays(rows, e.row);
    } else {
      var once := rows[k := e.row];
      SecondWriteDrifts(rows, k, e.row);
      SecondMatch(rows, k, e.row);
      hide ByName, AnotherIsAhead, Ahead, AtOrBefore;
      var k1 := ByName(once, e.row.name);
      assert once[k1] == e.row ==> once[k1 := e.row] == once;
      assert once[k1] != e.row ==> once[k1 := e.row][k1] != once[k1];
    }
  }

  /** When importing an entry a second time changes the table, exactly, for any table with
      unique definition ids and any entry. */
  lemma DriftsExactly(rows: seq<Indexer>, e: IndexerEntry, check: Indexer -> bool)
    requires UniqueDefinitions(rows)
    ensures var once := IndexerWritten(rows, e, check, Overwrite);
            IndexerWritten(once, e, check, Overwrite) != once <==> Drifts(rows, e, check)
  {
    hide AnotherIsAhead;
    if e.refused.None? && check(e.row) {
      if e.row.definition.None? {
        NamedDrift(rows, e, check);
      } else if e.row.definition == Some("") {
        EmptyDefinitionStays(rows, e, check);
      } else {
        WriteFixes(rows, e, check);
        FixedStays(IndexerWritten(rows, e, check, Overwrite), e, check);
      }
    }
  }

  /** An instance: the entry moves its row down the order, so the second import finds the
      other row of that name. */
  lemma SharedNamesDrift()
    ensures exists rows: seq<Indexer>, e: IndexerEntry, check: Indexer -> bool ::
              var once := IndexerWritten(rows, e, check, Overwrite);
              UniqueDefinitions(rows) && KeyOk(e) && IndexerWritten(once, e, check, Overwrite) != once
  {
    var rows := [Indexer("x", None, 10, ""), Indexer("x", None, 20, "")];
    var e := IndexerEntry(Indexer("x", None, 30, "new"), None);
    var check := (i: Indexer) => true;
    assert BestByName(rows, "x", 0) && ByName(rows, "x") == 0;
    assert Ahead(rows, 0, e.row, 1);
    DriftsExactly(rows, e, check);
  }

  /** In whole imports: a document whose one indexer entry drifts changes the table again. */
  lemma SecondOverwriteDrifts(db: Db, d: Document, h: Host)
    requires Apply(db, d, h, Overwrite).Some? && UniqueDefinitions(db.indexers) && |d.indexers| == 1
    ensures var db1 := Apply(db, d, h, Overwrite).value.0;
            && Apply(db1, d, h, Overwrite).Some?
            && (Apply(db1, d, h, Overwrite).value.0.indexers != db1.indexers <==> Drifts(db.indexers, d.indexers[0], h.checkIndexer))
  {
    var db1 := Apply(db, d, h, Overwrite).value.0;
    SecondOverwriteIsFixed(db, d, h);
    TablesOf(db, d, h, Overwrite);
    TablesOf(db1, d, h, Overwrite);
    hide Apply, Drifts;
    OneEntry(db.indexers, d.indexers, h.checkIndexer);
    OneEntry(db1.indexers, d.indexers, h.checkIndexer);
    DriftsExactly(db.indexers, d.indexers[0], h.checkIndexer);
  }

  lemma OneEntry(rows: seq<Indexer>, es: seq<IndexerEntry>, check: Indexer -> bool)
    requires |es| == 1
    ensures IndexersAfter(rows, es, check, Overwrite) == IndexerWritten(rows, es[0], check, Overwrite)
  {
    assert es[..0] == [];
  }
}
