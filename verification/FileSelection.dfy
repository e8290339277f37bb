/**
The two resolvers of a file selection: applySelection of internal/api/submission.go for a
task being created, resolveFileSelection of internal/api/tasks_files.go for one that
exists.  They are written apart, fail in different ways, and must mean the same.
*/
module FileSelection {
  import opened Options
  import opened Sorting

  const SKIP := 0
  const NORMAL := 1
  const HIGH := 6
  const MAXIMUM := 7

  /** priorityValues; None is an unknown word. */
  function PriorityValue(word: string): Option<int> {
    if word == "skip" then Some(SKIP)
    else if word == "normal" then Some(NORMAL)
    else if word == "high" then Some(HIGH)
    else if word == "maximum" then Some(MAXIMUM)
    else None
  }

  datatype Entry = Entry(index: int, selected: Option<bool>, priority: Option<string>)

  datatype Choice = Choice(priority: int, selected: bool)

  // ------------------------------------------------------ at creation time

  /** resolveSelectionEntry */
  function ResolveSelectionEntry(e: Entry): Option<Choice> {
    if e.selected.None? && e.priority.None? then None
    else
      var priority := if e.selected.Some? && !e.selected.value then SKIP else NORMAL;
      var selected := e.selected.None? || e.selected.value;
      if e.priority.None? then Some(Choice(priority, selected))
      else
        match PriorityValue(e.priority.value)
        case None => None
        case Some(value) =>
          if e.selected.Some? && e.selected.value != (value != SKIP) then None
          else Some(Choice(value, value != SKIP))
  }

  datatype Applied = Failed | Done(indices: seq<int>, priorities: map<int, int>)

  function ApplyEntry(a: Applied, e: Entry, fileCount: int): Applied {
    if a.Failed? || e.index < 0 || (fileCount >= 0 && e.index >= fileCount) || e.index in a.priorities then Failed
    else
      match ResolveSelectionEntry(e)
      case None => Failed
      case Some(c) => Done(if c.selected then a.indices + [e.index] else a.indices, a.priorities[e.index := c.priority])
  }

  function ApplyAll(es: seq<Entry>, fileCount: int): Applied {
    if es == [] then Done([], map[]) else ApplyEntry(ApplyAll(es[..|es| - 1], fileCount), es[|es| - 1], fileCount)
  }

  // ------------------------------------------------------- over a listing

  datatype Problem = DuplicateIndex | Incomplete | UnknownIndex | UnknownPriority | Disagree

  datatype FieldError = FieldError(at: nat, problem: Problem)

  datatype Resolution = Resolution(seen: set<int>, priorities: map<int, int>, selection: map<int, bool>, errors: seq<FieldError>)

  datatype Resolved = Bad(problem: Problem) | Good(choice: Choice)

  /** One entry of the PATCH body, once its index is known and new. */
  function ResolveEntry(e: Entry): Resolved {
    if e.priority.Some? && PriorityValue(e.priority.value).None? then Bad(UnknownPriority)
    else
      var priority := if e.priority.Some? then PriorityValue(e.priority.value).value else NORMAL;
      var selected := if e.priority.Some? then priority != SKIP else true;
      if e.selected.None? then Good(Choice(priority, selected))
      else if e.priority.Some? && e.selected.value != selected then Bad(Disagree)
      else Good(Choice(if e.priority.Some? then priority else if e.selected.value then NORMAL else SKIP, e.selected.value))
  }

  function ResolveNext(r: Resolution, i: nat, e: Entry, known: set<int>): Resolution {
    if e.index in r.seen then r.(errors := r.errors + [FieldError(i, DuplicateIndex)])
    else
      var r1 := r.(seen := r.seen + {e.index});
      if e.selected.None? && e.priority.None? then r1.(errors := r.errors + [FieldError(i, Incomplete)])
      else if e.index !in known then r1.(errors := r.errors + [FieldError(i, UnknownIndex)])
      else
        match ResolveEntry(e)
        case Bad(problem) => r1.(errors := r.errors + [FieldError(i, problem)])
        case Good(c) => r1.(priorities := r.priorities[e.index := c.priority], selection := r.selection[e.index := c.selected])
  }

  function ResolveAll(es: seq<Entry>, known: set<int>): Resolution {
    if es == [] then Resolution({}, map[], map[], [])
    else ResolveNext(ResolveAll(es[..|es| - 1], known), |es| - 1, es[|es| - 1], known)
  }

  // -------------------------------------------------------------- agreement

  /** The two decision procedures over one entry are the same function. */
  lemma EntriesAgree(e: Entry)
    requires e.selected.Some? || e.priority.Some?
    ensures match ResolveSelectionEntry(e)
            case None => ResolveEntry(e).Bad?
            case Some(c) => ResolveEntry(e) == Good(c) && c.selected == (c.priority != SKIP)
  {
  }

  ghost predicate SameAnswer(a: Applied, r: Resolution) {
    && (a.Done? <==> r.errors == [])
    && (a.Done? ==>
          && r.priorities == a.priorities && r.seen == a.priorities.Keys && r.selection.Keys == a.priorities.Keys
          && (forall k :: k in a.priorities ==> r.selection[k] == (a.priorities[k] != SKIP))
          && (forall k :: k in a.indices <==> k in a.priorities && a.priorities[k] != SKIP)
          && DistinctKeys(a.indices, Itself))
  }

  /** The indices of an n-file listing. */
  function Listing(n: nat): (known: set<int>)
    ensures forall k :: k in known <==> 0 <= k < n
  {
    if n == 0 then {} else Listing(n - 1) + {n - 1}
  }

  function Itself(n: int): int {
    n
  }

  lemma NextSameAnswer(a: Applied, r: Resolution, i: nat, e: Entry, n: int, known: set<int>)
    requires SameAnswer(a, r) && n >= 0 && known == Listing(n)
    ensures SameAnswer(ApplyEntry(a, e, n), ResolveNext(r, i, e, known))
  {
    hide ResolveSelectionEntry, ResolveEntry, Listing;
    if e.selected.Some? || e.priority.Some? {
      EntriesAgree(e);
    } else {
      SilentEntriesFail(e);
    }
    assert e.index in known <==> 0 <= e.index < n;
  }

  lemma SilentEntriesFail(e: Entry)
    requires e.selected.None? && e.priority.None?
    ensures ResolveSelectionEntry(e).None?
  {
  }

  /** For every entry list and an n-file listing indexed 0..n-1, creation accepts exactly
      when the listing resolver reports no field error; then both give the same priority
      per index, and selected holds exactly when the priority is not skip. */
  lemma {:induction false} ResolversAgree(es: seq<Entry>, n: int)
    requires n >= 0
    ensures SameAnswer(ApplyAll(es, n), ResolveAll(es, Listing(n)))
  {
    var known := Listing(n);
    if es != [] {
      ResolversAgree(es[..|es| - 1], n);
      NextSameAnswer(ApplyAll(es[..|es| - 1], n), ResolveAll(es[..|es| - 1], known), |es| - 1, es[|es| - 1], n, known);
    }
  }

  /** The indices the engine is handed: sorted, duplicate-free, the selected set. */
  lemma SortedIndices(es: seq<Entry>, n: int)
    requires n >= 0 && ApplyAll(es, n).Done?
    ensures var a := ApplyAll(es, n);
            var sorted := SortBy(a.indices, Itself);
            Ascending(sorted, Itself) && forall k :: k in sorted <==> k in a.priorities && a.priorities[k] != SKIP
  {
    ResolversAgree(es, n);
    var a := ApplyAll(es, n);
    SortByAscends(a.indices, Itself);
    SortByKeepsElements(a.indices, Itself);
  }

  /** What an accepted list is, said directly: every index once and inside the listing,
      every entry complete, in the vocabulary and agreeing with itself. */
  predicate EntryOk(e: Entry) {
    && (e.selected.Some? || e.priority.Some?)
    && (e.priority.Some? ==> e.priority.value in {"skip", "normal", "high", "maximum"})
    && (e.selected.Some? && e.priority.Some? ==> e.selected.value == (e.priority.value != "skip"))
  }

  ghost predicate ListOk(es: seq<Entry>, fileCount: int) {
    && (forall i :: 0 <= i < |es| ==> EntryOk(es[i]) && es[i].index >= 0 && (fileCount >= 0 ==> es[i].index < fileCount))
    && (forall i, j :: 0 <= i < j < |es| ==> es[i].index != es[j].index)
  }

  lemma EntryOkIsResolved(e: Entry)
    ensures EntryOk(e) <==> ResolveSelectionEntry(e).Some?
  {
  }

  /** Some entry before i names this index. */
  ghost predicate NamedBefore(es: seq<Entry>, i: nat, k: int)
    requires i <= |es|
  {
    exists j :: 0 <= j < i && es[j].index == k
  }

  lemma NamedNext(es: seq<Entry>, k: int)
    requires es != []
    ensures var n := |es| - 1;
            && (NamedBefore(es[..n], n, k) <==> NamedBefore(es, n, k))
            && (NamedBefore(es, |es|, k) <==> NamedBefore(es, n, k) || es[n].index == k)
  {
    var n := |es| - 1;
    assert forall j :: 0 <= j < n ==> es[..n][j] == es[j];
  }

  lemma ListOkNext(es: seq<Entry>, fileCount: int)
    requires es != []
    ensures var n := |es| - 1;
            ListOk(es, fileCount) <==>
            && ListOk(es[..n], fileCount) && EntryOk(es[n]) && es[n].index >= 0 && (fileCount >= 0 ==> es[n].index < fileCount)
            && !NamedBefore(es, n, es[n].index)
  {
    hide EntryOk;
    var n := |es| - 1;
    assert forall j :: 0 <= j < n ==> es[..n][j] == es[j];
  }

  lemma {:induction false} AcceptedIffOk(es: seq<Entry>, fileCount: int)
    ensures ApplyAll(es, fileCount).Done? <==> ListOk(es, fileCount)
    ensures ApplyAll(es, fileCount).Done? ==>
              forall k :: k in ApplyAll(es, fileCount).priorities <==> NamedBefore(es, |es|, k)
  {
    hide ResolveSelectionEntry, EntryOk, NamedBefore;
    if es == [] {
      NobodyNamed();
    } else {
      var n := |es| - 1;
      AcceptedIffOk(es[..n], fileCount);
      EntryOkIsResolved(es[n]);
      hide ListOk;
      ListOkNext(es, fileCount);
      forall k: int
        ensures NamedBefore(es[..n], n, k) <==> NamedBefore(es, n, k)
        ensures NamedBefore(es, |es|, k) <==> NamedBefore(es, n, k) || es[n].index == k
      {
        NamedNext(es, k);
      }
    }
  }

  lemma NobodyNamed()
    ensures forall k :: !NamedBefore([], 0, k)
  {
  }

  /** The documented vocabulary and its numbers. */
  const Vocabulary: map<string, int> := map["skip" := 0, "normal" := 1, "high" := 6, "maximum" := 7]

  lemma WordsMean(word: string)
    ensures PriorityValue(word) == if word in Vocabulary then Some(Vocabulary[word]) else None
  {
  }

  /** What an entry asks for: the number of its word, or normal unless it deselects. */
  function Asked(e: Entry): int {
    if e.priority.Some? && e.priority.value in Vocabulary then Vocabulary[e.priority.value]
    else if e.selected == Some(false) then 0
    else 1
  }

  lemma EntryAsks(e: Entry)
    requires EntryOk(e)
    ensures ResolveSelectionEntry(e) == Some(Choice(Asked(e), Asked(e) != 0))
  {
    if e.priority.Some? {
      WordsMean(e.priority.value);
    }
  }

  /** What an accepted list selects: every index gets the number its entry asks for. */
  lemma {:induction false} PrioritiesAreAsked(es: seq<Entry>, fileCount: int, i: nat)
    requires ApplyAll(es, fileCount).Done? && i < |es|
    ensures es[i].index in ApplyAll(es, fileCount).priorities && ApplyAll(es, fileCount).priorities[es[i].index] == Asked(es[i])
  {
    hide ResolveSelectionEntry, Asked, EntryOk;
    var n := |es| - 1;
    EntryOkIsResolved(es[n]);
    if i < n {
      PrioritiesAreAsked(es[..n], fileCount, i);
    } else {
      EntryAsks(es[n]);
    }
  }

  /** The first thing wrong with an entry of the listing's request, in the order a client is
      told: a repeated index, nothing asked, an unknown index, an unknown word, a selection
      that contradicts its word. */
  predicate WrongEntry(e: Entry, repeated: bool, known: set<int>, problem: Problem) {
    var silent := e.selected.None? && e.priority.None?;
    var foreign := e.index !in known;
    var unknown := e.priority.Some? && e.priority.value !in Vocabulary;
    match problem
    case DuplicateIndex => repeated
    case Incomplete => !repeated && silent
    case UnknownIndex => !repeated && !silent && foreign
    case UnknownPriority => !repeated && !silent && !foreign && unknown
    case Disagree =>
      && !repeated && !silent && !foreign && !unknown
      && e.selected.Some? && e.priority.Some? && e.selected.value == (e.priority.value == "skip")
  }

  ghost predicate Wrong(es: seq<Entry>, i: nat, known: set<int>, problem: Problem)
    requires i < |es|
  {
    WrongEntry(es[i], NamedBefore(es, i, es[i].index), known, problem)
  }

  lemma {:induction false} SeenAreTheIndices(es: seq<Entry>, known: set<int>)
    ensures forall k :: k in ResolveAll(es, known).seen <==> exists j :: 0 <= j < |es| && es[j].index == k
  {
    if es != [] {
      var n := |es| - 1;
      SeenAreTheIndices(es[..n], known);
      assert forall j :: 0 <= j < n ==> es[..n][j] == es[j];
      SeenNext(ResolveAll(es[..n], known), n, es[n], known);
      hide ResolveNext;
    }
  }

  lemma SeenNext(r: Resolution, i: nat, e: Entry, known: set<int>)
    ensures ResolveNext(r, i, e, known).seen == r.seen + {e.index}
  {
  }

  lemma ErrorOfEntry(r: Resolution, i: nat, e: Entry, known: set<int>, problem: Problem)
    ensures ResolveNext(r, i, e, known).errors == r.errors + [FieldError(i, problem)] <==> WrongEntry(e, e.index in r.seen, known, problem)
  {
    hide PriorityValue;
    if e.priority.Some? {
      WordsMean(e.priority.value);
    }
    forall p: Problem ensures r.errors + [FieldError(i, p)] == r.errors + [FieldError(i, problem)] <==> p == problem {
      assert (r.errors + [FieldError(i, p)])[|r.errors|] == FieldError(i, p);
    }
    assert r.errors != r.errors + [FieldError(i, problem)];
  }

  lemma ErrorNext(es: seq<Entry>, known: set<int>, problem: Problem)
    requires es != []
    ensures var n := |es| - 1;
            var before, after := ResolveAll(es[..n], known), ResolveAll(es, known);
            Wrong(es, n, known, problem) <==> after.errors == before.errors + [FieldError(n, problem)]
  {
    hide ResolveNext, WrongEntry;
    var n := |es| - 1;
    SeenAreTheIndices(es[..n], known);
    assert forall j :: 0 <= j < n ==> es[..n][j] == es[j];
    ErrorOfEntry(ResolveAll(es[..n], known), n, es[n], known, problem);
  }

  /** Every field error names the first thing wrong with its entry, and every entry with
      something wrong has its error. */
  lemma {:induction false} ErrorsSayWhy(es: seq<Entry>, known: set<int>, i: nat, problem: Problem)
    requires i < |es|
    ensures FieldError(i, problem) in ResolveAll(es, known).errors <==> Wrong(es, i, known, problem)
  {
    hide ResolveNext, Wrong;
    var n := |es| - 1;
    ErrorsAreBefore(es[..n], known);
    if i < n {
      ErrorsSayWhy(es[..n], known, i, problem);
      WrongEarlier(es, n, i, known, problem);
    }
    ErrorNext(es, known, problem);
    OneErrorAtMost(ResolveAll(es[..n], known), n, es[n], known);
  }

  lemma WrongEarlier(es: seq<Entry>, n: nat, i: nat, known: set<int>, problem: Problem)
    requires i < n <= |es|
    ensures Wrong(es[..n], i, known, problem) <==> Wrong(es, i, known, problem)
  {
    assert forall j :: 0 <= j <= i ==> es[..n][j] == es[j];
  }

  lemma OneErrorAtMost(r: Resolution, i: nat, e: Entry, known: set<int>)
    ensures var r' := ResolveNext(r, i, e, known);
            r'.errors == r.errors || exists problem :: r'.errors == r.errors + [FieldError(i, problem)]
  {
  }

  lemma {:induction false} ErrorsAreBefore(es: seq<Entry>, known: set<int>)
    ensures forall f :: f in ResolveAll(es, known).errors ==> f.at < |es|
  {
    if es != [] {
      ErrorsAreBefore(es[..|es| - 1], known);
      OneErrorAtMost(ResolveAll(es[..|es| - 1], known), |es| - 1, es[|es| - 1], known);
      hide ResolveNext;
    }
  }

  // ------------------------------------------------------------- the loops

  method ApplySelection(es: seq<Entry>, fileCount: int) returns (ok: bool, indices: seq<int>, priorities: map<int, int>)
    ensures ok == ApplyAll(es, fileCount).Done?
    ensures ok ==> indices == SortBy(ApplyAll(es, fileCount).indices, Itself) && priorities == ApplyAll(es, fileCount).priorities
  {
    indices, priorities := [], map[];
    var seen: set<int> := {};
    for i := 0 to |es|
      invariant ApplyAll(es[..i], fileCount) == Done(indices, priorities) && seen == priorities.Keys
    {
      assert es[..i + 1][..i] == es[..i];
      var e := es[i];
      if e.index < 0 || (fileCount >= 0 && e.index >= fileCount) {
        FailureStays(es, i + 1, fileCount);
        return false, [], map[];
      }
      if e.index in seen {
        FailureStays(es, i + 1, fileCount);
        return false, [], map[];
      }
      seen := seen + {e.index};
      var choice := ResolveSelectionEntry(e);
      if choice.None? {
        FailureStays(es, i + 1, fileCount);
        return false, [], map[];
      }
      priorities := priorities[e.index := choice.value.priority];
      if choice.value.selected {
        indices := indices + [e.index];
      }
    }
    assert es[..|es|] == es;
    indices := SortBy(indices, Itself);
    ok := true;
  }

  lemma {:induction false} FailureStays(es: seq<Entry>, k: nat, fileCount: int)
    requires k <= |es| && ApplyAll(es[..k], fileCount).Failed?
    ensures ApplyAll(es, fileCount).Failed?
    decreases |es| - k
  {
    if k < |es| {
      assert es[..k + 1][..k] == es[..k];
      FailureStays(es, k + 1, fileCount);
    } else {
      assert es[..k] == es;
    }
  }

  method ResolveFileSelection(rows: seq<int>, es: seq<Entry>)
    returns (priorities: map<int, int>, selection: map<int, bool>, errors: seq<FieldError>)
    ensures var r := ResolveAll(es, set k | k in rows);
            priorities == r.priorities && selection == r.selection && errors == r.errors
  {
    var known: set<int> := {};
    for i := 0 to |rows|
      invariant known == set k | k in rows[..i]
    {
      assert rows[..i + 1] == rows[..i] + [rows[i]];
      known := known + {rows[i]};
    }
    assert rows[..|rows|] == rows;
    priorities, selection, errors := map[], map[], [];
    var seen: set<int> := {};
    for i := 0 to |es|
      invariant ResolveAll(es[..i], known) == Resolution(seen, priorities, selection, errors)
    {
      assert es[..i + 1][..i] == es[..i];
      var e := es[i];
      if e.index in seen {
        errors := errors + [FieldError(i, DuplicateIndex)];
        continue;
      }
      seen := seen + {e.index};
      if e.selected.None? && e.priority.None? {
        errors := errors + [FieldError(i, Incomplete)];
        continue;
      }
      if e.index !in known {
        errors := errors + [FieldError(i, UnknownIndex)];
        continue;
      }
      var priority, selected := NORMAL, true;
      if e.priority.Some? {
        var value := PriorityValue(e.priority.value);
        if value.None? {
          errors := errors + [FieldError(i, UnknownPriority)];
          continue;
        }
        priority, selected := value.value, value.value != SKIP;
      }
      if e.selected.Some? {
        if e.priority.Some? && e.selected.value != selected {
          errors := errors + [FieldError(i, Disagree)];
          continue;
        }
        selected := e.selected.value;
        if e.priority.None? {
          priority := if selected then NORMAL else SKIP;
        }
      }
      priorities := priorities[e.index := priority];
      selection := selection[e.index := selected];
    }
    assert es[..|es|] == es;
  }
}
