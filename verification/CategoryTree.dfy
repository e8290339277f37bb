/**
The merged category tree of internal/api/search.go as a specification: the cached
categories of the indexers overlay the default tree, the last writer of a name wins, an
unknown id becomes a root, and roots and subcategories come out in ascending order.
*/
module CategoryTree {
  import opened Options
  import opened Sorting

  datatype Sub = Sub(id: int, name: string)
  datatype Category = Category(id: int, name: string, subs: seq<Sub>)

  type Tree = seq<Category>

  // ---------------------------------------------------------------- reading

  ghost predicate HasRoot(t: Tree, id: int) {
    exists i :: 0 <= i < |t| && t[i].id == id
  }

  predicate SubAt(t: Tree, i: int, j: int, id: int) {
    0 <= i < |t| && 0 <= j < |t[i].subs| && t[i].subs[j].id == id
  }

  ghost predicate HasSub(t: Tree, id: int) {
    exists i, j :: SubAt(t, i, j, id)
  }

  ghost predicate RootNamed(t: Tree, id: int, name: string) {
    exists i :: 0 <= i < |t| && t[i].id == id && t[i].name == name
  }

  ghost predicate SubNamed(t: Tree, parent: int, id: int, name: string) {
    exists i, j :: SubAt(t, i, j, id) && t[i].id == parent && t[i].subs[j].name == name
  }

  /** Each id stands in one place, as a root or as a subcategory. */
  ghost predicate Distinct(t: Tree) {
    && (forall i, k :: 0 <= i < k < |t| ==> t[i].id != t[k].id)
    && (forall i, j, k :: 0 <= k < |t| ==> !SubAt(t, i, j, t[k].id))
    && (forall id, i, j, k, l :: SubAt(t, i, j, id) && SubAt(t, k, l, id) ==> i == k && j == l)
  }

  // ---------------------------------------------------------------- merging

  function RenamedSubs(subs: seq<Sub>, c: Sub): (r: seq<Sub>)
    ensures |r| == |subs| && forall j :: 0 <= j < |subs| ==> r[j] == if subs[j].id == c.id then c else subs[j]
  {
    seq(|subs|, j requires 0 <= j < |subs| => if subs[j].id == c.id then c else subs[j])
  }

  function Renamed(t: Tree, c: Sub): (r: Tree)
    ensures |r| == |t|
    ensures forall i :: 0 <= i < |t| ==>
              r[i] == Category(t[i].id, if t[i].id == c.id then c.name else t[i].name, RenamedSubs(t[i].subs, c))
  {
    seq(|t|, i requires 0 <= i < |t| => Category(t[i].id, if t[i].id == c.id then c.name else t[i].name, RenamedSubs(t[i].subs, c)))
  }

  ghost function MergeOne(t: Tree, c: Sub): Tree {
    if HasRoot(t, c.id) || HasSub(t, c.id) then Renamed(t, c) else t + [Category(c.id, c.name, [])]
  }

  ghost function MergeAll(t: Tree, cached: seq<Sub>): Tree {
    if cached == [] then t else MergeOne(MergeAll(t, cached[..|cached| - 1]), cached[|cached| - 1])
  }

  /** The name the last cached entry gives an id. */
  function LastName(cached: seq<Sub>, id: int): Option<string> {
    if cached == [] then None
    else if cached[|cached| - 1].id == id then Some(cached[|cached| - 1].name)
    else LastName(cached[..|cached| - 1], id)
  }

  lemma RenamedPlaces(t: Tree, c: Sub, i: int, j: int, id: int)
    ensures SubAt(Renamed(t, c), i, j, id) <==> SubAt(t, i, j, id)
  {
  }

  lemma RenamedDistinct(t: Tree, c: Sub)
    requires Distinct(t)
    ensures Distinct(Renamed(t, c))
  {
    forall id, i, j ensures SubAt(Renamed(t, c), i, j, id) <==> SubAt(t, i, j, id) {
      RenamedPlaces(t, c, i, j, id);
    }
  }

  lemma AppendedDistinct(t: Tree, c: Sub)
    requires Distinct(t) && !HasRoot(t, c.id) && !HasSub(t, c.id)
    ensures Distinct(t + [Category(c.id, c.name, [])])
  {
    var t' := t + [Category(c.id, c.name, [])];
    forall id, i, j ensures SubAt(t', i, j, id) <==> SubAt(t, i, j, id) {
    }
  }

  lemma {:induction false} MergeAllDistinct(t: Tree, cached: seq<Sub>)
    requires Distinct(t)
    ensures Distinct(MergeAll(t, cached))
  {
    if cached != [] {
      MergeAllDistinct(t, cached[..|cached| - 1]);
      var before := MergeAll(t, cached[..|cached| - 1]);
      RenamedDistinct(before, cached[|cached| - 1]);
      if !HasRoot(before, cached[|cached| - 1].id) && !HasSub(before, cached[|cached| - 1].id) {
        AppendedDistinct(before, cached[|cached| - 1]);
      }
    }
  }

  /** What one entry does to a root: it names the root of its id, and makes one when the
      id stands nowhere. */
  lemma MergeOneRoot(t: Tree, c: Sub, id: int, name: string)
    ensures RootNamed(MergeOne(t, c), id, name) <==>
            if id == c.id then name == c.name && (HasRoot(t, id) || !HasSub(t, id)) else RootNamed(t, id, name)
  {
    var t' := MergeOne(t, c);
    if RootNamed(t, id, name) {
      var i :| 0 <= i < |t| && t[i].id == id && t[i].name == name;
      assert t'[i].id == id && (id != c.id ==> t'[i].name == name);
    }
    if HasRoot(t, c.id) {
      var i :| 0 <= i < |t| && t[i].id == c.id;
      assert t'[i].id == c.id && t'[i].name == c.name;
    } else if !HasSub(t, c.id) {
      assert t'[|t|] == Category(c.id, c.name, []);
    }
    if RootNamed(t', id, name) {
      var i :| 0 <= i < |t'| && t'[i].id == id && t'[i].name == name;
      if i < |t| {
        assert t[i].id == id;
      }
    }
  }

  lemma MergeOneSub(t: Tree, c: Sub, parent: int, id: int, name: string)
    ensures SubNamed(MergeOne(t, c), parent, id, name) <==>
            if id == c.id then name == c.name && exists n :: SubNamed(t, parent, id, n) else SubNamed(t, parent, id, name)
  {
    var t' := MergeOne(t, c);
    if n :| SubNamed(t, parent, id, n) {
      var i, j :| SubAt(t, i, j, id) && t[i].id == parent && t[i].subs[j].name == n;
      assert HasSub(t, id);
      assert SubAt(t', i, j, id) && t'[i].id == parent && t'[i].subs[j].name == if id == c.id then c.name else n;
      assert SubNamed(t', parent, id, if id == c.id then c.name else n);
    }
    if id != c.id && SubNamed(t, parent, id, name) {
      var i, j :| SubAt(t, i, j, id) && t[i].id == parent && t[i].subs[j].name == name;
      assert SubAt(t', i, j, id) && t'[i].id == parent && t'[i].subs[j].name == name;
    }
    if SubNamed(t', parent, id, name) {
      var i, j :| SubAt(t', i, j, id) && t'[i].id == parent && t'[i].subs[j].name == name;
      assert SubAt(t, i, j, id) && SubNamed(t, parent, id, t[i].subs[j].name);
    }
  }

  lemma MergeOnePlaces(t: Tree, c: Sub, id: int)
    ensures HasRoot(MergeOne(t, c), id) <==> HasRoot(t, id) || (id == c.id && !HasSub(t, id))
    ensures HasSub(MergeOne(t, c), id) <==> HasSub(t, id)
  {
    var t' := MergeOne(t, c);
    forall i, j ensures SubAt(t', i, j, id) <==> SubAt(t, i, j, id) {
    }
    if HasRoot(t, id) {
      var i :| 0 <= i < |t| && t[i].id == id;
      assert t'[i].id == id;
    }
    if id == c.id && !HasSub(t, id) && !HasRoot(t, id) {
      assert t'[|t|].id == id;
    }
    if HasRoot(t', id) {
      var i :| 0 <= i < |t'| && t'[i].id == id;
      if i < |t| {
        assert t[i].id == id;
      }
    }
  }

  lemma {:induction false} MergedPlaces(t: Tree, cached: seq<Sub>, id: int)
    ensures HasRoot(MergeAll(t, cached), id) <==> HasRoot(t, id) || (LastName(cached, id).Some? && !HasSub(t, id))
    ensures HasSub(MergeAll(t, cached), id) <==> HasSub(t, id)
  {
    if cached != [] {
      MergedPlaces(t, cached[..|cached| - 1], id);
      MergeOnePlaces(MergeAll(t, cached[..|cached| - 1]), cached[|cached| - 1], id);
    }
  }

  /** Roots of the merged tree: the default roots and the unknown cached ids, each under
      the name of its last cached entry or else its default. */
  lemma {:induction false} MergedRoots(t: Tree, cached: seq<Sub>, id: int, name: string)
    ensures RootNamed(MergeAll(t, cached), id, name) <==>
            match LastName(cached, id)
            case Some(last) => name == last && (HasRoot(t, id) || !HasSub(t, id))
            case None => RootNamed(t, id, name)
  {
    if cached != [] {
      var front, c := cached[..|cached| - 1], cached[|cached| - 1];
      MergedRoots(t, front, id, name);
      MergedPlaces(t, front, id);
      MergeOneRoot(MergeAll(t, front), c, id, name);
    }
  }

  /** Subcategories stay under their parent, renamed by the last cached entry alone. */
  lemma {:induction false} MergedSubs(t: Tree, cached: seq<Sub>, parent: int, id: int, name: string)
    ensures SubNamed(MergeAll(t, cached), parent, id, name) <==>
            match LastName(cached, id)
            case Some(last) => name == last && exists n :: SubNamed(t, parent, id, n)
            case None => SubNamed(t, parent, id, name)
  {
    if cached != [] {
      var front, c := cached[..|cached| - 1], cached[|cached| - 1];
      var before := MergeAll(t, front);
      MergeOneSub(before, c, parent, id, name);
      if id == c.id {
        forall n: string ensures SubNamed(before, parent, id, n) ==> exists m :: SubNamed(t, parent, id, m) {
          MergedSubs(t, front, parent, id, n);
        }
        if m :| SubNamed(t, parent, id, m) {
          var n := if LastName(front, id).Some? then LastName(front, id).value else m;
          MergedSubs(t, front, parent, id, n);
        }
      } else {
        MergedSubs(t, front, parent, id, name);
      }
    }
  }

  // ---------------------------------------------------------------- sorting

  function RootId(c: Category): int {
    c.id
  }

  function SubId(s: Sub): int {
    s.id
  }

  function SortSubs(t: Tree): (r: Tree)
    ensures |r| == |t| && forall i :: 0 <= i < |t| ==> r[i] == t[i].(subs := SortBy(t[i].subs, SubId))
  {
    seq(|t|, i requires 0 <= i < |t| => t[i].(subs := SortBy(t[i].subs, SubId)))
  }

  function SortTree(t: Tree): Tree {
    SortSubs(SortBy(t, RootId))
  }

  // ------------------------------------------------------------ the answer

  ghost predicate AscendingTree(t: Tree) {
    Ascending(t, RootId) && forall i :: 0 <= i < |t| ==> Ascending(t[i].subs, SubId)
  }

  lemma SortedTreeAscends(t: Tree)
    requires Distinct(t)
    ensures AscendingTree(SortTree(t))
  {
    var roots := SortBy(t, RootId);
    SortByKeepsElements(t, RootId);
    SortByAscends(t, RootId);
    forall i | 0 <= i < |roots| ensures Ascending(SortBy(roots[i].subs, SubId), SubId) {
      assert roots[i] in t;
      var k :| 0 <= k < |t| && t[k] == roots[i];
      forall a, b | 0 <= a < b < |t[k].subs| ensures t[k].subs[a].id != t[k].subs[b].id {
        assert SubAt(t, k, a, t[k].subs[a].id) && SubAt(t, k, b, t[k].subs[b].id);
      }
      SortByAscends(roots[i].subs, SubId);
    }
  }

  lemma SortedRoots(t: Tree, id: int, name: string)
    ensures RootNamed(SortTree(t), id, name) <==> RootNamed(t, id, name)
  {
    var roots := SortBy(t, RootId);
    SortByKeepsElements(t, RootId);
    if RootNamed(t, id, name) {
      var i :| 0 <= i < |t| && t[i].id == id && t[i].name == name;
      assert t[i] in roots;
      var k :| 0 <= k < |roots| && roots[k] == t[i];
      assert SortTree(t)[k].id == id && SortTree(t)[k].name == name;
    }
    if RootNamed(SortTree(t), id, name) {
      var i :| 0 <= i < |roots| && SortTree(t)[i].id == id && SortTree(t)[i].name == name;
      assert roots[i] in t;
    }
  }

  lemma SubsOfTheSameRoots(t: Tree, u: Tree, parent: int, id: int, name: string)
    requires forall c :: c in t ==> c in u
    ensures SubNamed(t, parent, id, name) ==> SubNamed(u, parent, id, name)
  {
    if SubNamed(t, parent, id, name) {
      var i, j :| SubAt(t, i, j, id) && t[i].id == parent && t[i].subs[j].name == name;
      assert t[i] in u;
      var k :| 0 <= k < |u| && u[k] == t[i];
      assert SubAt(u, k, j, id);
    }
  }

  lemma RootsOfTheSameSubs(t: Tree, u: Tree, parent: int, id: int, name: string)
    requires |t| == |u|
    requires forall i :: 0 <= i < |t| ==> t[i].id == u[i].id && forall s :: s in t[i].subs ==> s in u[i].subs
    ensures SubNamed(t, parent, id, name) ==> SubNamed(u, parent, id, name)
  {
    if SubNamed(t, parent, id, name) {
      var i, j :| SubAt(t, i, j, id) && t[i].id == parent && t[i].subs[j].name == name;
      assert t[i].subs[j] in u[i].subs;
      var l :| 0 <= l < |u[i].subs| && u[i].subs[l] == t[i].subs[j];
      assert SubAt(u, i, l, id);
    }
  }

  lemma SortedSubs(t: Tree, parent: int, id: int, name: string)
    ensures SubNamed(SortTree(t), parent, id, name) <==> SubNamed(t, parent, id, name)
  {
    var roots, out := SortBy(t, RootId), SortTree(t);
    SortByKeepsElements(t, RootId);
    forall i | 0 <= i < |roots|
      ensures out[i].id == roots[i].id && forall s :: s in out[i].subs <==> s in roots[i].subs
    {
      SortByKeepsElements(roots[i].subs, SubId);
    }
    hide SortBy, SortTree, SortSubs, SubNamed;
    SubsOfTheSameRoots(t, roots, parent, id, name);
    SubsOfTheSameRoots(roots, t, parent, id, name);
    RootsOfTheSameSubs(roots, out, parent, id, name);
    RootsOfTheSameSubs(out, roots, parent, id, name);
  }

  /** No id stands twice in the sorted tree, at either level. */
  lemma SortedDistinct(t: Tree)
    requires Distinct(t)
    ensures Distinct(SortTree(t))
  {
    var out := SortTree(t);
    SortedTreeAscends(t);
    forall i, j, k | 0 <= k < |out| ensures !SubAt(out, i, j, out[k].id) {
      if 0 <= i < |out| && 0 <= j < |out[i].subs| {
        NamedOnce(t, out[k].id, out[k].name, out[i].id, out[i].subs[j].name);
      }
    }
    forall id, i, j, k, l | SubAt(out, i, j, id) && SubAt(out, k, l, id) ensures i == k && j == l {
      SortedSubs(t, out[i].id, id, out[i].subs[j].name);
      SortedSubs(t, out[k].id, id, out[k].subs[l].name);
      assert SubNamed(out, out[i].id, id, out[i].subs[j].name) && SubNamed(out, out[k].id, id, out[k].subs[l].name);
      OneParent(t, id, out[i].id, out[i].subs[j].name, out[k].id, out[k].subs[l].name);
      assert i == k;
    }
  }

  lemma NamedOnce(t: Tree, id: int, root: string, parent: int, name: string)
    requires Distinct(t) && RootNamed(SortTree(t), id, root)
    ensures !SubNamed(SortTree(t), parent, id, name)
  {
    hide SortTree;
    SortedRoots(t, id, root);
    SortedSubs(t, parent, id, name);
  }

  lemma OneParent(t: Tree, id: int, p: int, n: string, q: int, m: string)
    requires Distinct(t) && SubNamed(t, p, id, n) && SubNamed(t, q, id, m)
    ensures p == q
  {
    var i, j :| SubAt(t, i, j, id) && t[i].id == p && t[i].subs[j].name == n;
    var k, l :| SubAt(t, k, l, id) && t[k].id == q && t[k].subs[l].name == m;
  }

  /** The merge against its plain specification: given distinct default ids, the output
      has exactly the roots and subcategories it should, each once, each under the name
      of the last cached entry in row order or else its default, in ascending order. */
  lemma LastWriterWins(defaults: Tree, cached: seq<Sub>)
    requires Distinct(defaults)
    ensures var out := SortTree(MergeAll(defaults, cached));
            && AscendingTree(out) && Distinct(out)
            && (forall id, name :: RootNamed(out, id, name) <==>
                  match LastName(cached, id)
                  case Some(last) => name == last && (HasRoot(defaults, id) || !HasSub(defaults, id))
                  case None => RootNamed(defaults, id, name))
            && (forall parent, id, name :: SubNamed(out, parent, id, name) <==>
                  match LastName(cached, id)
                  case Some(last) => name == last && exists n :: SubNamed(defaults, parent, id, n)
                  case None => SubNamed(defaults, parent, id, name))
  {
    var t := MergeAll(defaults, cached);
    MergeAllDistinct(defaults, cached);
    SortedTreeAscends(t);
    SortedDistinct(t);
    hide MergeAll, SortTree, RootNamed, SubNamed, LastName, Distinct, HasRoot, HasSub, AscendingTree;
    forall id: int, name: string
      ensures RootNamed(SortTree(t), id, name) <==>
              match LastName(cached, id)
              case Some(last) => name == last && (HasRoot(defaults, id) || !HasSub(defaults, id))
              case None => RootNamed(defaults, id, name) {
      SortedRoots(t, id, name);
      MergedRoots(defaults, cached, id, name);
    }
    forall parent: int, id: int, name: string
      ensures SubNamed(SortTree(t), parent, id, name) <==>
              match LastName(cached, id)
              case Some(last) => name == last && exists n :: SubNamed(defaults, parent, id, n)
              case None => SubNamed(defaults, parent, id, name) {
      SortedSubs(t, parent, id, name);
      MergedSubs(defaults, cached, parent, id, name);
    }
  }
}
