/**
mergeCategories in its own form: the positions index is filled first and extended at
every append, names are written in place through it, and the caller's defaults, whose
subcategory slices are shared memory, are copied before anything is written.
*/
module CategoryMerge {
  import opened Options
  import opened CategoryTree

  /** A root as the source holds it: its subcategories are a slice on the heap. */
  datatype Root = Root(id: int, name: string, subs: array<Sub>)

  datatype Position = Position(root: int, sub: int)

  /** One indexer row's cached categories; None when absent or not parseable. */
  type Cached = Option<seq<Sub>>

  function Flatten(rows: seq<Cached>): seq<Sub> {
    if rows == [] then []
    else Flatten(rows[..|rows| - 1]) + (match rows[|rows| - 1] case None => [] case Some(cats) => cats)
  }

  ghost function TreeOf(roots: seq<Root>): (t: Tree)
    reads set i | 0 <= i < |roots| :: roots[i].subs
    ensures |t| == |roots|
    ensures forall i :: 0 <= i < |t| ==> t[i] == Category(roots[i].id, roots[i].name, roots[i].subs[..])
  {
    seq(|roots|, i requires 0 <= i < |roots| reads set j | 0 <= j < |roots| :: roots[j].subs =>
      Category(roots[i].id, roots[i].name, roots[i].subs[..]))
  }

  ghost predicate Points(t: Tree, p: Position, id: int) {
    0 <= p.root < |t| && if p.sub < 0 then t[p.root].id == id else SubAt(t, p.root, p.sub, id)
  }

  /** The index is exact: it knows every id of the tree, and where each one stands. */
  ghost predicate Exact(positions: map<int, Position>, t: Tree) {
    && (forall id :: id in positions ==> Points(t, positions[id], id))
    && (forall i :: 0 <= i < |t| ==> t[i].id in positions)
    && (forall i, j, id :: SubAt(t, i, j, id) ==> id in positions)
  }

  ghost predicate Separate(roots: seq<Root>) {
    forall i, k :: 0 <= i < k < |roots| ==> roots[i].subs != roots[k].subs
  }

  /** The deep copy. */
  method Copy(defaults: seq<Root>) returns (roots: seq<Root>)
    ensures forall i :: 0 <= i < |roots| ==> fresh(roots[i].subs)
    ensures |roots| == |defaults| && Separate(roots) && TreeOf(roots) == TreeOf(defaults)
  {
    roots := [];
    for i := 0 to |defaults|
      invariant |roots| == i && Separate(roots)
      invariant forall k :: 0 <= k < i ==> fresh(roots[k].subs)
      invariant forall k :: 0 <= k < i ==> roots[k].id == defaults[k].id && roots[k].name == defaults[k].name && roots[k].subs[..] == defaults[k].subs[..]
    {
      var d := defaults[i];
      var subs := new Sub[d.subs.Length](j requires 0 <= j < d.subs.Length reads d.subs => d.subs[j]);
      assert subs[..] == d.subs[..];
      roots := roots + [Root(d.id, d.name, subs)];
    }
  }

  method IndexRoot(r: Root, i: int, positions: map<int, Position>, ghost t: Tree) returns (q: map<int, Position>)
    requires 0 <= i < |t| && t[i] == Category(r.id, r.name, r.subs[..])
    requires forall id :: id in positions ==> Points(t, positions[id], id)
    ensures forall id :: id in q ==> Points(t, q[id], id)
    ensures positions.Keys <= q.Keys && r.id in q && forall j :: 0 <= j < |t[i].subs| ==> t[i].subs[j].id in q
  {
    q := positions[r.id := Position(i, -1)];
    for j := 0 to r.subs.Length
      invariant forall id :: id in q ==> Points(t, q[id], id)
      invariant positions.Keys <= q.Keys && r.id in q && forall k :: 0 <= k < j ==> t[i].subs[k].id in q
    {
      assert SubAt(t, i, j, r.subs[j].id);
      q := q[r.subs[j].id := Position(i, j)];
    }
  }

  method Index(roots: seq<Root>) returns (positions: map<int, Position>)
    ensures Exact(positions, TreeOf(roots))
  {
    positions := map[];
    ghost var t := TreeOf(roots);
    for i := 0 to |roots|
      invariant forall id :: id in positions ==> Points(t, positions[id], id)
      invariant forall k :: 0 <= k < i ==> t[k].id in positions
      invariant forall k, j :: 0 <= k < i && 0 <= j < |t[k].subs| ==> t[k].subs[j].id in positions
    {
      positions := IndexRoot(roots[i], i, positions, t);
    }
  }

  lemma ExactlyKnown(positions: map<int, Position>, t: Tree, id: int)
    requires Exact(positions, t)
    ensures id in positions <==> HasRoot(t, id) || HasSub(t, id)
  {
  }

  lemma RenameRoot(t: Tree, c: Sub, k: int)
    requires Distinct(t) && 0 <= k < |t| && t[k].id == c.id
    ensures MergeOne(t, c) == t[k := t[k].(name := c.name)]
  {
    forall i | 0 <= i < |t| ensures RenamedSubs(t[i].subs, c) == t[i].subs {
      forall j | 0 <= j < |t[i].subs| ensures t[i].subs[j].id != c.id {
        assert !SubAt(t, i, j, t[k].id);
      }
    }
    assert Renamed(t, c) == t[k := t[k].(name := c.name)];
  }

  lemma RenameSub(t: Tree, c: Sub, k: int, l: int)
    requires Distinct(t) && SubAt(t, k, l, c.id)
    ensures MergeOne(t, c) == t[k := t[k].(subs := t[k].subs[l := c])]
  {
    assert HasSub(t, c.id);
    forall i | 0 <= i < |t|
      ensures t[i].id != c.id && RenamedSubs(t[i].subs, c) == if i == k then t[k].subs[l := c] else t[i].subs {
      assert !SubAt(t, k, l, t[i].id);
      forall j | 0 <= j < |t[i].subs| && t[i].subs[j].id == c.id ensures i == k && j == l {
        assert SubAt(t, i, j, c.id);
      }
    }
    assert Renamed(t, c) == t[k := t[k].(subs := t[k].subs[l := c])];
  }

  lemma IndexSurvivesRename(positions: map<int, Position>, t: Tree, c: Sub)
    requires Exact(positions, t)
    ensures Exact(positions, Renamed(t, c))
  {
    var t' := Renamed(t, c);
    forall i, j, id ensures SubAt(t', i, j, id) <==> SubAt(t, i, j, id) {
      RenamedPlaces(t, c, i, j, id);
    }
  }

  lemma IndexFollowsAppend(positions: map<int, Position>, t: Tree, c: Sub)
    requires Exact(positions, t)
    ensures Exact(positions[c.id := Position(|t|, -1)], t + [Category(c.id, c.name, [])])
  {
    var t' := t + [Category(c.id, c.name, [])];
    forall i, j, id ensures SubAt(t', i, j, id) <==> SubAt(t, i, j, id) {
    }
    forall id | id in positions ensures Points(t', positions[id], id) {
      assert Points(t, positions[id], id);
    }
  }

  /** One cached entry: a rename in place through the index, or a new root that joins it. */
  method Overlay(roots: seq<Root>, positions: map<int, Position>, c: Sub) returns (roots': seq<Root>, positions': map<int, Position>)
    requires Separate(roots) && Distinct(TreeOf(roots)) && Exact(positions, TreeOf(roots))
    modifies set i | 0 <= i < |roots| :: roots[i].subs
    ensures |roots| <= |roots'| && Separate(roots')
    ensures forall i :: 0 <= i < |roots| ==> roots'[i].subs == roots[i].subs
    ensures forall i :: |roots| <= i < |roots'| ==> fresh(roots'[i].subs)
    ensures TreeOf(roots') == MergeOne(old(TreeOf(roots)), c) && Exact(positions', TreeOf(roots'))
  {
    ghost var t := TreeOf(roots);
    ExactlyKnown(positions, t, c.id);
    roots', positions' := roots, positions;
    if c.id in positions {
      var p := positions[c.id];
      assert Points(t, p, c.id);
      IndexSurvivesRename(positions, t, c);
      if p.sub < 0 {
        RenameRoot(t, c, p.root);
        roots' := roots[p.root := roots[p.root].(name := c.name)];
      } else {
        RenameSub(t, c, p.root, p.sub);
        roots[p.root].subs[p.sub] := Sub(c.id, c.name);
      }
      assert TreeOf(roots') == MergeOne(t, c);
      return;
    }
    IndexFollowsAppend(positions, t, c);
    var none := new Sub[0];
    positions' := positions[c.id := Position(|roots|, -1)];
    roots' := roots + [Root(c.id, c.name, none)];
    assert none[..] == [];
    assert TreeOf(roots') == t + [Category(c.id, c.name, [])];
  }

  lemma MergeAllNext(t: Tree, cached: seq<Sub>, c: Sub)
    ensures MergeAll(t, cached + [c]) == MergeOne(MergeAll(t, cached), c)
  {
    assert (cached + [c])[..|cached|] == cached;
  }

  /** One row's cached entries, in their order. */
  method OverlayRow(roots: seq<Root>, positions: map<int, Position>, cats: seq<Sub>, ghost t0: Tree, ghost before: seq<Sub>)
    returns (roots': seq<Root>, positions': map<int, Position>)
    requires Distinct(t0) && TreeOf(roots) == MergeAll(t0, before)
    requires Separate(roots) && Exact(positions, TreeOf(roots))
    modifies set i | 0 <= i < |roots| :: roots[i].subs
    ensures |roots| <= |roots'| && Separate(roots')
    ensures forall i :: 0 <= i < |roots| ==> roots'[i].subs == roots[i].subs
    ensures forall i :: |roots| <= i < |roots'| ==> fresh(roots'[i].subs)
    ensures TreeOf(roots') == MergeAll(t0, before + cats) && Exact(positions', TreeOf(roots'))
  {
    hide MergeAll, MergeOne, Distinct, Exact;
    roots', positions' := roots, positions;
    assert before + cats[..0] == before;
    for j := 0 to |cats|
      invariant |roots| <= |roots'| && Separate(roots')
      invariant forall i :: 0 <= i < |roots| ==> roots'[i].subs == roots[i].subs
      invariant forall i :: |roots| <= i < |roots'| ==> fresh(roots'[i].subs)
      invariant TreeOf(roots') == MergeAll(t0, before + cats[..j]) && Exact(positions', TreeOf(roots'))
    {
      MergeAllDistinct(t0, before + cats[..j]);
      MergeAllNext(t0, before + cats[..j], cats[j]);
      assert before + cats[..j + 1] == before + cats[..j] + [cats[j]];
      roots', positions' := Overlay(roots', positions', cats[j]);
    }
    assert cats[..|cats|] == cats;
  }

  lemma FlattenNext(rows: seq<Cached>, i: nat)
    requires i < |rows|
    ensures Flatten(rows[..i + 1]) == Flatten(rows[..i]) + (match rows[i] case None => [] case Some(cats) => cats)
    ensures rows[i].None? ==> Flatten(rows[..i + 1]) == Flatten(rows[..i])
  {
    assert rows[..i + 1][..i] == rows[..i];
  }

  method ReadOut(roots: seq<Root>) returns (values: Tree)
    ensures values == TreeOf(roots)
  {
    values := [];
    for i := 0 to |roots|
      invariant |values| == i && forall k :: 0 <= k < i ==> values[k] == TreeOf(roots)[k]
    {
      values := values + [Category(roots[i].id, roots[i].name, roots[i].subs[..])];
    }
  }

  /** Every row in turn; one that carries nothing readable is skipped. */
  method OverlayRows(copied: seq<Root>, index: map<int, Position>, rows: seq<Cached>, ghost t0: Tree) returns (roots: seq<Root>)
    requires Distinct(t0) && TreeOf(copied) == t0
    requires Separate(copied) && Exact(index, t0)
    modifies set i | 0 <= i < |copied| :: copied[i].subs
    ensures TreeOf(roots) == MergeAll(t0, Flatten(rows))
  {
    roots := copied;
    var positions := index;
    assert rows[..0] == [] && MergeAll(t0, Flatten([])) == t0;
    hide MergeAll, MergeOne, Distinct, Exact, Flatten;
    for i := 0 to |rows|
      invariant |copied| <= |roots| && Separate(roots)
      invariant forall k :: 0 <= k < |copied| ==> roots[k].subs == copied[k].subs
      invariant forall k :: |copied| <= k < |roots| ==> fresh(roots[k].subs)
      invariant TreeOf(roots) == MergeAll(t0, Flatten(rows[..i])) && Exact(positions, TreeOf(roots))
    {
      FlattenNext(rows, i);
      if rows[i].None? {
        continue;
      }
      roots, positions := OverlayRow(roots, positions, rows[i].value, t0, Flatten(rows[..i]));
    }
    assert rows[..|rows|] == rows;
  }

  /** mergeCategories: nothing the caller can reach is written, and the answer is the
      specified tree. */
  method MergeCategories(defaults: seq<Root>, rows: seq<Cached>) returns (out: Tree)
    requires Distinct(TreeOf(defaults))
    ensures out == SortTree(MergeAll(TreeOf(defaults), Flatten(rows)))
  {
    ghost var t0 := TreeOf(defaults);
    var roots := Copy(defaults);
    var positions := Index(roots);
    hide MergeAll, Distinct, Exact, Flatten, SortTree;
    roots := OverlayRows(roots, positions, rows, t0);
    var values := ReadOut(roots);
    out := SortTree(values);
  }
}
