/**
transpile end to end: what it answers is a list of pieces, and the ones that match a set
of code points are those of the pattern Python reads, in order, each matching the same
set afterwards.
*/
module PatternAnswers {
  import opened Options
  import opened PatternMeaning
  import opened PatternTranspile
  import opened PatternPieces

  /** The answer for a tree: its pieces widened, or nothing when some class of it needs a
      complement that cannot be written in place. */
  predicate IsAnswer(r: Option<string>, q: T.Items, args: C.Args)
    requires Readable(q, args)
  {
    var ps := Pieces(q, args);
    && (W.AllWidenable(ps) <==> W.AllWidenable(SetsOf(q, args)))
    && r == if W.AllWidenable(ps) then Some(W.PrintWide(ps)) else None
  }

  /** Each of these pieces matches the same code points after widening. */
  ghost predicate SetsKept(r: Reader, ps: seq<Piece>)
    requires W.AllWidenable(ps)
  {
    forall j, n :: 0 <= j < |ps| ==> (WideMatches(r, WidePiece(ps[j]), n) <==> Matches(r, ps[j], n))
  }

  lemma {:induction false} OnlySets(ps: seq<Piece>)
    ensures forall q :: q in Sets(ps) ==> q.Shorthand? || q.Class?
  {
    if ps != [] {
      OnlySets(ps[1..]);
    }
  }

  lemma WideningKeepsTheSets(r: Reader, ps: seq<Piece>)
    requires W.AllWidenable(Sets(ps))
    ensures SetsKept(r, Sets(ps))
  {
    var qs := Sets(ps);
    OnlySets(ps);
    forall j, n | 0 <= j < |qs| ensures WideMatches(r, WidePiece(qs[j]), n) <==> Matches(r, qs[j], n) {
      assert qs[j] in qs;
      WideningKeepsTheSet(r, qs[j], n);
    }
  }

  lemma {:induction false} EraseIsOk(p: T.Items)
    requires T.Ok(p)
    ensures T.Ok(T.Erase(p))
  {
    if p.Cons? {
      EraseIsOk(p.tail);
      if p.head.Group? {
        EraseIsOk(p.head.inner);
      }
    }
  }

  lemma {:induction false} EraseIsQuiet(p: T.Items)
    requires T.Quiet(p)
    ensures T.Quiet(T.Erase(p))
  {
    if p.Cons? {
      EraseIsQuiet(p.tail);
      if p.head.Group? {
        EraseIsQuiet(p.head.inner);
      }
      assert T.QuietItem(T.Erase(p).head);
    }
  }

  /** The answer for the capture-erased tree has the sets of the tree itself. */
  lemma ErasedAnswer(r: Reader, p: T.Items, args: C.Args)
    requires T.Ok(p) && T.Quiet(p) && Readable(p, args)
    ensures Readable(T.Erase(p), args) && SetsOf(T.Erase(p), args) == SetsOf(p, args)
    ensures IsAnswer(D.Widen(T.Print(T.Erase(p))), T.Erase(p), args)
    ensures W.AllWidenable(SetsOf(p, args)) ==> SetsKept(r, SetsOf(p, args))
  {
    EraseKeepsTheSets(p, args);
    EraseIsOk(p);
    EraseIsQuiet(p);
    WidenOfTree(T.Erase(p), args);
    SetsOfPieces(p, args);
    hide SetsKept, SetsOf, Sets, Pieces, D.Widen, T.Print, T.Erase;
    if W.AllWidenable(SetsOf(p, args)) {
      WideningKeepsTheSets(r, Pieces(p, args));
    }
  }

  /** A pattern without the text (?x. */
  lemma PlainPatternKeepsTheSets(r: Reader, p: T.Items, args: C.Args)
    requires T.Ok(p) && T.Quiet(p) && Readable(p, args) && !Contains(T.Print(p), VerboseHead)
    ensures Readable(T.Erase(p), args) && SetsOf(T.Erase(p), args) == SetsOf(p, args)
    ensures IsAnswer(Transpile(T.Print(p)), T.Erase(p), args)
    ensures W.AllWidenable(SetsOf(p, args)) ==> SetsKept(r, SetsOf(p, args))
  {
    hide *;
    T.QuietIsKept(p);
    PlainPatternTranspiles(p);
    ErasedAnswer(r, p, args);
  }

  /** What stripping leaves has the sets of the pattern: the literals it drops hold none. */
  lemma {:induction false} LeftKeepsTheSets(p: T.Items, args: C.Args)
    requires Readable(p, args)
    ensures Readable(T.Left(p), args) && SetsOf(T.Left(p), args) == SetsOf(p, args) && T.NoTrivia(T.Left(p))
    decreases p
  {
    if p.Cons? {
      LeftKeepsTheSets(p.tail, args);
      if p.head.Group? {
        LeftKeepsTheSets(p.head.inner, args);
      } else if T.IsTrivia(p.head) {
        TriviaHoldsNoSets(p.head, args);
      } else if p.head.Lit? {
        assert [Text(p.head.c)][1..] == [] && Sets(ItemPieces(p.head, args)) == [];
        assert SetsOf(p, args) == [] + SetsOf(p.tail, args) == SetsOf(p.tail, args);
        assert SetsOf(T.Cons(p.head, T.Left(p.tail)), args) == [] + SetsOf(T.Left(p.tail), args);
      }
    }
  }

  lemma UnwrappedReadable(f: string, body: T.Items, args: C.Args)
    requires Flags(f) && T.Ok(body) && T.NoTrivia(body) && Readable(body, args)
    ensures var u := Unwrapped(f, body);
            T.Ok(u) && T.Quiet(u) && Readable(u, args) && SetsOf(u, args) == SetsOf(body, args)
  {
    UnwrappedOk(f, body);
    T.NoTriviaIsQuiet(Unwrapped(f, body));
    assert SetsOf(T.Nil, args) == [] && SetsOf(body, args) + [] == SetsOf(body, args);
  }

  /** A verbose group that is the whole pattern: stripped, erased and widened, it matches
      the sets of the body Python reads.  What is left must be a pattern: a wide space is
      not all that keeps a group's question mark from its parenthesis. */
  lemma VerboseGroupKeepsTheSets(r: Reader, f: string, body: T.Items, args: C.Args)
    requires Flags(f) && 'x' in f && T.Ok(body) && T.Verbose(body) && T.Ok(T.Left(body))
    requires T.Balanced(T.Print(body), 0, false) && Readable(body, args)
    ensures var p := T.PrintItem(T.Group(T.Special("?" + f + ":"), body));
            var q := T.Erase(Unwrapped(f, T.Left(body)));
            && Readable(q, args) && SetsOf(q, args) == SetsOf(body, args)
            && (Contains(p, VerboseHead) ==> IsAnswer(Transpile(p), q, args))
            && (W.AllWidenable(SetsOf(body, args)) ==> SetsKept(r, SetsOf(body, args)))
  {
    hide *;
    LeftKeepsTheSets(body, args);
    UnwrappedReadable(f, T.Left(body), args);
    ErasedAnswer(r, Unwrapped(f, T.Left(body)), args);
    VerboseGroupTranspiles(f, body);
    UnwrappedOk(f, T.Left(body));
  }

  lemma UnderFlagsReadable(f: string, body: T.Items, args: C.Args)
    requires Flags(f) && T.Ok(body) && T.NoTrivia(body) && Readable(body, args)
    ensures var u := UnderFlags(f, body);
            T.Ok(u) && T.Quiet(u) && Readable(u, args) && SetsOf(u, args) == SetsOf(body, args)
  {
    UnderFlagsOk(f, body);
    T.NoTriviaIsQuiet(UnderFlags(f, body));
    assert SetsOf(T.Nil, args) == [] && [] + SetsOf(body, args) == SetsOf(body, args);
  }

  /** And so does the rest of a pattern behind a bare (?x...). */
  lemma BareVerboseKeepsTheSets(r: Reader, f: string, body: T.Items, args: C.Args)
    requires Flags(f) && 'x' in f && T.Ok(body) && T.Verbose(body) && T.Ok(T.Left(body)) && Readable(body, args)
    ensures var p := "(?" + (f + (")" + T.Print(body)));
            var q := T.Erase(UnderFlags(f, T.Left(body)));
            && Readable(q, args) && SetsOf(q, args) == SetsOf(body, args)
            && (Contains(p, VerboseHead) ==> IsAnswer(Transpile(p), q, args))
            && (W.AllWidenable(SetsOf(body, args)) ==> SetsKept(r, SetsOf(body, args)))
  {
    hide *;
    LeftKeepsTheSets(body, args);
    UnderFlagsReadable(f, T.Left(body), args);
    ErasedAnswer(r, UnderFlags(f, T.Left(body)), args);
    BareVerboseTranspiles(f, body);
    UnderFlagsOk(f, T.Left(body));
  }

  /** And what is left is the plain tree, always a pattern, without literal wide spaces. */
  lemma LeftIsPlain(body: T.Items)
    requires T.Ok(body) && T.NoWideSpace(body)
    ensures T.Ok(T.Left(body)) && T.Left(body) == T.Plain(body)
  {
    PlainIsOk(body);
    T.LeftIsNoLonger(body);
  }

  /** And as text: RE2, reading the widened class of the tree by its own escapes, matches what
      Python's reading of the class matches. */
  lemma WidenedTreeClassKeepsTheSet(r: Reader, py: C.Args, go: C.Args, body: seq<T.Atom>, t: string, n: int)
    requires ClassReads(body, py) && C.WritesFit(go) && C.CodesFit(r)
    requires forall m :: m in ClassPiece(body, py).members ==> InPlace(m) && C.MemberFits(go, m)
    requires !AnyPair(ClassPiece(body, py))
    ensures var s := PrintWidePiece(WidePiece(ClassPiece(body, py))) + t;
            && s[0] == '['
            && match C.ReadClass(s[1..], go)
               case None => false
               case Some((neg, raws, rest)) =>
                 rest == t && (C.InAnyRaw(r, raws, n) != neg <==> Matches(r, ClassPiece(body, py), n))
  {
    ClassPieceOk(body, py);
    var p := ClassPiece(body, py);
    hide C.Unambiguous, C.WritesFit, W.ClassOk;
    assert p == Class(p.negated, p.members);
    C.WidenedTextKeepsTheSet(r, go, p.negated, p.members, t, n);
  }
}
