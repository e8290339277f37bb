/**
The two readings of a pattern joined: the tree of groups and trivia that stripping and
rewriting work on, read as the sequence of pieces that widening works on.  How many
characters an escape inside a class takes after its letter is given.
*/
module PatternPieces {
  import opened Options
  import opened PatternMeaning
  import T = PatternTree
  import W = PatternWidenTree
  import D = PatternWiden
  import C = PatternReader

  // ----------------------------------------------------------------- classes

  function Plainest(atoms: seq<T.Atom>): (s: string)
    ensures |s| <= |atoms| && forall k :: 0 <= k < |s| ==> atoms[k] == T.Chr(s[k])
  {
    if atoms == [] || atoms[0].ClassEsc? then "" else [atoms[0].c] + Plainest(atoms[1..])
  }

  /** What the escape with this letter takes of the plain characters behind it. */
  function Taken(c: char, atoms: seq<T.Atom>, args: C.Args): (s: string)
    ensures |s| <= |atoms| && forall k :: 0 <= k < |s| ==> atoms[k] == T.Chr(s[k])
  {
    var plain := Plainest(atoms);
    plain[..if args(c, plain) <= |plain| then args(c, plain) else |plain|]
  }

  predicate IsShort(a: T.Atom) {
    a.ClassEsc? && D.IsShorthand(a.c)
  }

  function ShortOf(c: char): (Short, bool) {
    (if c == 'd' || c == 'D' then Digit else if c == 'w' || c == 'W' then Word else White, c in {'D', 'W', 'S'})
  }

  /** The unit the atoms start with, and how many of them it is. */
  function UnitAt(atoms: seq<T.Atom>, args: C.Args): (r: (Unit, nat))
    requires atoms != [] && !IsShort(atoms[0])
    ensures 1 <= r.1 <= |atoms|
  {
    match atoms[0]
    case Chr(c) => (Chr(c), 1)
    case ClassEsc(c) => (Escaped(c, Taken(c, atoms[1..], args)), 1 + |Taken(c, atoms[1..], args)|)
  }

  /** The member the atoms start with, as Python reads a class body; None is a range with
      a shorthand at an end. */
  function FirstMember(atoms: seq<T.Atom>, args: C.Args): (r: Option<(Member, nat)>)
    requires atoms != []
    ensures r.Some? ==> 1 <= r.value.1 <= |atoms|
  {
    if IsShort(atoms[0]) then
      if |atoms| > 2 && atoms[1] == T.Chr('-') then None
      else
        var (k, complement) := ShortOf(atoms[0].c);
        Some((Has(k, complement), 1))
    else
      var (lo, n) := UnitAt(atoms, args);
      if |atoms| > n + 1 && atoms[n] == T.Chr('-') then
        if IsShort(atoms[n + 1]) then None
        else
          var (hi, m) := UnitAt(atoms[n + 1..], args);
          Some((Range(lo, hi), n + 1 + m))
      else Some((One(lo), n))
  }

  function Members(atoms: seq<T.Atom>, args: C.Args): Option<seq<Member>> {
    if atoms == [] then Some([])
    else
      match FirstMember(atoms, args)
      case None => None
      case Some((m, n)) => Push(m, Members(atoms[n..], args))
  }

  function Push(m: Member, ms: Option<seq<Member>>): Option<seq<Member>> {
    if ms.None? then None else Some([m] + ms.value)
  }

  predicate IsNegated(body: seq<T.Atom>) {
    body != [] && body[0] == T.Chr('^')
  }

  function Inner(body: seq<T.Atom>): seq<T.Atom> {
    if IsNegated(body) then body[1..] else body
  }

  /** A class both readings take: it has members, and no shorthand ends a range. */
  predicate ClassReads(body: seq<T.Atom>, args: C.Args) {
    T.AtomsOk(body) && Inner(body) != [] && Members(Inner(body), args).Some?
  }

  function ClassPiece(body: seq<T.Atom>, args: C.Args): Piece
    requires ClassReads(body, args)
  {
    Class(IsNegated(body), Members(Inner(body), args).value)
  }

  function AtomTokens(atoms: seq<T.Atom>): seq<string> {
    if atoms == [] then [] else [T.AtomText(atoms[0])] + AtomTokens(atoms[1..])
  }

  // ---------------------------------------------------- classes print the same

  lemma {:induction false} MembersTokensConcat(a: seq<Member>, b: seq<Member>)
    ensures MembersTokens(a + b) == MembersTokens(a) + MembersTokens(b)
    decreases |b|
  {
    hide MemberTokens;
    if b == [] {
      assert a + b == a;
    } else {
      MembersTokensConcat(a, b[..|b| - 1]);
      assert (a + b)[..|a + b| - 1] == a + b[..|b| - 1];
    }
  }

  lemma MembersTokensPush(m: Member, ms: seq<Member>)
    ensures MembersTokens([m] + ms) == MemberTokens(m) + MembersTokens(ms)
  {
    MembersTokensConcat([m], ms);
    assert [m][..0] == [] && MembersTokens([m]) == [] + MemberTokens(m) == MemberTokens(m);
  }

  lemma {:induction false} AtomTokensConcat(a: seq<T.Atom>, b: seq<T.Atom>)
    ensures AtomTokens(a + b) == AtomTokens(a) + AtomTokens(b)
  {
    if a == [] {
      assert a + b == b;
    } else {
      AtomTokensConcat(a[1..], b);
      assert (a + b)[1..] == a[1..] + b;
    }
  }

  lemma {:induction false} TakenTokens(atoms: seq<T.Atom>, s: string)
    requires |s| <= |atoms| && forall k :: 0 <= k < |s| ==> atoms[k] == T.Chr(s[k])
    ensures AtomTokens(atoms[..|s|]) == Singles(s)
    decreases |s|
  {
    if s != "" {
      TakenTokens(atoms[1..], s[1..]);
      assert atoms[..|s|][1..] == atoms[1..][..|s[1..]|];
      assert s[..1] == [s[0]];
    }
  }

  lemma UnitAtTokens(atoms: seq<T.Atom>, args: C.Args)
    requires atoms != [] && !IsShort(atoms[0]) && T.AtomsOk(atoms)
    ensures var (u, n) := UnitAt(atoms, args); AtomTokens(atoms[..n]) == UnitTokens(u) && W.UnitPlain(u)
  {
    match atoms[0]
    case Chr(c) =>
      assert atoms[..1][1..] == [] && T.AtomOk(atoms[0]);
    case ClassEsc(c) =>
      var s := Taken(c, atoms[1..], args);
      TakenTokens(atoms[1..], s);
      assert atoms[..1 + |s|] == [atoms[0]] + atoms[1..][..|s|];
      assert ([atoms[0]] + atoms[1..][..|s|])[1..] == atoms[1..][..|s|];
      forall k | 0 <= k < |s| ensures s[k] != '\\' && s[k] != ']' {
        assert T.AtomOk(atoms[k + 1]) && atoms[1..][k] == T.Chr(s[k]);
      }
  }

  lemma TokensSplit(atoms: seq<T.Atom>, n: nat)
    requires n <= |atoms|
    ensures AtomTokens(atoms) == AtomTokens(atoms[..n]) + AtomTokens(atoms[n..])
    ensures T.AtomsOk(atoms) ==> T.AtomsOk(atoms[..n]) && T.AtomsOk(atoms[n..])
  {
    OkSplit(atoms, n);
    assert atoms == atoms[..n] + atoms[n..];
    hide *;
    AtomTokensConcat(atoms[..n], atoms[n..]);
  }

  lemma OkSplit(atoms: seq<T.Atom>, n: nat)
    requires n <= |atoms|
    ensures T.AtomsOk(atoms) ==> T.AtomsOk(atoms[..n]) && T.AtomsOk(atoms[n..])
  {
    hide T.AtomOk;
  }

  lemma ShortTokens(c: char)
    requires D.IsShorthand(c)
    ensures Letter(ShortOf(c).0, ShortOf(c).1) == c
  {
  }

  lemma RangeMemberTokens(atoms: seq<T.Atom>, n: nat, args: C.Args)
    requires T.AtomsOk(atoms) && |atoms| > n + 1 && atoms[n] == T.Chr('-') && !IsShort(atoms[n + 1])
    ensures var (hi, m) := UnitAt(atoms[n + 1..], args);
            AtomTokens(atoms[..n + 1 + m]) == AtomTokens(atoms[..n]) + (["-"] + UnitTokens(hi)) && W.UnitPlain(hi)
  {
    var rest := atoms[n + 1..];
    var (hi, m) := UnitAt(rest, args);
    TokensSplit(atoms, n + 1);
    UnitAtTokens(rest, args);
    assert atoms[..n + 1 + m] == atoms[..n] + ([atoms[n]] + rest[..m]);
    hide *;
    AtomTokensConcat(atoms[..n], [atoms[n]] + rest[..m]);
    AtomTokensConcat([atoms[n]], rest[..m]);
    DashToken();
  }

  lemma DashToken()
    ensures AtomTokens([T.Chr('-')]) == ["-"]
  {
    assert [T.Chr('-')][1..] == [];
  }

  lemma RangeTokens(lo: Unit, hi: Unit)
    ensures UnitTokens(lo) + (["-"] + UnitTokens(hi)) == MemberTokens(Range(lo, hi))
  {
  }

  lemma FirstMemberTokens(atoms: seq<T.Atom>, args: C.Args)
    requires atoms != [] && T.AtomsOk(atoms) && FirstMember(atoms, args).Some?
    ensures var (m, n) := FirstMember(atoms, args).value;
            AtomTokens(atoms[..n]) == MemberTokens(m) && W.MemberOk(m, false)
  {
    hide AtomTokens, UnitTokens, T.AtomsOk;
    if IsShort(atoms[0]) {
      ShortMember(atoms);
    } else {
      UnitAtTokens(atoms, args);
      var (lo, n) := UnitAt(atoms, args);
      if |atoms| > n + 1 && atoms[n] == T.Chr('-') && !IsShort(atoms[n + 1]) {
        RangeMemberTokens(atoms, n, args);
        RangeTokens(lo, UnitAt(atoms[n + 1..], args).0);
      }
    }
  }

  /** The members print as the atoms they were read from, and every one is well-formed. */
  lemma {:induction false} MembersPrint(atoms: seq<T.Atom>, args: C.Args)
    requires T.AtomsOk(atoms) && Members(atoms, args).Some?
    ensures var ms := Members(atoms, args).value;
            && MembersTokens(ms) == AtomTokens(atoms) && (forall k :: 0 <= k < |ms| ==> W.MemberOk(ms[k], false))
            && (ms == [] <==> atoms == [])
    decreases |atoms|
  {
    if atoms != [] {
      hide FirstMember, MemberTokens, MembersTokens, AtomTokens, T.AtomsOk, W.MemberOk;
      var (m, n) := FirstMember(atoms, args).value;
      FirstMemberTokens(atoms, args);
      TokensSplit(atoms, n);
      MembersPrint(atoms[n..], args);
      MembersTokensPush(m, Members(atoms[n..], args).value);
    } else {
      assert MembersTokens([]) == AtomTokens([]);
    }
  }

  lemma ShortMember(atoms: seq<T.Atom>)
    requires atoms != [] && IsShort(atoms[0])
    ensures AtomTokens(atoms[..1]) == MemberTokens(Has(ShortOf(atoms[0].c).0, ShortOf(atoms[0].c).1))
  {
    ShortTokens(atoms[0].c);
    assert atoms[..1][1..] == [];
  }

  lemma {:induction false} ConcatAtoms(atoms: seq<T.Atom>)
    ensures Concat(AtomTokens(atoms)) == T.PrintAtoms(atoms)
  {
    if atoms != [] {
      ConcatAtoms(atoms[1..]);
      assert AtomTokens(atoms)[1..] == AtomTokens(atoms[1..]);
    }
  }

  lemma LoneDashMember(args: C.Args)
    ensures Members([T.Chr('-')], args) == Some([One(Chr('-'))])
  {
    assert [T.Chr('-')][1..] == [];
    assert Members([], args) == Some([]) && [One(Chr('-'))] + [] == [One(Chr('-'))];
  }

  lemma FirstUnitOfFirst(atoms: seq<T.Atom>, args: C.Args, c: char)
    requires atoms != [] && FirstMember(atoms, args).Some?
    ensures W.FirstUnit(FirstMember(atoms, args).value.0) == Some(Chr(c)) <==> atoms[0] == T.Chr(c)
  {
  }

  lemma DashBehind(atoms: seq<T.Atom>, args: C.Args)
    requires atoms != [] && FirstMember(atoms, args).Some? && !FirstMember(atoms, args).value.0.Range?
    ensures var n := FirstMember(atoms, args).value.1;
            n < |atoms| && atoms[n] == T.Chr('-') ==> atoms[n..] == [T.Chr('-')]
  {
  }

  /** The reading is one that widening keeps: a '-' behind anything but a range is last. */
  lemma {:induction false} MembersUnambiguous(atoms: seq<T.Atom>, args: C.Args)
    requires Members(atoms, args).Some?
    ensures C.Unambiguous(Members(atoms, args).value)
    decreases |atoms|
  {
    if atoms != [] {
      hide FirstMember;
      var (m, n) := FirstMember(atoms, args).value;
      var rest := Members(atoms[n..], args).value;
      MembersUnambiguous(atoms[n..], args);
      assert ([m] + rest)[1..] == rest;
      if !m.Range? && atoms[n..] != [] {
        DashBehind(atoms, args);
        FirstUnitOfFirst(atoms[n..], args, '-');
        LoneDashMember(args);
      }
    }
  }

  lemma ClassPrints(body: seq<T.Atom>, args: C.Args)
    requires ClassReads(body, args)
    ensures PrintPiece(ClassPiece(body, args)) == T.PrintItem(T.Class(body))
  {
    MembersPrint(Inner(body), args);
    ConcatAtoms(body);
    if IsNegated(body) {
      assert T.AtomText(body[0]) == "^";
    } else {
      assert [] + AtomTokens(body) == AtomTokens(body);
    }
    hide Members, MembersTokens, Concat, T.PrintAtoms, T.AtomsOk;
  }

  lemma ClassPieceOk(body: seq<T.Atom>, args: C.Args)
    requires ClassReads(body, args)
    ensures W.PieceOk(ClassPiece(body, args)) && C.Unambiguous(ClassPiece(body, args).members)
  {
    var atoms := Inner(body);
    assert IsNegated(body) ==> atoms == body[1..];
    MembersPrint(atoms, args);
    MembersUnambiguous(atoms, args);
    hide MembersTokens, AtomTokens;
    var ms := Members(atoms, args).value;
    forall k | 0 <= k < |ms| ensures W.MemberOk(ms[k], k == 0) {
      assert W.MemberOk(ms[k], false);
    }
    FirstUnitOfFirst(atoms, args, '^');
    hide FirstMember;
    assert ms[0] == FirstMember(atoms, args).value.0;
  }

  // ---------------------------------------------------------------- patterns

  /** Every class of the tree is one Python reads. */
  predicate Readable(p: T.Items, args: C.Args) {
    p.Nil? || (ReadableItem(p.head, args) && Readable(p.tail, args))
  }

  predicate ReadableItem(i: T.Item, args: C.Args) {
    match i
    case Class(body) => ClassReads(body, args)
    case Group(_, inner) => Readable(inner, args)
    case _ => true
  }

  function Texts(s: string): seq<Piece> {
    if s == "" then [] else [Text(s[0])] + Texts(s[1..])
  }

  function ItemPieces(i: T.Item, args: C.Args): seq<Piece>
    requires ReadableItem(i, args)
    decreases i
  {
    match i
    case Lit(c) => [Text(c)]
    case Esc(c) => [if D.IsShorthand(c) then Shorthand(ShortOf(c).0, ShortOf(c).1) else Escape(c)]
    case Class(body) => [ClassPiece(body, args)]
    case Group(k, inner) => Texts("(" + T.KindText(k)) + Pieces(inner, args) + [Text(')')]
    case Blank(c) => [Text(c)]
    case Comment(text) => Texts("#" + (text + "\n"))
  }

  /** The tree as the pieces its print is made of. */
  function Pieces(p: T.Items, args: C.Args): seq<Piece>
    requires Readable(p, args)
    decreases p
  {
    match p
    case Nil => []
    case Cons(h, t) => ItemPieces(h, args) + Pieces(t, args)
  }

  lemma {:induction false} PrintConcat(a: seq<Piece>, b: seq<Piece>)
    ensures Print(a + b) == Print(a) + Print(b)
  {
    hide PrintPiece;
    if a == [] {
      assert a + b == b;
    } else {
      PrintConcat(a[1..], b);
      assert (a + b)[1..] == a[1..] + b && (a + b)[0] == a[0];
      PrintStep(a + b);
      PrintStep(a);
      hide Print;
    }
  }

  lemma PrintStep(ps: seq<Piece>)
    requires ps != []
    ensures Print(ps) == PrintPiece(ps[0]) + Print(ps[1..])
  {
  }

  lemma PrintOne(p: Piece)
    ensures Print([p]) == PrintPiece(p)
  {
    hide PrintPiece;
    assert [p][1..] == [] && PrintPiece(p) + "" == PrintPiece(p);
  }

  lemma {:induction false} TextsPrint(s: string)
    ensures Print(Texts(s)) == s
  {
    if s != "" {
      TextsPrint(s[1..]);
      assert Texts(s)[1..] == Texts(s[1..]) && s == [s[0]] + s[1..];
    }
  }

  lemma EscPrints(c: char)
    ensures PrintPiece(if D.IsShorthand(c) then Shorthand(ShortOf(c).0, ShortOf(c).1) else Escape(c)) == ['\\', c]
  {
    if D.IsShorthand(c) {
      ShortTokens(c);
    }
  }

  lemma GroupPiecesPrint(k: T.Kind, inner: seq<Piece>, text: string)
    requires Print(inner) == text
    ensures Print(Texts("(" + T.KindText(k)) + inner + [Text(')')]) == "(" + (T.KindText(k) + (text + ")"))
  {
    var u := T.KindText(k);
    hide Print, Texts, T.KindText;
    TextsPrint("(" + u);
    PrintConcat(Texts("(" + u), inner);
    PrintConcat(Texts("(" + u) + inner, [Text(')')]);
    PrintOne(Text(')'));
    assert (("(" + u) + text) + ")" == "(" + (u + (text + ")"));
  }

  lemma {:induction false} PiecesPrint(p: T.Items, args: C.Args)
    requires Readable(p, args)
    ensures Print(Pieces(p, args)) == T.Print(p)
    decreases p
  {
    if p.Cons? {
      PiecesPrint(p.tail, args);
      match p.head {
        case Lit(c) => PrintOne(Text(c));
        case Esc(c) => EscPrints(c); PrintOne(ItemPieces(p.head, args)[0]);
        case Class(body) => ClassPrints(body, args); PrintOne(ClassPiece(body, args));
        case Group(k, inner) =>
          PiecesPrint(inner, args);
          GroupPiecesPrint(k, Pieces(inner, args), T.Print(inner));
        case Blank(c) => PrintOne(Text(c));
        case Comment(text) => TextsPrint("#" + (text + "\n"));
      }
      assert Print(ItemPieces(p.head, args)) == T.PrintItem(p.head);
      hide Print, T.PrintItem, ItemPieces;
      PrintConcat(ItemPieces(p.head, args), Pieces(p.tail, args));
    }
  }

  ghost predicate AllOk(ps: seq<Piece>) {
    forall p :: p in ps ==> W.PieceOk(p)
  }

  lemma {:induction false} TextsOk(s: string)
    requires forall k :: 0 <= k < |s| ==> s[k] != '\\' && s[k] != '['
    ensures AllOk(Texts(s))
  {
    if s != "" {
      TextsOk(s[1..]);
    }
  }

  lemma GroupPiecesOk(k: T.Kind, inner: T.Items, ps: seq<Piece>)
    requires T.KindOk(k, inner) && AllOk(ps)
    ensures AllOk(Texts("(" + T.KindText(k)) + ps + [Text(')')])
  {
    T.KindTextIsPlain(k, inner);
    var u := "(" + T.KindText(k);
    forall j | 0 <= j < |u| ensures u[j] != '\\' && u[j] != '[' {
      assert j > 0 ==> u[j] == T.KindText(k)[j - 1];
    }
    TextsOk(u);
  }

  lemma {:induction false} PiecesOk(p: T.Items, args: C.Args)
    requires Readable(p, args) && T.Ok(p) && T.Quiet(p)
    ensures AllOk(Pieces(p, args))
    decreases p
  {
    if p.Cons? {
      PiecesOk(p.tail, args);
      match p.head {
        case Class(body) => ClassPieceOk(body, args);
        case Group(k, inner) =>
          PiecesOk(inner, args);
          GroupPiecesOk(k, inner, Pieces(inner, args));
        case Comment(text) => TextsOk("#" + (text + "\n"));
        case _ =>
      }
      assert AllOk(ItemPieces(p.head, args));
    }
  }

  // -------------------------------------------------------------------- sets

  /** The pieces that match a set of code points, in order. */
  function Sets(ps: seq<Piece>): seq<Piece> {
    if ps == [] then [] else (if ps[0].Shorthand? || ps[0].Class? then [ps[0]] else []) + Sets(ps[1..])
  }

  function SetsOf(p: T.Items, args: C.Args): seq<Piece>
    requires Readable(p, args)
    decreases p
  {
    match p
    case Nil => []
    case Cons(h, t) =>
      assert ReadableItem(h, args);
      (if h.Group? then SetsOf(h.inner, args) else Sets(ItemPieces(h, args))) + SetsOf(t, args)
  }

  lemma {:induction false} SetsConcat(a: seq<Piece>, b: seq<Piece>)
    ensures Sets(a + b) == Sets(a) + Sets(b)
  {
    if a == [] {
      assert a + b == b;
    } else {
      SetsConcat(a[1..], b);
      assert (a + b)[1..] == a[1..] + b && (a + b)[0] == a[0];
      SetsStep(a + b);
      SetsStep(a);
      hide Sets;
      GluePieces(if a[0].Shorthand? || a[0].Class? then [a[0]] else [], Sets(a[1..]), Sets(b));
    }
  }

  lemma GluePieces(a: seq<Piece>, b: seq<Piece>, c: seq<Piece>)
    ensures (a + b) + c == a + (b + c)
  {
  }

  lemma SetsStep(ps: seq<Piece>)
    requires ps != []
    ensures Sets(ps) == (if ps[0].Shorthand? || ps[0].Class? then [ps[0]] else []) + Sets(ps[1..])
  {
  }

  lemma {:induction false} TextsHoldNoSets(s: string)
    ensures Sets(Texts(s)) == []
  {
    if s != "" {
      TextsHoldNoSets(s[1..]);
      assert Texts(s)[1..] == Texts(s[1..]);
    }
  }

  lemma {:induction false} SetsOfPieces(p: T.Items, args: C.Args)
    requires Readable(p, args)
    ensures Sets(Pieces(p, args)) == SetsOf(p, args)
    decreases p
  {
    if p.Cons? {
      SetsOfPieces(p.tail, args);
      if p.head.Group? {
        SetsOfPieces(p.head.inner, args);
        SetsOfGroup(Texts("(" + T.KindText(p.head.kind)), Pieces(p.head.inner, args));
        TextsHoldNoSets("(" + T.KindText(p.head.kind));
      }
      hide Sets, Texts, T.KindText;
      SetsConcat(ItemPieces(p.head, args), Pieces(p.tail, args));
    }
  }

  lemma SetsOfGroup(open: seq<Piece>, inner: seq<Piece>)
    ensures Sets(open) == [] ==> Sets(open + inner + [Text(')')]) == Sets(inner)
  {
    assert [Text(')')][1..] == [] && Sets([Text(')')]) == [];
    hide Sets;
    SetsConcat(open, inner);
    SetsConcat(open + inner, [Text(')')]);
  }

  lemma {:induction false} EraseKeepsTheSets(p: T.Items, args: C.Args)
    requires Readable(p, args)
    ensures Readable(T.Erase(p), args) && SetsOf(T.Erase(p), args) == SetsOf(p, args)
    decreases p
  {
    if p.Cons? {
      EraseKeepsTheSets(p.tail, args);
      if p.head.Group? {
        EraseKeepsTheSets(p.head.inner, args);
      }
    }
  }

  lemma TriviaHoldsNoSets(i: T.Item, args: C.Args)
    requires T.IsTrivia(i)
    ensures Sets(ItemPieces(i, args)) == []
  {
    if i.Comment? {
      TextsHoldNoSets("#" + (i.text + "\n"));
    } else {
      assert [Text(i.c)][1..] == [];
    }
  }

  lemma {:induction false} WidenableBySets(ps: seq<Piece>)
    ensures W.AllWidenable(ps) <==> W.AllWidenable(Sets(ps))
  {
    hide Widenable;
    if ps != [] {
      WidenableBySets(ps[1..]);
      TextIsWidenable(ps[0]);
      assert ps == [ps[0]] + ps[1..];
    }
  }

  lemma TextIsWidenable(p: Piece)
    ensures !p.Class? ==> Widenable(p)
  {
  }

  /** Widening the print of a tree: its pieces widened one by one, or nothing if some class
      of it needs a complement it cannot write. */
  lemma WidenOfTree(p: T.Items, args: C.Args)
    requires Readable(p, args) && T.Ok(p) && T.Quiet(p)
    ensures W.AllWidenable(Pieces(p, args)) <==> W.AllWidenable(SetsOf(p, args))
    ensures D.Widen(T.Print(p)) == if W.AllWidenable(Pieces(p, args)) then Some(W.PrintWide(Pieces(p, args))) else None
  {
    hide *;
    PiecesPrint(p, args);
    PiecesOk(p, args);
    var ps := Pieces(p, args);
    WidenOfPieces(ps);
    WidenableBySets(ps);
    SetsOfPieces(p, args);
  }

  lemma WidenOfPieces(ps: seq<Piece>)
    requires AllOk(ps)
    ensures D.Widen(Print(ps)) == if W.AllWidenable(ps) then Some(W.PrintWide(ps)) else None
  {
    hide D.Widen, Print, W.PieceOk, Widenable, W.PrintWide;
    W.WidenPrintsTheWidePieces(ps);
  }
}
