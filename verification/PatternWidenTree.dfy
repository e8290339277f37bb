/**
widen_shorthands of the print of a pattern is the print of the widened pattern, and None
exactly when a class needs a complement it cannot write in place.
*/
module PatternWidenTree {
  import opened Options
  import S = PatternScan
  import opened PatternWiden
  import opened PatternMeaning

  // ------------------------------------------------------------ well-formed

  predicate UnitPlain(u: Unit) {
    match u
    case Chr(c) => c != '\\' && c != ']'
    case Escaped(c, rest) => !IsShorthand(c) && '\\' !in rest && ']' !in rest
  }

  predicate UnitOk(u: Unit, first: bool) {
    UnitPlain(u) || (first && u == Chr(']'))
  }

  predicate MemberOk(m: Member, first: bool) {
    match m
    case One(u) => UnitOk(u, first)
    case Range(lo, hi) => UnitOk(lo, first) && UnitPlain(hi)
    case Has(_, _) => true
  }

  function FirstUnit(m: Member): Option<Unit> {
    match m
    case One(u) => Some(u)
    case Range(lo, _) => Some(lo)
    case Has(_, _) => None
  }

  /** A body with at least one member, a ']' only as the very first character, and a '^'
      first only where it means negation. */
  predicate ClassOk(negated: bool, ms: seq<Member>) {
    && ms != []
    && (forall k :: 0 <= k < |ms| ==> MemberOk(ms[k], k == 0))
    && (!negated ==> FirstUnit(ms[0]) != Some(Chr('^')))
  }

  predicate PieceOk(p: Piece) {
    match p
    case Text(c) => c != '\\' && c != '['
    case Escape(c) => !IsShorthand(c)
    case Shorthand(_, _) => true
    case Class(negated, ms) => ClassOk(negated, ms)
  }

  // ----------------------------------------------------------- reading back

  predicate TokenOk(tok: string) {
    (|tok| == 1 && tok[0] != '\\') || (|tok| == 2 && tok[0] == '\\')
  }

  /** The inner loop reads back the tokens a body was printed from. */
  predicate ClosesOnly(read: seq<string>) {
    read != [] && read != ["^"]
  }

  lemma BodyReadsOne(tok: string, rest: string, read: seq<string>)
    requires TokenOk(tok) && (tok == "]" ==> !ClosesOnly(read))
    ensures Body(tok + rest, read) == Further(Body(rest, read + [tok]), |tok|)
  {
    var s := tok + rest;
    hide Body;
    BodyAt(s, 0, read);
    assert s[0..] == s;
    if |tok| == 1 {
      assert s[1..] == rest && [s[0]] == tok;
    } else {
      assert s[2..] == rest && s[0..2] == tok;
    }
  }

  lemma {:induction false} BodyReads(toks: seq<string>, read: seq<string>, t: string)
    requires forall tok :: tok in toks ==> TokenOk(tok)
    requires forall k :: 0 <= k < |toks| && toks[k] == "]" ==> !ClosesOnly(read + toks[..k])
    requires ClosesOnly(read + toks)
    ensures Body(Concat(toks) + ("]" + t), read) == Some((read + toks, |Concat(toks)|))
    decreases |toks|
  {
    hide Body;
    if toks == [] {
      assert Concat(toks) + ("]" + t) == "]" + t && read + toks == read;
      BodyAt("]" + t, 0, read);
      assert ("]" + t)[0..] == "]" + t;
    } else {
      var rest := Concat(toks[1..]) + ("]" + t);
      assert Concat(toks) + ("]" + t) == toks[0] + rest;
      assert toks[..0] == [] && read + [] == read;
      assert read + toks == (read + [toks[0]]) + toks[1..];
      hide ClosesOnly;
      forall k | 0 <= k < |toks[1..]| && toks[1..][k] == "]" ensures !ClosesOnly((read + [toks[0]]) + toks[1..][..k]) {
        assert toks[k + 1] == "]" && (read + [toks[0]]) + toks[1..][..k] == read + toks[..k + 1];
      }
      BodyReads(toks[1..], read + [toks[0]], t);
      BodyReadsOne(toks[0], rest, read);
    }
  }

  lemma {:induction false} SinglesOk(s: string)
    requires '\\' !in s && ']' !in s
    ensures forall tok :: tok in Singles(s) ==> TokenOk(tok) && |tok| == 1 && tok != "]"
  {
    if s != "" {
      SinglesOk(s[1..]);
    }
  }

  lemma SingleInside(c: char)
    ensures Inside([c]) == Some([c])
  {
  }

  lemma {:induction false} SinglesInside(s: string)
    ensures InsideAll(Singles(s)) == Some(s)
  {
    if s != "" {
      SinglesInside(s[1..]);
      SingleInside(s[0]);
      assert s[..1] == [s[0]];
      hide Inside, InsideAll;
      InsideOne(s[..1]);
      InsideAllConcat([s[..1]], Singles(s[1..]));
      assert s == s[..1] + s[1..];
    }
  }

  lemma InsideOne(tok: string)
    ensures InsideAll([tok]) == Inside(tok)
  {
    assert [tok][..0] == [];
    if Inside(tok).Some? {
      assert "" + Inside(tok).value == Inside(tok).value;
    }
  }

  lemma {:induction false} InsideAllConcat(a: seq<string>, b: seq<string>)
    ensures InsideAll(a + b) == if InsideAll(a).None? || InsideAll(b).None? then None
                                else Some(InsideAll(a).value + InsideAll(b).value)
    decreases |b|
  {
    if b == [] {
      assert a + b == a;
      if InsideAll(a).Some? {
        assert InsideAll(a).value + "" == InsideAll(a).value;
      }
    } else {
      InsideAllConcat(a, b[..|b| - 1]);
      assert (a + b)[..|a + b| - 1] == a + b[..|b| - 1];
      var x, y, z := InsideAll(a), InsideAll(b[..|b| - 1]), Inside(b[|b| - 1]);
      if x.Some? && y.Some? && z.Some? {
        assert (x.value + y.value) + z.value == x.value + (y.value + z.value);
      }
    }
  }

  lemma UnitTokensOk(u: Unit, first: bool)
    requires UnitOk(u, first)
    ensures UnitTokens(u) != [] && (forall tok :: tok in UnitTokens(u) ==> TokenOk(tok))
    ensures forall k :: 0 <= k < |UnitTokens(u)| && UnitTokens(u)[k] == "]" ==> k == 0 && first
  {
    if u.Escaped? {
      SinglesOk(u.rest);
      hide Singles, InsideAll;
      assert forall k :: 0 < k < |UnitTokens(u)| ==> UnitTokens(u)[k] in Singles(u.rest);
    }
  }

  lemma PlainIsOk(u: Unit)
    requires UnitPlain(u)
    ensures UnitOk(u, false)
  {
  }

  lemma FirstToken(u: Unit, first: bool)
    requires UnitOk(u, first)
    ensures UnitTokens(u)[0] == "^" <==> u == Chr('^')
    ensures |UnitTokens(u)[0]| == 2 ==> !IsShorthand(UnitTokens(u)[0][1])
  {
  }

  lemma UnitInside(u: Unit, first: bool)
    requires UnitOk(u, first)
    ensures InsideAll(UnitTokens(u)) == Some(PrintUnit(u))
  {
    match u
    case Chr(c) =>
      InsideOne([c]);
    case Escaped(c, rest) =>
      SinglesInside(rest);
      InsideEscape(c);
      hide Singles, InsideAll, Inside;
      InsideOne(['\\', c]);
      InsideAllConcat([['\\', c]], Singles(rest));
  }

  lemma InsideEscape(c: char)
    requires !IsShorthand(c)
    ensures Inside(['\\', c]) == Some(['\\', c])
  {
  }

  lemma MemberTokensOk(m: Member, first: bool)
    requires MemberOk(m, first)
    ensures MemberTokens(m) != [] && (forall tok :: tok in MemberTokens(m) ==> TokenOk(tok))
    ensures forall k :: 0 <= k < |MemberTokens(m)| && MemberTokens(m)[k] == "]" ==> k == 0 && first
    ensures MemberTokens(m)[0] == "^" <==> FirstUnit(m) == Some(Chr('^'))
    ensures |MemberTokens(m)[0]| == 2 && IsShorthand(MemberTokens(m)[0][1]) ==> m.Has?
  {
    hide UnitTokens, UnitOk;
    match m
    case One(u) =>
      UnitTokensOk(u, first);
      FirstToken(u, first);
    case Range(lo, hi) =>
      UnitTokensOk(lo, first);
      FirstToken(lo, first);
      PlainIsOk(hi);
      UnitTokensOk(hi, false);
    case Has(_, _) =>
  }

  /** The expansions are the prints of the items that name the same sets. */
  lemma ShortItemsPrint(k: Short)
    ensures Inside(['\\', Letter(k, false)]) == Some(PrintItems(ShortItems(k)))
  {
    match k
    case Digit =>
      PrintOne(Property(Nd, false));
      assert "\\p{" + "Nd" + "}" == "\\p{Nd}";
    case Word =>
      WordPrints();
      assert ['\\', 'w'] == "\\w" && Inside("\\w") == Some(WORD);
    case White =>
      WhitePrints();
      assert ['\\', 's'] == "\\s" && Inside("\\s") == Some(SPACE);
  }

  lemma PrintOne(i: Item)
    ensures PrintItems([i]) == PrintWideItem(i)
  {
    assert [i][..0] == [] && "" + PrintWideItem(i) == PrintWideItem(i);
  }

  lemma {:induction false} PrintItemsConcat(a: seq<Item>, b: seq<Item>)
    ensures PrintItems(a + b) == PrintItems(a) + PrintItems(b)
    decreases |b|
  {
    hide PrintWideItem;
    if b == [] {
      assert a + b == a && PrintItems(a) + "" == PrintItems(a);
    } else {
      PrintItemsConcat(a, b[..|b| - 1]);
      assert (a + b)[..|a + b| - 1] == a + b[..|b| - 1];
    }
  }

  lemma WordPrints()
    ensures PrintItems(WordItems) == WORD
  {
    assert WordItems[..2] == [Property(L, false), Property(N, false)] && WordItems[..2][..1] == [Property(L, false)];
    PrintOne(Property(L, false));
    assert PrintItems(WordItems[..2]) == "\\p{L}" + "\\p{N}";
  }

  lemma WhitePrints()
    ensures PrintItems(WhiteItems) == SPACE
  {
    var controls := WhiteItems[..5];
    var rest := WhiteItems[5..];
    assert WhiteItems == controls + rest;
    hide PrintItems;
    PrintItemsConcat(controls, rest);
    ControlsPrint();
    CodesPrint();
    SpaceSplits();
  }

  lemma SpaceSplits()
    ensures "\\t\\n\\f\\r\\v" + "\\x{1c}-\\x{1f}\\x{85}\\p{Z}" == SPACE
  {
  }

  lemma ControlsPrint()
    ensures PrintItems(WhiteItems[..5]) == "\\t\\n\\f\\r\\v"
  {
    var i := WhiteItems;
    assert i[..5] == [i[0]] + [i[1]] + [i[2]] + [i[3]] + [i[4]];
    OneControlPrints();
    hide PrintItems, PrintWideItem;
    PrintOne(i[0]);
    PrintOne(i[1]);
    PrintOne(i[2]);
    PrintOne(i[3]);
    PrintOne(i[4]);
    PrintItemsConcat([i[0]], [i[1]]);
    PrintItemsConcat([i[0]] + [i[1]], [i[2]]);
    PrintItemsConcat([i[0]] + [i[1]] + [i[2]], [i[3]]);
    PrintItemsConcat([i[0]] + [i[1]] + [i[2]] + [i[3]], [i[4]]);
    ControlsSplit();
  }

  lemma ControlsSplit()
    ensures "\\t" + "\\n" + "\\f" + "\\r" + "\\v" == "\\t\\n\\f\\r\\v"
  {
  }

  lemma OneControlPrints()
    ensures PrintWideItem(WhiteItems[0]) == "\\t" && PrintWideItem(WhiteItems[1]) == "\\n"
    ensures PrintWideItem(WhiteItems[2]) == "\\f" && PrintWideItem(WhiteItems[3]) == "\\r"
    ensures PrintWideItem(WhiteItems[4]) == "\\v"
  {
  }

  lemma CodesPrint()
    ensures PrintItems(WhiteItems[5..]) == "\\x{1c}-\\x{1f}\\x{85}\\p{Z}"
  {
    var c := WhiteItems[5..];
    assert c == [Code(0x1c, 0x1f)] + [Code(0x85, 0x85)] + [Property(Z, false)];
    OneCodePrints();
    hide PrintItems, PrintWideItem;
    PrintOne(Code(0x1c, 0x1f));
    PrintOne(Code(0x85, 0x85));
    PrintOne(Property(Z, false));
    PrintItemsConcat([Code(0x1c, 0x1f)], [Code(0x85, 0x85)]);
    PrintItemsConcat([Code(0x1c, 0x1f)] + [Code(0x85, 0x85)], [Property(Z, false)]);
    CodesSplit();
  }

  lemma CodesSplit()
    ensures ("\\x{1c}-\\x{1f}" + "\\x{85}") + "\\p{Z}" == "\\x{1c}-\\x{1f}\\x{85}\\p{Z}"
  {
  }

  lemma OneCodePrints()
    ensures PrintWideItem(Code(0x1c, 0x1f)) == "\\x{1c}-\\x{1f}"
    ensures PrintWideItem(Code(0x85, 0x85)) == "\\x{85}"
    ensures PrintWideItem(Property(Z, false)) == "\\p{Z}"
  {
    assert Hex(0x1c) == "1c" && Hex(0x1f) == "1f" && Hex(0x85) == "85";
  }

  // ----------------------------------------------------------- class bodies

  /** The first position is the first member's. */
  predicate TokensOk(toks: seq<string>) {
    && (forall tok :: tok in toks ==> TokenOk(tok))
    && (forall k :: 0 < k < |toks| ==> toks[k] != "]")
  }

  lemma {:induction false} MembersTokensOk(ms: seq<Member>)
    requires forall k :: 0 <= k < |ms| ==> MemberOk(ms[k], k == 0)
    ensures TokensOk(MembersTokens(ms)) && |ms| <= |MembersTokens(ms)|
    ensures ms != [] ==> MembersTokens(ms)[0] == MemberTokens(ms[0])[0]
  {
    if ms != [] {
      var front, last := ms[..|ms| - 1], ms[|ms| - 1];
      forall k | 0 <= k < |front| ensures MemberOk(front[k], k == 0) {
        assert MemberOk(ms[k], k == 0);
      }
      MembersTokensOk(front);
      MemberTokensOk(last, front == []);
    }
  }

  lemma {:induction false} MembersInside(ms: seq<Member>)
    requires forall k :: 0 <= k < |ms| ==> MemberOk(ms[k], k == 0)
    ensures InsideAll(MembersTokens(ms)) ==
            if forall m :: m in ms ==> InPlace(m) then Some(PrintItems(MembersItems(ms))) else None
  {
    hide MemberOk, MemberItems, MemberTokens, InPlace, InsideAll, PrintItems;
    if ms == [] {
      NothingInside();
    } else {
      var front, last := ms[..|ms| - 1], ms[|ms| - 1];
      forall k | 0 <= k < |front| ensures MemberOk(front[k], k == 0) {
        assert MemberOk(ms[k], k == 0);
      }
      MembersInside(front);
      MemberInside(last, front == []);
      InPlaceBefore(ms);
      InsideAllConcat(MembersTokens(front), MemberTokens(last));
      if forall m :: m in ms ==> InPlace(m) {
        PrintItemsConcat(MembersItems(front), MemberItems(last));
      }
    }
  }

  lemma NothingInside()
    ensures InsideAll([]) == Some("") && PrintItems([]) == ""
  {
  }

  lemma InPlaceBefore(ms: seq<Member>)
    requires ms != []
    ensures (forall m :: m in ms ==> InPlace(m)) <==>
            (forall m :: m in ms[..|ms| - 1] ==> InPlace(m)) && InPlace(ms[|ms| - 1])
  {
    hide InPlace;
    assert ms == ms[..|ms| - 1] + [ms[|ms| - 1]];
  }

  lemma MemberInside(m: Member, first: bool)
    requires MemberOk(m, first)
    ensures InsideAll(MemberTokens(m)) == if InPlace(m) then Some(PrintItems(MemberItems(m))) else None
  {
    match m
    case One(u) =>
      UnitInside(u, first);
      PrintOne(Single(u));
    case Range(lo, hi) =>
      RangeInside(lo, hi, first);
      PrintOne(Span(lo, hi));
    case Has(k, complement) =>
      InsideOne(['\\', Letter(k, complement)]);
      if complement {
        ComplementInside(k);
      } else {
        ShortItemsPrint(k);
      }
  }

  lemma RangeInside(lo: Unit, hi: Unit, first: bool)
    requires UnitOk(lo, first) && UnitPlain(hi)
    ensures InsideAll(UnitTokens(lo) + ["-"] + UnitTokens(hi)) == Some(PrintUnit(lo) + "-" + PrintUnit(hi))
  {
    UnitInside(lo, first);
    UnitInside(hi, false);
    InsideOne("-");
    hide InsideAll;
    InsideAllConcat(UnitTokens(lo), ["-"]);
    InsideAllConcat(UnitTokens(lo) + ["-"], UnitTokens(hi));
  }

  lemma ComplementInside(k: Short)
    ensures Inside(['\\', Letter(k, true)]) ==
            if k == Digit then Some(PrintItems([Property(Nd, true)])) else None
  {
    PrintOne(Property(Nd, true));
    assert "\\P{" + "Nd" + "}" == "\\P{Nd}";
    assert ['\\', 'W'] == "\\W" && ['\\', 'S'] == "\\S" && ['\\', 'D'] == "\\D";
  }

  lemma NegatedInside(negated: bool, toks: seq<string>)
    ensures InsideAll((if negated then ["^"] else []) + toks) ==
            if InsideAll(toks).None? then None else Some((if negated then "^" else "") + InsideAll(toks).value)
  {
    if negated {
      InsideOne("^");
      InsideAllConcat(["^"], toks);
    } else {
      assert [] + toks == toks;
      if InsideAll(toks).Some? {
        assert "" + InsideAll(toks).value == InsideAll(toks).value;
      }
    }
  }

  lemma PairTokens(ms: seq<Member>)
    requires |ms| == 2
    ensures MembersTokens(ms) == MemberTokens(ms[0]) + MemberTokens(ms[1])
  {
    assert ms[..1][..0] == [] && ms[..1][0] == ms[0];
    assert MembersTokens(ms[..1]) == [] + MemberTokens(ms[0]) == MemberTokens(ms[0]);
  }

  lemma MoreThanTwo(ms: seq<Member>)
    requires |ms| > 2 && forall k :: 0 <= k < |ms| ==> MemberOk(ms[k], k == 0)
    ensures |MembersTokens(ms)| > 2
  {
    MembersTokensOk(ms);
  }

  lemma OneMember(m: Member)
    requires MemberOk(m, true)
    ensures MembersTokens([m]) == MemberTokens(m) && !Complementary(MemberTokens(m))
  {
    assert [m][..0] == [] && [] + MemberTokens(m) == MemberTokens(m);
    MemberTokensOk(m, true);
  }

  /** Only the pair of a shorthand and its complement collapses. */
  lemma CollapseIsThePair(negated: bool, ms: seq<Member>)
    requires ClassOk(negated, ms)
    ensures Complementary(BodyTokens(negated, ms)) <==> AnyPair(Class(negated, ms))
  {
    MembersTokensOk(ms);
    assert MemberOk(ms[0], true);
    var toks := MembersTokens(ms);
    if negated {
      assert BodyTokens(negated, ms)[0] == "^";
    } else {
      assert BodyTokens(negated, ms) == toks;
      if |ms| > 2 {
        MoreThanTwo(ms);
      } else if |ms| == 2 {
        PairTokens(ms);
        assert MemberOk(ms[1], false);
        PairCollapses(ms[0], ms[1]);
      } else {
        assert ms == [ms[0]];
        OneMember(ms[0]);
      }
    }
  }

  lemma PairCollapses(a: Member, b: Member)
    requires MemberOk(a, true) && MemberOk(b, false)
    ensures Complementary(MemberTokens(a) + MemberTokens(b)) <==>
            a.Has? && b.Has? && a.k == b.k && a.complement != b.complement
  {
    MemberTokensOk(a, true);
    MemberTokensOk(b, false);
    var toks := MemberTokens(a) + MemberTokens(b);
    if Complementary(toks) {
      assert IsShorthand(toks[0][1]) && IsShorthand(toks[1][1]);
      assert toks[0] == MemberTokens(a)[0] && toks[1] == MemberTokens(b)[0];
      SameLetterPair(a.k, a.complement, b.k, b.complement);
    } else if a.Has? && b.Has? {
      SameLetterPair(a.k, a.complement, b.k, b.complement);
    }
  }

  lemma SameLetterPair(k: Short, x: bool, l: Short, y: bool)
    ensures {Letter(k, x), Letter(l, y)} in {{'d', 'D'}, {'w', 'W'}, {'s', 'S'}} <==> k == l && x != y
  {
    var p := {Letter(k, x), Letter(l, y)};
    assert Letter(k, x) in p && Letter(l, y) in p;
    if k == l && x != y {
      match k
      case Digit => assert p == {'d', 'D'};
      case Word => assert p == {'w', 'W'};
      case White => assert p == {'s', 'S'};
    } else {
      assert p == {'d', 'D'} ==> 'd' in p && 'D' in p;
      assert p == {'w', 'W'} ==> 'w' in p && 'W' in p;
      assert p == {'s', 'S'} ==> 's' in p && 'S' in p;
    }
  }

  lemma ClassTextPlain(toks: seq<string>)
    requires !Complementary(toks)
    ensures ClassText(toks) == if InsideAll(toks).None? then None else Some("[" + (InsideAll(toks).value + "]"))
  {
  }

  lemma BodyInside(negated: bool, ms: seq<Member>)
    requires ClassOk(negated, ms)
    ensures InsideAll(BodyTokens(negated, ms)) ==
            if forall m :: m in ms ==> InPlace(m) then Some((if negated then "^" else "") + PrintItems(MembersItems(ms))) else None
  {
    MembersInside(ms);
    hide InsideAll, PrintItems, MembersItems, MembersTokens, InPlace;
    NegatedInside(negated, MembersTokens(ms));
  }

  lemma ClassTextOfPair(toks: seq<string>, p: Piece)
    requires Complementary(toks) && AnyPair(p)
    ensures Widenable(p) && ClassText(toks) == Some(PrintWidePiece(WidePiece(p)))
  {
    hide Complementary, InPlace;
  }

  lemma PlainClassPrints(negated: bool, ms: seq<Member>)
    requires !AnyPair(Class(negated, ms))
    ensures Widenable(Class(negated, ms)) <==> forall m :: m in ms ==> InPlace(m)
    ensures Widenable(Class(negated, ms)) ==>
              PrintWidePiece(WidePiece(Class(negated, ms))) ==
              "[" + (((if negated then "^" else "") + PrintItems(MembersItems(ms))) + "]")
  {
    hide AnyPair, InPlace, PrintItems, MembersItems;
    if Widenable(Class(negated, ms)) {
      assert WidePiece(Class(negated, ms)) == WideClass(negated, MembersItems(ms));
    }
  }

  lemma ClassTextOf(negated: bool, ms: seq<Member>)
    requires ClassOk(negated, ms)
    ensures var p := Class(negated, ms);
            ClassText(BodyTokens(negated, ms)) == if Widenable(p) then Some(PrintWidePiece(WidePiece(p))) else None
  {
    hide *;
    CollapseIsThePair(negated, ms);
    BodyInside(negated, ms);
    if Complementary(BodyTokens(negated, ms)) {
      ClassTextOfPair(BodyTokens(negated, ms), Class(negated, ms));
    } else {
      ClassTextPlain(BodyTokens(negated, ms));
      PlainClassPrints(negated, ms);
    }
  }

  /** Nothing but the first member's first token is a ']', and there it is no closer. */
  lemma ClosesLate(negated: bool, members: seq<string>, k: nat)
    requires TokensOk(members)
    requires var toks := (if negated then ["^"] else []) + members; k < |toks| && toks[k] == "]"
    ensures var toks := (if negated then ["^"] else []) + members; !ClosesOnly([] + toks[..k])
  {
    var toks := (if negated then ["^"] else []) + members;
    if negated {
      assert toks[0] == "^";
      assert k > 0 && toks[k] == members[k - 1];
      assert k == 1;
      assert [] + toks[..k] == ["^"];
    } else {
      assert toks == members;
      assert k == 0;
      assert [] + toks[..k] == [];
    }
  }

  lemma BodyTokensClose(negated: bool, ms: seq<Member>)
    requires ClassOk(negated, ms)
    ensures ClosesOnly([] + BodyTokens(negated, ms))
    ensures TokensOk(MembersTokens(ms)) && forall tok :: tok in BodyTokens(negated, ms) ==> TokenOk(tok)
  {
    MembersTokensOk(ms);
    assert MemberOk(ms[0], true);
    MemberTokensOk(ms[0], true);
    assert [] + BodyTokens(negated, ms) == BodyTokens(negated, ms);
    if !negated {
      assert BodyTokens(negated, ms) == MembersTokens(ms);
    } else {
      assert |BodyTokens(negated, ms)| > 1;
    }
  }

  lemma ClassBodyReads(negated: bool, ms: seq<Member>, t: string)
    requires ClassOk(negated, ms)
    ensures var toks := BodyTokens(negated, ms);
            Body(Concat(toks) + ("]" + t), []) == Some((toks, |Concat(toks)|))
  {
    var toks := BodyTokens(negated, ms);
    BodyTokensClose(negated, ms);
    hide MembersTokens, ClosesOnly, Body, Concat, ClassOk, TokensOk, TokenOk;
    forall k: nat | k < |toks| && toks[k] == "]" ensures !ClosesOnly([] + toks[..k]) {
      ClosesLate(negated, MembersTokens(ms), k);
    }
    BodyReads(toks, [], t);
    assert [] + toks == toks;
  }

  // --------------------------------------------------------------- patterns

  lemma BracketShape(u: string, t: string)
    ensures var s := ("[" + (u + "]")) + t;
            s[0..] == s && s[0] == '[' && s[1..] == u + ("]" + t) && |u| + 2 <= |s| && s[|u| + 2..] == t
  {
  }

  lemma WidenBracket(u: string, t: string, toks: seq<string>)
    requires Body(u + ("]" + t), []) == Some((toks, |u|))
    ensures Widen(("[" + (u + "]")) + t) == if ClassText(toks).None? then None else Prepend(ClassText(toks).value, Widen(t))
  {
    var s := ("[" + (u + "]")) + t;
    BracketShape(u, t);
    hide Widen, Body, ClassText;
    WidenAt(s, 0);
  }

  lemma WidenClass(negated: bool, ms: seq<Member>, t: string)
    requires ClassOk(negated, ms)
    ensures var p := Class(negated, ms);
            Widen(PrintPiece(p) + t) == if Widenable(p) then Prepend(PrintWidePiece(WidePiece(p)), Widen(t)) else None
  {
    var toks := BodyTokens(negated, ms);
    ClassBodyReads(negated, ms, t);
    ClassTextOf(negated, ms);
    hide Widen, Body, ClassText, Concat, BodyTokens, WidePiece, PrintWidePiece, Widenable;
    WidenBracket(Concat(toks), t, toks);
  }

  lemma WidenShorthand(k: Short, complement: bool, t: string)
    ensures var p := Shorthand(k, complement);
            Widen(PrintPiece(p) + t) == Prepend(PrintWidePiece(WidePiece(p)), Widen(t))
  {
    var s := ['\\', Letter(k, complement)] + t;
    WidenAt(s, 0);
    assert s[0..] == s && s[2..] == t;
    OutsideShorthand(k, complement);
  }

  lemma OutsideShorthand(k: Short, complement: bool)
    ensures Outside(Letter(k, complement)) == PrintWidePiece(WidePiece(Shorthand(k, complement)))
  {
    hide PrintItems, PrintWideItem;
    match k
    case Digit =>
      assert "\\p{" + "Nd" + "}" == "\\p{Nd}" && "\\P{" + "Nd" + "}" == "\\P{Nd}";
    case Word =>
      WordPrints();
      BracketText(complement, WORD);
    case White =>
      WhitePrints();
      BracketText(complement, SPACE);
  }

  lemma BracketText(complement: bool, text: string)
    ensures "[" + (((if complement then "^" else "") + text) + "]") == (if complement then "[^" else "[") + text + "]"
  {
  }

  lemma WidenPiece(p: Piece, t: string)
    requires PieceOk(p)
    ensures Widen(PrintPiece(p) + t) == if Widenable(p) then Prepend(PrintWidePiece(WidePiece(p)), Widen(t)) else None
  {
    match p
    case Text(c) =>
      assert ([c] + t)[1..] == t && ([c] + t)[..1] == [c];
    case Escape(c) =>
      assert (['\\', c] + t)[2..] == t;
    case Shorthand(k, complement) => WidenShorthand(k, complement, t);
    case Class(negated, ms) => WidenClass(negated, ms, t);
  }

  predicate AllWidenable(ps: seq<Piece>) {
    forall p :: p in ps ==> Widenable(p)
  }

  function PrintWide(ps: seq<Piece>): string
    requires AllWidenable(ps)
  {
    if ps == [] then "" else PrintWidePiece(WidePiece(ps[0])) + PrintWide(ps[1..])
  }

  /** The widened print is the print of the widened pieces, in order, and the answer is
      None if and only if some class needs \W or \S in a place it cannot go. */
  lemma {:induction false} WidenPrintsTheWidePieces(ps: seq<Piece>)
    requires forall p :: p in ps ==> PieceOk(p)
    ensures Widen(Print(ps)) == if AllWidenable(ps) then Some(PrintWide(ps)) else None
  {
    if ps != [] {
      assert ps == [ps[0]] + ps[1..];
      WidenPrintsTheWidePieces(ps[1..]);
      WidenPiece(ps[0], Print(ps[1..]));
    }
  }

  /** A class that is never closed leaves the pattern to nobody. */
  lemma UnclosedClassHasNoForm(ps: seq<Piece>, toks: seq<string>)
    requires forall p :: p in ps ==> PieceOk(p)
    requires forall tok :: tok in toks ==> TokenOk(tok)
    requires forall k :: 0 <= k < |toks| && toks[k] == "]" ==> !ClosesOnly(toks[..k])
    ensures Widen(Print(ps) + ("[" + Concat(toks))) == None
    decreases |ps|
  {
    if ps == [] {
      assert Print(ps) + ("[" + Concat(toks)) == "[" + Concat(toks);
      UnclosedClass(toks);
    } else {
      var t := Print(ps[1..]) + ("[" + Concat(toks));
      UnclosedClassHasNoForm(ps[1..], toks);
      assert ps == [ps[0]] + ps[1..];
      WidenPiece(ps[0], t);
      hide Widen, Concat, PrintPiece;
      S.Glue(PrintPiece(ps[0]), Print(ps[1..]), "[" + Concat(toks));
    }
  }

  lemma UnclosedClass(toks: seq<string>)
    requires forall tok :: tok in toks ==> TokenOk(tok)
    requires forall k :: 0 <= k < |toks| && toks[k] == "]" ==> !ClosesOnly(toks[..k])
    ensures Widen("[" + Concat(toks)) == None
  {
    hide *;
    forall k | 0 <= k < |toks| && toks[k] == "]" ensures !ClosesOnly([] + toks[..k]) {
      assert [] + toks[..k] == toks[..k];
    }
    BodyUnclosed(toks, []);
    NoBodyNoForm(Concat(toks));
  }

  lemma NoBodyNoForm(u: string)
    requires Body(u, []) == None
    ensures Widen("[" + u) == None
  {
    hide Body, ClassText, Outside;
    TailOf(u);
  }

  lemma TailOf(u: string)
    ensures ("[" + u)[1..] == u
  {
  }

  lemma {:induction false} BodyUnclosed(toks: seq<string>, read: seq<string>)
    requires forall tok :: tok in toks ==> TokenOk(tok)
    requires forall k :: 0 <= k < |toks| && toks[k] == "]" ==> !ClosesOnly(read + toks[..k])
    ensures Body(Concat(toks), read) == None
    decreases |toks|
  {
    hide Body;
    if toks == [] {
      BodyOfNothing(read);
    } else {
      assert toks[..0] == [] && read + [] == read;
      hide ClosesOnly;
      forall k | 0 <= k < |toks[1..]| && toks[1..][k] == "]" ensures !ClosesOnly((read + [toks[0]]) + toks[1..][..k]) {
        assert toks[k + 1] == "]" && (read + [toks[0]]) + toks[1..][..k] == read + toks[..k + 1];
      }
      BodyUnclosed(toks[1..], read + [toks[0]]);
      BodyReadsOne(toks[0], Concat(toks[1..]), read);
    }
  }

  // ------------------------------------------------------------ reading back

  /** A character that is a plain member only at an end of the body: '-', or '^' and ']'
      at the front. */
  predicate Special(c: char) {
    c == '-' || c == '^' || c == ']'
  }

  /** A plain special character of the widened body is the same character of the given
      body, at the same end if it stood at one. */
  lemma {:induction false} SpecialsKeepTheirEnds(ms: seq<Member>, j: nat, c: char)
    requires (forall m :: m in ms ==> InPlace(m)) && Special(c)
    requires j < |MembersItems(ms)| && MembersItems(ms)[j] == Single(Chr(c))
    ensures exists k :: 0 <= k < |ms| && ms[k] == One(Chr(c))
                        && (k == 0 ==> j == 0) && (k == |ms| - 1 ==> j == |MembersItems(ms)| - 1)
  {
    var n := |ms| - 1;
    var front, last := ms[..n], ms[n];
    assert last in ms;
    if j < |MembersItems(front)| {
      SpecialsKeepTheirEnds(front, j, c);
      var k :| 0 <= k < |front| && front[k] == One(Chr(c)) && (k == 0 ==> j == 0);
      assert ms[k] == One(Chr(c));
    } else {
      assert MemberItems(last)[j - |MembersItems(front)|] == Single(Chr(c));
      assert last == One(Chr(c)) by { OnlyUnitsAreSpecial(last, j - |MembersItems(front)|, c); }
      assert n == 0 ==> MembersItems(front) == [];
      assert ms[n] == One(Chr(c));
    }
  }

  lemma OnlyUnitsAreSpecial(m: Member, j: nat, c: char)
    requires InPlace(m) && Special(c) && j < |MemberItems(m)| && MemberItems(m)[j] == Single(Chr(c))
    ensures m == One(Chr(c)) && |MemberItems(m)| == 1
  {
    assert forall i :: 0 <= i < 3 ==> WordItems[i] != Single(Chr(c));
    assert forall i :: 0 <= i < 8 ==> !WhiteItems[i].Single?;
  }
}
