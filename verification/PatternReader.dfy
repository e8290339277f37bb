/**
Reading a widened class back: the class bodies of RE2 as text, without the POSIX and the
Perl classes, which widening never writes.  How many characters an escape takes after its
letter is given, as are the code points of escapes.
*/
module PatternReader {
  import opened Options
  import opened PatternMeaning
  import W = PatternWidenTree

  /** What the reader makes of one element of a class. */
  datatype Raw = RawOne(u: Unit) | RawSpan(lo: Unit, hi: Unit) | RawProperty(name: string, complement: bool)

  type Args = (char, string) -> nat

  // --------------------------------------------------------------- the reader

  function ReadUnit(s: string, args: Args): (r: Option<(Unit, string)>)
    ensures r.Some? ==> |r.value.1| < |s|
  {
    if s == "" then None
    else if s[0] != '\\' then Some((Chr(s[0]), s[1..]))
    else if |s| < 2 || args(s[1], s[2..]) > |s| - 2 then None
    else
      var n := args(s[1], s[2..]);
      Some((Escaped(s[1], s[2..n + 2]), s[n + 2..]))
  }

  /** Up to the next closing brace. */
  function ReadName(s: string): (r: Option<(string, string)>)
    ensures r.Some? ==> |r.value.1| < |s|
  {
    if s == "" then None
    else if s[0] == '}' then Some(("", s[1..]))
    else
      match ReadName(s[1..])
      case None => None
      case Some((name, rest)) => Some(([s[0]] + name, rest))
  }

  /** A '-' that makes a range: one that does not stand right before the end. */
  predicate DashAhead(s: string) {
    |s| >= 2 && s[0] == '-' && s[1] != ']'
  }

  function ReadElement(s: string, args: Args): (r: Option<(Raw, string)>)
    ensures r.Some? ==> |r.value.1| < |s|
  {
    if |s| >= 3 && s[0] == '\\' && s[1] in {'p', 'P'} && s[2] == '{' then
      match ReadName(s[3..])
      case None => None
      case Some((name, rest)) => Some((RawProperty(name, s[1] == 'P'), rest))
    else
      match ReadUnit(s, args)
      case None => None
      case Some((lo, s1)) =>
        if !DashAhead(s1) then Some((RawOne(lo), s1))
        else
          match ReadUnit(s1[1..], args)
          case None => None
          case Some((hi, s2)) => Some((RawSpan(lo, hi), s2))
  }

  /** To the closing ']'; one in the first position is a member. */
  function ReadElements(s: string, first: bool, args: Args): Option<(seq<Raw>, string)>
    decreases |s|
  {
    if s == "" then None
    else if s[0] == ']' && !first then Some(([], s[1..]))
    else
      match ReadElement(s, args)
      case None => None
      case Some((raw, s1)) =>
        match ReadElements(s1, false, args)
        case None => None
        case Some((raws, rest)) => Some(([raw] + raws, rest))
  }

  /** From after the '['. */
  function ReadClass(s: string, args: Args): Option<(bool, seq<Raw>, string)> {
    var negated := s != "" && s[0] == '^';
    match ReadElements(if negated then s[1..] else s, true, args)
    case None => None
    case Some((raws, rest)) => Some((negated, raws, rest))
  }

  predicate InRaw(r: Reader, raw: Raw, n: int) {
    match raw
    case RawOne(u) => n == r.Unit(u)
    case RawSpan(lo, hi) => r.Unit(lo) <= n <= r.Unit(hi)
    case RawProperty(name, complement) =>
      (if name == "Nd" then r.nd(n) else if name == "L" then r.letter(n)
       else if name == "N" then r.number(n) else name == "Z" && r.separator(n)) != complement
  }

  predicate InAnyRaw(r: Reader, raws: seq<Raw>, n: int) {
    exists k :: 0 <= k < |raws| && InRaw(r, raws[k], n)
  }

  // -------------------------------------------------------------- well-formed

  function HexUnit(n: nat): Unit {
    Escaped('x', "{" + Hex(n) + "}")
  }

  /** What the print of an item reads as. */
  function Lower(i: Item): Raw {
    match i
    case Single(u) => RawOne(u)
    case Span(lo, hi) => RawSpan(lo, hi)
    case Property(cat, complement) => RawProperty(CategoryName(cat), complement)
    case Code(lo, hi) =>
      if lo < 0 || hi < 0 || lo == hi then RawOne(HexUnit(if lo < 0 then 0 else lo)) else RawSpan(HexUnit(lo), HexUnit(hi))
    case Control(c) => RawOne(Escaped(c, ""))
  }

  function LowerAll(items: seq<Item>): seq<Raw> {
    if items == [] then [] else [Lower(items[0])] + LowerAll(items[1..])
  }

  /** The escape takes exactly what follows it here, whatever comes then. */
  ghost predicate Fits(args: Args, u: Unit) {
    match u
    case Chr(c) => c != '\\'
    case Escaped(c, rest) => c !in {'p', 'P'} && forall t: string :: args(c, rest + t) == |rest|
  }

  /** An item whose reading would go on over a '-'. */
  predicate Extends(i: Item) {
    i.Single? || i.Control? || (i.Code? && i.first == i.last)
  }

  ghost predicate ItemFits(args: Args, i: Item) {
    match i
    case Single(u) => Fits(args, u)
    case Span(lo, hi) => Fits(args, lo) && Fits(args, hi) && hi != Chr(']')
    case Property(_, _) => true
    case Code(lo, hi) => lo >= 0 && hi >= 0 && Fits(args, HexUnit(lo)) && Fits(args, HexUnit(hi))
    case Control(c) => Fits(args, Escaped(c, ""))
  }

  predicate StartsWithBracket(i: Item) {
    match i
    case Single(u) => u == Chr(']')
    case Span(lo, _) => lo == Chr(']')
    case _ => false
  }

  function TextOf(items: seq<Item>): string {
    if items == [] then "" else PrintWideItem(items[0]) + TextOf(items[1..])
  }

  /** Every item reads as itself where it stands. */
  ghost predicate Clear(args: Args, items: seq<Item>, t: string) {
    items == [] || (ItemFits(args, items[0]) && Clear(args, items[1..], t)
                    && (Extends(items[0]) ==> !DashAhead(TextOf(items[1..]) + ("]" + t))))
  }

  // ------------------------------------------------------------- reading back

  lemma UnitReads(args: Args, u: Unit, v: string)
    requires Fits(args, u)
    ensures ReadUnit(PrintUnit(u) + v, args) == Some((u, v))
    ensures PrintUnit(u) != "" && PrintUnit(u)[0] == if u.Chr? then u.c else '\\'
  {
    var s := PrintUnit(u) + v;
    match u
    case Chr(c) =>
      assert s[1..] == v;
    case Escaped(c, rest) =>
      assert s == ['\\', c] + (rest + v);
      assert s[2..] == rest + v && s[2..|rest| + 2] == rest && s[|rest| + 2..] == v;
  }

  lemma {:induction false} NameReads(name: string, v: string)
    requires '}' !in name
    ensures ReadName(name + ("}" + v)) == Some((name, v))
  {
    if name == "" {
      assert name + ("}" + v) == "}" + v && ("}" + v)[1..] == v;
    } else {
      assert (name + ("}" + v))[1..] == name[1..] + ("}" + v);
      NameReads(name[1..], v);
      assert name == [name[0]] + name[1..];
    }
  }

  lemma PropertyReads(args: Args, cat: Category, complement: bool, v: string)
    ensures ReadElement(PrintProperty(cat, complement) + v, args) == Some((RawProperty(CategoryName(cat), complement), v))
  {
    var s := PrintProperty(cat, complement) + v;
    var name := CategoryName(cat);
    assert s[3..] == name + ("}" + v);
    assert s[0] == '\\' && s[1] == (if complement then 'P' else 'p') && s[2] == '{';
    NameReads(name, v);
  }

  /** A unit that stands for itself. */
  lemma OneReads(args: Args, u: Unit, v: string)
    requires Fits(args, u) && !DashAhead(v)
    ensures ReadElement(PrintUnit(u) + v, args) == Some((RawOne(u), v))
  {
    UnitReads(args, u, v);
    NoProperty(u, v);
    hide ReadUnit, DashAhead, PrintUnit;
  }

  lemma NoProperty(u: Unit, v: string)
    requires u == Chr(u.c) ==> u.c != '\\'
    requires u.Escaped? ==> u.c !in {'p', 'P'}
    ensures var s := PrintUnit(u) + v; |s| >= 3 && s[0] == '\\' ==> s[1] !in {'p', 'P'}
  {
    if u.Escaped? {
      assert (PrintUnit(u) + v)[1] == u.c;
    } else {
      assert (PrintUnit(u) + v)[0] == u.c;
    }
  }

  lemma SpanText(a: string, b: string, v: string)
    ensures (a + "-" + b) + v == a + ("-" + (b + v)) && ("-" + (b + v))[1..] == b + v
    ensures b != "" && b[0] != ']' ==> DashAhead("-" + (b + v))
  {
  }

  lemma SpanReads(args: Args, lo: Unit, hi: Unit, v: string)
    requires Fits(args, lo) && Fits(args, hi) && hi != Chr(']')
    ensures ReadElement((PrintUnit(lo) + "-" + PrintUnit(hi)) + v, args) == Some((RawSpan(lo, hi), v))
  {
    var s1 := "-" + (PrintUnit(hi) + v);
    SpanText(PrintUnit(lo), PrintUnit(hi), v);
    UnitReads(args, hi, v);
    UnitReads(args, lo, s1);
    NoProperty(lo, s1);
    hide ReadUnit, DashAhead, PrintUnit, Fits, ReadName;
    SpanByParts(args, PrintUnit(lo) + s1, lo, s1, hi, v);
  }

  lemma SpanByParts(args: Args, s: string, lo: Unit, s1: string, hi: Unit, v: string)
    requires !(|s| >= 3 && s[0] == '\\' && s[1] in {'p', 'P'})
    requires ReadUnit(s, args) == Some((lo, s1)) && DashAhead(s1) && ReadUnit(s1[1..], args) == Some((hi, v))
    ensures ReadElement(s, args) == Some((RawSpan(lo, hi), v))
  {
    hide ReadUnit, DashAhead, ReadName;
  }

  lemma CodeText(lo: nat, hi: nat)
    ensures PrintWideItem(Code(lo, hi)) == if lo == hi then PrintUnit(HexUnit(lo)) else PrintUnit(HexUnit(lo)) + "-" + PrintUnit(HexUnit(hi))
  {
    hide Hex;
    HexUnitText(lo);
    HexUnitText(hi);
    assert "-\\x{" + Hex(hi) + "}" == "-" + ("\\x{" + Hex(hi) + "}");
    if lo == hi {
      assert ("\\x{" + Hex(lo) + "}") + "" == "\\x{" + Hex(lo) + "}";
    } else {
      assert ("\\x{" + Hex(lo) + "}") + ("-" + ("\\x{" + Hex(hi) + "}")) == ("\\x{" + Hex(lo) + "}") + "-" + ("\\x{" + Hex(hi) + "}");
    }
  }

  lemma HexUnitText(n: nat)
    ensures PrintUnit(HexUnit(n)) == "\\x{" + Hex(n) + "}"
  {
    hide Hex;
    assert ['\\', 'x'] + ("{" + Hex(n) + "}") == "\\x{" + Hex(n) + "}";
  }

  lemma ItemReads(args: Args, i: Item, v: string)
    requires ItemFits(args, i) && (Extends(i) ==> !DashAhead(v))
    ensures ReadElement(PrintWideItem(i) + v, args) == Some((Lower(i), v))
    ensures PrintWideItem(i) != "" && (PrintWideItem(i)[0] == ']' <==> StartsWithBracket(i))
  {
    hide ReadElement, DashAhead, Hex;
    match i
    case Single(u) =>
      OneReads(args, u, v);
      UnitReads(args, u, v);
    case Span(lo, hi) =>
      SpanReads(args, lo, hi, v);
      UnitReads(args, lo, "");
    case Property(cat, complement) =>
      PropertyReads(args, cat, complement, v);
    case Code(lo, hi) =>
      CodeText(lo, hi);
      UnitReads(args, HexUnit(lo), "");
      if lo == hi {
        OneReads(args, HexUnit(lo), v);
      } else {
        SpanReads(args, HexUnit(lo), HexUnit(hi), v);
      }
    case Control(c) =>
      assert ['\\', c] + "" == ['\\', c];
      OneReads(args, Escaped(c, ""), v);
  }

  /** The reader takes the print of the items back to the items. */
  lemma {:induction false} ItemsRead(args: Args, items: seq<Item>, first: bool, t: string)
    requires Clear(args, items, t) && (first ==> items != [])
    requires forall k :: 0 <= k < |items| && StartsWithBracket(items[k]) ==> first && k == 0
    ensures ReadElements(TextOf(items) + ("]" + t), first, args) == Some((LowerAll(items), t))
    decreases |items|
  {
    if items == [] {
      assert TextOf(items) + ("]" + t) == "]" + t && ("]" + t)[1..] == t;
    } else {
      var v := TextOf(items[1..]) + ("]" + t);
      var h := PrintWideItem(items[0]);
      assert TextOf(items) + ("]" + t) == h + v;
      ItemReads(args, items[0], v);
      ItemsRead(args, items[1..], false, t);
      hide ReadElement, PrintWideItem, TextOf, Lower, Clear;
      assert (h + v)[0] == h[0];
    }
  }

  // ------------------------------------------------------------------ members

  predicate StartsWithDash(ms: seq<Member>) {
    ms != [] && W.FirstUnit(ms[0]) == Some(Chr('-'))
  }

  /** No '-' of the text would make a range the members do not have: as Python reads the
      body, one behind anything but a range is the body's last character. */
  predicate Unambiguous(ms: seq<Member>) {
    ms == [] || (Unambiguous(ms[1..]) && (ms[0].Range? || !StartsWithDash(ms[1..]) || ms[1..] == [One(Chr('-'))]))
  }

  ghost predicate MemberFits(args: Args, m: Member) {
    match m
    case One(u) => Fits(args, u)
    case Range(lo, hi) => Fits(args, lo) && Fits(args, hi)
    case Has(_, _) => true
  }

  /** The escapes that widening writes, as RE2 reads them. */
  ghost predicate WritesFit(args: Args) {
    && (forall c :: c in {'t', 'n', 'f', 'r', 'v'} ==> Fits(args, Escaped(c, "")))
    && Fits(args, HexUnit(0x1c)) && Fits(args, HexUnit(0x1f)) && Fits(args, HexUnit(0x85))
  }

  predicate CodesFit(r: Reader) {
    && r.Unit(Escaped('t', "")) == 0x09 && r.Unit(Escaped('n', "")) == 0x0a && r.Unit(Escaped('v', "")) == 0x0b
    && r.Unit(Escaped('f', "")) == 0x0c && r.Unit(Escaped('r', "")) == 0x0d
    && r.Unit(HexUnit(0x1c)) == 0x1c && r.Unit(HexUnit(0x1f)) == 0x1f && r.Unit(HexUnit(0x85)) == 0x85
  }

  lemma TextStep(items: seq<Item>, i: Item)
    ensures TextOf([i] + items) == PrintWideItem(i) + TextOf(items)
  {
    assert ([i] + items)[1..] == items;
  }

  lemma {:induction false} TextIsPrint(items: seq<Item>)
    ensures TextOf(items) == PrintItems(items)
  {
    if items != [] {
      TextIsPrint(items[1..]);
      assert items == [items[0]] + items[1..];
      W.PrintItemsConcat([items[0]], items[1..]);
      W.PrintOne(items[0]);
    }
  }

  lemma {:induction false} MembersItemsStep(ms: seq<Member>)
    requires ms != [] && forall m :: m in ms ==> InPlace(m)
    ensures (forall m :: m in ms[1..] ==> InPlace(m)) && MembersItems(ms) == MemberItems(ms[0]) + MembersItems(ms[1..])
    decreases |ms|
  {
    hide InPlace, MemberItems;
    var n := |ms| - 1;
    if n == 0 {
      assert ms[..0] == [] && ms[1..] == [] && MembersItems(ms) == [] + MemberItems(ms[0]) == MemberItems(ms[0]) + [];
    } else {
      assert forall m :: m in ms[..n] ==> m in ms;
      MembersItemsStep(ms[..n]);
      MiddleOf(ms);
      GlueItems(MemberItems(ms[0]), MembersItems(ms[1..n]), MemberItems(ms[n]));
    }
  }

  lemma MiddleOf(ms: seq<Member>)
    requires |ms| >= 2
    ensures var n := |ms| - 1; ms[..n][1..] == ms[1..n] && ms[1..][..n - 1] == ms[1..n] && ms[1..][n - 1] == ms[n]
  {
  }

  lemma GlueItems(a: seq<Item>, b: seq<Item>, c: seq<Item>)
    ensures (a + b) + c == a + (b + c)
  {
  }

  lemma MemberStart(args: Args, m: Member)
    requires InPlace(m) && MemberFits(args, m)
    ensures MemberItems(m) != [] && PrintWideItem(MemberItems(m)[0]) != ""
    ensures PrintWideItem(MemberItems(m)[0])[0] == '-' <==> W.FirstUnit(m) == Some(Chr('-'))
  {
    match m
    case One(u) => UnitReads(args, u, "");
    case Range(lo, _) => UnitReads(args, lo, "");
    case Has(_, _) =>
  }

  lemma NoDashAhead(args: Args, ms: seq<Member>, t: string)
    requires forall k :: 0 <= k < |ms| ==> InPlace(ms[k]) && MemberFits(args, ms[k])
    requires !StartsWithDash(ms) || ms == [One(Chr('-'))]
    ensures (forall m :: m in ms ==> InPlace(m)) && !DashAhead(TextOf(MembersItems(ms)) + ("]" + t))
  {
    if ms == [One(Chr('-'))] {
      LoneDash(t);
    } else if ms != [] {
      MembersItemsStep(ms);
      MemberStart(args, ms[0]);
      hide MembersItems, MemberItems, PrintWideItem, Fits;
      TextStart(MemberItems(ms[0]), MembersItems(ms[1..]));
    }
  }

  lemma TextStart(a: seq<Item>, b: seq<Item>)
    requires a != [] && PrintWideItem(a[0]) != ""
    ensures TextOf(a + b) != "" && TextOf(a + b)[0] == PrintWideItem(a[0])[0]
  {
    assert (a + b)[0] == a[0];
  }

  lemma LoneDash(t: string)
    ensures !DashAhead(TextOf(MembersItems([One(Chr('-'))])) + ("]" + t))
  {
    var ms := [One(Chr('-'))];
    assert ms[..0] == [] && MembersItems(ms) == [] + MemberItems(ms[0]) == [Single(Chr('-'))] + [];
    TextStep([], Single(Chr('-')));
    assert TextOf(MembersItems(ms)) == "-" + "" == "-";
    assert ("-" + ("]" + t))[1] == ']';
  }

  lemma ShortItemsClear(args: Args, k: Short, rest: seq<Item>, t: string)
    requires WritesFit(args) && Clear(args, rest, t) && !DashAhead(TextOf(rest) + ("]" + t))
    ensures Clear(args, ShortItems(k) + rest, t)
  {
    hide DashAhead, TextOf;
    match k
    case Digit => ClearStep(args, Property(Nd, false), rest, t);
    case Word => WordClear(args, rest, t);
    case White => WhiteClear(args, rest, t);
  }

  lemma ClearStep(args: Args, i: Item, rest: seq<Item>, t: string)
    requires ItemFits(args, i) && Clear(args, rest, t) && (Extends(i) ==> !DashAhead(TextOf(rest) + ("]" + t)))
    ensures Clear(args, [i] + rest, t)
  {
    assert ([i] + rest)[1..] == rest;
  }

  lemma NoDashBefore(i: Item, rest: seq<Item>, t: string)
    requires PrintWideItem(i) != "" && PrintWideItem(i)[0] == '\\'
    ensures !DashAhead(TextOf([i] + rest) + ("]" + t))
  {
    TextStep(rest, i);
  }

  lemma WordClear(args: Args, rest: seq<Item>, t: string)
    requires Clear(args, rest, t) && !DashAhead(TextOf(rest) + ("]" + t))
    ensures Clear(args, WordItems + rest, t)
  {
    hide DashAhead, TextOf, Clear;
    var l, n, u := Property(L, false), Property(N, false), Single(Chr('_'));
    ClearStep(args, u, rest, t);
    ClearStep(args, n, [u] + rest, t);
    ClearStep(args, l, [n] + ([u] + rest), t);
    assert WordItems + rest == [l] + ([n] + ([u] + rest));
  }

  lemma ControlClear(args: Args, c: char, next: Item, rest: seq<Item>, t: string)
    requires WritesFit(args) && c in {'t', 'n', 'f', 'r', 'v'} && Clear(args, [next] + rest, t)
    requires PrintWideItem(next) != "" && PrintWideItem(next)[0] == '\\'
    ensures Clear(args, [Control(c)] + ([next] + rest), t)
  {
    NoDashBefore(next, rest, t);
    hide DashAhead, TextOf, Clear, Fits;
    ClearStep(args, Control(c), [next] + rest, t);
  }

  lemma WhiteClear(args: Args, rest: seq<Item>, t: string)
    requires WritesFit(args) && Clear(args, rest, t)
    ensures Clear(args, WhiteItems + rest, t)
  {
    W.OneCodePrints();
    W.OneControlPrints();
    var z, next, codes := Property(Z, false), Code(0x85, 0x85), Code(0x1c, 0x1f);
    NoDashBefore(z, rest, t);
    hide DashAhead, TextOf, Clear, Fits, PrintWideItem;
    ClearStep(args, z, rest, t);
    ClearStep(args, next, [z] + rest, t);
    var r0 := [next] + ([z] + rest);
    ClearStep(args, codes, r0, t);
    ControlClear(args, 'v', codes, r0, t);
    var r1 := [codes] + r0;
    ControlClear(args, 'r', Control('v'), r1, t);
    var r2 := [Control('v')] + r1;
    ControlClear(args, 'f', Control('r'), r2, t);
    var r3 := [Control('r')] + r2;
    ControlClear(args, 'n', Control('f'), r3, t);
    var r4 := [Control('f')] + r3;
    ControlClear(args, 't', Control('n'), r4, t);
    WhiteParts(rest);
  }

  lemma WhiteParts(rest: seq<Item>)
    ensures WhiteItems + rest ==
            [Control('t')] + ([Control('n')] + ([Control('f')] + ([Control('r')] + ([Control('v')]
            + ([Code(0x1c, 0x1f)] + ([Code(0x85, 0x85)] + ([Property(Z, false)] + rest)))))))
  {
  }

  /** Every member of a body Python reads unambiguously is clear to RE2 after widening. */
  lemma {:induction false} MembersClear(args: Args, ms: seq<Member>, first: bool, t: string)
    requires WritesFit(args) && Unambiguous(ms)
    requires forall k :: 0 <= k < |ms| ==> InPlace(ms[k]) && MemberFits(args, ms[k]) && W.MemberOk(ms[k], first && k == 0)
    ensures (forall m :: m in ms ==> InPlace(m)) && Clear(args, MembersItems(ms), t)
    decreases |ms|
  {
    assert forall m :: m in ms ==> InPlace(m);
    if ms != [] {
      var m, rest := ms[0], ms[1..];
      MembersClear(args, rest, false, t);
      MembersItemsStep(ms);
      var items := MembersItems(rest);
      if !m.Range? {
        NoDashAhead(args, rest, t);
      }
      hide DashAhead, TextOf, Clear, Fits, MembersItems, Unambiguous;
      match m {
        case One(u) => ClearStep(args, Single(u), items, t);
        case Range(lo, hi) => ClearStep(args, Span(lo, hi), items, t);
        case Has(k, complement) =>
          if complement {
            ClearStep(args, Property(Nd, true), items, t);
          } else {
            ShortItemsClear(args, k, items, t);
          }
      }
    }
  }

  /** No item of the widened body starts with a ']' but for the first. */
  lemma {:induction false} BracketOnlyFirst(ms: seq<Member>, first: bool)
    requires forall k :: 0 <= k < |ms| ==> InPlace(ms[k]) && W.MemberOk(ms[k], first && k == 0)
    ensures forall m :: m in ms ==> InPlace(m)
    ensures forall k :: 0 <= k < |MembersItems(ms)| && StartsWithBracket(MembersItems(ms)[k]) ==> first && k == 0
    decreases |ms|
  {
    assert forall m :: m in ms ==> InPlace(m);
    if ms != [] {
      BracketOnlyFirst(ms[1..], false);
      MembersItemsStep(ms);
      var a, b := MemberItems(ms[0]), MembersItems(ms[1..]);
      MemberBracketOnlyFirst(ms[0], first);
      hide MembersItems, MemberItems, StartsWithBracket, InPlace, W.MemberOk;
      forall k | 0 <= k < |a + b| ensures StartsWithBracket((a + b)[k]) ==> first && k == 0 {
        assert (a + b)[k] == if k < |a| then a[k] else b[k - |a|];
      }
    }
  }

  lemma MemberBracketOnlyFirst(m: Member, first: bool)
    requires InPlace(m) && W.MemberOk(m, first)
    ensures forall k :: 0 <= k < |MemberItems(m)| && StartsWithBracket(MemberItems(m)[k]) ==> first && k == 0
  {
  }

  lemma NoCaretFirst(args: Args, ms: seq<Member>)
    requires ms != [] && (forall m :: m in ms ==> InPlace(m) && MemberFits(args, m))
    ensures TextOf(MembersItems(ms)) != ""
    ensures TextOf(MembersItems(ms))[0] == '^' <==> W.FirstUnit(ms[0]) == Some(Chr('^'))
  {
    MembersItemsStep(ms);
    CaretStart(args, ms[0]);
    hide MembersItems, MemberItems, PrintWideItem, Fits;
    TextStart(MemberItems(ms[0]), MembersItems(ms[1..]));
  }

  lemma CaretStart(args: Args, m: Member)
    requires InPlace(m) && MemberFits(args, m)
    ensures MemberItems(m) != [] && PrintWideItem(MemberItems(m)[0]) != ""
    ensures PrintWideItem(MemberItems(m)[0])[0] == '^' <==> W.FirstUnit(m) == Some(Chr('^'))
  {
    match m
    case One(u) => UnitReads(args, u, "");
    case Range(lo, _) => UnitReads(args, lo, "");
    case Has(_, _) =>
  }

  /** The class is one Python reads as these members, and RE2 takes its escapes alike. */
  ghost predicate ReadsAlike(args: Args, negated: bool, ms: seq<Member>) {
    && W.ClassOk(negated, ms) && Unambiguous(ms) && WritesFit(args)
    && forall m :: m in ms ==> InPlace(m) && MemberFits(args, m)
  }

  lemma ReadClassOf(args: Args, negated: bool, v: string, raws: seq<Raw>, t: string)
    requires v != "" && (!negated ==> v[0] != '^') && ReadElements(v, true, args) == Some((raws, t))
    ensures ReadClass((if negated then "^" else "") + v, args) == Some((negated, raws, t))
  {
    var s := (if negated then "^" else "") + v;
    assert negated ==> s[1..] == v;
    assert !negated ==> s == v;
    hide ReadElements;
  }

  /** RE2 reads the widened class back as the widened members. */
  lemma WidenedClassReads(args: Args, negated: bool, ms: seq<Member>, t: string)
    requires ReadsAlike(args, negated, ms)
    ensures forall m :: m in ms ==> InPlace(m)
    ensures ReadClass((if negated then "^" else "") + (PrintItems(MembersItems(ms)) + ("]" + t)), args)
            == Some((negated, LowerAll(MembersItems(ms)), t))
  {
    MembersClear(args, ms, true, t);
    BracketOnlyFirst(ms, true);
    NoCaretFirst(args, ms);
    var items := MembersItems(ms);
    TextIsPrint(items);
    assert W.ClassOk(negated, ms);
    hide *;
    ItemsReadAsClass(args, negated, items, t);
  }

  lemma ItemsReadAsClass(args: Args, negated: bool, items: seq<Item>, t: string)
    requires Clear(args, items, t) && TextOf(items) != "" && (!negated ==> TextOf(items)[0] != '^')
    requires forall k :: 0 <= k < |items| && StartsWithBracket(items[k]) ==> k == 0
    ensures ReadClass((if negated then "^" else "") + (TextOf(items) + ("]" + t)), args) == Some((negated, LowerAll(items), t))
  {
    TextStartsNonempty(items);
    FirstOf(TextOf(items), "]" + t);
    hide *;
    ItemsRead(args, items, true, t);
    ReadClassOf(args, negated, TextOf(items) + ("]" + t), LowerAll(items), t);
  }

  lemma FirstOf(u: string, v: string)
    requires u != ""
    ensures u + v != "" && (u + v)[0] == u[0]
  {
  }

  lemma TextStartsNonempty(items: seq<Item>)
    ensures TextOf(items) != "" ==> items != []
  {
  }

  // ------------------------------------------------------------------ meaning

  /** The items that widening writes. */
  predicate Written(i: Item) {
    && (i.Code? ==> i == Code(0x1c, 0x1f) || i == Code(0x85, 0x85))
    && (i.Control? ==> i.c in {'t', 'n', 'f', 'r', 'v'})
  }

  lemma LowerMeans(r: Reader, i: Item, n: int)
    requires CodesFit(r) && Written(i)
    ensures InRaw(r, Lower(i), n) <==> InItem(r, i, n)
  {
    hide Hex;
  }

  lemma {:induction false} LowerAllMeans(r: Reader, items: seq<Item>, n: int)
    requires CodesFit(r) && forall i :: i in items ==> Written(i)
    ensures InAnyRaw(r, LowerAll(items), n) <==> InAnyItem(r, items, n)
  {
    if items != [] {
      assert items == [items[0]] + items[1..] && forall i :: i in items[1..] ==> i in items;
      LowerAllMeans(r, items[1..], n);
      LowerMeans(r, items[0], n);
      hide InItem, InRaw, Lower, Written;
      InAnyItemConcat(r, [items[0]], items[1..], n);
      OneItemMeans(r, items[0], n);
      FirstRaw(r, Lower(items[0]), LowerAll(items[1..]), n);
    }
  }

  lemma OneItemMeans(r: Reader, i: Item, n: int)
    ensures InAnyItem(r, [i], n) <==> InItem(r, i, n)
  {
    hide InItem;
    assert [i][0] == i;
  }

  lemma FirstRaw(r: Reader, raw: Raw, raws: seq<Raw>, n: int)
    ensures InAnyRaw(r, [raw] + raws, n) <==> InRaw(r, raw, n) || InAnyRaw(r, raws, n)
  {
    hide InRaw;
    var s := [raw] + raws;
    assert s[0] == raw;
    if k :| 0 <= k < |raws| && InRaw(r, raws[k], n) {
      assert s[k + 1] == raws[k];
    }
    if k :| 0 <= k < |s| && InRaw(r, s[k], n) {
      assert k > 0 ==> s[k] == raws[k - 1];
    }
  }

  lemma {:induction false} MembersWritten(ms: seq<Member>)
    requires forall m :: m in ms ==> InPlace(m)
    ensures forall i :: i in MembersItems(ms) ==> Written(i)
  {
    if ms != [] {
      var front, last := ms[..|ms| - 1], ms[|ms| - 1];
      assert forall m :: m in front ==> m in ms;
      MembersWritten(front);
      assert forall i :: i in MemberItems(last) ==> Written(i);
    }
  }

  /** The class as text: what RE2 reads matches exactly what the class Python read matched,
      for every class that widening does not refuse and does not collapse. */
  lemma WidenedTextKeepsTheSet(r: Reader, args: Args, negated: bool, ms: seq<Member>, t: string, n: int)
    requires ReadsAlike(args, negated, ms) && CodesFit(r) && !AnyPair(Class(negated, ms))
    ensures forall m :: m in ms ==> InPlace(m)
    ensures var s := PrintWidePiece(WidePiece(Class(negated, ms))) + t;
            && s[0] == '['
            && match ReadClass(s[1..], args)
               case None => false
               case Some((neg, raws, rest)) => rest == t && (InAnyRaw(r, raws, n) != neg <==> Matches(r, Class(negated, ms), n))
  {
    WidenedClassReads(args, negated, ms, t);
    MembersWritten(ms);
    LowerAllMeans(r, MembersItems(ms), n);
    WideningKeepsTheSet(r, Class(negated, ms), n);
    var items := MembersItems(ms);
    hide MembersItems, LowerAll, PrintItems, InAnyRaw, InAnyItem, ReadClass, InAny;
    assert WidePiece(Class(negated, ms)) == WideClass(negated, items);
    ClassTextShape((if negated then "^" else ""), PrintItems(items), t);
  }

  lemma ClassTextShape(caret: string, u: string, t: string)
    ensures var s := ("[" + ((caret + u) + "]")) + t; s[0] == '[' && s[1..] == caret + (u + ("]" + t))
  {
    var s := ("[" + ((caret + u) + "]")) + t;
    assert s[1..] == caret + (u + ("]" + t));
  }

  /** A \w, \W, \s or \S outside a class becomes a class, read back alike. */
  lemma WidenedShorthandKeepsTheSet(r: Reader, args: Args, k: Short, complement: bool, t: string, n: int)
    requires k != Digit && WritesFit(args) && CodesFit(r)
    ensures var s := PrintWidePiece(WidePiece(Shorthand(k, complement))) + t;
            && s[0] == '['
            && match ReadClass(s[1..], args)
               case None => false
               case Some((neg, raws, rest)) => rest == t && (InAnyRaw(r, raws, n) != neg <==> InShort(r, k, n) != complement)
  {
    var ms := [Has(k, false)];
    LoneShorthand(r, args, k, complement, n);
    WidenedTextKeepsTheSet(r, args, complement, ms, t, n);
    hide ReadClass, InAnyRaw, PrintWidePiece, InShort, MembersItems, ShortItems, WritesFit, CodesFit, Matches, AnyPair, ReadsAlike;
    assert WidePiece(Shorthand(k, complement)) == WideClass(complement, ShortItems(k));
    assert WidePiece(Class(complement, ms)) == WideClass(complement, MembersItems(ms));
  }

  lemma LoneShorthand(r: Reader, args: Args, k: Short, complement: bool, n: int)
    requires WritesFit(args)
    ensures var ms := [Has(k, false)];
            && ReadsAlike(args, complement, ms) && MembersItems(ms) == ShortItems(k) && !AnyPair(Class(complement, ms))
            && (Matches(r, Class(complement, ms), n) <==> (InShort(r, k, n) != complement))
  {
    var ms := [Has(k, false)];
    hide ShortItems, InShort, WritesFit;
    assert ms[..0] == [] && MembersItems(ms) == [] + ShortItems(k) == ShortItems(k);
    assert ms[1..] == [] && Unambiguous(ms);
    assert InMember(r, ms[0], n) <==> InShort(r, k, n);
  }
}
