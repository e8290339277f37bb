/**
Widening preserves meaning: the same code points match before and after.

The input side is a pattern as Python reads it, the output side a pattern as RE2 reads
it, both as trees with printers.  A class is a set of code points in either; what an
ordinary unit (a character or an escape both dialects share) stands for, and the three
Unicode categories, are given by the reader.
*/
module PatternMeaning {
  /** Membership in the categories, and the code point an ordinary escape names. */
  datatype Reader = Reader(nd: int -> bool, letter: int -> bool, number: int -> bool, separator: int -> bool,
                           escape: (char, string) -> int) {
    function Unit(u: Unit): int {
      match u
      case Chr(c) => c as int
      case Escaped(c, rest) => escape(c, rest)
    }
  }

  /** A character, or an escape that is no shorthand, with what follows it: \x41. */
  datatype Unit = Chr(c: char) | Escaped(c: char, rest: string)

  datatype Short = Digit | Word | White

  // ------------------------------------------------------------ Python side

  datatype Member = One(u: Unit) | Range(lo: Unit, hi: Unit) | Has(k: Short, complement: bool)

  datatype Piece =
    | Text(c: char)
    | Escape(c: char)
    | Shorthand(k: Short, complement: bool)
    | Class(negated: bool, members: seq<Member>)

  /** \d, \w and \s of str patterns. */
  predicate InShort(r: Reader, k: Short, n: int) {
    match k
    case Digit => r.nd(n)
    case Word => r.letter(n) || r.number(n) || n == '_' as int
    case White => 0x09 <= n <= 0x0d || 0x1c <= n <= 0x1f || n == 0x85 || r.separator(n)
  }

  predicate InMember(r: Reader, m: Member, n: int) {
    match m
    case One(u) => n == r.Unit(u)
    case Range(lo, hi) => r.Unit(lo) <= n <= r.Unit(hi)
    case Has(k, complement) => InShort(r, k, n) != complement
  }

  predicate InAny(r: Reader, ms: seq<Member>, n: int) {
    exists k :: 0 <= k < |ms| && InMember(r, ms[k], n)
  }

  /** What a piece matches, for the pieces that match one code point of a set. */
  predicate Matches(r: Reader, p: Piece, n: int) {
    match p
    case Shorthand(k, complement) => InShort(r, k, n) != complement
    case Class(negated, ms) => InAny(r, ms, n) != negated
    case _ => false
  }

  // --------------------------------------------------------------- RE2 side

  datatype Category = Nd | L | N | Z

  datatype Item =
    | Single(u: Unit)
    | Span(lo: Unit, hi: Unit)
    | Property(cat: Category, complement: bool)
    | Code(first: int, last: int)
    | Control(c: char)

  datatype Wide =
    | WideText(c: char)
    | WideEscape(c: char)
    | WideProperty(cat: Category, complement: bool)
    | WideClass(negated: bool, items: seq<Item>)
    | AnyChar

  predicate InCategory(r: Reader, cat: Category, n: int) {
    match cat
    case Nd => r.nd(n)
    case L => r.letter(n)
    case N => r.number(n)
    case Z => r.separator(n)
  }

  /** The control escapes of the expansion of \s. */
  function ControlCode(c: char): int {
    if c == 't' then 0x09 else if c == 'n' then 0x0a else if c == 'v' then 0x0b else if c == 'f' then 0x0c else 0x0d
  }

  predicate InItem(r: Reader, i: Item, n: int) {
    match i
    case Single(u) => n == r.Unit(u)
    case Span(lo, hi) => r.Unit(lo) <= n <= r.Unit(hi)
    case Property(cat, complement) => InCategory(r, cat, n) != complement
    case Code(lo, hi) => lo <= n <= hi
    case Control(c) => n == ControlCode(c)
  }

  predicate InAnyItem(r: Reader, items: seq<Item>, n: int) {
    exists k :: 0 <= k < |items| && InItem(r, items[k], n)
  }

  predicate WideMatches(r: Reader, w: Wide, n: int) {
    match w
    case WideProperty(cat, complement) => InCategory(r, cat, n) != complement
    case WideClass(negated, items) => InAnyItem(r, items, n) != negated
    case AnyChar => true
    case _ => false
  }

  // ----------------------------------------------------------- the rewriting

  const WordItems: seq<Item> := [Property(L, false), Property(N, false), Single(Chr('_'))]

  const WhiteItems: seq<Item> :=
    [Control('t'), Control('n'), Control('f'), Control('r'), Control('v'), Code(0x1c, 0x1f), Code(0x85, 0x85), Property(Z, false)]

  /** The set a shorthand names, as items. */
  function ShortItems(k: Short): seq<Item> {
    match k
    case Digit => [Property(Nd, false)]
    case Word => WordItems
    case White => WhiteItems
  }

  /** \W and \S are the members that cannot be written in place. */
  predicate InPlace(m: Member) {
    m.Has? && m.complement ==> m.k == Digit
  }

  function MemberItems(m: Member): seq<Item>
    requires InPlace(m)
  {
    match m
    case One(u) => [Single(u)]
    case Range(lo, hi) => [Span(lo, hi)]
    case Has(k, complement) => if complement then [Property(Nd, true)] else ShortItems(k)
  }

  function MembersItems(ms: seq<Member>): seq<Item>
    requires forall m :: m in ms ==> InPlace(m)
  {
    if ms == [] then [] else MembersItems(ms[..|ms| - 1]) + MemberItems(ms[|ms| - 1])
  }

  predicate AnyPair(p: Piece) {
    && p.Class? && !p.negated && |p.members| == 2 && p.members[0].Has? && p.members[1].Has?
    && p.members[0].k == p.members[1].k && p.members[0].complement != p.members[1].complement
  }

  /** The pieces that have a wide form: all but a class that needs \W or \S and is not
      the complementary pair. */
  predicate Widenable(p: Piece) {
    p.Class? ==> AnyPair(p) || forall m :: m in p.members ==> InPlace(m)
  }

  function WidePiece(p: Piece): Wide
    requires Widenable(p)
  {
    match p
    case Text(c) => WideText(c)
    case Escape(c) => WideEscape(c)
    case Shorthand(k, complement) => if k == Digit then WideProperty(Nd, complement) else WideClass(complement, ShortItems(k))
    case Class(negated, ms) => if AnyPair(p) then AnyChar else WideClass(negated, MembersItems(ms))
  }

  // ---------------------------------------------------------------- meaning

  lemma ShortItemsMean(r: Reader, k: Short, n: int)
    ensures InAnyItem(r, ShortItems(k), n) <==> InShort(r, k, n)
  {
    match k
    case Digit =>
      assert InItem(r, ShortItems(k)[0], n) <==> InShort(r, k, n);
    case Word =>
      assert InItem(r, WordItems[0], n) == r.letter(n) && InItem(r, WordItems[1], n) == r.number(n);
      assert InItem(r, WordItems[2], n) == (n == '_' as int);
    case White =>
      assert InItem(r, WhiteItems[0], n) == (n == 0x09) && InItem(r, WhiteItems[1], n) == (n == 0x0a);
      assert InItem(r, WhiteItems[2], n) == (n == 0x0c) && InItem(r, WhiteItems[3], n) == (n == 0x0d);
      assert InItem(r, WhiteItems[4], n) == (n == 0x0b) && InItem(r, WhiteItems[5], n) == (0x1c <= n <= 0x1f);
      assert InItem(r, WhiteItems[6], n) == (n == 0x85) && InItem(r, WhiteItems[7], n) == r.separator(n);
  }

  lemma InAnyItemConcat(r: Reader, a: seq<Item>, b: seq<Item>, n: int)
    ensures InAnyItem(r, a + b, n) <==> InAnyItem(r, a, n) || InAnyItem(r, b, n)
  {
    if k :| 0 <= k < |a| && InItem(r, a[k], n) {
      assert (a + b)[k] == a[k];
    }
    if k :| 0 <= k < |b| && InItem(r, b[k], n) {
      assert (a + b)[|a| + k] == b[k];
    }
  }

  lemma MemberItemsMean(r: Reader, m: Member, n: int)
    requires InPlace(m)
    ensures InAnyItem(r, MemberItems(m), n) <==> InMember(r, m, n)
  {
    if m.Has? && !m.complement {
      ShortItemsMean(r, m.k, n);
    } else {
      assert InItem(r, MemberItems(m)[0], n) <==> InMember(r, m, n);
    }
  }

  lemma InAnyBefore(r: Reader, ms: seq<Member>, n: int)
    requires ms != []
    ensures InAny(r, ms, n) <==> InAny(r, ms[..|ms| - 1], n) || InMember(r, ms[|ms| - 1], n)
  {
    hide InMember;
    var front := ms[..|ms| - 1];
    if k :| 0 <= k < |ms| && InMember(r, ms[k], n) {
      assert k < |front| ==> front[k] == ms[k];
    }
    if k :| 0 <= k < |front| && InMember(r, front[k], n) {
      assert ms[k] == front[k];
    }
  }

  lemma {:induction false} MembersItemsMean(r: Reader, ms: seq<Member>, n: int)
    requires forall m :: m in ms ==> InPlace(m)
    ensures InAnyItem(r, MembersItems(ms), n) <==> InAny(r, ms, n)
  {
    if ms != [] {
      var front, last := ms[..|ms| - 1], ms[|ms| - 1];
      assert forall m :: m in front ==> m in ms;
      MembersItemsMean(r, front, n);
      MemberItemsMean(r, last, n);
      hide InMember, InItem, InPlace, MemberItems, InAny, InAnyItem;
      InAnyItemConcat(r, MembersItems(front), MemberItems(last), n);
      InAnyBefore(r, ms, n);
    } else {
      hide InMember, InItem, InPlace, MemberItems;
    }
  }

  /** Every shorthand and every class matches the same code points afterwards: negated
      classes, a first-position ']' and the match-anything pair included. */
  lemma WideningKeepsTheSet(r: Reader, p: Piece, n: int)
    requires (p.Shorthand? || p.Class?) && Widenable(p)
    ensures WideMatches(r, WidePiece(p), n) <==> Matches(r, p, n)
  {
    match p
    case Shorthand(k, _) => ShortItemsMean(r, k, n);
    case Class(_, ms) =>
      if AnyPair(p) {
        assert InMember(r, ms[0], n) || InMember(r, ms[1], n);
      } else {
        MembersItemsMean(r, ms, n);
      }
  }

  // --------------------------------------------------------------- printing

  function Letter(k: Short, complement: bool): char {
    match k
    case Digit => if complement then 'D' else 'd'
    case Word => if complement then 'W' else 'w'
    case White => if complement then 'S' else 's'
  }

  function Singles(s: string): seq<string> {
    if s == "" then [] else [s[..1]] + Singles(s[1..])
  }

  function UnitTokens(u: Unit): seq<string> {
    match u
    case Chr(c) => [[c]]
    case Escaped(c, rest) => [['\\', c]] + Singles(rest)
  }

  function MemberTokens(m: Member): seq<string> {
    match m
    case One(u) => UnitTokens(u)
    case Range(lo, hi) => UnitTokens(lo) + ["-"] + UnitTokens(hi)
    case Has(k, complement) => [['\\', Letter(k, complement)]]
  }

  function MembersTokens(ms: seq<Member>): seq<string> {
    if ms == [] then [] else MembersTokens(ms[..|ms| - 1]) + MemberTokens(ms[|ms| - 1])
  }

  function BodyTokens(negated: bool, ms: seq<Member>): seq<string> {
    (if negated then ["^"] else []) + MembersTokens(ms)
  }

  function Concat(toks: seq<string>): string {
    if toks == [] then "" else toks[0] + Concat(toks[1..])
  }

  function PrintPiece(p: Piece): string {
    match p
    case Text(c) => [c]
    case Escape(c) => ['\\', c]
    case Shorthand(k, complement) => ['\\', Letter(k, complement)]
    case Class(negated, ms) => "[" + (Concat(BodyTokens(negated, ms)) + "]")
  }

  function Print(ps: seq<Piece>): string {
    if ps == [] then "" else PrintPiece(ps[0]) + Print(ps[1..])
  }

  function HexDigit(n: nat): char
    requires n < 16
  {
    if n < 10 then '0' + n as char else 'a' + (n - 10) as char
  }

  function Hex(n: nat): string {
    (if n < 16 then "" else Hex(n / 16)) + [HexDigit(n % 16)]
  }

  function CategoryName(cat: Category): string {
    match cat case Nd => "Nd" case L => "L" case N => "N" case Z => "Z"
  }

  function PrintUnit(u: Unit): string {
    match u
    case Chr(c) => [c]
    case Escaped(c, rest) => ['\\', c] + rest
  }

  function PrintProperty(cat: Category, complement: bool): string {
    (if complement then "\\P{" else "\\p{") + CategoryName(cat) + "}"
  }

  function PrintWideItem(i: Item): string {
    match i
    case Single(u) => PrintUnit(u)
    case Span(lo, hi) => PrintUnit(lo) + "-" + PrintUnit(hi)
    case Property(cat, complement) => PrintProperty(cat, complement)
    case Code(lo, hi) =>
      if lo < 0 || hi < 0 then "" else "\\x{" + Hex(lo) + "}" + (if lo == hi then "" else "-\\x{" + Hex(hi) + "}")
    case Control(c) => ['\\', c]
  }

  function PrintItems(items: seq<Item>): string {
    if items == [] then "" else PrintItems(items[..|items| - 1]) + PrintWideItem(items[|items| - 1])
  }

  function PrintWidePiece(w: Wide): string {
    match w
    case WideText(c) => [c]
    case WideEscape(c) => ['\\', c]
    case WideProperty(cat, complement) => PrintProperty(cat, complement)
    case WideClass(negated, items) => "[" + (((if negated then "^" else "") + PrintItems(items)) + "]")
    case AnyChar => "(?s:.)"
  }
}
