/**
What the scanners do to a parsed pattern.

A pattern is a tree with a printer: literals, escapes, classes, groups and, in verbose
mode, blanks and comments between the tokens.  The theorems say that stripping the print
of a tree gives the print of the tree without its trivia, and that rewriting captures
gives the print of the tree with every capture turned into a plain group.  They are about
text: a construct of several literals, such as a repeat count, is several items, and
trivia inside one is not told from trivia between tokens.  Back-references are not part
of the tree.
*/
module PatternTree {
  import opened Options
  import opened PatternScan

  datatype Atom = Chr(c: char) | ClassEsc(c: char)

  datatype Kind = Capture | Named(name: string) | Special(prefix: string)

  datatype Item =
    | Lit(c: char)
    | Esc(c: char)
    | Class(body: seq<Atom>)
    | Group(kind: Kind, inner: Items)
    | Blank(c: char)
    | Comment(text: string)

  datatype Items = Nil | Cons(head: Item, tail: Items)

  // -------------------------------------------------------------- printing

  function AtomText(a: Atom): string {
    match a
    case Chr(c) => [c]
    case ClassEsc(c) => ['\\', c]
  }

  function PrintAtoms(body: seq<Atom>): string {
    if body == [] then "" else AtomText(body[0]) + PrintAtoms(body[1..])
  }

  function KindText(k: Kind): string {
    match k
    case Capture => ""
    case Named(name) => "?P<" + name + ">"
    case Special(prefix) => prefix
  }

  function PrintItem(i: Item): string {
    match i
    case Lit(c) => [c]
    case Esc(c) => ['\\', c]
    case Class(body) => "[" + (PrintAtoms(body) + "]")
    case Group(k, inner) => "(" + (KindText(k) + (Print(inner) + ")"))
    case Blank(c) => [c]
    case Comment(text) => "#" + (text + "\n")
  }

  function Print(p: Items): string {
    match p
    case Nil => ""
    case Cons(h, t) => PrintItem(h) + Print(t)
  }

  // ----------------------------------------------------------- well-formed

  predicate IsTrivia(i: Item) {
    i.Blank? || i.Comment?
  }

  predicate Bracket(c: char) {
    c in {'\\', '[', '(', ')'}
  }

  /** Characters no scanner gives a meaning outside a class. */
  predicate Plainly(s: string) {
    forall k :: 0 <= k < |s| ==> !Bracket(s[k]) && s[k] != '#' && !IsSpace(s[k])
  }

  predicate NoBrackets(s: string) {
    forall k :: 0 <= k < |s| ==> !Bracket(s[k])
  }

  predicate KindOk(k: Kind, inner: Items) {
    match k
    case Capture => !StartsWithQuestion(inner)
    case Named(name) => Plainly(name) && '>' !in name
    case Special(prefix) => |prefix| >= 2 && prefix[0] == '?' && prefix[1] != 'P' && Plainly(prefix)
  }

  /** A quantifier with nothing to repeat, which no parser accepts. */
  predicate StartsWithQuestion(p: Items) {
    p.Cons? && ((p.head.Lit? && p.head.c == '?') || (IsTrivia(p.head) && StartsWithQuestion(p.tail)))
  }

  predicate AtomOk(a: Atom) {
    a.Chr? ==> a.c != ']' && a.c != '\\'
  }

  /** A class body that does not start with ']', which is where the scanners part ways. */
  predicate AtomsOk(body: seq<Atom>) {
    forall k :: 0 <= k < |body| ==> AtomOk(body[k])
  }

  predicate ItemOk(i: Item) {
    match i
    case Lit(c) => !Bracket(c)
    case Esc(_) => true
    case Class(body) => AtomsOk(body)
    case Group(k, inner) => KindOk(k, inner) && Ok(inner)
    case Blank(c) => VerboseSpace(c)
    case Comment(text) => '\n' !in text
  }

  predicate Ok(p: Items) {
    p.Nil? || (ItemOk(p.head) && Ok(p.tail))
  }

  /** As Python reads it in verbose mode: a literal is neither a blank nor a hash. */
  predicate Verbose(p: Items) {
    p.Nil? || (VerboseItem(p.head) && Verbose(p.tail))
  }

  predicate VerboseItem(i: Item) {
    match i
    case Lit(c) => c != '#' && !VerboseSpace(c)
    case Group(_, inner) => Verbose(inner)
    case _ => true
  }

  predicate NoTrivia(p: Items) {
    p.Nil? || (!IsTrivia(p.head) && (p.head.Group? ==> NoTrivia(p.head.inner)) && NoTrivia(p.tail))
  }

  // ------------------------------------------------------------- stripping

  /** The tree without its blanks and comments: what verbose mode means. */
  function Plain(p: Items): Items {
    match p
    case Nil => Nil
    case Cons(h, t) =>
      if h.Group? then Cons(Group(h.kind, Plain(h.inner)), Plain(t))
      else if IsTrivia(h) then Plain(t)
      else Cons(h, Plain(t))
  }

  /** The tree the scanner leaves: isspace literals go with the blanks. */
  function Left(p: Items): Items {
    match p
    case Nil => Nil
    case Cons(h, t) =>
      if h.Group? then Cons(Group(h.kind, Left(h.inner)), Left(t))
      else if IsTrivia(h) || (h.Lit? && IsSpace(h.c)) then Left(t)
      else Cons(h, Left(t))
  }

  lemma StripHead(c: char, t: string, m: Mode)
    ensures Strip([c] + t, m) ==
            if m == InComment then Strip(t, if c == '\n' then Outside else InComment)
            else if c == '\\' then Strip([c] + t, m)
            else if m == InClass then [c] + Strip(t, if c == ']' then Outside else InClass)
            else if c == '[' then [c] + Strip(t, InClass)
            else if c == '#' then Strip(t, InComment)
            else if IsSpace(c) then Strip(t, Outside)
            else [c] + Strip(t, Outside)
  {
    assert ([c] + t)[1..] == t;
  }

  lemma StripEscape(c: char, t: string, m: Mode)
    requires m != InComment
    ensures Strip(['\\', c] + t, m) == ['\\', c] + Strip(t, m)
  {
    var s := ['\\', c] + t;
    assert s[..2] == ['\\', c] && s[2..] == t;
  }

  lemma Uncons(u: string, t: string)
    requires u != ""
    ensures u + t == [u[0]] + (u[1..] + t)
  {
  }

  lemma {:induction false} StripPlainly(u: string, t: string)
    requires Plainly(u)
    ensures Strip(u + t, Outside) == u + Strip(t, Outside)
  {
    if u == "" {
      assert u + t == t;
    } else {
      Uncons(u, t);
      Uncons(u, Strip(t, Outside));
      hide Strip;
      StripHead(u[0], u[1..] + t, Outside);
      StripPlainly(u[1..], t);
    }
  }

  lemma AtomsStep(body: seq<Atom>, t: string)
    ensures body == [] ==> PrintAtoms(body) + t == t
    ensures body != [] ==> PrintAtoms(body) + t == AtomText(body[0]) + (PrintAtoms(body[1..]) + t)
  {
    if body != [] {
      Glue(AtomText(body[0]), PrintAtoms(body[1..]), t);
    }
  }

  lemma StripAtom(a: Atom, t: string)
    requires AtomOk(a)
    ensures Strip(AtomText(a) + t, InClass) == AtomText(a) + Strip(t, InClass)
  {
    hide Strip;
    match a
    case Chr(c) => StripHead(c, t, InClass);
    case ClassEsc(c) => StripEscape(c, t, InClass);
  }

  lemma {:induction false} StripAtoms(body: seq<Atom>, t: string)
    requires AtomsOk(body)
    ensures Strip(PrintAtoms(body) + ("]" + t), InClass) == PrintAtoms(body) + ("]" + Strip(t, Outside))
  {
    hide Strip, PrintAtoms, AtomText;
    AtomsStep(body, "]" + t);
    AtomsStep(body, "]" + Strip(t, Outside));
    if body == [] {
      StripHead(']', t, InClass);
    } else {
      StripAtoms(body[1..], t);
      StripAtom(body[0], PrintAtoms(body[1..]) + ("]" + t));
    }
  }

  lemma {:induction false} StripComment(text: string, t: string)
    requires '\n' !in text
    ensures Strip(text + ("\n" + t), InComment) == Strip(t, Outside)
  {
    if text == "" {
      assert text + ("\n" + t) == "\n" + t;
      StripHead('\n', t, InComment);
    } else {
      assert text + ("\n" + t) == [text[0]] + (text[1..] + ("\n" + t));
      StripHead(text[0], text[1..] + ("\n" + t), InComment);
      StripComment(text[1..], t);
    }
  }

  lemma KindTextIsPlain(k: Kind, inner: Items)
    requires KindOk(k, inner)
    ensures Plainly(KindText(k))
  {
  }

  lemma StripClass(body: seq<Atom>, t: string)
    requires AtomsOk(body)
    ensures Strip(PrintItem(Class(body)) + t, Outside) == PrintItem(Class(body)) + Strip(t, Outside)
  {
    hide Strip, PrintAtoms, IsSpace;
    var u := PrintAtoms(body);
    assert PrintItem(Class(body)) + t == "[" + (u + ("]" + t));
    StripHead('[', u + ("]" + t), Outside);
    StripAtoms(body, t);
  }

  lemma StripBlankOrComment(i: Item, t: string)
    requires IsTrivia(i) && ItemOk(i)
    ensures Strip(PrintItem(i) + t, Outside) == Strip(t, Outside)
  {
    hide Strip;
    if i.Blank? {
      StripHead(i.c, t, Outside);
    } else {
      assert PrintItem(i) + t == "#" + (i.text + ("\n" + t));
      StripHead('#', i.text + ("\n" + t), Outside);
      StripComment(i.text, t);
    }
  }

  lemma StripGroupText(u: string, b: string, left: string, t: string)
    requires Plainly(u)
    requires Strip(b + (")" + t), Outside) == left + Strip(")" + t, Outside)
    ensures Strip("(" + (u + (b + (")" + t))), Outside) == "(" + (u + (left + (")" + Strip(t, Outside))))
  {
    hide Strip, Plainly;
    StripHead('(', u + (b + (")" + t)), Outside);
    StripPlainly(u, b + (")" + t));
    StripHead(')', t, Outside);
  }

  lemma StripGroup(k: Kind, inner: Items, left: Items, t: string)
    requires Plainly(KindText(k))
    requires Strip(Print(inner) + (")" + t), Outside) == Print(left) + Strip(")" + t, Outside)
    ensures Strip(PrintItem(Group(k, inner)) + t, Outside) == PrintItem(Group(k, left)) + Strip(t, Outside)
  {
    hide Strip, Print, KindText, Plainly;
    SpecialPrint(KindText(k), Print(inner), t);
    SpecialPrint(KindText(k), Print(left), Strip(t, Outside));
    StripGroupText(KindText(k), Print(inner), Print(left), t);
  }

  /** Stripping works token by token, whatever comes after the pattern. */
  lemma {:induction false} StripItems(p: Items, t: string)
    requires Ok(p) && Verbose(p)
    ensures Strip(Print(p) + t, Outside) == Print(Left(p)) + Strip(t, Outside)
    decreases p
  {
    hide Strip;
    match p
    case Nil =>
      assert Print(p) + t == t;
    case Cons(h, tail) =>
      var rest := Print(tail) + t;
      StripItems(tail, t);
      Glue(PrintItem(h), Print(tail), t);
      match h {
        case Lit(c) => StripHead(c, rest, Outside);
        case Esc(c) => StripEscape(c, rest, Outside);
        case Class(body) => StripClass(body, rest);
        case Group(k, inner) =>
          KindTextIsPlain(k, inner);
          StripItems(inner, ")" + rest);
          StripGroup(k, inner, Left(inner), rest);
        case Blank(_) => StripBlankOrComment(h, rest);
        case Comment(_) => StripBlankOrComment(h, rest);
      }
      if !IsTrivia(h) && !(h.Lit? && IsSpace(h.c)) {
        var h' := if h.Group? then Group(h.kind, Left(h.inner)) else h;
        Glue(PrintItem(h'), Print(Left(tail)), Strip(t, Outside));
      }
  }

  /** No literal that str.isspace accepts beyond what verbose mode ignores. */
  predicate NoWideSpace(p: Items) {
    p.Nil? || (!(p.head.Lit? && IsSpace(p.head.c)) && (p.head.Group? ==> NoWideSpace(p.head.inner)) && NoWideSpace(p.tail))
  }

  lemma {:induction false} LeftIsNoLonger(p: Items)
    ensures |Print(Left(p))| <= |Print(Plain(p))|
    ensures |Print(Left(p))| == |Print(Plain(p))| <==> NoWideSpace(p)
    ensures NoWideSpace(p) ==> Left(p) == Plain(p)
  {
    if p.Cons? {
      LeftIsNoLonger(p.tail);
      if p.head.Group? {
        LeftIsNoLonger(p.head.inner);
      }
    }
  }

  /** strip_verbose of the trivia-laden print is the plain print, exactly when no literal
      is one of the wider spaces: verbose mode ignores six characters, isspace accepts
      more, and the scanner drops those literals from the pattern. */
  lemma StripGivesThePlainPrint(p: Items)
    requires Ok(p) && Verbose(p)
    ensures Strip(Print(p), Outside) == Print(Plain(p)) <==> NoWideSpace(p)
  {
    StripItems(p, "");
    assert Print(p) + "" == Print(p) && Print(Left(p)) + "" == Print(Left(p));
    LeftIsNoLonger(p);
  }

  /** A comment may also run to the end of the pattern. */
  lemma StripTrailingComment(p: Items, text: string)
    requires Ok(p) && Verbose(p) && '\n' !in text
    ensures Strip(Print(p) + ("#" + text), Outside) == Print(Left(p))
    ensures Strip(Print(p) + ("#" + text), Outside) == Print(Plain(p)) <==> NoWideSpace(p)
  {
    StripItems(p, "#" + text);
    LeftIsNoLonger(p);
    StripHead('#', text, Outside);
    StripToTheEnd(text);
    assert Print(Left(p)) + "" == Print(Left(p));
  }

  lemma {:induction false} StripToTheEnd(text: string)
    requires '\n' !in text
    ensures Strip(text, InComment) == ""
  {
    if text != "" {
      StripToTheEnd(text[1..]);
    }
  }

  /** On any string at all: stripping twice strips nothing more. */
  lemma {:induction false} StripIsIdempotent(s: string, m: Mode)
    ensures Strip(Strip(s, m), if m == InComment then Outside else m) == Strip(s, m)
    decreases |s|
  {
    if s != "" {
      var c, t := s[0], s[1..];
      var m' := if m == InComment then Outside else m;
      if m == InComment {
        StripIsIdempotent(t, if c == '\n' then Outside else InComment);
      } else if c == '\\' {
        if |s| == 1 {
          assert Strip(s, m) == s + "" == s;
        } else {
          StripIsIdempotent(s[2..], m);
          assert s[..2] == ['\\', s[1]];
          StripEscape(s[1], Strip(s[2..], m), m);
        }
      } else {
        var next := if m == InClass then (if c == ']' then Outside else InClass)
                    else if c == '[' then InClass else if c == '#' then InComment else Outside;
        StripIsIdempotent(t, next);
        StripHead(c, Strip(t, next), m);
      }
    }
  }

  // -------------------------------------------------------------- captures

  const NONCAPTURING: Kind := Special("?:")

  /** The tree with every capturing group made a plain one. */
  function Erase(p: Items): Items {
    match p
    case Nil => Nil
    case Cons(h, t) =>
      if h.Group? then Cons(Group(if h.kind.Special? then h.kind else NONCAPTURING, Erase(h.inner)), Erase(t))
      else Cons(h, Erase(t))
  }

  lemma RewriteHead(c: char, t: string, inClass: bool)
    requires c != '\\' && (inClass || c != '(')
    ensures Rewrite([c] + t, inClass) == [c] + Rewrite(t, if inClass then c != ']' else c == '[')
  {
    assert ([c] + t)[1..] == t;
  }

  lemma RewriteEscape(c: char, t: string, inClass: bool)
    ensures Rewrite(['\\', c] + t, inClass) == ['\\', c] + Rewrite(t, inClass)
  {
    var s := ['\\', c] + t;
    assert s[..2] == ['\\', c] && s[2..] == t;
  }

  lemma {:induction false} RewritePlainly(u: string, t: string)
    requires NoBrackets(u)
    ensures Rewrite(u + t, false) == u + Rewrite(t, false)
  {
    if u == "" {
      assert u + t == t;
    } else {
      assert u + t == [u[0]] + (u[1..] + t);
      RewriteHead(u[0], u[1..] + t, false);
      RewritePlainly(u[1..], t);
    }
  }

  lemma RewriteAtom(a: Atom, t: string)
    requires AtomOk(a)
    ensures Rewrite(AtomText(a) + t, true) == AtomText(a) + Rewrite(t, true)
  {
    hide Rewrite;
    match a
    case Chr(c) => RewriteHead(c, t, true);
    case ClassEsc(c) => RewriteEscape(c, t, true);
  }

  lemma {:induction false} RewriteAtoms(body: seq<Atom>, t: string)
    requires AtomsOk(body)
    ensures Rewrite(PrintAtoms(body) + ("]" + t), true) == PrintAtoms(body) + ("]" + Rewrite(t, false))
  {
    hide Rewrite, PrintAtoms, AtomText;
    AtomsStep(body, "]" + t);
    AtomsStep(body, "]" + Rewrite(t, false));
    if body == [] {
      RewriteHead(']', t, true);
    } else {
      RewriteAtoms(body[1..], t);
      RewriteAtom(body[0], PrintAtoms(body[1..]) + ("]" + t));
    }
  }

  lemma RewriteClass(body: seq<Atom>, t: string)
    requires AtomsOk(body)
    ensures Rewrite(PrintItem(Class(body)) + t, false) == PrintItem(Class(body)) + Rewrite(t, false)
  {
    hide Rewrite, PrintAtoms;
    var u := PrintAtoms(body);
    assert PrintItem(Class(body)) + t == "[" + (u + ("]" + t));
    RewriteHead('[', u + ("]" + t), false);
    RewriteAtoms(body, t);
  }

  lemma {:induction false} AngleAfterName(name: string, t: string)
    requires '>' !in name
    ensures AfterAngle(name + (">" + t)) == |name| + 1
  {
    if name == "" {
      assert name + (">" + t) == ">" + t;
    } else {
      var s := name + (">" + t);
      assert s[1..] == name[1..] + (">" + t);
      AngleAfterName(name[1..], t);
    }
  }

  lemma OpenCapture(x: string)
    requires x != "" && x[0] != '?'
    ensures Rewrite("(" + x, false) == "(?:" + Rewrite(x, false)
  {
    var s := "(" + x;
    RewriteAt(s, 0, false);
    assert s[0..] == s && s[1..] == x;
  }

  lemma NamedLenOf(name: string, x: string)
    requires '>' !in name
    ensures NamedLen("(?P<" + (name + (">" + x))) == |name| + 5
  {
    var s := "(?P<" + (name + (">" + x));
    AngleAfterName(name, x);
    assert s[4..] == name + (">" + x);
    assert NamedHead <= s;
  }

  lemma OpenNamed(name: string, x: string)
    requires '>' !in name
    ensures Rewrite("(?P<" + (name + (">" + x)), false) == "(?:" + Rewrite(x, false)
  {
    var s := "(?P<" + (name + (">" + x));
    NamedLenOf(name, x);
    NamedText(name, x);
    hide NamedLen, Rewrite;
    RewriteAt(s, 0, false);
  }

  lemma NamedText(name: string, x: string)
    ensures var s := "(?P<" + (name + (">" + x));
            |s| == |name| + |x| + 5 && s[0] == '(' && s[1] == '?' && s[0..] == s && s[|name| + 5..] == x
  {
  }

  lemma OpenSpecial(prefix: string, x: string)
    requires KindOk(Special(prefix), Nil)
    ensures Rewrite("(" + (prefix + x), false) == "(" + (prefix + Rewrite(x, false))
  {
    var s := "(" + (prefix + x);
    assert s[2] == prefix[1] && NamedHead[2] == 'P';
    assert NamedLen(s) == 0;
    RewritePlainly(prefix, x);
    hide NamedLen, Rewrite;
    RewriteAt(s, 0, false);
    assert s[0..] == s && s[1..] == prefix + x;
  }

  lemma FirstIsNoQuestion(p: Items, t: string)
    requires Ok(p) && !StartsWithQuestion(p) && t != "" && t[0] != '?'
    ensures (Print(p) + t)[0] != '?'
  {
  }

  lemma CapturePrint(u: string, t: string)
    ensures ("(" + ("" + (u + ")"))) + t == "(" + (u + (")" + t))
  {
  }

  lemma SpecialPrint(prefix: string, u: string, t: string)
    ensures ("(" + (prefix + (u + ")"))) + t == "(" + (prefix + (u + (")" + t)))
  {
  }

  lemma NamedPrint(name: string, u: string, t: string)
    ensures ("(" + (("?P<" + name + ">") + (u + ")"))) + t == "(?P<" + (name + (">" + (u + (")" + t))))
  {
    SpecialPrint("?P<" + name + ">", u, t);
    var x := u + (")" + t);
    assert ("?P<" + name + ">") + x == "?P<" + (name + (">" + x));
    assert "(" + ("?P<" + (name + (">" + x))) == "(?P<" + (name + (">" + x));
  }

  lemma PlainOpening(y: string)
    ensures "(" + ("?:" + y) == "(?:" + y
  {
  }

  /** The three ways a group opens, and the one way it closes. */
  lemma RewriteGroup(k: Kind, inner: Items, erased: Items, t: string)
    requires KindOk(k, inner) && Ok(inner)
    requires Rewrite(Print(inner) + (")" + t), false) == Print(erased) + Rewrite(")" + t, false)
    ensures Rewrite(PrintItem(Group(k, inner)) + t, false) ==
            PrintItem(Group(if k.Special? then k else NONCAPTURING, erased)) + Rewrite(t, false)
  {
    if k.Capture? {
      FirstIsNoQuestion(inner, ")" + t);
    }
    RewriteHead(')', t, false);
    hide Rewrite, Print;
    var r := Rewrite(t, false);
    var x := Print(inner) + (")" + t);
    SpecialPrint(if k.Special? then k.prefix else "?:", Print(erased), r);
    PlainOpening(Print(erased) + (")" + r));
    match k
    case Capture =>
      OpenCapture(x);
      CapturePrint(Print(inner), t);
    case Named(name) =>
      OpenNamed(name, x);
      NamedPrint(name, Print(inner), t);
    case Special(prefix) =>
      OpenSpecial(prefix, x);
      SpecialPrint(prefix, Print(inner), t);
  }

  /** Whether the rewriter, which does not know comments, leaves such a text as it is and
      behind it reads on outside a class. */
  predicate RewriteKeeps(s: string, inClass: bool) {
    if s == "" then !inClass
    else if s[0] == '\\' then |s| >= 2 && RewriteKeeps(s[2..], inClass)
    else if inClass then RewriteKeeps(s[1..], s[0] != ']')
    else if s[0] == '[' then RewriteKeeps(s[1..], true)
    else if s[0] == '(' then |s| >= 2 && s[1] == '?' && !(NamedHead <= s) && RewriteKeeps(s[1..], false)
    else RewriteKeeps(s[1..], false)
  }

  /** A rest of a comment with its newline, or of a class with its bracket. */
  predicate Ends(s: string) {
    s == "" || s[|s| - 1] in {'\n', ']'}
  }

  lemma NoNameAhead(s: string, t: string)
    requires Ends(s) && |s| >= 2 && !(NamedHead <= s)
    ensures NamedLen(s + t) == 0
  {
    if |s| >= 4 {
      assert (s + t)[..4] == s[..4];
    } else {
      assert (s + t)[|s| - 1] in {'\n', ']'} && NamedHead[|s| - 1] !in {'\n', ']'};
    }
  }

  /** An opening that is kept is one character of text. */
  lemma OpeningIsText(s: string, t: string)
    requires Ends(s) && |s| >= 2 && s[0] == '(' && s[1] == '?' && !(NamedHead <= s)
    ensures Rewrite(s + t, false) == [s[0]] + Rewrite(s[1..] + t, false)
  {
    NoNameAhead(s, t);
    var u := s + t;
    assert u[1] == s[1] && u[1..] == s[1..] + t && u[0..] == u;
    hide NamedLen, Rewrite;
    RewriteAt(u, 0, false);
  }

  lemma {:induction false} KeptReadsOn(s: string, t: string, inClass: bool)
    requires Ends(s) && RewriteKeeps(s, inClass)
    ensures Rewrite(s + t, inClass) == s + Rewrite(t, false)
    decreases |s|
  {
    if s == "" {
      assert s + t == t;
    } else if s[0] == '\\' {
      UnconsEscape(s, t);
      UnconsEscape(s, Rewrite(t, false));
      KeptReadsOn(s[2..], t, inClass);
      hide Rewrite;
      RewriteEscape(s[1], s[2..] + t, inClass);
    } else {
      Uncons(s, t);
      Uncons(s, Rewrite(t, false));
      KeptReadsOn(s[1..], t, if inClass then s[0] != ']' else s[0] == '[');
      hide Rewrite;
      if !inClass && s[0] == '(' {
        OpeningIsText(s, t);
      } else {
        RewriteHead(s[0], s[1..] + t, inClass);
      }
    }
  }

  lemma UnconsEscape(s: string, t: string)
    requires |s| >= 2 && s[0] == '\\'
    ensures s + t == ['\\', s[1]] + (s[2..] + t)
  {
  }

  lemma OpensCapture(s: string)
    requires |s| >= 2 && s[0] == '(' && s[1] != '?'
    ensures Rewrite(s + "", false) != s + Rewrite("", false)
  {
    assert s + "" == s;
    assert (s + Rewrite("", false))[1] == s[1];
  }

  lemma OpensName(s: string)
    requires NamedHead <= s
    ensures Rewrite(s + ">", false) != s + Rewrite(">", false)
  {
    var u := s + ">";
    assert NamedHead <= u && u[4..][|u| - 5] == '>';
    RewriteAt(u, 0, false);
    assert u[0..] == u && u[0] == NamedHead[0] && u[1] == NamedHead[1];
    assert (s + Rewrite(">", false))[2] == NamedHead[2];
  }

  lemma ClassHidesAnOpening()
    ensures Rewrite("(a", true) != Rewrite("(a", false)
  {
    assert "(a"[1..] == "a" && "a"[1..] == "";
    assert Rewrite("a", false) == "a" && Rewrite("(a", false)[1] == '?';
    assert Rewrite("(a", true)[1] == 'a';
  }

  /** A text that is not kept, with what to put behind it to see so. */
  lemma {:induction false} NotKeptShows(s: string, inClass: bool) returns (t: string)
    requires Ends(s) && !RewriteKeeps(s, inClass)
    ensures Rewrite(s + t, inClass) != s + Rewrite(t, false)
    decreases |s|
  {
    if s == "" {
      t := "(a";
      assert s + t == t && s + Rewrite(t, false) == Rewrite(t, false);
      ClassHidesAnOpening();
    } else if s[0] == '\\' {
      t := NotKeptShows(s[2..], inClass);
      UnconsEscape(s, t);
      UnconsEscape(s, Rewrite(t, false));
      hide Rewrite;
      RewriteEscape(s[1], s[2..] + t, inClass);
      Behind(['\\', s[1]], Rewrite(s[2..] + t, inClass), s[2..] + Rewrite(t, false));
    } else if !inClass && s[0] == '(' && s[1] != '?' {
      t := "";
      OpensCapture(s);
    } else if !inClass && s[0] == '(' && NamedHead <= s {
      t := ">";
      OpensName(s);
    } else {
      t := NotKeptShows(s[1..], if inClass then s[0] != ']' else s[0] == '[');
      Uncons(s, t);
      Uncons(s, Rewrite(t, false));
      hide Rewrite;
      if !inClass && s[0] == '(' {
        OpeningIsText(s, t);
      } else {
        RewriteHead(s[0], s[1..] + t, inClass);
      }
      Behind([s[0]], Rewrite(s[1..] + t, if inClass then s[0] != ']' else s[0] == '['), s[1..] + Rewrite(t, false));
    }
  }

  lemma Behind(a: string, x: string, y: string)
    ensures a + x == a + y ==> x == y
  {
    if a + x == a + y {
      assert x == (a + x)[|a|..] == (a + y)[|a|..] == y;
    }
  }

  /** Which comments the rewriter leaves alone, whatever follows them, exactly. */
  lemma CommentKeptExactly(text: string)
    ensures (forall t: string :: Rewrite((text + "\n") + t, false) == (text + "\n") + Rewrite(t, false))
            <==> RewriteKeeps(text + "\n", false)
  {
    var s := text + "\n";
    if RewriteKeeps(s, false) {
      forall t: string ensures Rewrite(s + t, false) == s + Rewrite(t, false) {
        KeptReadsOn(s, t, false);
      }
    } else {
      var t := NotKeptShows(s, false);
    }
  }

  /** The rewriter ends a class whose first member is ']' there: which such classes it leaves
      as they are, whatever follows them, exactly. */
  lemma BracketFirstKeptExactly(body: string)
    ensures (forall t: string :: Rewrite(("[]" + (body + "]")) + t, false) == ("[]" + (body + "]")) + Rewrite(t, false))
            <==> RewriteKeeps(body + "]", false)
  {
    var s := body + "]";
    forall t: string
      ensures Rewrite(("[]" + s) + t, false) == ("[]" + s) + Rewrite(t, false) <==> Rewrite(s + t, false) == s + Rewrite(t, false)
    {
      ClassEndsAtItsFirstBracket(s, t);
      Behind("[]", Rewrite(s + t, false), s + Rewrite(t, false));
    }
    if RewriteKeeps(s, false) {
      forall t: string ensures Rewrite(s + t, false) == s + Rewrite(t, false) {
        KeptReadsOn(s, t, false);
      }
    } else {
      var t := NotKeptShows(s, false);
    }
  }

  lemma ClassEndsAtItsFirstBracket(s: string, t: string)
    ensures Rewrite(("[]" + s) + t, false) == "[]" + Rewrite(s + t, false)
    ensures ("[]" + s) + Rewrite(t, false) == "[]" + (s + Rewrite(t, false))
  {
    hide Rewrite;
    assert ("[]" + s) + t == "[" + ("]" + (s + t));
    RewriteHead('[', "]" + (s + t), false);
    RewriteHead(']', s + t, true);
    assert "[" + ("]" + Rewrite(s + t, false)) == "[]" + Rewrite(s + t, false);
  }

  /** Comments the rewriter leaves alone. */
  predicate CommentsKept(p: Items) {
    p.Nil? || (ItemKept(p.head) && CommentsKept(p.tail))
  }

  predicate ItemKept(i: Item) {
    match i
    case Group(_, inner) => CommentsKept(inner)
    case Comment(text) => RewriteKeeps(text + "\n", false)
    case _ => true
  }

  lemma {:induction false} NoBracketsKept(s: string)
    requires NoBrackets(s)
    ensures RewriteKeeps(s, false)
  {
    if s != "" {
      NoBracketsKept(s[1..]);
    }
  }

  lemma {:induction false} QuietIsKept(p: Items)
    requires Quiet(p)
    ensures CommentsKept(p)
  {
    if p.Cons? {
      QuietIsKept(p.tail);
      match p.head {
        case Group(_, inner) => QuietIsKept(inner);
        case Comment(text) => NoBracketsKept(text + "\n");
        case _ =>
      }
    }
  }

  /** Comments without a bracket or a backslash: such a one is kept. */
  predicate Quiet(p: Items) {
    p.Nil? || (QuietItem(p.head) && Quiet(p.tail))
  }

  predicate QuietItem(i: Item) {
    match i
    case Group(_, inner) => Quiet(inner)
    case Comment(text) => NoBrackets(text)
    case _ => true
  }

  lemma {:induction false} NoTriviaIsQuiet(p: Items)
    requires NoTrivia(p)
    ensures Quiet(p)
  {
    if p.Cons? {
      NoTriviaIsQuiet(p.tail);
      if p.head.Group? {
        NoTriviaIsQuiet(p.head.inner);
      }
    }
  }

  lemma RewriteComment(text: string, t: string)
    requires RewriteKeeps(text + "\n", false)
    ensures Rewrite(PrintItem(Comment(text)) + t, false) == PrintItem(Comment(text)) + Rewrite(t, false)
  {
    var s := text + "\n";
    KeptReadsOn(s, t, false);
    assert ("#" + s) + t == "#" + (s + t) && ("#" + s) + Rewrite(t, false) == "#" + (s + Rewrite(t, false));
    RewriteHead('#', s + t, false);
  }

  lemma {:induction false} RewriteItems(p: Items, t: string)
    requires Ok(p) && CommentsKept(p)
    ensures Rewrite(Print(p) + t, false) == Print(Erase(p)) + Rewrite(t, false)
    decreases p
  {
    hide Rewrite;
    match p
    case Nil =>
      assert Print(p) + t == t;
    case Cons(h, tail) =>
      var rest := Print(tail) + t;
      RewriteItems(tail, t);
      Glue(PrintItem(h), Print(tail), t);
      match h {
        case Lit(c) => RewriteHead(c, rest, false);
        case Esc(c) => RewriteEscape(c, rest, false);
        case Class(body) => RewriteClass(body, rest);
        case Group(k, inner) =>
          RewriteItems(inner, ")" + rest);
          RewriteGroup(k, inner, Erase(inner), rest);
        case Blank(c) => RewriteHead(c, rest, false);
        case Comment(text) => RewriteComment(text, rest);
      }
      Glue(PrintItem(Erase(p).head), Print(Erase(tail)), Rewrite(t, false));
  }

  /** rewrite_captures of a print is the print of the tree with its captures erased. */
  lemma RewriteErasesCaptures(p: Items)
    requires Ok(p) && CommentsKept(p)
    ensures Rewrite(Print(p), false) == Print(Erase(p))
  {
    RewriteItems(p, "");
    assert Print(p) + "" == Print(p) && Print(Erase(p)) + "" == Print(Erase(p));
  }

  lemma {:induction false} RewriteKeepsFirst(s: string, inClass: bool)
    ensures s == "" <==> Rewrite(s, inClass) == ""
    ensures s != "" ==> Rewrite(s, inClass)[0] == s[0]
  {
  }

  lemma NoAngleNoName(s: string)
    requires '>' !in s
    ensures NamedLen(s) == 0
  {
    if NamedHead <= s {
      assert '>' !in s[4..];
    }
  }

  lemma {:induction false} RewriteAddsNoAngle(s: string, inClass: bool)
    requires '>' !in s
    ensures '>' !in Rewrite(s, inClass)
    decreases |s|
  {
    if s != "" {
      NoAngleNoName(s);
      if s[0] == '\\' {
        RewriteAddsNoAngle(s[EscapeLen(s)..], inClass);
      } else {
        RewriteAddsNoAngle(s[1..], if inClass then s[0] != ']' else s[0] == '[');
      }
    }
  }

  /** A parenthesis the rewriter leaves alone is left alone again. */
  lemma KeptParenthesis(s: string)
    requires s != "" && s[0] == '(' && (|s| == 1 || s[1] == '?') && NamedLen(s) == 0
    ensures NamedLen("(" + Rewrite(s[1..], false)) == 0
  {
    var y := Rewrite(s[1..], false);
    if |y| >= 3 && y[0] == '?' && y[1] == 'P' && y[2] == '<' {
      assert |s| > 1;
      UnfoldHead(s, y);
      assert NamedHead <= s;
      RewriteAddsNoAngle(s[4..], false);
      NoAngleAfterHead(y);
    } else {
      NamedHasHead(y);
    }
  }

  lemma NoAngleAfterHead(y: string)
    requires |y| >= 3 && '>' !in y[3..]
    ensures NamedLen("(" + y) == 0
  {
    assert ("(" + y)[4..] == y[3..];
  }

  lemma NamedHasHead(y: string)
    ensures NamedLen("(" + y) > 0 ==> |y| >= 3 && y[0] == '?' && y[1] == 'P' && y[2] == '<'
  {
    var s := "(" + y;
    if NamedLen(s) > 0 {
      assert s[1] == NamedHead[1] && s[2] == NamedHead[2] && s[3] == NamedHead[3];
    }
  }

  lemma UnfoldOne(s: string, c: char)
    requires !Bracket(c) && Rewrite(s, false) != "" && Rewrite(s, false)[0] == c
    ensures s != "" && s[0] == c && Rewrite(s, false)[1..] == Rewrite(s[1..], false)
  {
    RewriteKeepsFirst(s, false);
    assert s == [c] + s[1..];
    RewriteHead(c, s[1..], false);
  }

  lemma UnfoldHead(s: string, y: string)
    requires |s| > 1 && y == Rewrite(s[1..], false) && |y| >= 3 && y[0] == '?' && y[1] == 'P' && y[2] == '<'
    ensures |s| >= 4 && s[1] == '?' && s[2] == 'P' && s[3] == '<' && y[3..] == Rewrite(s[4..], false)
  {
    hide Rewrite;
    UnfoldOne(s[1..], '?');
    assert y[1..][0] == 'P' && s[1..][1..] == s[2..];
    UnfoldOne(s[2..], 'P');
    assert y[1..][1..] == y[2..] && y[2..][0] == '<' && s[2..][1..] == s[3..];
    UnfoldOne(s[3..], '<');
    assert y[2..][1..] == y[3..] && s[3..][1..] == s[4..];
  }

  /** On any string at all: rewriting twice rewrites nothing more. */
  lemma {:induction false} RewriteIsIdempotent(s: string, inClass: bool)
    ensures Rewrite(Rewrite(s, inClass), inClass) == Rewrite(s, inClass)
    decreases |s|
  {
    if s != "" {
      if s[0] == '\\' {
        RewriteIsIdempotent(s[EscapeLen(s)..], inClass);
        if |s| > 1 {
          assert s[..2] == ['\\', s[1]];
          RewriteEscape(s[1], Rewrite(s[2..], inClass), inClass);
        } else {
          assert Rewrite(s, inClass) == s + "" == s;
        }
      } else if inClass {
        RewriteIsIdempotent(s[1..], s[0] != ']');
        RewriteHead(s[0], Rewrite(s[1..], s[0] != ']'), true);
      } else if s[0] == '[' {
        RewriteIsIdempotent(s[1..], true);
        RewriteHead('[', Rewrite(s[1..], true), false);
      } else if s[0] == '(' && |s| > 1 && s[1] != '?' {
        RewriteIsIdempotent(s[1..], false);
        OpenSpecial("?:", Rewrite(s[1..], false));
        PlainOpening(Rewrite(s[1..], false));
      } else if s[0] == '(' && NamedLen(s) > 0 {
        RewriteIsIdempotent(s[NamedLen(s)..], false);
        OpenSpecial("?:", Rewrite(s[NamedLen(s)..], false));
        PlainOpening(Rewrite(s[NamedLen(s)..], false));
      } else {
        RewriteIsIdempotent(s[1..], false);
        if s[0] == '(' {
          KeptParenthesisAgain(s);
        } else {
          RewriteHead(s[0], Rewrite(s[1..], false), false);
        }
      }
    }
  }

  lemma KeptParenthesisAgain(s: string)
    requires s != "" && s[0] == '(' && (|s| == 1 || s[1] == '?') && NamedLen(s) == 0
    ensures Rewrite("(" + Rewrite(s[1..], false), false) == "(" + Rewrite(Rewrite(s[1..], false), false)
  {
    var y := Rewrite(s[1..], false);
    KeptParenthesis(s);
    RewriteKeepsFirst(s[1..], false);
    RewriteAt("(" + y, 0, false);
    assert ("(" + y)[0..] == "(" + y && ("(" + y)[1..] == y;
  }

  // ---------------------------------------------------------- parentheses

  lemma CloseHead(c: char, t: string, depth: int, inClass: bool)
    requires c != '\\'
    ensures Close([c] + t, depth, inClass) ==
            if inClass then Shift(Close(t, depth, c != ']'), 1)
            else if c == '[' then Shift(Close(t, depth, true), 1)
            else if c == '(' then Shift(Close(t, depth + 1, false), 1)
            else if c == ')' then (if depth == 1 then Some(0) else Shift(Close(t, depth - 1, false), 1))
            else Shift(Close(t, depth, false), 1)
  {
    assert ([c] + t)[1..] == t;
  }

  lemma {:induction false} ClosePast(u: string, t: string, depth: int)
    requires NoBrackets(u)
    ensures Close(u + t, depth, false) == Shift(Close(t, depth, false), |u|)
  {
    hide Close;
    if u == "" {
      assert u + t == t;
    } else {
      var w := u + t;
      assert w[0] == u[0] && w[1..] == u[1..] + t;
      CloseOfText(w, depth);
      ClosePast(u[1..], t, depth);
    }
  }

  lemma CloseOfText(w: string, depth: int)
    requires w != "" && !Bracket(w[0])
    ensures Close(w, depth, false) == Shift(Close(w[1..], depth, false), 1)
  {
  }

  /** Whether a reading that starts d groups deep never leaves the outermost one and ends
      right in it, outside a class and not behind a backslash.  Comments are text here. */
  predicate Balanced(s: string, d: nat, inClass: bool) {
    if s == "" then d == 0 && !inClass
    else if s[0] == '\\' then |s| >= 2 && Balanced(s[2..], d, inClass)
    else if inClass then Balanced(s[1..], d, s[0] != ']')
    else if s[0] == '[' then Balanced(s[1..], d, true)
    else if s[0] == '(' then Balanced(s[1..], d + 1, false)
    else if s[0] == ')' then d > 0 && Balanced(s[1..], d - 1, false)
    else Balanced(s[1..], d, false)
  }

  /** Whether it never leaves the outermost group, wherever it ends. */
  predicate StaysOpen(s: string, d: nat, inClass: bool) {
    if s == "" then true
    else if s[0] == '\\' then StaysOpen(s[EscapeLen(s)..], d, inClass)
    else if inClass then StaysOpen(s[1..], d, s[0] != ']')
    else if s[0] == '[' then StaysOpen(s[1..], d, true)
    else if s[0] == '(' then StaysOpen(s[1..], d + 1, false)
    else if s[0] == ')' then d > 0 && StaysOpen(s[1..], d - 1, false)
    else StaysOpen(s[1..], d, false)
  }

  /** On any text: the parenthesis behind it is the answer if and only if it is balanced. */
  lemma {:induction false} CloseIsBalanced(u: string, t: string, d: nat, inClass: bool)
    ensures Close(u + (")" + t), d + 1, inClass) == Some(|u|) <==> Balanced(u, d, inClass)
    decreases |u|
  {
    hide *;
    if u == "" {
      CloseAtOnce(t, d, inClass);
    } else if u[0] == '\\' {
      CloseBehindEscape(u, t, d + 1, inClass);
      BalancedBehindEscape(u, d, inClass);
      if |u| > 1 {
        CloseIsBalanced(u[2..], t, d, inClass);
        ShiftBack(Close(u[2..] + (")" + t), d + 1, inClass), 2, |u|);
      }
    } else {
      CloseOfFirst(u, ")" + t, d, inClass);
      BalancedOfFirst(u, d, inClass);
      if inClass || u[0] != ')' || d > 0 {
        var deeper, next := Deeper(u[0], d, inClass), Within(u[0], inClass);
        CloseIsBalanced(u[1..], t, deeper, next);
        ShiftBack(Close(u[1..] + (")" + t), deeper + 1, next), 1, |u|);
      }
    }
  }

  lemma BalancedBehindEscape(u: string, d: nat, inClass: bool)
    requires u != "" && u[0] == '\\'
    ensures Balanced(u, d, inClass) <==> |u| > 1 && Balanced(u[2..], d, inClass)
  {
  }

  lemma CloseAtOnce(t: string, d: nat, inClass: bool)
    ensures Close("" + (")" + t), d + 1, inClass) == Some(0) <==> Balanced("", d, inClass)
  {
    assert "" + (")" + t) == ")" + t;
    CloseHead(')', t, d + 1, inClass);
    hide Close;
  }

  /** The depth and the class state behind a character that is no backslash and does not
      leave the outermost group. */
  function Deeper(c: char, d: nat, inClass: bool): nat {
    if inClass then d else if c == '(' then d + 1 else if c == ')' && d > 0 then d - 1 else d
  }

  predicate Within(c: char, inClass: bool) {
    if inClass then c != ']' else c == '['
  }

  lemma CloseOfFirst(u: string, v: string, d: nat, inClass: bool)
    requires u != "" && u[0] != '\\'
    ensures Close(u + v, d + 1, inClass) ==
            if !inClass && u[0] == ')' && d == 0 then Some(0)
            else Shift(Close(u[1..] + v, Deeper(u[0], d, inClass) + 1, Within(u[0], inClass)), 1)
  {
    hide *;
    var w := u + v;
    assert w[0] == u[0] && w[1..] == u[1..] + v;
    CloseOne(w, d, inClass);
  }

  lemma CloseOne(w: string, d: nat, inClass: bool)
    requires w != "" && w[0] != '\\'
    ensures Close(w, d + 1, inClass) ==
            if !inClass && w[0] == ')' && d == 0 then Some(0)
            else Shift(Close(w[1..], Deeper(w[0], d, inClass) + 1, Within(w[0], inClass)), 1)
  {
  }

  lemma BalancedOfFirst(u: string, d: nat, inClass: bool)
    requires u != "" && u[0] != '\\'
    ensures Balanced(u, d, inClass) <==>
            && (inClass || u[0] != ')' || d > 0)
            && Balanced(u[1..], Deeper(u[0], d, inClass), Within(u[0], inClass))
  {
  }

  lemma ShiftBack(r: Option<nat>, n: nat, k: nat)
    requires n <= k
    ensures Shift(r, n) == Some(k) <==> r == Some(k - n)
  {
  }

  lemma CloseBehindEscape(u: string, t: string, depth: int, inClass: bool)
    requires u != "" && u[0] == '\\'
    ensures |u| > 1 ==> Close(u + (")" + t), depth, inClass) == Shift(Close(u[2..] + (")" + t), depth, inClass), 2)
    ensures |u| == 1 ==> Close(u + (")" + t), depth, inClass) != Some(1)
  {
    if |u| > 1 {
      assert (u + (")" + t))[2..] == u[2..] + (")" + t);
    }
  }

  /** On any text: no parenthesis answers if and only if the reading stays open. */
  lemma {:induction false} CloseMisses(u: string, d: nat, inClass: bool)
    ensures Close(u, d + 1, inClass) == None <==> StaysOpen(u, d, inClass)
    decreases |u|
  {
    if u != "" {
      if u[0] == '\\' {
        CloseMisses(u[EscapeLen(u)..], d, inClass);
      } else {
        var next := if inClass then u[0] != ']' else u[0] == '[';
        var deeper := if !inClass && u[0] == '(' then d + 1 else if !inClass && u[0] == ')' && d > 0 then d - 1 else d;
        CloseMisses(u[1..], deeper, next);
      }
    }
  }

  /** Behind a balanced text the reading is where it was before it. */
  lemma {:induction false} BalancedThen(u: string, v: string, e: nat, d: nat, inClass: bool)
    requires Balanced(u, e, inClass)
    ensures Balanced(u + v, e + d, inClass) <==> Balanced(v, d, false)
    decreases |u|
  {
    if u == "" {
      assert u + v == v;
    } else if u[0] == '\\' {
      assert (u + v)[2..] == u[2..] + v;
      BalancedThen(u[2..], v, e, d, inClass);
    } else {
      assert (u + v)[1..] == u[1..] + v;
      var next := if inClass then u[0] != ']' else u[0] == '[';
      var deeper := if !inClass && u[0] == '(' then e + 1 else if !inClass && u[0] == ')' then e - 1 else e;
      BalancedThen(u[1..], v, deeper, d, next);
    }
  }

  lemma {:induction false} NoBracketsBalance(u: string)
    requires NoBrackets(u)
    ensures Balanced(u, 0, false)
  {
    if u != "" {
      NoBracketsBalance(u[1..]);
    }
  }

  lemma BalancedAtom(a: Atom, t: string)
    requires AtomOk(a) && Balanced(t, 0, true)
    ensures Balanced(AtomText(a) + t, 0, true)
  {
    match a
    case Chr(c) => assert ([c] + t)[1..] == t;
    case ClassEsc(c) => assert (['\\', c] + t)[2..] == t;
  }

  lemma {:induction false} BalancedAtoms(body: seq<Atom>)
    requires AtomsOk(body)
    ensures Balanced(PrintAtoms(body) + "]", 0, true)
  {
    hide PrintAtoms, AtomText;
    AtomsStep(body, "]");
    if body == [] {
      assert "]"[1..] == "";
    } else {
      BalancedAtoms(body[1..]);
      BalancedAtom(body[0], PrintAtoms(body[1..]) + "]");
    }
  }

  lemma BalancedClass(body: seq<Atom>)
    requires AtomsOk(body)
    ensures Balanced(PrintItem(Class(body)), 0, false)
  {
    BalancedAtoms(body);
    var u := PrintAtoms(body) + "]";
    assert ("[" + u)[1..] == u;
  }

  lemma BalancedGroup(u: string, b: string)
    requires NoBrackets(u) && Balanced(b, 0, false)
    ensures Balanced("(" + (u + (b + ")")), 0, false)
  {
    NoBracketsBalance(u);
    BalancedThen(u, b + ")", 0, 1, false);
    BalancedThen(b, ")", 0, 1, false);
    assert ")"[1..] == "" && Balanced(")", 1, false);
    assert ("(" + (u + (b + ")")))[1..] == u + (b + ")");
  }

  /** Comments that read as balanced text, like # http(s). */
  predicate CommentsBalance(p: Items) {
    p.Nil? || (ItemBalances(p.head) && CommentsBalance(p.tail))
  }

  predicate ItemBalances(i: Item) {
    match i
    case Group(_, inner) => CommentsBalance(inner)
    case Comment(text) => Balanced(text + "\n", 0, false)
    case _ => true
  }

  lemma {:induction false} ItemsBalance(p: Items)
    requires Ok(p) && CommentsBalance(p)
    ensures Balanced(Print(p), 0, false)
    decreases p
  {
    if p.Cons? {
      ItemsBalance(p.tail);
      match p.head {
        case Lit(c) => assert [c][1..] == "";
        case Esc(c) => assert ['\\', c][2..] == "";
        case Class(body) => BalancedClass(body);
        case Group(k, inner) =>
          ItemsBalance(inner);
          KindTextIsPlain(k, inner);
          BalancedGroup(KindText(k), Print(inner));
        case Blank(c) => assert [c][1..] == "";
        case Comment(text) => assert ("#" + (text + "\n"))[1..] == text + "\n";
      }
      hide PrintItem, Print;
      BalancedThen(PrintItem(p.head), Print(p.tail), 0, 0, false);
      PrintStep(p);
    }
  }

  lemma PrintStep(p: Items)
    requires p.Cons?
    ensures Print(p) == PrintItem(p.head) + Print(p.tail)
  {
  }

  lemma GroupLength(u: string, b: string)
    ensures |"(" + (u + (b + ")"))| == |u| + |b| + 2
  {
  }

  lemma CloseOfGroupText(u: string, b: string, t: string, x: string)
    requires NoBrackets(u) && x == b + (")" + t)
    ensures Close("(" + (u + x), 0, false) == Some(|u| + |b| + 1) <==> Balanced(b, 0, false)
  {
    hide *;
    FirstCloseIsBalanced(b, t, x);
    CloseAfterOpening(u, x, |b|);
  }

  lemma FirstCloseIsBalanced(b: string, t: string, x: string)
    requires x == b + (")" + t)
    ensures Close(x, 1, false) == Some(|b|) <==> Balanced(b, 0, false)
  {
    hide *;
    CloseIsBalanced(b, t, 0, false);
  }

  lemma CloseAfterOpening(u: string, x: string, n: nat)
    requires NoBrackets(u)
    ensures Close("(" + (u + x), 0, false) == Some(|u| + n + 1) <==> Close(x, 1, false) == Some(n)
  {
    hide *;
    CloseHead('(', u + x, 0, false);
    ClosePast(u, x, 1);
    ShiftTwice(Close(x, 1, false), |u|, 1, n);
  }

  lemma ShiftTwice(r: Option<nat>, m: nat, n: nat, k: nat)
    ensures Shift(Shift(r, m), n) == Some(m + k + n) <==> r == Some(k)
  {
  }

  /** close_paren at a group's opening parenthesis answers that group's closing one if and
      only if the text between reads as balanced, whatever follows. */
  lemma CloseFindsTheGroupsEnd(k: Kind, inner: Items, t: string)
    requires KindOk(k, inner)
    ensures Close(PrintItem(Group(k, inner)) + t, 0, false) == Some(|PrintItem(Group(k, inner))| - 1)
            <==> Balanced(Print(inner), 0, false)
  {
    KindTextIsPlain(k, inner);
    hide Close, Print, KindText;
    SpecialPrint(KindText(k), Print(inner), t);
    GroupLength(KindText(k), Print(inner));
    CloseOfGroupText(KindText(k), Print(inner), t, Print(inner) + (")" + t));
  }

  /** And -1 when the parenthesis is never closed, if and only if nothing in between seems
      to close it. */
  lemma CloseMissesAnOpenGroup(k: Kind, inner: Items)
    requires KindOk(k, inner)
    ensures Close("(" + (KindText(k) + Print(inner)), 0, false) == None <==> StaysOpen(Print(inner), 0, false)
  {
    KindTextIsPlain(k, inner);
    CloseHead('(', KindText(k) + Print(inner), 0, false);
    ClosePast(KindText(k), Print(inner), 1);
    CloseMisses(Print(inner), 0, false);
  }

  lemma {:induction false} BalancedStaysOpen(u: string, d: nat, inClass: bool)
    requires Balanced(u, d, inClass)
    ensures StaysOpen(u, d, inClass)
    decreases |u|
  {
    if u != "" {
      if u[0] == '\\' {
        BalancedStaysOpen(u[2..], d, inClass);
      } else {
        var next := if inClass then u[0] != ']' else u[0] == '[';
        var deeper := if !inClass && u[0] == '(' then d + 1 else if !inClass && u[0] == ')' then d - 1 else d;
        BalancedStaysOpen(u[1..], deeper, next);
      }
    }
  }

  /** Both hold of every tree whose comments balance. */
  lemma BalancedCommentsSuffice(p: Items)
    requires Ok(p) && CommentsBalance(p)
    ensures Balanced(Print(p), 0, false) && StaysOpen(Print(p), 0, false)
  {
    ItemsBalance(p);
    BalancedStaysOpen(Print(p), 0, false);
  }
}
