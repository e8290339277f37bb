/**
transpile of scripts/gen-ytdlp-patterns.py: which region of a pattern is verbose, and
what the scanners together make of it.
*/
module PatternTranspile {
  import opened Options
  import opened PatternScan
  import opened PatternTree
  import opened PatternWiden

  const VerboseHead: string := "(?x"

  predicate Contains(s: string, u: string)
    decreases |s|
  {
    u <= s || (s != "" && Contains(s[1..], u))
  }

  predicate IsLetter(c: char) {
    'a' <= c <= 'z' || 'A' <= c <= 'Z'
  }

  /** The letters a string starts with. */
  function Letters(s: string): (r: string)
    ensures r <= s && forall k :: 0 <= k < |r| ==> IsLetter(r[k])
    ensures |r| < |s| ==> !IsLetter(s[|r|])
  {
    if s != "" && IsLetter(s[0]) then [s[0]] + Letters(s[1..]) else ""
  }

  /** The flags of a leading (?flags: or (?flags), if there is one. */
  function LeadingFlags(p: string): Option<string> {
    if !("(?" <= p) then None
    else
      var flags := Letters(p[2..]);
      if flags != "" && |flags| + 2 < |p| && p[|flags| + 2] in {':', ')'} then Some(flags) else None
  }

  function WithoutX(flags: string): string {
    if flags == "" then ""
    else (if flags[0] == 'x' then "" else [flags[0]]) + WithoutX(flags[1..])
  }

  /** What opens the rewritten region: the group with its co-flags, or the co-flags. */
  function Head(f: string): string {
    if WithoutX(f) == "" then "(?:" else "(?" + WithoutX(f) + ":"
  }

  function BareHead(f: string): string {
    if WithoutX(f) == "" then "" else "(?" + WithoutX(f) + ")"
  }

  function Transpile(p: string): Option<string> {
    if !Contains(p, VerboseHead) then Widen(Rewrite(p, false))
    else
      match LeadingFlags(p)
      case None => None
      case Some(flags) =>
        var n := |flags| + 2;
        if 'x' !in flags then None
        else if p[n] == ')' then
          Widen(Rewrite(Strip(BareHead(flags) + p[n + 1..], Outside), false))
        else
          match Close(p, 0, false)
          case None => None
          case Some(close) =>
            if close != |p| - 1 then None
            else Widen(Rewrite(Head(flags) + Strip(p[n + 1..close], Outside) + ")", false))
  }

  // -------------------------------------------------------- what it answers

  /** The flag letters of Python's re. */
  predicate Flags(f: string) {
    f != "" && forall k :: 0 <= k < |f| ==> f[k] in {'a', 'i', 'L', 'm', 's', 'u', 'x'}
  }

  lemma {:induction false} LettersOf(f: string, t: string)
    requires (forall k :: 0 <= k < |f| ==> IsLetter(f[k])) && t != "" && !IsLetter(t[0])
    ensures Letters(f + t) == f
  {
    if f == "" {
      assert f + t == t;
    } else {
      assert (f + t)[1..] == f[1..] + t;
      LettersOf(f[1..], t);
    }
  }

  lemma LeadingFlagsOf(f: string, c: char, t: string)
    requires Flags(f) && c in {':', ')'}
    ensures var p := "(?" + (f + ([c] + t));
            LeadingFlags(p) == Some(f) && |f| + 2 < |p| && p[|f| + 2] == c && p[|f| + 3..] == t
  {
    var p := "(?" + (f + ([c] + t));
    assert p[2..] == f + ([c] + t);
    LettersOf(f, [c] + t);
    assert p[..2] == "(?";
    assert p[|f| + 2] == (f + ([c] + t))[|f|] == c;
  }

  lemma {:induction false} WithoutXFlags(f: string)
    requires f == "" || Flags(f)
    ensures WithoutX(f) == "" || Flags(WithoutX(f))
    ensures Plainly(WithoutX(f)) && 'x' !in WithoutX(f)
    ensures forall c :: c != 'x' && c in f ==> c in WithoutX(f)
  {
    if f != "" {
      WithoutXFlags(f[1..]);
    }
  }

  lemma {:induction false} PlainIsOk(p: Items)
    requires Ok(p)
    ensures Ok(Plain(p)) && NoTrivia(Plain(p)) && StartsWithQuestion(Plain(p)) == StartsWithQuestion(p)
  {
    if p.Cons? {
      PlainIsOk(p.tail);
      if p.head.Group? {
        PlainIsOk(p.head.inner);
      }
    }
  }

  /** Without the text (?x nothing is stripped: the pattern keeps its text, blanks and
      comments included, captures aside. */
  lemma PlainPatternTranspiles(p: Items)
    requires Ok(p) && CommentsKept(p) && !Contains(Print(p), VerboseHead)
    ensures Transpile(Print(p)) == Widen(Print(Erase(p)))
  {
    RewriteErasesCaptures(p);
  }

  lemma LettersAreTheAlphabet(c: char)
    ensures IsLetter(c) <==>
            || c in ['a', 'b', 'c', 'd', 'e', 'f', 'g', 'h', 'i', 'j', 'k', 'l', 'm']
            || c in ['n', 'o', 'p', 'q', 'r', 's', 't', 'u', 'v', 'w', 'x', 'y', 'z']
            || c in ['A', 'B', 'C', 'D', 'E', 'F', 'G', 'H', 'I', 'J', 'K', 'L', 'M']
            || c in ['N', 'O', 'P', 'Q', 'R', 'S', 'T', 'U', 'V', 'W', 'X', 'Y', 'Z']
  {
  }

  /** The pattern starts with a group of flags, closed or followed by a colon. */
  predicate HeadedBy(p: string, f: string, c: char, t: string) {
    p == "(?" + (f + ([c] + t)) && f != "" && (forall k :: 0 <= k < |f| ==> IsLetter(f[k])) && c in {':', ')'}
  }

  lemma HeadedLetters(p: string, f: string, c: char, t: string)
    requires HeadedBy(p, f, c, t)
    ensures LeadingFlags(p) == Some(f)
  {
    assert p[2..] == f + ([c] + t) && p[..2] == "(?";
    LettersOf(f, [c] + t);
    assert p[|f| + 2] == (f + ([c] + t))[|f|] == c;
  }

  lemma HeadedByItsFlags(p: string)
    requires LeadingFlags(p).Some?
    ensures var f := LeadingFlags(p).value;
            |f| + 2 < |p| && HeadedBy(p, f, p[|f| + 2], p[|f| + 3..])
  {
    hide Letters;
    FlagsText(p, LeadingFlags(p).value);
  }

  lemma FlagsText(p: string, f: string)
    requires "(?" <= p && f <= p[2..] && |f| + 2 < |p|
    ensures p == "(?" + (f + ([p[|f| + 2]] + p[|f| + 3..]))
  {
    var n := |f| + 2;
    assert p == "(?" + p[2..] && p[2..] == f + p[n..] && p[n..] == [p[n]] + p[n + 1..];
  }

  /** The leading flags are read exactly from such a pattern. */
  lemma LeadingFlagsExactly(p: string)
    ensures LeadingFlags(p).Some? <==> exists f, c, t :: HeadedBy(p, f, c, t)
  {
    if f, c, t :| HeadedBy(p, f, c, t) {
      HeadedLetters(p, f, c, t);
    }
    if LeadingFlags(p).Some? {
      HeadedByItsFlags(p);
    }
  }

  lemma {:induction false} ContainsExactly(s: string, u: string)
    ensures Contains(s, u) <==> exists k :: 0 <= k <= |s| && u <= s[k..]
    decreases |s|
  {
    assert s[0..] == s;
    if s != "" {
      ContainsExactly(s[1..], u);
      if k :| 0 <= k <= |s[1..]| && u <= s[1..][k..] {
        assert s[1..][k..] == s[k + 1..];
      }
      if k :| 1 <= k <= |s| && u <= s[k..] {
        assert s[1..][k - 1..] == s[k..];
      }
    }
  }

  /** A verbose flag anywhere but in a leading group of flags is refused: a pattern that holds
      "(?x" and does not start with a group of flags that has an x. */
  lemma OtherVerboseIsRefused(p: string, k: nat)
    requires k <= |p| && "(?x" <= p[k..]
    requires forall f, c, t :: HeadedBy(p, f, c, t) ==> 'x' !in f
    ensures Transpile(p).None?
  {
    ContainsExactly(p, VerboseHead);
    LeadingFlagsExactly(p);
    if LeadingFlags(p).Some? {
      var f, c, t :| HeadedBy(p, f, c, t);
      HeadedLetters(p, f, c, t);
    }
  }

  // ------------------------------------------------------- a leading group

  /** The text behind a leading (?flags: is the rest of one group up to the pattern's end. */
  predicate EndsGroup(v: string) {
    v != "" && v[|v| - 1] == ')' && Balanced(v[..|v| - 1], 0, false)
  }

  lemma CloseAtTheEnd(v: string)
    ensures EndsGroup(v) <==> v != "" && Close(v, 1, false) == Some(|v| - 1)
  {
    if v != "" && v[|v| - 1] == ')' {
      var u := v[..|v| - 1];
      assert v == u + (")" + "");
      FirstCloseIsBalanced(u, "", v);
    }
  }

  lemma GroupHeadText(f: string, v: string)
    ensures "(?" + (f + (":" + v)) == "(" + (("?" + f + ":") + v)
    ensures |"(?" + (f + (":" + v))| == |f| + |v| + 3
  {
    assert ("?" + f + ":") + v == "?" + (f + (":" + v));
    assert "(" + ("?" + (f + (":" + v))) == "(?" + (f + (":" + v));
  }

  lemma FlagsHaveNoBrackets(f: string)
    requires Flags(f)
    ensures NoBrackets("?" + f + ":")
  {
    var u := "?" + f + ":";
    forall k | 0 <= k < |u| ensures !Bracket(u[k]) {
      if 0 < k < |u| - 1 {
        assert u[k] == f[k - 1];
      }
    }
  }

  lemma CloseOfHeadedText(f: string, v: string)
    requires Flags(f)
    ensures var p := "(?" + (f + (":" + v));
            Close(p, 0, false) == Some(|p| - 1) <==> EndsGroup(v)
  {
    FlagsHaveNoBrackets(f);
    CloseAtTheEnd(v);
    GroupHeadText(f, v);
    hide *;
    if v == "" {
      CloseOfEmpty(f);
    } else {
      CloseAfterOpening("?" + f + ":", v, |v| - 1);
    }
  }

  lemma CloseOfEmpty(f: string)
    requires NoBrackets("?" + f + ":")
    ensures Close("(" + (("?" + f + ":") + ""), 0, false) == None
  {
    CloseHead('(', ("?" + f + ":") + "", 0, false);
    ClosePast("?" + f + ":", "", 1);
  }

  lemma TranspileByClose(p: string, f: string, v: string)
    requires Contains(p, VerboseHead) && LeadingFlags(p) == Some(f) && 'x' in f
    requires |f| + 2 < |p| && p[|f| + 2] == ':' && p[|f| + 3..] == v
    ensures Close(p, 0, false) == Some(|p| - 1) && v != "" ==>
            Transpile(p) == Widen(Rewrite(Head(f) + Strip(v[..|v| - 1], Outside) + ")", false))
    ensures Close(p, 0, false) != Some(|p| - 1) ==> Transpile(p) == None
  {
    hide Contains, Close, Strip, Rewrite, Widen, WithoutX, LeadingFlags, Head, BareHead;
    if v != "" {
      assert p[|f| + 2 + 1..|p| - 1] == v[..|v| - 1];
    }
  }

  /** Every text that opens with (?flags: and an x among the flags: without the text (?x
      nothing is verbose; with it the pattern is unwrapped if and only if what follows is
      the rest of one group, and left to nobody otherwise. */
  lemma HeadedTextTranspiles(f: string, v: string)
    requires Flags(f) && 'x' in f
    ensures var p := "(?" + (f + (":" + v));
            Transpile(p) == if !Contains(p, VerboseHead) then Widen(Rewrite(p, false))
                            else if EndsGroup(v) then Widen(Rewrite(Head(f) + Strip(v[..|v| - 1], Outside) + ")", false))
                            else None
  {
    var p := "(?" + (f + (":" + v));
    assert EndsGroup(v) ==> v != "";
    hide *;
    LeadingFlagsOf(f, ':', v);
    CloseOfHeadedText(f, v);
    if Contains(p, VerboseHead) {
      TranspileByClose(p, f, v);
    } else {
      NothingVerbose(p);
    }
  }

  lemma NothingVerbose(p: string)
    requires !Contains(p, VerboseHead)
    ensures Transpile(p) == Widen(Rewrite(p, false))
  {
    hide Contains, Rewrite, Widen;
  }

  lemma {:induction false} ContainsPast(f: string, v: string)
    requires forall k :: 0 <= k < |f| ==> f[k] != '('
    ensures Contains(f + v, VerboseHead) <==> Contains(v, VerboseHead)
  {
    if f == "" {
      assert f + v == v;
    } else {
      assert (f + v)[1..] == f[1..] + v;
      ContainsPast(f[1..], v);
      assert (f + v)[0] == f[0] && VerboseHead[0] == '(';
    }
  }

  /** Which of those texts contain (?x: the flags start with x, or it comes later. */
  lemma HeadedTextContains(f: string, v: string)
    requires Flags(f)
    ensures Contains("(?" + (f + (":" + v)), VerboseHead) <==> f[0] == 'x' || Contains(v, VerboseHead)
  {
    var p := "(?" + (f + (":" + v));
    HeadOf(f, v);
    FlagsHaveNoBrackets(f);
    hide Flags;
    ContainsPast("?" + f + ":", v);
  }

  lemma HeadOf(f: string, v: string)
    requires f != ""
    ensures var p := "(?" + (f + (":" + v)); p != "" && (VerboseHead <= p <==> f[0] == 'x') && p[1..] == ("?" + f + ":") + v
  {
    var p := "(?" + (f + (":" + v));
    assert p[2] == f[0] && p[..2] == "(?";
  }

  /** The group that carries the co-flags of an unwrapped (?x:...). */
  function Unwrapped(f: string, body: Items): Items {
    Cons(Group(Special("?" + WithoutX(f) + ":"), body), Nil)
  }

  lemma PrefixOk(f: string)
    requires f == "" || Flags(f)
    ensures KindOk(Special("?" + f + ":"), Nil)
  {
    var prefix := "?" + f + ":";
    assert f != "" ==> prefix[1] == f[0];
  }

  lemma UnwrappedOk(f: string, body: Items)
    requires Flags(f) && Ok(body) && NoTrivia(body)
    ensures Ok(Unwrapped(f, body)) && NoTrivia(Unwrapped(f, body))
    ensures Rewrite(Print(Unwrapped(f, body)), false) == Print(Erase(Unwrapped(f, body)))
  {
    WithoutXFlags(f);
    PrefixOk(WithoutX(f));
    hide Plainly, Flags;
    assert ItemOk(Unwrapped(f, body).head);
    NoTriviaIsQuiet(Unwrapped(f, body));
    QuietIsKept(Unwrapped(f, body));
    RewriteErasesCaptures(Unwrapped(f, body));
  }

  lemma UnwrappedText(f: string, body: Items)
    ensures Head(f) + Print(body) + ")" == Print(Unwrapped(f, body))
  {
    var g := PrintItem(Group(Special("?" + WithoutX(f) + ":"), body));
    assert Print(Unwrapped(f, body)) == g + "" == g;
    hide Print;
    var u, b := WithoutX(f), Print(body);
    assert g == "(" + (("?" + u + ":") + (b + ")"));
    if u == "" {
      assert "?" + u + ":" == "?:";
      PlainOpening(b + ")");
      assert "(?:" + b + ")" == "(?:" + (b + ")");
    } else {
      assert "(?" + u + ":" + b + ")" == "(?" + u + ":" + (b + ")");
      assert "(" + (("?" + u + ":") + (b + ")")) == ("(" + ("?" + u + ":")) + (b + ")");
      assert "(" + ("?" + u + ":") == "(?" + u + ":";
    }
  }

  /** The text of a leading verbose group and what follows it. */
  lemma VerboseGroupText(f: string, u: string, rest: string)
    ensures ("(" + (("?" + f + ":") + (u + ")"))) + rest == "(?" + (f + (":" + (u + (")" + rest))))
  {
    SpecialPrint("?" + f + ":", u, rest);
    GroupHeadText(f, u + (")" + rest));
  }

  lemma VerboseGroupPrint(f: string, body: Items, rest: string)
    ensures PrintItem(Group(Special("?" + f + ":"), body)) + rest == "(?" + (f + (":" + (Print(body) + (")" + rest))))
  {
    hide Print;
    VerboseGroupText(f, Print(body), rest);
  }

  lemma EndsGroupOfBody(u: string, rest: string)
    ensures rest == "" ==> (EndsGroup(u + (")" + rest)) <==> Balanced(u, 0, false)) && (u + (")" + rest))[..|u + (")" + rest)| - 1] == u
    ensures rest != "" && Balanced(u, 0, false) ==> !EndsGroup(u + (")" + rest))
  {
    var v := u + (")" + rest);
    if rest == "" {
      assert v[..|v| - 1] == u;
    } else if Balanced(u, 0, false) {
      var w := ")" + rest[..|rest| - 1];
      assert v[..|v| - 1] == u + w;
      BalancedThen(u, w, 0, 0, false);
    }
  }

  lemma StripBody(body: Items)
    requires Ok(body) && Verbose(body)
    ensures Strip(Print(body), Outside) == Print(Left(body))
  {
    StripItems(body, "");
    assert Print(body) + "" == Print(body) && Print(Left(body)) + "" == Print(Left(body));
  }

  /** A verbose group that is the whole pattern, exactly: unwrapped if and only if its text
      reads as balanced, comments and all.  Wide spaces go with the blanks. */
  lemma VerboseGroupTranspiles(f: string, body: Items)
    requires Flags(f) && 'x' in f && Ok(body) && Verbose(body)
    ensures var p := PrintItem(Group(Special("?" + f + ":"), body));
            Contains(p, VerboseHead) ==>
            Transpile(p) == if Balanced(Print(body), 0, false) then Widen(Rewrite(Print(Unwrapped(f, Left(body))), false)) else None
  {
    hide *;
    var p := PrintItem(Group(Special("?" + f + ":"), body));
    assert p + "" == p;
    VerboseGroupPrint(f, body, "");
    HeadedTextTranspiles(f, Print(body) + (")" + ""));
    EndsGroupOfBody(Print(body), "");
    StripBody(body);
    UnwrappedText(f, Left(body));
  }

  /** A pattern that opens with a verbose group of balanced text is unwrapped if and only if
      the group is the whole pattern, and then its text is that of the plain tree under the
      co-flags, captures erased; any other pattern of this kind is left to nobody. */
  lemma VerboseGroupUnwrapsIfItSpans(f: string, body: Items, rest: string)
    requires Flags(f) && 'x' in f && Ok(body) && Verbose(body) && NoWideSpace(body) && Balanced(Print(body), 0, false)
    ensures var p := PrintItem(Group(Special("?" + f + ":"), body)) + rest;
            && (f[0] == 'x' ==> Contains(p, VerboseHead))
            && (Contains(p, VerboseHead) ==>
                  Transpile(p) == if rest == "" then Widen(Print(Erase(Unwrapped(f, Plain(body))))) else None)
  {
    PlainIsOk(body);
    LeftIsNoLonger(body);
    hide *;
    var p := PrintItem(Group(Special("?" + f + ":"), body)) + rest;
    VerboseGroupPrint(f, body, rest);
    HeadedTextContains(f, Print(body) + (")" + rest));
    if rest == "" {
      assert p == PrintItem(Group(Special("?" + f + ":"), body));
      VerboseGroupTranspiles(f, body);
      UnwrappedOk(f, Plain(body));
    } else {
      HeadedTextTranspiles(f, Print(body) + (")" + rest));
      EndsGroupOfBody(Print(body), rest);
    }
  }

  // --------------------------------------------------------- a leading flag

  lemma BareAnswer(p: string, f: string, text: string, plain: string)
    requires Contains(p, VerboseHead) && LeadingFlags(p) == Some(f) && 'x' in f
    requires |f| + 2 < |p| && p[|f| + 2] == ')' && p[|f| + 3..] == text
    requires Strip(BareHead(f) + text, Outside) == plain
    ensures Transpile(p) == Widen(Rewrite(plain, false))
  {
    hide Contains, Close, Strip, Rewrite, Widen, Head, BareHead, LeadingFlags, WithoutX;
    assert p[|f| + 2 + 1..] == text;
  }

  lemma BareHeadIsPlain(f: string)
    requires Flags(f)
    ensures forall k :: 0 <= k < |BareHead(f)| ==> BareHead(f)[k] in {'(', '?', ')', 'a', 'i', 'L', 'm', 's', 'u'}
  {
    WithoutXFlags(f);
  }

  /** The rest of the pattern under the co-flags of a bare (?x...). */
  function UnderFlags(f: string, body: Items): Items {
    if WithoutX(f) == "" then body else Cons(Group(Special("?" + WithoutX(f)), Nil), body)
  }

  lemma BareKindOk(u: string)
    requires Flags(u)
    ensures KindOk(Special("?" + u), Nil)
  {
    assert ("?" + u)[1] == u[0];
  }

  lemma UnderFlagsOk(f: string, body: Items)
    requires Flags(f) && Ok(body) && NoTrivia(body)
    ensures Ok(UnderFlags(f, body)) && NoTrivia(UnderFlags(f, body))
    ensures Rewrite(Print(UnderFlags(f, body)), false) == Print(Erase(UnderFlags(f, body)))
  {
    WithoutXFlags(f);
    if WithoutX(f) != "" {
      BareKindOk(WithoutX(f));
    }
    assert Ok(UnderFlags(f, body)) && NoTrivia(UnderFlags(f, body));
    NoTriviaIsQuiet(UnderFlags(f, body));
    QuietIsKept(UnderFlags(f, body));
    RewriteErasesCaptures(UnderFlags(f, body));
  }

  lemma UnderFlagsText(f: string, body: Items)
    ensures BareHead(f) + Print(body) == Print(UnderFlags(f, body))
  {
    var u := WithoutX(f);
    if u == "" {
      assert "" + Print(body) == Print(body);
    } else {
      assert PrintItem(Group(Special("?" + u), Nil)) == "(" + (("?" + u) + ("" + ")"));
      assert "(?" + u + ")" == "(" + (("?" + u) + ("" + ")"));
    }
  }

  /** A bare (?x...) makes the whole rest of the pattern verbose and keeps its co-flags. */
  lemma BareVerboseTranspiles(f: string, body: Items)
    requires Flags(f) && 'x' in f && Ok(body) && Verbose(body)
    ensures var p := "(?" + (f + (")" + Print(body)));
            Contains(p, VerboseHead) ==>
            && Transpile(p) == Widen(Rewrite(Print(UnderFlags(f, Left(body))), false))
            && (NoWideSpace(body) ==> Transpile(p) == Widen(Print(Erase(UnderFlags(f, Plain(body))))))
  {
    PlainIsOk(body);
    LeftIsNoLonger(body);
    hide *;
    LeadingFlagsOf(f, ')', Print(body));
    StripBody(body);
    BareHeadIsPlain(f);
    StripHeadOfFlags(BareHead(f), Print(body));
    UnderFlagsText(f, Left(body));
    UnderFlagsOk(f, Plain(body));
    if Contains("(?" + (f + (")" + Print(body))), VerboseHead) {
      BareAnswer("(?" + (f + (")" + Print(body))), f, Print(body), BareHead(f) + Print(Left(body)));
    }
  }

  lemma StripHeadOfFlags(head: string, t: string)
    requires forall k :: 0 <= k < |head| ==> head[k] in {'(', '?', ')', 'a', 'i', 'L', 'm', 's', 'u'}
    ensures Strip(head + t, Outside) == head + Strip(t, Outside)
    decreases |head|
  {
    if head == "" {
      assert head + t == t;
    } else {
      Uncons(head, t);
      Uncons(head, Strip(t, Outside));
      hide Strip;
      StripHead(head[0], head[1..] + t, Outside);
      StripHeadOfFlags(head[1..], t);
    }
  }

  // ------------------------------------------------------- x among the flags

  /** Flags that hold x but do not start with it, over a body without the text (?x: the
      group is left as it is, blanks and comments in it. */
  lemma LateXKeepsTheTrivia(f: string, body: Items)
    requires Flags(f) && 'x' in f && f[0] != 'x' && Ok(body) && CommentsKept(body)
    requires !Contains(Print(body) + ")", VerboseHead)
    ensures var g := Group(Special("?" + f + ":"), body);
            Transpile(PrintItem(g)) == Widen(PrintItem(Group(g.kind, Erase(body))))
  {
    var g := Group(Special("?" + f + ":"), body);
    PrefixOk(f);
    assert ItemOk(g) && ItemKept(g);
    OneOk(g);
    OneItem(g);
    OneItem(Group(g.kind, Erase(body)));
    hide *;
    VerboseGroupPrint(f, body, "");
    Nothing(PrintItem(g));
    Nothing(")");
    HeadedTextContains(f, Print(body) + (")" + ""));
    PlainPatternTranspiles(Cons(g, Nil));
    EraseOne(g);
  }

  lemma Nothing(s: string)
    ensures s + "" == s
  {
  }

  lemma OneOk(i: Item)
    requires ItemOk(i) && ItemKept(i)
    ensures Ok(Cons(i, Nil)) && CommentsKept(Cons(i, Nil))
  {
    var none: Items := Nil;
    assert Ok(none) && CommentsKept(none);
    assert Cons(i, none).head == i && Cons(i, none).tail == none;
  }

  lemma OneItem(i: Item)
    ensures Print(Cons(i, Nil)) == PrintItem(i)
  {
    assert PrintItem(i) + "" == PrintItem(i);
  }

  lemma EraseOne(i: Item)
    requires i.Group? && i.kind.Special?
    ensures Erase(Cons(i, Nil)) == Cons(Group(i.kind, Erase(i.inner)), Nil)
  {
  }

  lemma {:induction false} WidenPlain(s: string)
    requires '\\' !in s && '[' !in s
    ensures Widen(s) == Some(s)
  {
    if s != "" {
      WidenPlain(s[1..]);
      assert s == s[..1] + s[1..];
    }
  }

  const SpacedA: Items := Cons(Blank(' '), Cons(Lit('a'), Cons(Blank(' '), Nil)))

  lemma SpacedText(prefix: string, body: Items, inner: string)
    requires Print(body) == inner
    ensures PrintItem(Group(Special(prefix), body)) == "(" + (prefix + (inner + ")"))
  {
  }

  lemma SpacedAPrints()
    ensures Print(SpacedA) == " a " && Print(Plain(SpacedA)) == "a"
    ensures Ok(SpacedA) && Verbose(SpacedA) && NoWideSpace(SpacedA) && CommentsKept(SpacedA) && CommentsBalance(SpacedA)
    ensures Erase(SpacedA) == SpacedA && Erase(Plain(SpacedA)) == Plain(SpacedA)
  {
    assert Print(SpacedA.tail.tail) == " " + "" == " ";
    assert Print(SpacedA.tail) == "a" + " " == "a ";
    assert Print(SpacedA) == " " + "a " == " a ";
    assert Print(Cons(Lit('a'), Nil)) == "a" + "" == "a";
  }

  lemma IxTexts()
    ensures "?" + "ix" + ":" == "?ix:" && "(" + ("?ix:" + (" a " + ")")) == "(?ix: a )" && " a " + ")" == " a )"
  {
  }

  lemma XiTexts()
    ensures "?" + "xi" + ":" == "?xi:" && "(" + ("?xi:" + (" a " + ")")) == "(?xi: a )" && "(?xi: a )" + "" == "(?xi: a )"
    ensures "?" + "i" + ":" == "?i:" && "(" + ("?i:" + ("a" + ")")) == "(?i:a)"
  {
  }

  lemma NoHeadInSpacedA()
    ensures !Contains(" a )", VerboseHead)
  {
    ContainsPast(" a )", "");
    assert " a )" + "" == " a )" && |VerboseHead| == 3;
  }

  lemma IxAreFlags()
    ensures Flags("ix") && Flags("xi") && WithoutX("xi") == "i"
    ensures 'x' in "ix" && "ix"[0] != 'x' && 'x' in "xi" && "xi"[0] == 'x'
  {
    assert "ix"[1] == 'x' && "xi"[0] == 'x';
    assert "xi"[1..] == "i" && "i"[1..] == "";
  }

  lemma IxKeepsTheBlanks()
    ensures Transpile("(?ix: a )") == Some("(?ix: a )")
  {
    hide *;
    SpacedAPrints();
    NoHeadInSpacedA();
    IxTexts();
    IxAreFlags();
    SpacedText("?ix:", SpacedA, " a ");
    LateXKeepsTheTrivia("ix", SpacedA);
    PlainTexts();
  }

  lemma PlainTexts()
    ensures Widen("(?ix: a )") == Some("(?ix: a )") && Widen("(?i:a)") == Some("(?i:a)")
  {
    hide Widen;
    WidenPlain("(?ix: a )");
    WidenPlain("(?i:a)");
  }

  lemma UnwrappedSpacedA()
    ensures Erase(Unwrapped("xi", Plain(SpacedA))) == Cons(Group(Special("?i:"), Plain(SpacedA)), Nil)
  {
    SpacedAPrints();
    IxAreFlags();
    XiTexts();
    hide Plain, Print;
    EraseOne(Group(Special("?i:"), Plain(SpacedA)));
  }

  lemma XiDropsTheBlanks()
    ensures Transpile("(?xi: a )") == Some("(?i:a)")
  {
    hide *;
    SpacedAPrints();
    IxAreFlags();
    BalancedCommentsSuffice(SpacedA);
    XiTexts();
    UnwrappedSpacedA();
    OneItem(Group(Special("?i:"), Plain(SpacedA)));
    SpacedText("?xi:", SpacedA, " a ");
    SpacedText("?i:", Plain(SpacedA), "a");
    VerboseGroupUnwrapsIfItSpans("xi", SpacedA, "");
    PlainTexts();
  }

  /** So the order of two flags decides whether the blanks of the group match: Python
      reads both patterns as an a. */
  lemma FlagOrderMatters()
    ensures Transpile("(?ix: a )") == Some("(?ix: a )") && Transpile("(?xi: a )") == Some("(?i:a)")
  {
    IxKeepsTheBlanks();
    XiDropsTheBlanks();
  }

  // ------------------------------------------------------ where it does not

  /** a, then a comment that holds a '[': the group Python reads ends after the newline. */
  const QuotedBracket: Items := Cons(Lit('a'), Cons(Comment("["), Nil))

  lemma QuotedBracketPrints()
    ensures Print(QuotedBracket) == "a#[\n"
    ensures Ok(QuotedBracket) && Verbose(QuotedBracket) && NoWideSpace(QuotedBracket)
  {
    assert Print(Cons(Comment("["), Nil)) == "#[\n" + "" == "#[\n";
    assert Print(QuotedBracket) == "a" + "#[\n" == "a#[\n";
  }

  /** As close_paren reads it the class runs to the next ']'. */
  lemma TakenAsClass()
    ensures Balanced("a#[\n)( b]", 0, false) && !Balanced("a#[\n", 0, false)
  {
    assert "]"[1..] == "" && "b]"[1..] == "]" && " b]"[1..] == "b]";
    assert Balanced(" b]", 0, true);
    InsideTheClass();
    assert "#[\n)( b]"[1..] == "[\n)( b]" && "a#[\n)( b]"[1..] == "#[\n)( b]";
    assert "a#[\n"[1..] == "#[\n" && "#[\n"[1..] == "[\n" && "[\n"[1..] == "\n" && "\n"[1..] == "";
  }

  lemma InsideTheClass()
    requires Balanced(" b]", 0, true)
    ensures Balanced("[\n)( b]", 0, false)
  {
    assert "( b]"[1..] == " b]" && ")( b]"[1..] == "( b]" && "\n)( b]"[1..] == ")( b]" && "[\n)( b]"[1..] == "\n)( b]";
    assert Balanced(")( b]", 0, true);
  }

  /** Balance is needed: here the verbose group is over at the newline, with a capture
      group behind it, and yet close_paren answers the last parenthesis. */
  lemma NoisyCommentHidesTheEnd()
    ensures var p := PrintItem(Group(Special("?" + "x" + ":"), QuotedBracket)) + "( b])";
            && Ok(QuotedBracket) && Verbose(QuotedBracket) && NoWideSpace(QuotedBracket)
            && !Balanced(Print(QuotedBracket), 0, false)
            && Close(p, 0, false) == Some(|p| - 1)
  {
    QuotedBracketPrints();
    TakenAsClass();
    var v := "a#[\n" + (")" + "( b])");
    assert v[..|v| - 1] == "a#[\n)( b]" && v[|v| - 1] == ')';
    assert EndsGroup(v) && Flags("x");
    hide *;
    VerboseGroupPrint("x", QuotedBracket, "( b])");
    CloseOfHeadedText("x", v);
  }

  /** A class whose first member is ']' is where rewrite_captures stops reading it as a
      class: the member '(' becomes three members. */
  lemma FirstBracketEndsTheClassEarly()
    ensures Rewrite("[](]", false) == "[](?:]"
  {
    RewriteHead('[', "](]", false);
    assert "[](]" == "[" + "](]";
    RewriteHead(']', "(]", true);
    assert "](]" == "]" + "(]";
    OpenCapture("]");
    assert "(]" == "(" + "]";
    RewriteHead(']', "", false);
    assert "]" == "]" + "";
    assert Rewrite("]", false) == "]";
  }
}
