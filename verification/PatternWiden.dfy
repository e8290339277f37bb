/**
widen_shorthands of scripts/gen-ytdlp-patterns.py as it is written: a cursor over the
pattern with an inner loop that tokenizes each character class.
*/
module PatternWiden {
  import opened Options

  const WORD: string := "\\p{L}\\p{N}_"
  const SPACE: string := "\\t\\n\\f\\r\\v\\x{1c}-\\x{1f}\\x{85}\\p{Z}"

  predicate IsShorthand(c: char) {
    c in {'d', 'D', 'w', 'W', 's', 'S'}
  }

  /** What an escape becomes outside a class. */
  function Outside(c: char): string {
    if c == 'd' then "\\p{Nd}"
    else if c == 'D' then "\\P{Nd}"
    else if c == 'w' then "[" + WORD + "]"
    else if c == 'W' then "[^" + WORD + "]"
    else if c == 's' then "[" + SPACE + "]"
    else if c == 'S' then "[^" + SPACE + "]"
    else ['\\', c]
  }

  /** What a token of a class body becomes; None has no in-place form. */
  function Inside(tok: string): Option<string> {
    if tok == "\\d" then Some("\\p{Nd}")
    else if tok == "\\w" then Some(WORD)
    else if tok == "\\s" then Some(SPACE)
    else if tok == "\\D" then Some("\\P{Nd}")
    else if tok == "\\W" || tok == "\\S" then None
    else Some(tok)
  }

  /** The tokens of a class body after those already read, and where its ']' stands; a
      ']' in the first position, after a '^' or not, is a member. */
  function Body(s: string, read: seq<string>): (r: Option<(seq<string>, nat)>)
    ensures r.Some? ==> r.value.1 < |s| && s[r.value.1] == ']' && |read| <= |r.value.0|
  {
    if s == "" then None
    else if s[0] == '\\' && |s| > 1 then Further(Body(s[2..], read + [s[..2]]), 2)
    else if s[0] == ']' && read != [] && read != ["^"] then Some((read, 0))
    else Further(Body(s[1..], read + [s[..1]]), 1)
  }

  function Further(r: Option<(seq<string>, nat)>, n: nat): Option<(seq<string>, nat)> {
    if r.None? then None else Some((r.value.0, r.value.1 + n))
  }

  /** [x\X], the match-anything idiom. */
  predicate Complementary(body: seq<string>) {
    && |body| == 2 && |body[0]| == 2 && |body[1]| == 2 && body[0][0] == '\\' && body[1][0] == '\\'
    && {body[0][1], body[1][1]} in {{'d', 'D'}, {'w', 'W'}, {'s', 'S'}}
  }

  function InsideAll(body: seq<string>): Option<string> {
    if body == [] then Some("")
    else
      var front := InsideAll(body[..|body| - 1]);
      var last := Inside(body[|body| - 1]);
      if front.None? || last.None? then None else Some(front.value + last.value)
  }

  function ClassText(body: seq<string>): Option<string> {
    if Complementary(body) then Some("(?s:.)")
    else match InsideAll(body)
         case None => None
         case Some(inner) => Some("[" + (inner + "]"))
  }

  function Prepend(x: string, r: Option<string>): Option<string> {
    if r.None? then None else Some(x + r.value)
  }

  function Widen(s: string): Option<string>
    decreases |s|
  {
    if s == "" then Some("")
    else if s[0] == '\\' && |s| > 1 then Prepend(Outside(s[1]), Widen(s[2..]))
    else if s[0] != '[' then Prepend(s[..1], Widen(s[1..]))
    else
      match Body(s[1..], [])
      case None => None
      case Some((body, n)) =>
        match ClassText(body)
        case None => None
        case Some(text) => Prepend(text, Widen(s[n + 2..]))
  }

  // ------------------------------------------------------------- the loops

  lemma WidenAt(s: string, i: nat)
    requires i < |s|
    ensures Widen(s[i..]) ==
            if s[i] == '\\' && i + 1 < |s| then Prepend(Outside(s[i + 1]), Widen(s[i + 2..]))
            else if s[i] != '[' then Prepend([s[i]], Widen(s[i + 1..]))
            else
              match Body(s[i + 1..], [])
              case None => None
              case Some((body, n)) =>
                match ClassText(body)
                case None => None
                case Some(text) => Prepend(text, Widen(s[i + n + 2..]))
  {
    hide Body, ClassText, Outside;
    assert s[i..][1..] == s[i + 1..] && s[i..][..1] == [s[i]];
    if s[i] == '\\' && i + 1 < |s| {
      assert s[i..][2..] == s[i + 2..];
    } else if s[i] == '[' && Body(s[i + 1..], []).Some? {
      var n := Body(s[i + 1..], []).value.1;
      assert s[i..][n + 2..] == s[i + n + 2..];
    }
  }

  lemma BodyAt(s: string, j: nat, read: seq<string>)
    requires j < |s|
    ensures Body(s[j..], read) ==
            if s[j] == '\\' && j + 1 < |s| then Further(Body(s[j + 2..], read + [s[j..j + 2]]), 2)
            else if s[j] == ']' && read != [] && read != ["^"] then Some((read, 0))
            else Further(Body(s[j + 1..], read + [[s[j]]]), 1)
  {
    assert s[j..][1..] == s[j + 1..] && s[j..][..1] == [s[j]];
    if s[j] == '\\' && j + 1 < |s| {
      assert s[j..][2..] == s[j + 2..] && s[j..][..2] == s[j..j + 2];
    }
  }

  /** The inner loop: from after '[' to the closing ']', or to the end of the string. */
  method ReadBody(s: string, i: nat) returns (body: seq<string>, j: nat)
    requires i <= |s|
    ensures i <= j <= |s|
    ensures Body(s[i..], []) == if j == |s| then None else Some((body, j - i))
  {
    hide Body;
    j := i;
    body := [];
    while j < |s|
      invariant i <= j <= |s|
      invariant Body(s[i..], []) == Further(Body(s[j..], body), j - i)
    {
      BodyAt(s, j, body);
      if s[j] == '\\' && j + 1 < |s| {
        body := body + [s[j..j + 2]];
        j := j + 2;
        continue;
      }
      if s[j] == ']' {
        if body == [] || body == ["^"] {
          body := body + [[s[j]]];
          j := j + 1;
          continue;
        }
        return;
      }
      body := body + [[s[j]]];
      j := j + 1;
    }
    BodyOfNothing(body);
    assert s[j..] == "";
  }

  lemma BodyOfNothing(read: seq<string>)
    ensures Body("", read) == None
  {
  }

  method WidenBody(body: seq<string>) returns (inner: Option<string>)
    ensures inner == InsideAll(body)
  {
    var text := "";
    for k := 0 to |body|
      invariant InsideAll(body[..k]) == Some(text)
    {
      assert body[..k + 1][..k] == body[..k];
      var piece := Inside(body[k]);
      if piece.None? {
        InsideAllNeedsEvery(body, k + 1);
        return None;
      }
      text := text + piece.value;
    }
    assert body[..|body|] == body;
    return Some(text);
  }

  lemma {:induction false} InsideAllNeedsEvery(body: seq<string>, k: nat)
    requires k <= |body| && InsideAll(body[..k]).None?
    ensures InsideAll(body).None?
    decreases |body| - k
  {
    if k < |body| {
      assert body[..k + 1][..k] == body[..k];
      InsideAllNeedsEvery(body, k + 1);
    } else {
      assert body[..k] == body;
    }
  }

  method WidenShorthands(s: string) returns (r: Option<string>)
    ensures r == Widen(s)
  {
    hide Widen, Body, Outside, InsideAll;
    var out := "";
    var i := 0;
    assert Widen(s) == Prepend("", Widen(s[0..])) by { assert s[0..] == s; PrependNothing(Widen(s)); }
    while i < |s|
      invariant 0 <= i <= |s| && Widen(s) == Prepend(out, Widen(s[i..]))
    {
      WidenAt(s, i);
      if s[i] == '\\' && i + 1 < |s| {
        PrependMore(out, Outside(s[i + 1]), Widen(s[i + 2..]));
        out := out + Outside(s[i + 1]);
        i := i + 2;
        continue;
      }
      if s[i] != '[' {
        PrependMore(out, [s[i]], Widen(s[i + 1..]));
        out := out + [s[i]];
        i := i + 1;
        continue;
      }
      var body, j := ReadBody(s, i + 1);
      if j == |s| {
        return None;
      }
      if Complementary(body) {
        PrependMore(out, "(?s:.)", Widen(s[j + 1..]));
        out := out + "(?s:.)";
        i := j + 1;
        continue;
      }
      var inner := WidenBody(body);
      if inner.None? {
        return None;
      }
      PrependMore(out, "[" + (inner.value + "]"), Widen(s[j + 1..]));
      out := out + ("[" + (inner.value + "]"));
      i := j + 1;
    }
    WidenOfNothing();
    assert s[i..] == "" && out + "" == out;
    return Some(out);
  }

  lemma WidenOfNothing()
    ensures Widen("") == Some("")
  {
  }

  lemma PrependNothing(r: Option<string>)
    ensures Prepend("", r) == r
  {
    if r.Some? {
      assert "" + r.value == r.value;
    }
  }

  lemma PrependMore(a: string, b: string, r: Option<string>)
    ensures Prepend(a, Prepend(b, r)) == Prepend(a + b, r)
  {
    if r.Some? {
      assert a + (b + r.value) == (a + b) + r.value;
    }
  }
}
