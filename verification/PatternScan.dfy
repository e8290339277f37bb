/**
The cursor scanners of scripts/gen-ytdlp-patterns.py: close_paren, strip_verbose and
rewrite_captures.  Each is a loop here as it is there, proved to compute a recursive
reading of the string; PatternTree states what those readings do to a parsed pattern.
*/
module PatternScan {
  import opened Options

  /** str.isspace of one character. */
  predicate IsSpace(c: char) {
    var n := c as int;
    || 0x09 <= n <= 0x0d || 0x1c <= n <= 0x20 || n == 0x85 || n == 0xa0 || n == 0x1680
    || 0x2000 <= n <= 0x200a || n == 0x2028 || n == 0x2029 || n == 0x202f || n == 0x205f || n == 0x3000
  }

  /** What Python's verbose mode ignores. */
  predicate VerboseSpace(c: char) {
    c == ' ' || 0x09 <= c as int <= 0x0d
  }

  /** The two kinds of blanks by name: the six ASCII ones of verbose mode, and with the four
      separators, the next line, the no-break space and Unicode's spaces those of isspace. */
  lemma SpacesByName(c: char)
    ensures VerboseSpace(c) <==> c in [' ', '\t', '\n', '\U{0b}', '\U{0c}', '\r']
    ensures IsSpace(c) <==>
            || VerboseSpace(c)
            || c in ['\U{1c}', '\U{1d}', '\U{1e}', '\U{1f}', '\U{85}', '\U{a0}', '\U{1680}']
            || c in ['\U{2000}', '\U{2001}', '\U{2002}', '\U{2003}', '\U{2004}', '\U{2005}', '\U{2006}', '\U{2007}', '\U{2008}',
                     '\U{2009}', '\U{200a}']
            || c in ['\U{2028}', '\U{2029}', '\U{202f}', '\U{205f}', '\U{3000}']
  {
  }

  /** How far one step over an escape goes: two characters, or the lone last one. */
  function EscapeLen(s: string): (n: nat)
    requires s != ""
    ensures 1 <= n <= 2 && n <= |s|
  {
    if |s| == 1 then 1 else 2
  }

  lemma Glue(a: string, b: string, c: string)
    ensures (a + b) + c == a + (b + c)
  {
  }

  // ------------------------------------------------------------ close_paren

  /** The offset of the parenthesis that brings the depth to zero. */
  function Close(s: string, depth: int, inClass: bool): (r: Option<nat>)
    ensures r.Some? ==> r.value < |s| && s[r.value] == ')'
  {
    if s == "" then None
    else if s[0] == '\\' then Shift(Close(s[EscapeLen(s)..], depth, inClass), EscapeLen(s))
    else if inClass then Shift(Close(s[1..], depth, s[0] != ']'), 1)
    else if s[0] == '[' then Shift(Close(s[1..], depth, true), 1)
    else if s[0] == '(' then Shift(Close(s[1..], depth + 1, false), 1)
    else if s[0] == ')' then
      if depth == 1 then Some(0) else Shift(Close(s[1..], depth - 1, false), 1)
    else Shift(Close(s[1..], depth, false), 1)
  }

  function Shift(r: Option<nat>, n: nat): Option<nat> {
    if r.None? then None else Some(r.value + n)
  }

  /** How far one step of a scanner goes from position i. */
  function Skip(s: string, i: nat): (n: nat)
    requires i < |s|
    ensures 1 <= n <= 2 && i + n <= |s|
  {
    if s[i] == '\\' && i + 1 < |s| then 2 else 1
  }

  lemma CloseAt(s: string, i: nat, depth: int, inClass: bool)
    requires i < |s|
    ensures Close(s[i..], depth, inClass) ==
            if s[i] == '\\' then Shift(Close(s[i + Skip(s, i)..], depth, inClass), Skip(s, i))
            else if inClass then Shift(Close(s[i + 1..], depth, s[i] != ']'), 1)
            else if s[i] == '[' then Shift(Close(s[i + 1..], depth, true), 1)
            else if s[i] == '(' then Shift(Close(s[i + 1..], depth + 1, false), 1)
            else if s[i] == ')' then (if depth == 1 then Some(0) else Shift(Close(s[i + 1..], depth - 1, false), 1))
            else Shift(Close(s[i + 1..], depth, false), 1)
  {
    assert s[i..][1..] == s[i + 1..];
    if s[i] == '\\' {
      assert s[i..][EscapeLen(s[i..])..] == s[i + Skip(s, i)..];
    }
  }

  method CloseParen(s: string, i: nat) returns (r: int)
    requires i <= |s|
    ensures match Close(s[i..], 0, false) case None => r == -1 case Some(k) => r == i + k
  {
    hide Close;
    var depth, inClass := 0, false;
    var j := i;
    while j < |s|
      invariant i <= j <= |s|
      invariant Close(s[i..], 0, false) == Shift(Close(s[j..], depth, inClass), j - i)
    {
      var c := s[j];
      CloseAt(s, j, depth, inClass);
      if c == '\\' {
        j := j + Skip(s, j);
        continue;
      }
      if inClass {
        if c == ']' {
          inClass := false;
        }
      } else if c == '[' {
        inClass := true;
      } else if c == '(' {
        depth := depth + 1;
      } else if c == ')' {
        depth := depth - 1;
        if depth == 0 {
          return j;
        }
      }
      j := j + 1;
    }
    CloseOfNothing(depth, inClass);
    return -1;
  }

  lemma CloseOfNothing(depth: int, inClass: bool)
    ensures Close("", depth, inClass) == None
  {
  }

  // ---------------------------------------------------------- strip_verbose

  datatype Mode = Outside | InClass | InComment

  function Strip(s: string, m: Mode): string {
    if s == "" then ""
    else if m == InComment then Strip(s[1..], if s[0] == '\n' then Outside else InComment)
    else if s[0] == '\\' then s[..EscapeLen(s)] + Strip(s[EscapeLen(s)..], m)
    else if m == InClass then [s[0]] + Strip(s[1..], if s[0] == ']' then Outside else InClass)
    else if s[0] == '[' then [s[0]] + Strip(s[1..], InClass)
    else if s[0] == '#' then Strip(s[1..], InComment)
    else if IsSpace(s[0]) then Strip(s[1..], Outside)
    else [s[0]] + Strip(s[1..], Outside)
  }

  lemma StripAt(s: string, i: nat, m: Mode)
    requires i < |s|
    ensures Strip(s[i..], m) ==
            if m == InComment then Strip(s[i + 1..], if s[i] == '\n' then Outside else InComment)
            else if s[i] == '\\' then s[i..i + Skip(s, i)] + Strip(s[i + Skip(s, i)..], m)
            else if m == InClass then [s[i]] + Strip(s[i + 1..], if s[i] == ']' then Outside else InClass)
            else if s[i] == '[' then [s[i]] + Strip(s[i + 1..], InClass)
            else if s[i] == '#' then Strip(s[i + 1..], InComment)
            else if IsSpace(s[i]) then Strip(s[i + 1..], Outside)
            else [s[i]] + Strip(s[i + 1..], Outside)
  {
    assert s[i..][1..] == s[i + 1..];
    if s[i] == '\\' {
      assert s[i..][EscapeLen(s[i..])..] == s[i + Skip(s, i)..];
      assert s[i..][..EscapeLen(s[i..])] == s[i..i + Skip(s, i)];
    }
  }

  /** One character of the scan, behind the output so far. */
  lemma StripOnto(out: string, s: string, i: nat, m: Mode)
    requires i < |s|
    ensures out + Strip(s[i..], m) ==
            if m == InComment then out + Strip(s[i + 1..], if s[i] == '\n' then Outside else InComment)
            else if s[i] == '\\' then (out + s[i..i + Skip(s, i)]) + Strip(s[i + Skip(s, i)..], m)
            else if m == InClass then (out + [s[i]]) + Strip(s[i + 1..], if s[i] == ']' then Outside else InClass)
            else if s[i] == '[' then (out + [s[i]]) + Strip(s[i + 1..], InClass)
            else if s[i] == '#' then out + Strip(s[i + 1..], InComment)
            else if IsSpace(s[i]) then out + Strip(s[i + 1..], Outside)
            else (out + [s[i]]) + Strip(s[i + 1..], Outside)
  {
    StripAt(s, i, m);
    hide Strip, IsSpace;
  }

  method StripVerbose(s: string) returns (out: string)
    ensures out == Strip(s, Outside)
  {
    hide Strip, IsSpace;
    out := "";
    var inClass, inComment := false, false;
    var i := 0;
    while i < |s|
      invariant 0 <= i <= |s| && !(inClass && inComment)
      invariant out + Strip(s[i..], if inComment then InComment else if inClass then InClass else Outside) == Strip(s, Outside)
    {
      var c := s[i];
      StripOnto(out, s, i, if inComment then InComment else if inClass then InClass else Outside);
      if inComment {
        if c == '\n' {
          inComment := false;
        }
        i := i + 1;
        continue;
      }
      if c == '\\' {
        out := out + s[i..i + Skip(s, i)];
        i := i + Skip(s, i);
        continue;
      }
      if inClass {
        if c == ']' {
          inClass := false;
        }
        out := out + [c];
      } else if c == '[' {
        inClass := true;
        out := out + [c];
      } else if c == '#' {
        inComment := true;
      } else if !IsSpace(c) {
        out := out + [c];
      }
      i := i + 1;
    }
    StripOfNothing();
    assert s[i..] == "";
  }

  lemma StripOfNothing()
    ensures forall m :: Strip("", m) == ""
  {
  }

  // ------------------------------------------------------- rewrite_captures

  /** The position after the first '>', or 0 when there is none. */
  function AfterAngle(s: string): (n: nat)
    ensures n <= |s|
    ensures n == 0 <==> '>' !in s
    ensures n > 0 ==> s[n - 1] == '>' && '>' !in s[..n - 1]
  {
    if s == "" then 0
    else if s[0] == '>' then 1
    else
      var n := AfterAngle(s[1..]);
      if n == 0 then 0 else n + 1
  }

  const NamedHead: string := "(?P<"

  /** The length of a leading (?P<name>, or 0. */
  function NamedLen(s: string): (n: nat)
    ensures n <= |s|
    ensures n > 0 ==> n > 4 && NamedHead <= s
  {
    if NamedHead <= s && AfterAngle(s[4..]) > 0 then 4 + AfterAngle(s[4..]) else 0
  }

  function Rewrite(s: string, inClass: bool): (r: string)
    decreases |s|
  {
    if s == "" then ""
    else if s[0] == '\\' then s[..EscapeLen(s)] + Rewrite(s[EscapeLen(s)..], inClass)
    else if inClass then [s[0]] + Rewrite(s[1..], s[0] != ']')
    else if s[0] == '[' then [s[0]] + Rewrite(s[1..], true)
    else if s[0] == '(' && |s| > 1 && s[1] != '?' then "(?:" + Rewrite(s[1..], false)
    else if s[0] == '(' && NamedLen(s) > 0 then "(?:" + Rewrite(s[NamedLen(s)..], false)
    else [s[0]] + Rewrite(s[1..], false)
  }

  lemma RewriteAt(s: string, i: nat, inClass: bool)
    requires i < |s|
    ensures Rewrite(s[i..], inClass) ==
            if s[i] == '\\' then s[i..i + Skip(s, i)] + Rewrite(s[i + Skip(s, i)..], inClass)
            else if inClass then [s[i]] + Rewrite(s[i + 1..], s[i] != ']')
            else if s[i] == '[' then [s[i]] + Rewrite(s[i + 1..], true)
            else if s[i] == '(' && i + 1 < |s| && s[i + 1] != '?' then "(?:" + Rewrite(s[i + 1..], false)
            else if s[i] == '(' && NamedLen(s[i..]) > 0 then "(?:" + Rewrite(s[i + NamedLen(s[i..])..], false)
            else [s[i]] + Rewrite(s[i + 1..], false)
  {
    assert s[i..][1..] == s[i + 1..];
    if s[i] == '\\' {
      assert s[i..][EscapeLen(s[i..])..] == s[i + Skip(s, i)..];
      assert s[i..][..EscapeLen(s[i..])] == s[i..i + Skip(s, i)];
    } else if NamedLen(s[i..]) > 0 {
      assert s[i..][NamedLen(s[i..])..] == s[i + NamedLen(s[i..])..];
    }
  }

  method RewriteCaptures(s: string) returns (out: string)
    ensures out == Rewrite(s, false)
  {
    hide Rewrite, NamedLen;
    out := "";
    var inClass := false;
    var i := 0;
    while i < |s|
      invariant 0 <= i <= |s| && out + Rewrite(s[i..], inClass) == Rewrite(s, false)
    {
      var c := s[i];
      RewriteAt(s, i, inClass);
      if c == '\\' {
        Glue(out, s[i..i + Skip(s, i)], Rewrite(s[i + Skip(s, i)..], inClass));
        out := out + s[i..i + Skip(s, i)];
        i := i + Skip(s, i);
        continue;
      }
      if inClass {
        Glue(out, [c], Rewrite(s[i + 1..], c != ']'));
        if c == ']' {
          inClass := false;
        }
        out := out + [c];
        i := i + 1;
        continue;
      }
      if c == '[' {
        Glue(out, [c], Rewrite(s[i + 1..], true));
        inClass := true;
        out := out + [c];
        i := i + 1;
        continue;
      }
      if c == '(' && i + 1 < |s| && s[i + 1] != '?' {
        Glue(out, "(?:", Rewrite(s[i + 1..], false));
        out := out + "(?:";
        i := i + 1;
        continue;
      }
      var n := if c == '(' then NamedLen(s[i..]) else 0;
      if n > 0 {
        Glue(out, "(?:", Rewrite(s[i + n..], false));
        out := out + "(?:";
        i := i + n;
        continue;
      }
      Glue(out, [c], Rewrite(s[i + 1..], false));
      out := out + [c];
      i := i + 1;
    }
    RewriteOfNothing();
    assert s[i..] == "";
  }

  lemma RewriteOfNothing()
    ensures forall inClass :: Rewrite("", inClass) == ""
  {
  }
}
