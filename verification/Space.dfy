/**
Disk reservations: which floor a destination owes, and when a filesystem admits.

Byte counts are 64-bit in the source; the pools are sums, so they wrap here as they do
there.  Path cleaning, filesystem identification and statfs are functions the caller
supplies.
*/
module Space {
  type Path = string

  const MIN64: int := -0x8000_0000_0000_0000
  const MAX64: int := 0x7fff_ffff_ffff_ffff

  /** Two's-complement wrap-around of a 64-bit sum or difference. */
  function Wrap(x: int): (r: int)
    ensures MIN64 <= r <= MAX64
    ensures MIN64 <= x <= MAX64 ==> r == x
  {
    (x - MIN64) % 0x1_0000_0000_0000_0000 + MIN64
  }

  const DEFAULT_MIN_FREE := 2147483648

  // ------------------------------------------------------------- admission

  datatype Reservation = Reservation(free: int, committed: int, floor: int)

  /** Admits, with the stepwise subtraction of the source. */
  method Admits(r: Reservation, remaining: int) returns (ok: bool)
    requires MIN64 <= r.free <= MAX64 && MIN64 <= r.committed <= MAX64 && MIN64 <= r.floor <= MAX64
    ensures ok == Fits(r, remaining)
  {
    if r.free < 0 || r.committed < 0 || r.floor < 0 || remaining < 0 {
      return false;
    }
    var available := r.free;
    if available < r.floor {
      return false;
    }
    available := Wrap(available - r.floor);
    if available < r.committed {
      return false;
    }
    available := Wrap(available - r.committed);
    return available >= remaining;
  }

  /** Nothing negative is head-room, and what is left after the request is at or above
      the floor. */
  predicate Fits(r: Reservation, remaining: int) {
    && 0 <= r.free && 0 <= r.committed && 0 <= r.floor && 0 <= remaining
    && r.free - (r.committed + remaining) >= r.floor
  }

  // ----------------------------------------------------------------- roots

  function TrimSlashes(s: string): (r: string)
    ensures |r| <= |s| && r == s[..|r|]
    ensures r != "" ==> r[|r| - 1] != '/'
    ensures forall k :: |r| <= k < |s| ==> s[k] == '/'
  {
    if s != "" && s[|s| - 1] == '/' then TrimSlashes(s[..|s| - 1]) else s
  }

  function Trimmed(root: string): (r: string)
    ensures r != ""
  {
    var t := TrimSlashes(root);
    if t == "" then "/" else t
  }

  predicate HasPrefix(s: string, prefix: string) {
    prefix <= s
  }

  /** The root itself or a path under it, by whole segments. */
  predicate WithinRoot(path: Path, root: string) {
    if root == "/" then HasPrefix(path, "/") else path == root || HasPrefix(path, root + "/")
  }

  /** A path cut at its slashes: "/data/x" is "", "data", "x". */
  function Segments(path: Path): (r: seq<string>)
    ensures r != []
  {
    if path == "" then [""]
    else
      var rest := Segments(path[1..]);
      if path[0] == '/' then [""] + rest else [[path[0]] + rest[0]] + rest[1..]
  }

  lemma {:induction false} SegmentsOfJoined(a: string, b: string)
    ensures Segments(a + "/" + b) == Segments(a) + Segments(b)
  {
    var s := a + "/" + b;
    if a == "" {
      assert s[1..] == b;
    } else {
      assert s[0] == a[0] && s[1..] == a[1..] + "/" + b;
      SegmentsOfJoined(a[1..], b);
    }
  }

  /** And back: the segments name the path. */
  lemma {:induction false} SegmentsExtend(a: string, p: string)
    ensures Segments(a) <= Segments(p) <==> p == a || (a + "/") <= p
  {
    if (a + "/") <= p {
      assert p == a + "/" + p[|a| + 1..];
      SegmentsOfJoined(a, p[|a| + 1..]);
    }
    if a == "" {
      assert Segments(p) != [] && (p != "" && p[0] != '/' ==> Segments(p)[0] != "");
      assert p != "" && p[0] == '/' ==> "" + "/" <= p;
    } else if p != "" {
      SegmentsExtend(a[1..], p[1..]);
      SegmentsMatch(a, p);
      if a[0] == p[0] {
        assert (a + "/") <= p <==> (a[1..] + "/") <= p[1..] by { SlashedPrefix(a, p); }
        assert p == a <==> p[1..] == a[1..] by { assert p == [p[0]] + p[1..] && a == [a[0]] + a[1..]; }
      } else {
        assert !((a + "/") <= p) by { assert (a + "/")[0] == a[0]; }
      }
    } else {
      SegmentsMatch(a, p);
    }
  }

  lemma SlashedPrefix(a: string, p: string)
    requires a != "" && p != "" && a[0] == p[0]
    ensures (a + "/") <= p <==> (a[1..] + "/") <= p[1..]
  {
    assert a + "/" == [a[0]] + (a[1..] + "/") && p == [p[0]] + p[1..];
  }

  /** One character of a segment decides as much as its first character does. */
  lemma SegmentsMatch(a: string, p: string)
    requires a != ""
    ensures Segments(a) <= Segments(p) <==> p != "" && p[0] == a[0] && Segments(a[1..]) <= Segments(p[1..])
  {
    if p == "" {
      assert |Segments(a)| > 1 || Segments(a)[0] != "";
    } else {
      var x, y := Segments(a[1..]), Segments(p[1..]);
      if a[0] == '/' && p[0] == '/' {
        ConsPrefix("", x, "", y);
      } else if a[0] != '/' && p[0] != '/' {
        ConsPrefix([a[0]] + x[0], x[1..], [p[0]] + y[0], y[1..]);
        ConsPrefix(x[0], x[1..], y[0], y[1..]);
        SameTail(a[0], x[0], p[0], y[0]);
        assert [x[0]] + x[1..] == x && [y[0]] + y[1..] == y;
        hide Segments;
      }
    }
  }

  lemma ConsPrefix(h: string, t: seq<string>, k: string, u: seq<string>)
    ensures [h] + t <= [k] + u <==> h == k && t <= u
  {
    var a, b := [h] + t, [k] + u;
    assert a[1..] == t && b[1..] == u;
    if a <= b {
      assert a == b[..|a|] && a[0] == h && b[..|a|][0] == k;
      assert b[..|a|][1..] == u[..|t|];
    }
    if h == k && t <= u {
      assert b[..|a|] == [k] + u[..|t|];
    }
  }

  lemma SameTail(c: char, t: string, d: char, u: string)
    ensures [c] + t == [d] + u <==> c == d && t == u
  {
    assert ([c] + t)[1..] == t && ([d] + u)[1..] == u;
  }

  /** Which paths a root owns: those whose segments begin with the root's, and "/" owns
      every absolute path.  So "/database" is not under "/data". */
  lemma OwnsBySegments(path: Path, root: string)
    ensures root != "/" ==> (WithinRoot(path, root) <==> Segments(root) <= Segments(path))
    ensures root == "/" ==> (WithinRoot(path, root) <==> path != "" && Segments(path)[0] == "")
  {
    SegmentsExtend(root, path);
  }

  /** The spelling of a root: its trailing slashes do not count, and nothing but slashes is
      the root of everything. */
  lemma TrimmedSpelling(root: string)
    ensures Trimmed(root) == "/" <==> forall k :: 0 <= k < |root| ==> root[k] == '/'
    ensures Trimmed(root) != "/" ==>
              && Trimmed(root) <= root && Trimmed(root)[|Trimmed(root)| - 1] != '/'
              && forall k :: |Trimmed(root)| <= k < |root| ==> root[k] == '/'
  {
    var t := TrimSlashes(root);
    assert t != "" ==> t[|t| - 1] == root[|t| - 1];
  }

  ghost predicate Owner(roots: seq<string>, d: Path, root: string) {
    (exists k :: 0 <= k < |roots| && Trimmed(roots[k]) == root) && WithinRoot(d, root)
  }

  /** The longest owner, or "" when nothing owns the destination. */
  ghost predicate IsRootOf(roots: seq<string>, d: Path, best: string) {
    if best == "" then forall r: string :: !Owner(roots, d, r)
    else Owner(roots, d, best) && forall r: string :: Owner(roots, d, r) ==> |r| <= |best|
  }

  function RootOf(roots: seq<string>, d: Path): string {
    if roots == [] then ""
    else
      var best := RootOf(roots[..|roots| - 1], d);
      var trimmed := Trimmed(roots[|roots| - 1]);
      if |trimmed| > |best| && WithinRoot(d, trimmed) then trimmed else best
  }

  method FindRoot(roots: seq<string>, d: Path) returns (best: string)
    ensures best == RootOf(roots, d)
  {
    best := "";
    for i := 0 to |roots|
      invariant best == RootOf(roots[..i], d)
    {
      var trimmed := Trimmed(roots[i]);
      assert roots[..i + 1][..i] == roots[..i];
      if |trimmed| > |best| && WithinRoot(d, trimmed) {
        best := trimmed;
      }
    }
    assert roots[..|roots|] == roots;
  }

  lemma OwnersOfOneMore(roots: seq<string>, d: Path, r: string)
    requires roots != []
    ensures Owner(roots, d, r) <==>
            Owner(roots[..|roots| - 1], d, r) || (r == Trimmed(roots[|roots| - 1]) && WithinRoot(d, r))
  {
    var front := roots[..|roots| - 1];
    if k :| 0 <= k < |front| && Trimmed(front[k]) == r {
      assert roots[k] == front[k];
    }
    if k :| 0 <= k < |roots| && Trimmed(roots[k]) == r {
      assert k < |front| ==> front[k] == roots[k];
    }
  }

  lemma {:induction false} RootOfIsLongest(roots: seq<string>, d: Path)
    ensures IsRootOf(roots, d, RootOf(roots, d))
  {
    if roots != [] {
      RootOfIsLongest(roots[..|roots| - 1], d);
      forall r: string ensures Owner(roots, d, r) <==>
            Owner(roots[..|roots| - 1], d, r) || (r == Trimmed(roots[|roots| - 1]) && WithinRoot(d, r)) {
        OwnersOfOneMore(roots, d, r);
      }
    }
  }

  /** Two owners of one destination differ in length, so the longest is unique. */
  lemma OwnersDifferInLength(d: Path, r: string, q: string)
    requires WithinRoot(d, r) && WithinRoot(d, q) && |r| == |q| && r != "" && q != ""
    ensures r == q
  {
    OwnerIsPrefix(d, r);
    OwnerIsPrefix(d, q);
  }

  lemma OwnerIsPrefix(d: Path, r: string)
    requires WithinRoot(d, r)
    ensures r <= d
  {
    if r != "/" && d != r {
      assert (r + "/")[..|r|] == r;
    }
  }

  /** The order and the repetition of the configured roots do not matter. */
  lemma RootOfIgnoresOrder(roots: seq<string>, others: seq<string>, d: Path)
    requires forall r :: r in roots <==> r in others
    ensures RootOf(roots, d) == RootOf(others, d)
  {
    RootOfIsLongest(roots, d);
    RootOfIsLongest(others, d);
    var a, b := RootOf(roots, d), RootOf(others, d);
    SameOwners(roots, others, d);
    SameOwners(others, roots, d);
    if a != "" && b != "" {
      OwnersDifferInLength(d, a, b);
    }
  }

  lemma SameOwners(roots: seq<string>, others: seq<string>, d: Path)
    requires forall r :: r in roots ==> r in others
    ensures forall r: string :: Owner(roots, d, r) ==> Owner(others, d, r)
  {
    forall r: string | Owner(roots, d, r) ensures Owner(others, d, r) {
      var k :| 0 <= k < |roots| && Trimmed(roots[k]) == r;
      assert roots[k] in others;
    }
  }

  // ---------------------------------------------------------------- floors

  predicate Names(entry: (string, int), root: string, clean: string -> string) {
    entry.1 >= 0 && clean(entry.0) == clean(root)
  }

  /** The largest floor that is not negative and whose key is the root's when both are
      cleaned, or the default when there is none; zero is a floor. */
  ghost predicate IsFloor(entries: seq<(string, int)>, root: string, clean: string -> string, floor: int) {
    || (floor == DEFAULT_MIN_FREE && forall e :: e in entries && clean(e.0) == clean(root) ==> e.1 < 0)
    || (floor >= 0 && (exists e :: e in entries && clean(e.0) == clean(root) && e.1 == floor)
        && forall e :: e in entries && clean(e.0) == clean(root) ==> e.1 <= floor)
  }

  /** Floor: the largest entry that names the root, whatever the map's iteration order;
      a root nobody names, or named by negative values alone, owes the default. */
  method Floor(entries: seq<(string, int)>, root: string, clean: string -> string) returns (floor: int)
    ensures IsFloor(entries, root, clean, floor)
  {
    var found := false;
    floor := 0;
    for i := 0 to |entries|
      invariant found ==> exists e :: e in entries[..i] && Names(e, root, clean) && e.1 == floor
      invariant forall e :: e in entries[..i] && Names(e, root, clean) ==> found && e.1 <= floor
    {
      assert forall e :: e in entries[..i + 1] <==> e in entries[..i] || e == entries[i];
      if Names(entries[i], root, clean) && (!found || entries[i].1 > floor) {
        floor, found := entries[i].1, true;
      }
    }
    assert entries[..|entries|] == entries;
    if !found {
      floor := DEFAULT_MIN_FREE;
    }
  }

  /** One floor satisfies the description, for every order the entries may come in. */
  lemma FloorIsDetermined(entries: seq<(string, int)>, others: seq<(string, int)>, root: string, clean: string -> string, a: int, b: int)
    requires forall e :: e in entries <==> e in others
    requires IsFloor(entries, root, clean, a) && IsFloor(others, root, clean, b)
    ensures a == b && a >= 0
  {
    if e :| e in entries && clean(e.0) == clean(root) && e.1 == a {
      assert e in others;
      if f :| f in others && clean(f.0) == clean(root) && f.1 == b {
        assert f in entries;
      }
    }
  }
}
