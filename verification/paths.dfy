/**
 * The POSIX `os.path` functions the core uses: `join` (two parts), `basename`,
 * `dirname` and `splitext`.
 */
module Paths {

  /** Index of the last `c` in `s`, or -1 (Python's `s.rfind(c)`). */
  function RFind(s: string, c: char): (r: int)
    ensures -1 <= r < |s|
    ensures r >= 0 ==> s[r] == c
    ensures forall k :: r < k < |s| ==> s[k] != c
    decreases |s|
  {
    if s == [] then -1
    else if s[|s| - 1] == c then |s| - 1
    else RFind(s[..|s| - 1], c)
  }

  /** `os.path.join(a, b)`: an absolute `b` replaces `a`; otherwise one '/' separates them. */
  function Join(a: string, b: string): (r: string)
  {
    if b != [] && b[0] == '/' then b
    else if a == [] || a[|a| - 1] == '/' then a + b
    else a + "/" + b
  }

  /** A relative part is appended: the base stays a prefix and the part a suffix of the result. */
  lemma JoinRelative(a: string, b: string)
    requires b == [] || b[0] != '/'
    ensures Join(a, b) == a + b || Join(a, b) == a + "/" + b
    ensures a <= Join(a, b)
    ensures |b| <= |Join(a, b)| && Join(a, b)[|Join(a, b)| - |b|..] == b
  {
    var j := Join(a, b);
    if j == a + b {
      assert j[|a|..] == b;
    } else {
      assert j[|a| + 1..] == b;
    }
  }

  /** `os.path.basename(p)`: what follows the last '/'. */
  function Basename(p: string): (r: string)
    ensures forall k :: 0 <= k < |r| ==> r[k] != '/'
    ensures |r| <= |p| && p[|p| - |r|..] == r
  {
    p[RFind(p, '/') + 1..]
  }

  predicate AllSlashes(s: string)
  {
    forall k :: 0 <= k < |s| ==> s[k] == '/'
  }

  /** `s.rstrip('/')`. */
  function RStripSlashes(s: string): (r: string)
    ensures r <= s && AllSlashes(s[|r|..])
    ensures r == [] || r[|r| - 1] != '/'
    decreases |s|
  {
    if s != [] && s[|s| - 1] == '/' then RStripSlashes(s[..|s| - 1]) else s
  }

  /** `os.path.dirname(p)`: everything up to the last '/', without trailing slashes unless only slashes remain. */
  function Dirname(p: string): (r: string)
    ensures r <= p
  {
    var head := p[..RFind(p, '/') + 1];
    if head != [] && !AllSlashes(head) then RStripSlashes(head) else head
  }

  /** The folder a file was joined onto is its dirname. */
  lemma {:induction false} DirnameOfJoin(a: string, b: string)
    requires a != [] && a[|a| - 1] != '/'
    requires forall k :: 0 <= k < |b| ==> b[k] != '/'
    ensures Dirname(Join(a, b)) == a
  {
    var p := Join(a, b);
    assert p == a + "/" + b;
    assert RFind(p, '/') == |a| by {
      assert p[|a|] == '/';
      assert forall k :: |a| < k < |p| ==> p[k] == b[k - |a| - 1];
      RFindIsLast(p, '/', |a|);
    }
    var head := p[..|a| + 1];
    assert head == a + "/";
    assert !AllSlashes(head) by { assert head[|a| - 1] != '/'; }
    assert head[..|head| - 1] == a;
  }

  /** The name joined onto a folder is the basename of the result. */
  lemma BasenameOfJoin(a: string, b: string)
    requires b != [] && forall k :: 0 <= k < |b| ==> b[k] != '/'
    ensures Basename(Join(a, b)) == b
  {
    var p := Join(a, b);
    if a == [] {
      assert p == b;
      assert RFind(p, '/') == -1;
    } else if a[|a| - 1] == '/' {
      assert p == a + b;
      assert forall k :: |a| - 1 < k < |p| ==> p[k] == b[k - |a|];
      RFindIsLast(p, '/', |a| - 1);
      assert p[|a|..] == b;
    } else {
      assert p == a + "/" + b;
      assert p[|a|] == '/';
      assert forall k :: |a| < k < |p| ==> p[k] == b[k - |a| - 1];
      RFindIsLast(p, '/', |a|);
      assert p[|a| + 1..] == b;
    }
  }

  lemma RFindIsLast(s: string, c: char, i: int)
    requires 0 <= i < |s| && s[i] == c
    requires forall k :: i < k < |s| ==> s[k] != c
    ensures RFind(s, c) == i
  {
  }

  /** A path ending in '/' and then a slash-free name has that name as its basename. */
  lemma BasenameAfterSlash(p: string, name: string)
    requires forall k :: 0 <= k < |name| ==> name[k] != '/'
    requires |name| < |p| && p[|p| - |name| - 1] == '/' && p[|p| - |name|..] == name
    ensures Basename(p) == name
  {
    var at := |p| - |name| - 1;
    forall k | at < k < |p|
      ensures p[k] != '/'
    {
      assert p[k] == p[|p| - |name|..][k - at - 1];
    }
    RFindIsLast(p, '/', at);
  }

  /**
   * `os.path.splitext(p)`: the extension starts at the last '.' of the last
   * component, unless every character before that dot in the component is a dot.
   */
  function SplitExt(p: string): (r: (string, string))
    ensures r.0 + r.1 == p
    ensures r.1 == [] || (r.1[0] == '.' && forall k :: 0 <= k < |r.1| ==> r.1[k] != '/')
  {
    var sep := RFind(p, '/');
    var dot := RFind(p, '.');
    if dot > sep && exists k :: sep < k < dot && p[k] != '.' then
      (p[..dot], p[dot..])
    else
      (p, [])
  }
}
