/**
 * The pieces of SQLite query evaluation the data-access layer relies on:
 * the LIKE operator, OFFSET/LIMIT windows and the rowid scan order of a table.
 */
module Sql {
  import opened Wrappers
  import Text

  // ---------------------------------------------------------------------------
  // LIKE

  /** Whether one pattern character matches one text character under LIKE's ASCII case folding. */
  predicate CharMatches(p: char, c: char)
  {
    p == '_' || Text.LowerChar(p) == Text.LowerChar(c)
  }

  /**
   * SQLite's `s LIKE p` without an ESCAPE clause: '%' matches any run of
   * characters, '_' any one character, and letters compare ASCII case-insensitively.
   */
  predicate Like(p: string, s: string)
    decreases |p| + |s|
  {
    if p == [] then s == []
    else if p[0] == '%' then Like(p[1..], s) || (s != [] && Like(p, s[1..]))
    else s != [] && CharMatches(p[0], s[0]) && Like(p[1..], s[1..])
  }

  /** A lone '%' matches every text. */
  lemma {:induction false} LikeAnything(s: string)
    ensures Like("%", s)
    decreases |s|
  {
    if s != [] {
      LikeAnything(s[1..]);
    }
  }

  /** A leading '%' may swallow any prefix of the text. */
  lemma {:induction false} LikeSkip(q: string, a: string, s: string)
    requires Like(q, s)
    ensures Like("%" + q, a + s)
    decreases |a|
  {
    var p := "%" + q;
    assert p[0] == '%' && p[1..] == q;
    if a == [] {
      assert a + s == s;
    } else {
      LikeSkip(q, a[1..], s);
      assert (a + s)[1..] == a[1..] + s;
      assert Like(p, (a + s)[1..]);
    }
  }

  /**
   * Any text matches itself used as a pattern, so a pattern prefix equal to the
   * text prefix can be consumed: '%' and '_' in it match themselves.
   */
  lemma {:induction false} LikeSelfPrefix(t: string, q: string, s: string)
    requires Like(q, s)
    ensures Like(t + q, t + s)
    decreases |t|
  {
    if t == [] {
      assert t + q == q && t + s == s;
    } else {
      LikeSelfPrefix(t[1..], q, s);
      var p, u := t + q, t + s;
      assert p[0] == t[0] && u[0] == t[0];
      assert p[1..] == t[1..] + q;
      assert u[1..] == t[1..] + s;
      if t[0] == '%' {
        // '%' first matches nothing, then it consumes the literal '%'
        assert Like(p[1..], u[1..]);
        assert Like(p, u[1..]);
      } else {
        assert CharMatches(p[0], u[0]);
      }
    }
  }

  /** `'%' + w + '%'` matches every text that contains `w`. */
  lemma LikeContains(w: string, a: string, b: string)
    ensures Like("%" + w + "%", a + w + b)
  {
    LikeAnything(b);
    LikeSelfPrefix(w, "%", b);
    LikeSkip(w + "%", a, w + b);
    assert "%" + w + "%" == "%" + (w + "%");
    assert a + w + b == a + (w + b);
  }

  /** LIKE ignores the case of ASCII letters in the text. */
  lemma {:induction false} LikeIgnoresCase(p: string, s: string)
    ensures Like(p, s) == Like(p, Text.Lower(s))
    decreases |p| + |s|
  {
    var l := Text.Lower(s);
    if p != [] {
      if s != [] {
        assert l[1..] == Text.Lower(s[1..]);
        LikeIgnoresCase(p, s[1..]);
        LikeIgnoresCase(p[1..], s[1..]);
      }
      LikeIgnoresCase(p[1..], s);
    }
  }

  // ---------------------------------------------------------------------------
  // OFFSET / LIMIT

  /** The rows an `OFFSET offset LIMIT limit` clause keeps, each clause optional. */
  function Page<T>(rows: seq<T>, offset: Option<nat>, limit: Option<nat>): (r: seq<T>)
    ensures limit.Some? ==> |r| <= limit.value
    ensures |r| <= |rows|
    ensures var skip := offset.GetOr(0);
            skip <= |rows| ==> r <= rows[skip..]
    ensures var skip := offset.GetOr(0);
            skip <= |rows| ==> |r| == if limit.Some? && limit.value < |rows| - skip then limit.value else |rows| - skip
    ensures offset.GetOr(0) >= |rows| ==> r == []
  {
    var skip := offset.GetOr(0);
    var rest := if skip <= |rows| then rows[skip..] else [];
    if limit.Some? && limit.value < |rest| then rest[..limit.value] else rest
  }

  // ---------------------------------------------------------------------------
  // Rowid scan

  /**
   * The keys of `keys` in [lo, hi) in ascending order: the order in which
   * SQLite visits rows of a rowid table when no ORDER BY is given.
   */
  function Scan(keys: set<int>, lo: int, hi: int): (r: seq<int>)
    ensures forall i :: 0 <= i < |r| ==> r[i] in keys && lo <= r[i] < hi
    ensures forall k :: k in keys && lo <= k < hi ==> k in r
    ensures forall i, j :: 0 <= i < j < |r| ==> r[i] < r[j]
    ensures keys == {} ==> r == []
    decreases hi - lo
  {
    if lo >= hi then []
    else if lo in keys then [lo] + Scan(keys, lo + 1, hi)
    else Scan(keys, lo + 1, hi)
  }
}
