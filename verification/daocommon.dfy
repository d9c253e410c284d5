/**
 * The generic data-access layer: session handling around every DAO call, the
 * conversion of rows into detached views, the generic queries every entity
 * DAO offers, and the catalog that holds the committed database.
 */
module DaoCommon {
  import opened Wrappers
  import opened Persistent
  import Collections
  import Sql
  import Text

  // ---------------------------------------------------------------------------
  // Sessions

  /** What happened to a session, identified by the order in which it was made. */
  datatype SessionEvent =
    | Opened(session: nat)
    | Committed(session: nat)
    | CommitFailed(session: nat)
    | RolledBack(session: nat)
    | Closed(session: nat)

  /** The session state every DAO object carries, and a log of what was done to its sessions. */
  class SessionDao {
    var session: Option<nat>
    var made: nat
    var events: seq<SessionEvent>

    constructor ()
      ensures session == None && made == 0 && events == []
    {
      session := None;
      made := 0;
      events := [];
    }

    /** Makes a new session and makes it the current one. */
    method OpenSession() returns (s: nat)
      modifies this
      ensures s == old(made) && made == old(made) + 1
      ensures session == Some(s)
      ensures events == old(events) + [Opened(s)]
    {
      s := made;
      made := made + 1;
      session := Some(s);
      events := events + [Opened(s)];
    }

    /**
     * Commits the current session when asked, then closes it. A commit that
     * raises propagates before the close, leaving the session current.
     */
    method CloseSession(commit: bool, commitError: Option<Exception>) returns (r: Result<Unit>)
      requires session.Some?
      modifies this
      ensures made == old(made)
      ensures var s := old(session).value;
              if commit && commitError.Some? then
                r == Err(commitError.value) && session == old(session) && events == old(events) + [CommitFailed(s)]
              else
                r == Ok(Unit) && session == None
                && events == old(events) + (if commit then [Committed(s)] else []) + [Closed(s)]
    {
      var s := session.value;
      if commit {
        if commitError.Some? {
          events := events + [CommitFailed(s)];
          return Err(commitError.value);
        }
        events := events + [Committed(s)];
      }
      events := events + [Closed(s)];
      session := None;
      r := Ok(Unit);
    }

    /**
     * The `withSession` wrapper around a DAO method whose own outcome is `body`.
     * When no session is current it opens one, commits it if the body succeeded
     * (`commitError` is what that commit raises, if anything) and always closes
     * it; a body that raises rolls the session back and the exception propagates.
     * A session that was already current is neither committed nor closed.
     */
    method WithSession<T>(body: Result<T>, commitError: Option<Exception>) returns (r: Result<T>)
      modifies this
      ensures session == old(session)
      ensures old(session).Some? ==>
        && r == body && made == old(made)
        && events == old(events) + (if body.Err? then [RolledBack(old(session).value)] else [])
      ensures old(session).None? ==>
        var s := old(made);
        && made == old(made) + 1
        && r == (if body.Ok? && commitError.Some? then Err(commitError.value) else body)
        && events == old(events) + [Opened(s)]
                     + (if body.Err? then [RolledBack(s)]
                        else if commitError.Some? then [CommitFailed(s)]
                        else [Committed(s)])
                     + [Closed(s)]
    {
      var close := false;
      if session.None? {
        var _ := OpenSession();
        close := true;
      }
      var s := session.value;
      r := body;
      if body.Err? {
        events := events + [RolledBack(s)];
      } else if close {
        if commitError.Some? {
          events := events + [CommitFailed(s)];
          r := Err(commitError.value);
        } else {
          events := events + [Committed(s)];
        }
      }
      if close {
        var _ := CloseSession(false, None);
      }
    }
  }

  // ---------------------------------------------------------------------------
  // Detached views

  /** What a DAO method hands back before conversion: nothing, one row, or a list of rows. */
  datatype Fetched<P> = NoRow | OneRow(row: P) | RowList(rows: seq<P>)

  /** The rows held by a fetch result. */
  function Fetches<P>(f: Fetched<P>): seq<P>
  {
    match f
    case NoRow => []
    case OneRow(p) => [p]
    case RowList(ps) => ps
  }

  /**
   * `_returnNonPersistent`: a list is converted element by element, nothing
   * stays nothing, and a single row is converted; `full` picks the full view.
   */
  function ReturnNonPersistent<P, V>(fetched: Fetched<P>, full: bool, lazyView: P --> V, fullView: P --> V): (r: Fetched<V>)
    requires forall i :: 0 <= i < |Fetches(fetched)| ==>
               (if full then fullView else lazyView).requires(Fetches(fetched)[i])
    ensures r.NoRow? <==> fetched.NoRow?
    ensures r.OneRow? <==> fetched.OneRow?
    ensures r.RowList? <==> fetched.RowList?
    ensures |Fetches(r)| == |Fetches(fetched)|
    ensures full ==> forall i :: 0 <= i < |Fetches(r)| ==> Fetches(r)[i] == fullView(Fetches(fetched)[i])
    ensures !full ==> forall i :: 0 <= i < |Fetches(r)| ==> Fetches(r)[i] == lazyView(Fetches(fetched)[i])
  {
    if full then Convert(fetched, fullView) else Convert(fetched, lazyView)
  }

  function Convert<P, V>(fetched: Fetched<P>, transform: P --> V): (r: Fetched<V>)
    requires forall i :: 0 <= i < |Fetches(fetched)| ==> transform.requires(Fetches(fetched)[i])
    ensures r.NoRow? <==> fetched.NoRow?
    ensures r.OneRow? <==> fetched.OneRow?
    ensures r.RowList? <==> fetched.RowList?
    ensures |Fetches(r)| == |Fetches(fetched)|
    ensures forall i :: 0 <= i < |Fetches(r)| ==> Fetches(r)[i] == transform(Fetches(fetched)[i])
  {
    match fetched
    case NoRow => NoRow
    case OneRow(p) =>
      assert Fetches(fetched)[0] == p;
      OneRow(transform(p))
    case RowList(ps) =>
      assert Fetches(fetched) == ps;
      RowList(seq(|ps|, i requires 0 <= i < |ps| => transform(ps[i])))
  }

  // ---------------------------------------------------------------------------
  // Generic queries (`_getBy` and the methods built on it)

  /** The rows that pass `keep`, ordered by `key` with ties left in their scan order. */
  function OrderBy<R>(rows: seq<(int, R)>, key: ((int, R)) -> string, keep: ((int, R)) -> bool): (r: seq<(int, R)>)
    ensures forall i :: 0 <= i < |r| ==> r[i] in rows && keep(r[i])
    ensures forall i :: 0 <= i < |rows| && keep(rows[i]) ==> rows[i] in r
    ensures forall i, j :: 0 <= i < j < |r| ==> Text.LexLe(key(r[i]), key(r[j]))
    ensures Collections.Distinct(rows) ==> Collections.Distinct(r)
  {
    var kept := Collections.Filter(rows, keep);
    var sorted := Collections.SortByKey(kept, key);
    Collections.FilterSubMultiset(rows, keep);
    Collections.SortByKeyPermutes(kept, key);
    Collections.SameElements(sorted, kept);
    Collections.SameElements(kept, sorted);
    KeepsDistinct(rows, sorted);
    sorted
  }

  /** A rearrangement of part of a sequence without repeats has no repeats. */
  lemma KeepsDistinct<T>(rows: seq<T>, part: seq<T>)
    requires multiset(part) <= multiset(rows)
    ensures Collections.Distinct(rows) ==> Collections.Distinct(part)
  {
    if Collections.Distinct(rows) {
      Collections.DistinctCounts(rows);
      Collections.CountsDistinct(part);
    }
  }

  /**
   * `_getBy`: the rows that pass `keep`, ordered by name (ties in rowid order),
   * then the optional OFFSET and LIMIT. `key` reads the name column of a row.
   */
  function GetBy<R>(table: map<int, R>, next: int, key: ((int, R)) -> string, keep: ((int, R)) -> bool,
                    offset: Option<nat>, limit: Option<nat>): (r: seq<(int, R)>)
    ensures forall i :: 0 <= i < |r| ==> r[i].0 in table && r[i].1 == table[r[i].0] && keep(r[i])
    ensures forall i, j :: 0 <= i < j < |r| ==> Text.LexLe(key(r[i]), key(r[j]))
    ensures limit.Some? ==> |r| <= limit.value
    ensures offset.None? && limit.None? && IdsBelow(table, next) ==>
              forall id :: id in table && keep((id, table[id])) ==> (id, table[id]) in r
    ensures forall i, j :: 0 <= i < j < |r| ==> r[i].0 != r[j].0
  {
    var scanned := ScanTable(table, next);
    var sorted := OrderBy(scanned, key, keep);
    OrderedScan(table, next, key, keep);
    PageIsSlice(sorted, offset, limit);
    PageKeepsKeysDistinct(scanned, sorted, offset, limit);
    Sql.Page(sorted, offset, limit)
  }

  /** OFFSET and LIMIT apply after ORDER BY: a page of `_getBy` is that page of the whole ordered result. */
  lemma GetByIsPage<R>(table: map<int, R>, next: int, key: ((int, R)) -> string, keep: ((int, R)) -> bool,
                       offset: Option<nat>, limit: Option<nat>)
    ensures GetBy(table, next, key, keep, offset, limit) == Sql.Page(GetBy(table, next, key, keep, None, None), offset, limit)
  {
    var sorted := OrderBy(ScanTable(table, next), key, keep);
    PageIsSlice(sorted, None, None);
  }

  lemma PageKeepsKeysDistinct<R>(scanned: seq<(int, R)>, sorted: seq<(int, R)>, offset: Option<nat>, limit: Option<nat>)
    requires forall i, j :: 0 <= i < j < |scanned| ==> scanned[i].0 < scanned[j].0
    requires Collections.Distinct(scanned) ==> Collections.Distinct(sorted)
    requires forall i :: 0 <= i < |sorted| ==> sorted[i] in scanned
    ensures var r := Sql.Page(sorted, offset, limit);
            forall i, j :: 0 <= i < j < |r| ==> r[i].0 != r[j].0
  {
    assert Collections.Distinct(scanned);
    PageIsSlice(sorted, offset, limit);
    var r := Sql.Page(sorted, offset, limit);
    forall i, j | 0 <= i < j < |r| ensures r[i].0 != r[j].0 {
      var a, b := sorted[i + offset.GetOr(0)], sorted[j + offset.GetOr(0)];
      assert r[i] == a && r[j] == b && a != b;
      var x :| 0 <= x < |scanned| && scanned[x] == a;
      var y :| 0 <= y < |scanned| && scanned[y] == b;
      assert x != y;
    }
  }

  lemma OrderedScan<R>(table: map<int, R>, next: int, key: ((int, R)) -> string, keep: ((int, R)) -> bool)
    ensures var sorted := OrderBy(ScanTable(table, next), key, keep);
            && (forall i :: 0 <= i < |sorted| ==> sorted[i].0 in table && sorted[i].1 == table[sorted[i].0])
            && (IdsBelow(table, next) ==> forall id :: id in table && keep((id, table[id])) ==> (id, table[id]) in sorted)
  {
    var scanned := ScanTable(table, next);
    var sorted := OrderBy(scanned, key, keep);
    forall i | 0 <= i < |sorted| ensures sorted[i].0 in table && sorted[i].1 == table[sorted[i].0] {
      RowOfScan(table, next, sorted[i]);
    }
    if IdsBelow(table, next) {
      forall id | id in table && keep((id, table[id])) ensures (id, table[id]) in sorted {
        assert (id, table[id]) in scanned;
        var j :| 0 <= j < |scanned| && scanned[j] == (id, table[id]);
        assert keep(scanned[j]);
      }
    }
  }

  lemma RowOfScan<R>(table: map<int, R>, next: int, p: (int, R))
    requires p in ScanTable(table, next)
    ensures p.0 in table && p.1 == table[p.0]
  {
    var scanned := ScanTable(table, next);
    var j :| 0 <= j < |scanned| && scanned[j] == p;
  }

  lemma PageIsSlice<T>(rows: seq<T>, offset: Option<nat>, limit: Option<nat>)
    ensures forall i :: 0 <= i < |Sql.Page(rows, offset, limit)| ==>
              Sql.Page(rows, offset, limit)[i] == rows[i + offset.GetOr(0)]
    ensures offset.None? && limit.None? ==> Sql.Page(rows, offset, limit) == rows
  {
  }

  /** The rows are in strictly ascending id order. */
  ghost predicate IdsAscending<R>(rows: seq<(int, R)>)
  {
    forall i, j :: 0 <= i < j < |rows| ==> rows[i].0 < rows[j].0
  }

  /** Every row of `rows` has an id above `id`. */
  ghost predicate AllAbove<R>(id: int, rows: seq<(int, R)>)
  {
    forall p :: p in rows ==> id < p.0
  }

  /** Filtering rows ascending by id keeps them ascending. */
  lemma {:induction false} FilterAscending<R>(rows: seq<(int, R)>, keep: ((int, R)) -> bool)
    requires IdsAscending(rows)
    ensures IdsAscending(Collections.Filter(rows, keep))
  {
    if rows != [] {
      var tail := rows[1..];
      HeadBelowTail(rows);
      FilterAscending(tail, keep);
      var rest := Collections.Filter(tail, keep);
      if keep(rows[0]) {
        assert AllAbove(rows[0].0, rest);
        ConsAscending(rows[0], rest);
        assert Collections.Filter(rows, keep) == [rows[0]] + rest;
      } else {
        assert Collections.Filter(rows, keep) == rest;
      }
    }
  }

  lemma HeadBelowTail<R>(rows: seq<(int, R)>)
    requires IdsAscending(rows) && rows != []
    ensures IdsAscending(rows[1..]) && AllAbove(rows[0].0, rows[1..])
  {
    forall p | p in rows[1..] ensures rows[0].0 < p.0 {
      var k :| 0 <= k < |rows[1..]| && rows[1..][k] == p;
      assert rows[k + 1] == p;
    }
  }

  lemma ConsAscending<R>(x: (int, R), rest: seq<(int, R)>)
    requires IdsAscending(rest) && AllAbove(x.0, rest)
    ensures IdsAscending([x] + rest)
  {
    var r := [x] + rest;
    forall i, j | 0 <= i < j < |r| ensures r[i].0 < r[j].0 {
      assert r[j] == rest[j - 1];
      if i > 0 {
        assert r[i] == rest[i - 1];
      }
    }
  }

  /** Rows that all carry the same name come out of `_getBy` in rowid order, that is ascending by id. */
  lemma SameKeyRowsAscending<R>(table: map<int, R>, next: int, key: ((int, R)) -> string, keep: ((int, R)) -> bool, n: string)
    requires forall p :: keep(p) ==> key(p) == n
    ensures IdsAscending(GetBy(table, next, key, keep, None, None))
  {
    var scanned := ScanTable(table, next);
    assert IdsAscending(scanned);
    var kept := Collections.Filter(scanned, keep);
    FilterAscending(scanned, keep);
    Collections.SortAllEqual(kept, key, n);
    var sorted := OrderBy(scanned, key, keep);
    assert sorted == kept;
    PageIsSlice(sorted, None, None);
    assert GetBy(table, next, key, keep, None, None) == sorted;
  }

  /** The first row `_getBy` gives for one name has the lowest id among the rows with that name. */
  lemma SameKeyFirstIsLeast<R>(table: map<int, R>, next: int, key: ((int, R)) -> string, keep: ((int, R)) -> bool, n: string)
    requires forall p :: keep(p) ==> key(p) == n
    requires forall p :: key(p) == n ==> keep(p)
    ensures var rows := GetBy(table, next, key, keep, None, None);
            IdsBelow(table, next) && rows != [] ==>
              forall id :: id in table && key((id, table[id])) == n ==> rows[0].0 <= id
  {
    var rows := GetBy(table, next, key, keep, None, None);
    SameKeyRowsAscending(table, next, key, keep, n);
    if rows != [] {
      FirstIsLeast(rows);
    }
  }

  /** The first of rows ascending by id has the lowest id. */
  lemma FirstIsLeast<R>(rows: seq<(int, R)>)
    requires IdsAscending(rows) && rows != []
    ensures forall p :: p in rows ==> rows[0].0 <= p.0
  {
    forall p | p in rows ensures rows[0].0 <= p.0 {
      var j :| 0 <= j < |rows| && rows[j] == p;
    }
  }

  /**
   * `getByName`: the first row, by name order, whose name is `n`. All such
   * rows share the name, so the first is the one with the lowest id.
   */
  function GetByName<R>(table: map<int, R>, next: int, key: ((int, R)) -> string, n: string): (r: Option<(int, R)>)
    ensures r.Some? ==> r.value.0 in table && r.value.1 == table[r.value.0] && key(r.value) == n
    ensures IdsBelow(table, next) ==> (r.None? <==> forall id :: id in table ==> key((id, table[id])) != n)
    ensures IdsBelow(table, next) && r.Some? ==>
              forall id :: id in table && key((id, table[id])) == n ==> r.value.0 <= id
  {
    var keep := (p: (int, R)) => key(p) == n;
    var rows := GetBy(table, next, key, keep, None, None);
    SameKeyFirstIsLeast(table, next, key, keep, n);
    if |rows| == 0 then None else Some(rows[0])
  }

  /** `_getById`: the row with primary key `id`, or nothing. */
  function GetById<R>(table: map<int, R>, id: int): (r: Option<R>)
    ensures r.Some? <==> id in table
    ensures r.Some? ==> r.value == table[id]
  {
    if id in table then Some(table[id]) else None
  }

  /** `order` lists every key of `table` exactly once: a random ordering of the table. */
  ghost predicate IsOrderOf<R>(order: seq<int>, table: map<int, R>)
  {
    && (forall i :: 0 <= i < |order| ==> order[i] in table)
    && (forall id :: id in table ==> id in order)
    && (forall i, j :: 0 <= i < j < |order| ==> order[i] != order[j])
  }

  /** `getRandom(limit)`: the first `limit` rows of a random ordering of the table. */
  function GetRandom<R>(table: map<int, R>, order: seq<int>, limit: nat): (r: seq<(int, R)>)
    requires IsOrderOf(order, table)
    ensures |r| == if limit < |table| then limit else |table|
    ensures forall i :: 0 <= i < |r| ==> r[i].0 in table && r[i].1 == table[r[i].0]
    ensures forall i, j :: 0 <= i < j < |r| ==> r[i].0 != r[j].0
  {
    DistinctKeysCount(order, table);
    var taken := if limit < |order| then order[..limit] else order;
    Rows(table, taken)
  }

  lemma DistinctKeysCount<R>(order: seq<int>, table: map<int, R>)
    requires IsOrderOf(order, table)
    ensures |order| == |table|
  {
    var ids := set i | 0 <= i < |order| :: order[i];
    forall id | id in table ensures id in ids {
      var i :| 0 <= i < |order| && order[i] == id;
    }
    assert ids == table.Keys;
    DistinctCard(order);
  }

  lemma {:induction false} DistinctCard(s: seq<int>)
    requires forall i, j :: 0 <= i < j < |s| ==> s[i] != s[j]
    ensures |set i | 0 <= i < |s| :: s[i]| == |s|
  {
    if s != [] {
      var rest := s[1..];
      DistinctCard(rest);
      var a := set i | 0 <= i < |s| :: s[i];
      var b := set i | 0 <= i < |rest| :: rest[i];
      assert a == b + {s[0]};
      assert s[0] !in b;
    }
  }

  // ---------------------------------------------------------------------------
  // Writes

  /** The new state of the database after a DAO write, and what the write returned or raised. */
  datatype Tx<T> = Tx(db: Db, outcome: Result<T>)

  /** One keyword argument of `update`: absent, or set (possibly to None). */
  datatype Change<T> = Keep | SetTo(value: Option<T>)
  {
    function Apply(current: T): Option<T>
    {
      match this
      case Keep => Some(current)
      case SetTo(v) => v
    }
  }

  /**
   * `update` on an id with no row: setting any attribute of the missing row
   * raises AttributeError naming it; with nothing to set the result is None.
   */
  function UpdateMissing<V>(firstChanged: Option<string>): (r: Result<Option<V>>)
    ensures r.Ok? <==> firstChanged.None?
    ensures r.Ok? ==> r.value.None?
  {
    match firstChanged
    case None => Ok(None)
    case Some(attribute) => Err(AttributeError(attribute))
  }

  /** The committed database every DAO reads and writes. */
  class Catalog {
    var files: map<int, FileRow>
    var tags: map<int, TagRow>
    var metatags: map<int, MetatagRow>
    var links: set<Link>
    var nextFile: int
    var nextTag: int
    var nextMetatag: int

    function State(): Db
      reads this
    {
      Db(files, tags, metatags, links, nextFile, nextTag, nextMetatag)
    }

    ghost predicate Valid()
      reads this
    {
      Wf(State())
    }

    /** A freshly created database has empty tables. */
    constructor ()
      ensures Valid() && State() == Empty()
    {
      files, tags, metatags, links := map[], map[], map[], {};
      nextFile, nextTag, nextMetatag := 1, 1, 1;
    }

    /** Makes `db` the committed state. */
    method Commit(db: Db)
      modifies this
      ensures State() == db
    {
      files, tags, metatags, links := db.files, db.tags, db.metatags, db.links;
      nextFile, nextTag, nextMetatag := db.nextFile, db.nextTag, db.nextMetatag;
    }
  }
}
