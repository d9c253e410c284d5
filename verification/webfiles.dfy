/**
 * The `/files` REST resource: the shared create, read, update and delete
 * handlers applied to the files DAO, and its own listing, which filters by a
 * name pattern and by tags. Each handler maps a database and a request to
 * the database after the request and the reply.
 */
module WebFiles {
  import opened Wrappers
  import opened Json
  import opened Persistent
  import opened Views
  import opened DaoCommon
  import opened WebCommon
  import FilesDao
  import Sql
  import Text

  /**
   * A body loaded with the lazy file schema, the schema of both create and
   * update: it knows `id`, `name` and `mime` only, and a loaded value is never None.
   */
  datatype FileInput = FileInput(id: Option<int>, name: Option<string>, mime: Option<string>)

  /** The keyword arguments a loaded body becomes: one per field present. */
  function DataOf(input: FileInput): (d: Data)
    ensures "id" in d <==> input.id.Some?
    ensures "name" in d <==> input.name.Some?
    ensures "mime" in d <==> input.mime.Some?
    ensures forall k :: k in d ==> d[k] != JNull
  {
    var withId: Data := if input.id.Some? then map["id" := JInt(input.id.value)] else map[];
    var withName := if input.name.Some? then withId["name" := JStr(input.name.value)] else withId;
    if input.mime.Some? then withName["mime" := JStr(input.mime.value)] else withName
  }

  /** `create_required_params` of the files resource. */
  const REQUIRED: seq<string> := ["name"]

  /** A file can be created only with a name. */
  lemma RequiresName(input: FileInput)
    ensures RequirementsMet(REQUIRED, DataOf(input)) <==> input.name.Some?
  {
    if input.name.Some? {
      assert forall i :: 0 <= i < |REQUIRED| ==> REQUIRED[i] == "name";
    } else {
      assert REQUIRED[0] !in DataOf(input);
    }
  }

  /**
   * `post()`: an unloadable body fails with 100, a body without a name with
   * 200, and otherwise `insert(**data)` is tried and its error reported as
   * 300. The insert never succeeds: a body with an `id` is refused by the
   * keyword signature, and the schema has no `relpath`, a NOT NULL column. So
   * every POST fails and the catalog is left as it was.
   */
  function Post(db: Db, loaded: Result<FileInput>): (r: (Db, Reply<Option<FileView>>))
    requires Wf(db)
    ensures r.0 == db
    ensures r.1.Failure? && r.1.status == BAD_REQUEST
    ensures loaded.Err? ==> r.1.code == CANNOT_LOAD
    ensures loaded.Ok? ==> r.1.code == if loaded.value.name.None? then MISSING_REQUIREMENTS else CANNOT_CREATE
  {
    if loaded.Err? then (db, Failure(CANNOT_LOAD, BAD_REQUEST))
    else
      var input := loaded.value;
      RequiresName(input);
      if !RequirementsMet(REQUIRED, DataOf(input)) then (db, Failure(MISSING_REQUIREMENTS, BAD_REQUEST))
      // insert() has no `id` keyword: a TypeError
      else if input.id.Some? then (db, Failure(CANNOT_CREATE, BAD_REQUEST))
      else
        var t := FilesDao.InsertTx(db, FilesDao.FileValues(input.name, None, input.mime));
        // without a relpath the insert always raises, so the created reply is never reached
        assert t.outcome.Err?;
        (t.db, Failure(CANNOT_CREATE, BAD_REQUEST))
  }

  /** A field present in the body is set; an absent one is kept. */
  function ChangeOf(v: Option<string>): (c: Change<string>)
    ensures v.None? <==> c.Keep?
    ensures v.Some? ==> c == SetTo(Some(v.value))
  {
    if v.None? then Keep else SetTo(Some(v.value))
  }

  /** The row a successful update leaves: the body's name and mime where given, the old values elsewhere. */
  function Updated(row: FileRow, input: FileInput): (r: FileRow)
    ensures r.relpath == row.relpath
    ensures r.name == input.name.GetOr(row.name) && r.mime == input.mime.GetOr(row.mime)
  {
    FileRow(input.name.GetOr(row.name), row.relpath, input.mime.GetOr(row.mime))
  }

  /**
   * `put(eid)`: an unloadable body fails with 100; otherwise
   * `update(eid, **data)` runs and its error is reported as 301. An existing
   * file takes the body's name and mime unless another file already has that
   * (relpath, name); a missing file is answered with None when the body is
   * empty and fails otherwise. A failure changes nothing.
   */
  function Put(db: Db, eid: int, loaded: Result<FileInput>): (r: (Db, Reply<Option<FileView>>))
    requires Wf(db)
    requires loaded.Ok? ==> loaded.value.id.None?
    ensures Wf(r.0)
    ensures r.1.Single? || r.1.Failure?
    ensures r.1.Failure? ==> r.0 == db && r.1.status == BAD_REQUEST
    ensures loaded.Err? ==> r.1 == Failure(CANNOT_LOAD, BAD_REQUEST)
    ensures loaded.Ok? && r.1.Failure? ==> r.1.code == CANNOT_CHANGE
    ensures r.1.Single? ==> r.1.status == OK
    ensures loaded.Ok? && eid !in db.files ==>
      r.0 == db && (r.1.Single? <==> loaded.value == FileInput(None, None, None)) && (r.1.Single? ==> r.1.entity.None?)
    ensures loaded.Ok? && eid in db.files ==>
      var row' := Updated(db.files[eid], loaded.value);
      && (r.1.Single? <==> !FilesDao.PathTaken(db.files, row'.relpath, row'.name, eid))
      && (r.1.Single? ==> r.0 == db.(files := db.files[eid := row']) && r.1.entity == Some(FileLazyOf(eid, row')))
  {
    if loaded.Err? then (db, Failure(CANNOT_LOAD, BAD_REQUEST))
    else
      var input := loaded.value;
      var t := FilesDao.UpdateTx(db, eid, FilesDao.FileChanges(ChangeOf(input.name), Keep, ChangeOf(input.mime)));
      if t.outcome.Err? then (db, Failure(CANNOT_CHANGE, BAD_REQUEST))
      else (t.db, Single(t.outcome.value, OK))
  }

  /** `deleteEntityPre`: the files resource keeps the default, which always allows the delete. */
  function DeleteEntityPre(eid: int): bool
  {
    true
  }

  /**
   * `delete(eid)`: the file and its tag links go and the reply is empty with
   * 204; a missing file fails with 301 and nothing changes.
   */
  function Delete(db: Db, eid: int): (r: (Db, Reply<Option<FileView>>))
    requires Wf(db)
    ensures Wf(r.0)
    ensures r.1 == NoContent <==> eid in db.files
    ensures r.1 != NoContent ==> r == (db, Failure(CANNOT_CHANGE, BAD_REQUEST))
    ensures r.1 == NoContent ==>
      && r.0.files == db.files - {eid}
      && r.0.links == set l | l in db.links && l.file != eid
      && r.0.tags == db.tags && r.0.metatags == db.metatags
  {
    if !DeleteEntityPre(eid) then (db, Refused)
    else
      var t := FilesDao.DeleteTx(db, eid);
      if t.outcome.Err? then (db, Failure(CANNOT_CHANGE, BAD_REQUEST))
      else (t.db, NoContent)
  }

  /** The query-string arguments of a listing; `offset` and `limit` already as numbers. */
  datatype Query = Query(name: Option<string>, tags: seq<string>, offset: Option<nat>, limit: Option<nat>)

  /**
   * The LIKE pattern of a `name` argument: every space becomes '%', and the
   * whole is wrapped in '%'. An empty name gives "%%", which matches every
   * file; no argument gives no pattern.
   */
  function NamePattern(name: Option<string>): (r: Option<string>)
    ensures r.None? <==> name.None?
    ensures r.Some? ==>
      var p := r.value;
      && |p| == |name.value| + 2 && p[0] == '%' && p[|p| - 1] == '%'
      && forall i :: 0 <= i < |name.value| ==> p[i + 1] == if name.value[i] == ' ' then '%' else name.value[i]
  {
    if name.None? then None
    else
      Text.ReplaceChar(name.value, ' ', '%');
      Some("%" + Text.Replace(name.value, " ", "%") + "%")
  }

  /**
   * A pattern prefix that is the text prefix with its spaces turned into '%'
   * can be consumed: each '%' matches the space it replaced.
   */
  lemma {:induction false} LikeSpacesAsWildcards(pt: string, t: string, q: string, s: string)
    requires |pt| == |t|
    requires forall i :: 0 <= i < |t| ==> pt[i] == if t[i] == ' ' then '%' else t[i]
    requires Sql.Like(q, s)
    ensures Sql.Like(pt + q, t + s)
    decreases |t|
  {
    if t != [] {
      LikeSpacesAsWildcards(pt[1..], t[1..], q, s);
      var p, u := pt + q, t + s;
      assert p[1..] == pt[1..] + q;
      assert u[1..] == t[1..] + s;
      assert p[0] == pt[0] && u[0] == t[0];
      if pt[0] == '%' {
        // '%' first matches nothing, then it consumes the character it stands for
        assert Sql.Like(p[1..], u[1..]);
        assert Sql.Like(p, u[1..]);
      } else {
        assert Sql.CharMatches(p[0], u[0]);
      }
    } else {
      assert pt + q == q && t + s == s;
    }
  }

  /** The pattern of a name argument matches every file name that contains the argument. */
  lemma NamePatternFindsContaining(q: string, a: string, b: string)
    ensures FilesDao.NameMatches(NamePattern(Some(q)), a + q + b)
  {
    var w := NamePattern(Some(q)).value[1..|q| + 1];
    assert NamePattern(Some(q)).value == "%" + w + "%";
    Sql.LikeAnything(b);
    LikeSpacesAsWildcards(w, q, "%", b);
    Sql.LikeSkip(w + "%", a, q + b);
    assert "%" + w + "%" == "%" + (w + "%");
    assert a + q + b == a + (q + b);
  }

  /**
   * `Files.getEntities()`: the name pattern and the `tags` arguments go to
   * `getByNameAndTags`. The arguments are strings, which have no `id`, so any
   * tag argument makes the DAO raise AttributeError, which escapes the handler.
   */
  function GetEntities(db: Db, query: Query): (r: Result<seq<FileView>>)
    requires Wf(db)
    ensures query.tags != [] ==> r == Err(AttributeError("id"))
    ensures query.tags == [] ==> r == Ok(FilesDao.ByNameAndTags(db, NamePattern(query.name), [], query.offset, query.limit))
  {
    var refs := seq(|query.tags|, i requires 0 <= i < |query.tags| => FilesDao.TagText(query.tags[i]));
    assert query.tags != [] ==> refs[0].TagText?;
    FilesDao.GetByNameAndTags(db, NamePattern(query.name), Some(refs), query.offset, query.limit)
  }

  /**
   * `get(eid)`: with an id, the full view of that file (None when there is
   * none); without, the listing. An exception of the DAO is not caught.
   */
  function Get(db: Db, eid: Option<int>, query: Query): (r: Result<Reply<Option<FileView>>>)
    requires Wf(db)
    ensures eid.Some? ==> r == Ok(Single(FilesDao.GetById(db, eid.value), OK))
    ensures eid.None? ==> (r.Ok? <==> query.tags == []) && (r.Err? ==> r.error == AttributeError("id"))
    ensures eid.None? && r.Ok? ==>
      r.value.Listing? &&
      var l := r.value.entities;
      |l| == |GetEntities(db, query).value| &&
      forall i :: 0 <= i < |l| ==> l[i] == Some(GetEntities(db, query).value[i])
  {
    if eid.Some? then Ok(Single(FilesDao.GetById(db, eid.value), OK))
    else
      match GetEntities(db, query)
      case Err(e) => Err(e)
      case Ok(files) => Ok(Listing(Entities(files)))
  }

  /** The listing's entities: each file, wrapped. */
  function Entities(files: seq<FileView>): (r: seq<Option<FileView>>)
    ensures |r| == |files| && forall i :: 0 <= i < |r| ==> r[i] == Some(files[i])
  {
    seq(|files|, i requires 0 <= i < |files| => Some(files[i]))
  }

  // ---------------------------------------------------------------------------
  // Requests in sequence

  /** Listing by any part of a file's name, without tags, offset or limit, includes that file. */
  lemma ListingFindsByName(db: Db, f: int, a: string, q: string, b: string)
    requires Wf(db) && f in db.files && db.files[f].name == a + q + b
    ensures Get(db, None, Query(Some(q), [], None, None)).Ok?
    ensures Some(FileLazyOf(f, db.files[f])) in Get(db, None, Query(Some(q), [], None, None)).value.entities
  {
    NamePatternFindsContaining(q, a, b);
    FilesDao.SelectsConjunction(db, NamePattern(Some(q)), [], f);
    var files := GetEntities(db, Query(Some(q), [], None, None)).value;
    var i :| 0 <= i < |files| && files[i] == FileLazyOf(f, db.files[f]);
    assert Get(db, None, Query(Some(q), [], None, None)).value.entities[i] == Some(files[i]);
  }

  /** After a successful update, reading the file back gives the new name and mime, its tags unchanged. */
  lemma PutThenGet(db: Db, eid: int, input: FileInput)
    requires Wf(db) && input.id.None?
    requires Put(db, eid, Ok(input)).1.Single? && eid in db.files
    ensures var db' := Put(db, eid, Ok(input)).0;
      var v := Get(db', Some(eid), Query(None, [], None, None)).value.entity.value;
      && v.name == input.name.GetOr(db.files[eid].name)
      && v.mime == input.mime.GetOr(db.files[eid].mime)
      && v.relpath == db.files[eid].relpath
      && v.tags == FilesDao.GetById(db, eid).value.tags
  {
    var db' := Put(db, eid, Ok(input)).0;
    assert db'.links == db.links && db'.tags == db.tags && db'.metatags == db.metatags && db'.nextTag == db.nextTag;
    assert TagIdsOfFile(db', eid) == TagIdsOfFile(db, eid);
  }

  /** After a delete, reading the file gives None and deleting it again fails. */
  lemma DeleteThenGet(db: Db, eid: int)
    requires Wf(db) && eid in db.files
    ensures var db' := Delete(db, eid).0;
      && Get(db', Some(eid), Query(None, [], None, None)) == Ok(Single(None, OK))
      && Delete(db', eid) == (db', Failure(CANNOT_CHANGE, BAD_REQUEST))
  {
  }
}
