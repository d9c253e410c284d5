/**
 * The files DAO: the generic entity operations on the Files table, tagging
 * and untagging a file, and the search by name pattern and tags.
 */
module FilesDao {
  import opened Wrappers
  import opened Persistent
  import opened Views
  import opened DaoCommon
  import Sql

  /** The column the default ORDER BY reads. */
  function FileName(p: (int, FileRow)): string
  {
    p.1.name
  }

  function AnyFile(p: (int, FileRow)): bool
  {
    true
  }

  function LazyFile(p: (int, FileRow)): FileView
  {
    FileLazyOf(p.0, p.1)
  }

  /** The keyword arguments of `insert`; a missing value is None. */
  datatype FileValues = FileValues(name: Option<string>, relpath: Option<string>, mime: Option<string>)

  /** The keyword arguments of `update`. */
  datatype FileChanges = FileChanges(name: Change<string>, relpath: Change<string>, mime: Change<string>)

  /** How a caller designates a tag: its id, a tag view, or (as the web layer does) text. */
  datatype TagRef = TagId(id: int) | TagEntity(tag: TagView) | TagText(text: string)

  /** `_getTagId`: an int is the id; anything else must have an `id` attribute. */
  function GetTagId(ref: TagRef): (r: Result<int>)
    ensures r.Err? <==> ref.TagText?
    ensures ref.TagId? ==> r == Ok(ref.id)
    ensures ref.TagEntity? ==> r == Ok(ref.tag.id)
  {
    match ref
    case TagId(id) => Ok(id)
    case TagEntity(tag) => Ok(tag.id)
    case TagText(_) => Err(AttributeError("id"))
  }

  /** Some file other than `except` already has this (relpath, name). */
  predicate PathTaken(files: map<int, FileRow>, relpath: string, name: string, except: int)
  {
    exists f :: f in files && f != except && files[f].relpath == relpath && files[f].name == name
  }

  // ---------------------------------------------------------------------------
  // Reads

  /** The lazy views of file rows, in the same order. */
  function LazyFiles(rows: seq<(int, FileRow)>): (r: seq<FileView>)
    ensures |r| == |rows|
    ensures forall i :: 0 <= i < |r| ==> r[i] == FileLazyOf(rows[i].0, rows[i].1)
  {
    seq(|rows|, i requires 0 <= i < |rows| => FileLazyOf(rows[i].0, rows[i].1))
  }

  /** Rows of the Files table ordered by name give lazy views of those files ordered by name. */
  lemma LazyFilesOfTable(db: Db, rows: seq<(int, FileRow)>)
    requires forall i :: 0 <= i < |rows| ==> rows[i].0 in db.files && rows[i].1 == db.files[rows[i].0]
    requires forall i, j :: 0 <= i < j < |rows| ==> Text.LexLe(FileName(rows[i]), FileName(rows[j]))
    ensures var r := LazyFiles(rows);
            && (forall i :: 0 <= i < |r| ==> r[i].FileLazy? && r[i].id in db.files && r[i] == FileLazyOf(r[i].id, db.files[r[i].id]))
            && (forall i, j :: 0 <= i < j < |r| ==> Text.LexLe(r[i].name, r[j].name))
            && (forall f :: f in db.files && (f, db.files[f]) in rows ==> FileLazyOf(f, db.files[f]) in r)
  {
    var r := LazyFiles(rows);
    forall i, j | 0 <= i < j < |r| ensures Text.LexLe(r[i].name, r[j].name) {
      assert r[i].name == FileName(rows[i]) && r[j].name == FileName(rows[j]);
    }
    forall f | f in db.files && (f, db.files[f]) in rows ensures FileLazyOf(f, db.files[f]) in r {
      var k :| 0 <= k < |rows| && rows[k] == (f, db.files[f]);
      assert r[k] == FileLazyOf(f, db.files[f]);
    }
  }

  /** `getAll`: every file as a lazy view, ordered by name. */
  function GetAll(db: Db): (r: seq<FileView>)
    ensures forall i :: 0 <= i < |r| ==> r[i].FileLazy? && r[i].id in db.files && r[i] == FileLazyOf(r[i].id, db.files[r[i].id])
    ensures forall i, j :: 0 <= i < j < |r| ==> Text.LexLe(r[i].name, r[j].name)
    ensures IdsBelow(db.files, db.nextFile) ==> forall f :: f in db.files ==> FileLazyOf(f, db.files[f]) in r
  {
    var rows := GetBy(db.files, db.nextFile, FileName, AnyFile, None, None);
    LazyFilesOfTable(db, rows);
    LazyFiles(rows)
  }

  /** `getById`: the full view of the file, or None. */
  function GetById(db: Db, id: int): (r: Option<FileView>)
    requires Wf(db)
    ensures r.Some? <==> id in db.files
    ensures r.Some? ==> r.value == FileFullOf(db, id)
  {
    if id in db.files then Some(FileFullOf(db, id)) else None
  }

  /** `getByName`: the full view of the first file, by name order, with this name. */
  function GetByName(db: Db, name: string): (r: Option<FileView>)
    requires Wf(db)
    ensures r.Some? ==> r.value.FileFull? && r.value.name == name && r.value.id in db.files
    ensures r.Some? ==> r.value == FileFullOf(db, r.value.id)
    ensures r.None? <==> forall f :: f in db.files ==> db.files[f].name != name
    ensures r.Some? ==> forall f :: f in db.files && db.files[f].name == name ==> r.value.id <= f
  {
    match DaoCommon.GetByName(db.files, db.nextFile, FileName, name)
    case None => None
    case Some(p) => Some(FileFullOf(db, p.0))
  }

  /** `getRandom(limit)`: `limit` files of a random order (`order`), as lazy views. */
  function GetRandom(db: Db, order: seq<int>, limit: nat): (r: seq<FileView>)
    requires IsOrderOf(order, db.files)
    ensures |r| == if limit < |db.files| then limit else |db.files|
    ensures forall i :: 0 <= i < |r| ==> r[i].FileLazy? && r[i].id in db.files
    ensures forall i, j :: 0 <= i < j < |r| ==> r[i].id != r[j].id
  {
    var rows := DaoCommon.GetRandom(db.files, order, limit);
    seq(|rows|, i requires 0 <= i < |rows| => LazyFile(rows[i]))
  }

  /** The filter of `getByNameAndTags`: the name matches the LIKE pattern and the file carries every tag. */
  predicate Matches(db: Db, name: Option<string>, tagIds: seq<int>, p: (int, FileRow))
  {
    NameMatches(name, p.1.name) && forall i :: 0 <= i < |tagIds| ==> Link(p.0, tagIds[i]) in db.links
  }

  /** No pattern, or a name LIKE the pattern. */
  predicate NameMatches(pattern: Option<string>, name: string)
  {
    pattern.None? || Sql.Like(pattern.value, name)
  }

  /** File `f` is linked to the tag every reference designates. */
  predicate CarriesAll(db: Db, f: int, refs: seq<TagRef>)
    requires forall i :: 0 <= i < |refs| ==> !refs[i].TagText?
  {
    forall i :: 0 <= i < |refs| ==> Link(f, GetTagId(refs[i]).value) in db.links
  }

  /** The rows `getByNameAndTags` selects once the tag ids are known. */
  function MatchingRows(db: Db, name: Option<string>, tagIds: seq<int>, offset: Option<nat>, limit: Option<nat>): (r: seq<(int, FileRow)>)
    ensures forall i :: 0 <= i < |r| ==> r[i].0 in db.files && r[i].1 == db.files[r[i].0] && Matches(db, name, tagIds, r[i])
    ensures forall i, j :: 0 <= i < j < |r| ==> Text.LexLe(FileName(r[i]), FileName(r[j]))
    ensures limit.Some? ==> |r| <= limit.value
    ensures offset.None? && limit.None? && IdsBelow(db.files, db.nextFile) ==>
      forall f :: f in db.files && Matches(db, name, tagIds, (f, db.files[f])) ==> (f, db.files[f]) in r
    ensures offset.Some? || limit.Some? ==> r == Sql.Page(MatchingRows(db, name, tagIds, None, None), offset, limit)
    decreases if offset.None? && limit.None? then 0 else 1
  {
    var keep := (p: (int, FileRow)) => Matches(db, name, tagIds, p);
    GetByIsPage(db.files, db.nextFile, FileName, keep, offset, limit);
    GetBy(db.files, db.nextFile, FileName, keep, offset, limit)
  }

  /** The files `getByNameAndTags` selects once the tag ids are known, as lazy views. */
  function ByNameAndTags(db: Db, name: Option<string>, tagIds: seq<int>, offset: Option<nat>, limit: Option<nat>): (r: seq<FileView>)
    ensures forall i :: 0 <= i < |r| ==>
              r[i].FileLazy? && r[i].id in db.files && r[i] == FileLazyOf(r[i].id, db.files[r[i].id])
    ensures forall i :: 0 <= i < |r| ==> Matches(db, name, tagIds, (r[i].id, db.files[r[i].id]))
    ensures forall i, j :: 0 <= i < j < |r| ==> Text.LexLe(r[i].name, r[j].name)
    ensures limit.Some? ==> |r| <= limit.value
    ensures offset.None? && limit.None? && IdsBelow(db.files, db.nextFile) ==>
      forall f :: f in db.files && Matches(db, name, tagIds, (f, db.files[f])) ==> FileLazyOf(f, db.files[f]) in r
    ensures offset.Some? || limit.Some? ==> r == Sql.Page(ByNameAndTags(db, name, tagIds, None, None), offset, limit)
    decreases if offset.None? && limit.None? then 0 else 1
  {
    var rows := MatchingRows(db, name, tagIds, offset, limit);
    LazyFilesOfTable(db, rows);
    LazyFilesMatch(db, name, tagIds, rows);
    LazyFilesPage(MatchingRows(db, name, tagIds, None, None), offset, limit);
    LazyFiles(rows)
  }

  /** Taking a page of the rows and then their lazy views gives the same page of views. */
  lemma LazyFilesPage(rows: seq<(int, FileRow)>, offset: Option<nat>, limit: Option<nat>)
    ensures LazyFiles(Sql.Page(rows, offset, limit)) == Sql.Page(LazyFiles(rows), offset, limit)
  {
    var skip := offset.GetOr(0);
    var a := LazyFiles(Sql.Page(rows, offset, limit));
    var b := Sql.Page(LazyFiles(rows), offset, limit);
    if skip <= |rows| {
      var page := Sql.Page(rows, offset, limit);
      assert |a| == |b|;
      forall k | 0 <= k < |a| ensures a[k] == b[k] {
        assert page[k] == rows[skip..][k];
        assert b[k] == LazyFiles(rows)[skip..][k];
      }
    }
  }

  lemma LazyFilesMatch(db: Db, name: Option<string>, tagIds: seq<int>, rows: seq<(int, FileRow)>)
    requires forall i :: 0 <= i < |rows| ==> rows[i].0 in db.files && rows[i].1 == db.files[rows[i].0] && Matches(db, name, tagIds, rows[i])
    ensures var r := LazyFiles(rows);
            forall i :: 0 <= i < |r| ==> r[i].id in db.files && Matches(db, name, tagIds, (r[i].id, db.files[r[i].id]))
  {
    var r := LazyFiles(rows);
    forall i | 0 <= i < |r| ensures r[i].id in db.files && Matches(db, name, tagIds, (r[i].id, db.files[r[i].id])) {
      assert rows[i] == (r[i].id, db.files[r[i].id]);
    }
  }

  /** The tag ids the references resolve to, or the error of the first that does not. */
  function ResolveTagIds(refs: seq<TagRef>): (r: Result<seq<int>>)
    ensures r.Ok? <==> forall i :: 0 <= i < |refs| ==> !refs[i].TagText?
    ensures r.Err? ==> r.error == AttributeError("id")
    ensures r.Ok? ==> |r.value| == |refs| && forall i :: 0 <= i < |refs| ==> GetTagId(refs[i]) == Ok(r.value[i])
  {
    if refs == [] then Ok([])
    else match GetTagId(refs[0])
      case Err(e) => Err(e)
      case Ok(id) =>
        match ResolveTagIds(refs[1..])
        case Err(e) => Err(e)
        case Ok(ids) => Ok([id] + ids)
  }

  /**
   * `getByNameAndTags`: files whose name is LIKE `name` (when given) and that
   * carry every tag in `tags` (when given), ordered by name, then OFFSET and
   * LIMIT. Building the query reads each tag's id; a tag given as text has none.
   */
  function GetByNameAndTags(db: Db, name: Option<string>, tags: Option<seq<TagRef>>,
                            offset: Option<nat>, limit: Option<nat>): (r: Result<seq<FileView>>)
    ensures r.Err? <==> tags.Some? && exists i :: 0 <= i < |tags.value| && tags.value[i].TagText?
    ensures r.Err? ==> r.error == AttributeError("id")
    ensures r.Ok? && tags.None? ==> r.value == ByNameAndTags(db, name, [], offset, limit)
    ensures r.Ok? && tags.Some? ==> r.value == ByNameAndTags(db, name, ResolveTagIds(tags.value).value, offset, limit)
  {
    if tags.None? then Ok(ByNameAndTags(db, name, [], offset, limit))
    else match ResolveTagIds(tags.value)
      case Err(e) => Err(e)
      case Ok(ids) => Ok(ByNameAndTags(db, name, ids, offset, limit))
  }

  /** A file is selected exactly when it matches the name and carries every given tag. */
  lemma SelectsConjunction(db: Db, name: Option<string>, refs: seq<TagRef>, f: int)
    requires IdsBelow(db.files, db.nextFile) && f in db.files
    requires forall i :: 0 <= i < |refs| ==> !refs[i].TagText?
    ensures FileLazyOf(f, db.files[f]) in GetByNameAndTags(db, name, Some(refs), None, None).value <==>
              NameMatches(name, db.files[f].name) && CarriesAll(db, f, refs)
  {
    MatchesByRefs(db, name, refs, (f, db.files[f]));
    SelectedIffMatches(db, name, ResolveTagIds(refs).value, f);
  }

  lemma SelectedIffMatches(db: Db, name: Option<string>, ids: seq<int>, f: int)
    requires IdsBelow(db.files, db.nextFile) && f in db.files
    ensures FileLazyOf(f, db.files[f]) in ByNameAndTags(db, name, ids, None, None) <==> Matches(db, name, ids, (f, db.files[f]))
  {
    var r := ByNameAndTags(db, name, ids, None, None);
    if FileLazyOf(f, db.files[f]) in r {
      var k :| 0 <= k < |r| && r[k] == FileLazyOf(f, db.files[f]);
      assert r[k].id == f;
    }
  }

  lemma MatchesByRefs(db: Db, name: Option<string>, refs: seq<TagRef>, p: (int, FileRow))
    requires forall i :: 0 <= i < |refs| ==> !refs[i].TagText?
    ensures Matches(db, name, ResolveTagIds(refs).value, p) <==> NameMatches(name, p.1.name) && CarriesAll(db, p.0, refs)
  {
    var ids := ResolveTagIds(refs).value;
    assert forall i :: 0 <= i < |refs| ==> GetTagId(refs[i]).value == ids[i];
  }

  /** With no name and no tags every file is returned. */
  lemma NoFilterSelectsAll(db: Db, f: int)
    requires Wf(db) && f in db.files
    ensures FileLazyOf(f, db.files[f]) in GetByNameAndTags(db, None, None, None, None).value
  {
    assert Matches(db, None, [], (f, db.files[f]));
  }

  // ---------------------------------------------------------------------------
  // Writes

  /**
   * `insert(name, relpath, mime)`: a NOT NULL column without a value or a
   * (relpath, name) pair already present raises IntegrityError and nothing is
   * stored; otherwise the row gets the next id and its full view is returned.
   */
  function InsertTx(db: Db, v: FileValues): (t: Tx<FileView>)
    requires Wf(db)
    ensures Wf(t.db)
    ensures t.outcome.Err? ==> t.db == db
    ensures t.outcome.Ok? <==>
      v.name.Some? && v.relpath.Some? && v.mime.Some? && !PathTaken(db.files, v.relpath.value, v.name.value, db.nextFile)
    ensures t.outcome.Ok? ==>
      var id := t.outcome.value.id;
      && id !in db.files
      && t.db.files == db.files[id := FileRow(v.name.value, v.relpath.value, v.mime.value)]
      && t.db.tags == db.tags && t.db.metatags == db.metatags && t.db.links == db.links
      && t.outcome.value.FileFull? && t.outcome.value.tags == []
  {
    if v.name.None? then Tx(db, Err(IntegrityError(NotNull("Files.name"))))
    else if v.relpath.None? then Tx(db, Err(IntegrityError(NotNull("Files.relpath"))))
    else if v.mime.None? then Tx(db, Err(IntegrityError(NotNull("Files.mime"))))
    else if PathTaken(db.files, v.relpath.value, v.name.value, db.nextFile) then
      Tx(db, Err(IntegrityError(Unique("Files.relpath, Files.name"))))
    else
      var id := db.nextFile;
      var db' := db.(files := db.files[id := FileRow(v.name.value, v.relpath.value, v.mime.value)], nextFile := id + 1);
      assert TagIdsOfFile(db', id) == [] by {
        assert id !in db.files;
        assert (set l | l in db'.links && l.file == id :: l.tag) == {};
      }
      Tx(db', Ok(FileFullOf(db', id)))
  }

  /** The first attribute `update` would set, in keyword order. */
  function FirstChanged(ch: FileChanges): Option<string>
  {
    if ch.name.SetTo? then Some("name")
    else if ch.relpath.SetTo? then Some("relpath")
    else if ch.mime.SetTo? then Some("mime")
    else None
  }

  /**
   * `update(id, ...)`: a missing row gives None when nothing is set and
   * AttributeError otherwise; a column set to None or a clash with another
   * file's (relpath, name) raises IntegrityError; otherwise the row takes the
   * new values and its lazy view is returned. Nothing changes on an error.
   */
  function UpdateTx(db: Db, id: int, ch: FileChanges): (t: Tx<Option<FileView>>)
    requires Wf(db)
    ensures Wf(t.db)
    ensures t.outcome.Err? ==> t.db == db
    ensures id !in db.files ==> t.db == db && (t.outcome.Ok? <==> FirstChanged(ch).None?)
    ensures t.outcome.Ok? && t.outcome.value.Some? ==>
      id in db.files &&
      var row := db.files[id];
      ch.name.Apply(row.name).Some? && ch.relpath.Apply(row.relpath).Some? && ch.mime.Apply(row.mime).Some? &&
      var row' := FileRow(ch.name.Apply(row.name).value, ch.relpath.Apply(row.relpath).value, ch.mime.Apply(row.mime).value);
      t.db == db.(files := db.files[id := row'])
      && t.outcome.value.value == FileLazyOf(id, row')
    ensures id in db.files ==>
      var row := db.files[id];
      var name, relpath := ch.name.Apply(row.name), ch.relpath.Apply(row.relpath);
      (t.outcome.Ok? <==> name.Some? && relpath.Some? && ch.mime.Apply(row.mime).Some?
                          && !PathTaken(db.files, relpath.value, name.value, id))
      && (t.outcome.Ok? ==> t.outcome.value.Some?)
  {
    if id !in db.files then Tx(db, UpdateMissing(FirstChanged(ch)))
    else
      var row := db.files[id];
      var name, relpath, mime := ch.name.Apply(row.name), ch.relpath.Apply(row.relpath), ch.mime.Apply(row.mime);
      if name.None? then Tx(db, Err(IntegrityError(NotNull("Files.name"))))
      else if relpath.None? then Tx(db, Err(IntegrityError(NotNull("Files.relpath"))))
      else if mime.None? then Tx(db, Err(IntegrityError(NotNull("Files.mime"))))
      else if PathTaken(db.files, relpath.value, name.value, id) then
        Tx(db, Err(IntegrityError(Unique("Files.relpath, Files.name"))))
      else
        var row' := FileRow(name.value, relpath.value, mime.value);
        Tx(db.(files := db.files[id := row']), Ok(Some(FileLazyOf(id, row'))))
  }

  /** `delete(id)`: the row and its FileTags rows go; a missing row raises. */
  function DeleteTx(db: Db, id: int): (t: Tx<Unit>)
    requires Wf(db)
    ensures Wf(t.db)
    ensures t.outcome.Ok? <==> id in db.files
    ensures t.outcome.Err? ==> t.db == db && t.outcome.error == UnmappedInstance
    ensures t.outcome.Ok? ==>
      && t.db.files == db.files - {id}
      && t.db.links == set l | l in db.links && l.file != id
      && t.db.tags == db.tags && t.db.metatags == db.metatags
  {
    if id !in db.files then Tx(db, Err(UnmappedInstance))
    else Tx(db.(files := db.files - {id}, links := set l | l in db.links && l.file != id), Ok(Unit))
  }

  /**
   * `addTag(file, tag)`: the tag must exist (NoResultFound otherwise) and the
   * file too (AttributeError otherwise); the link is added unless present.
   * The returned full view lists the file's tags in their loaded order with a
   * newly added tag last.
   */
  function AddTagTx(db: Db, f: int, t: int): (r: Tx<FileView>)
    requires Wf(db)
    ensures Wf(r.db)
    ensures r.outcome.Err? ==> r.db == db
    ensures t !in db.tags ==> r.outcome == Err(NoResultFound)
    ensures t in db.tags && f !in db.files ==> r.outcome == Err(AttributeError("tags"))
    ensures r.outcome.Ok? <==> t in db.tags && f in db.files
    ensures r.outcome.Ok? ==>
      && r.db == db.(links := db.links + {Link(f, t)})
      && r.outcome.value == FileWithTags(r.db, f, TagIdsOfFile(db, f) + (if Link(f, t) in db.links then [] else [t]))
  {
    if t !in db.tags then Tx(db, Err(NoResultFound))
    else if f !in db.files then Tx(db, Err(AttributeError("tags")))
    else
      var db' := db.(links := db.links + {Link(f, t)});
      var order := TagIdsOfFile(db, f) + (if Link(f, t) in db.links then [] else [t]);
      Tx(db', Ok(FileWithTags(db', f, order)))
  }

  /**
   * `removeTag(file, tag)`: the same lookups as `addTag`; the link is removed
   * if present and the file's full view is returned.
   */
  function RemoveTagTx(db: Db, f: int, t: int): (r: Tx<FileView>)
    requires Wf(db)
    ensures Wf(r.db)
    ensures r.outcome.Err? ==> r.db == db
    ensures t !in db.tags ==> r.outcome == Err(NoResultFound)
    ensures t in db.tags && f !in db.files ==> r.outcome == Err(AttributeError("tags"))
    ensures r.outcome.Ok? <==> t in db.tags && f in db.files
    ensures r.outcome.Ok? ==>
      && r.db == db.(links := db.links - {Link(f, t)})
      && r.outcome.value == FileFullOf(r.db, f)
  {
    if t !in db.tags then Tx(db, Err(NoResultFound))
    else if f !in db.files then Tx(db, Err(AttributeError("tags")))
    else
      var db' := db.(links := db.links - {Link(f, t)});
      Tx(db', Ok(FileFullOf(db', f)))
  }

  // ---------------------------------------------------------------------------
  // Properties of the writes

  /** Tagging twice is tagging once. */
  lemma AddTagIdempotent(db: Db, f: int, t: int)
    requires Wf(db)
    ensures AddTagTx(AddTagTx(db, f, t).db, f, t).db == AddTagTx(db, f, t).db
  {
  }

  /** Untagging undoes a tagging that added a new link. */
  lemma RemoveUndoesAdd(db: Db, f: int, t: int)
    requires Wf(db) && Link(f, t) !in db.links
    ensures RemoveTagTx(AddTagTx(db, f, t).db, f, t).db == db
  {
    if t in db.tags && f in db.files {
      assert db.links + {Link(f, t)} - {Link(f, t)} == db.links;
    }
  }

  /** After a successful `addTag` the returned view lists the tag exactly once. */
  lemma AddTagShowsTagOnce(db: Db, f: int, t: int)
    requires Wf(db) && AddTagTx(db, f, t).outcome.Ok?
    ensures var v := AddTagTx(db, f, t).outcome.value;
            |set i | 0 <= i < |v.tags| && v.tags[i].id == t| == 1
  {
    var v := AddTagTx(db, f, t).outcome.value;
    var linked := TagIdsOfFile(db, f);
    var ids := linked + (if Link(f, t) in db.links then [] else [t]);
    var k := if Link(f, t) in db.links then IndexOf(linked, t) else |linked|;
    assert k < |ids| && ids[k] == t;
    forall i | 0 <= i < |ids| && i != k ensures ids[i] != t {
      if i < |linked| && k < |linked| {
        assert linked[i] != linked[k] by {
          if i < k { assert linked[i] < linked[k]; } else { assert linked[k] < linked[i]; }
        }
      }
    }
    assert forall i :: 0 <= i < |v.tags| ==> v.tags[i].id == ids[i];
    assert (set i | 0 <= i < |v.tags| && v.tags[i].id == t) == {k};
  }

  /** Two files never share (relpath, name): the unique constraint survives every write. */
  lemma InsertKeepsPathsUnique(db: Db, v: FileValues, a: int, b: int)
    requires Wf(db)
    requires var db' := InsertTx(db, v).db;
             a in db'.files && b in db'.files && a != b
    ensures var db' := InsertTx(db, v).db;
            db'.files[a].relpath != db'.files[b].relpath || db'.files[a].name != db'.files[b].name
  {
  }

  // ---------------------------------------------------------------------------
  // The DAO methods on the committed catalog: a write is committed only when
  // it succeeds; otherwise the session is rolled back and the error propagates.

  method Insert(c: Catalog, v: FileValues) returns (r: Result<FileView>)
    requires c.Valid()
    modifies c
    ensures c.Valid()
    ensures r == InsertTx(old(c.State()), v).outcome && c.State() == InsertTx(old(c.State()), v).db
  {
    var t := InsertTx(c.State(), v);
    if t.outcome.Ok? {
      c.Commit(t.db);
    }
    r := t.outcome;
  }

  method Update(c: Catalog, id: int, ch: FileChanges) returns (r: Result<Option<FileView>>)
    requires c.Valid()
    modifies c
    ensures c.Valid()
    ensures r == UpdateTx(old(c.State()), id, ch).outcome && c.State() == UpdateTx(old(c.State()), id, ch).db
  {
    var t := UpdateTx(c.State(), id, ch);
    if t.outcome.Ok? {
      c.Commit(t.db);
    }
    r := t.outcome;
  }

  method Delete(c: Catalog, id: int) returns (r: Result<Unit>)
    requires c.Valid()
    modifies c
    ensures c.Valid()
    ensures r == DeleteTx(old(c.State()), id).outcome && c.State() == DeleteTx(old(c.State()), id).db
  {
    var t := DeleteTx(c.State(), id);
    if t.outcome.Ok? {
      c.Commit(t.db);
    }
    r := t.outcome;
  }

  method AddTag(c: Catalog, file: int, tag: int) returns (r: Result<FileView>)
    requires c.Valid()
    modifies c
    ensures c.Valid()
    ensures r == AddTagTx(old(c.State()), file, tag).outcome && c.State() == AddTagTx(old(c.State()), file, tag).db
    ensures r.Ok? ==> Link(file, tag) in c.links
  {
    var t := AddTagTx(c.State(), file, tag);
    if t.outcome.Ok? {
      c.Commit(t.db);
    }
    r := t.outcome;
  }

  method RemoveTag(c: Catalog, file: int, tag: int) returns (r: Result<FileView>)
    requires c.Valid()
    modifies c
    ensures c.Valid()
    ensures r == RemoveTagTx(old(c.State()), file, tag).outcome && c.State() == RemoveTagTx(old(c.State()), file, tag).db
    ensures Link(file, tag) !in c.links
  {
    var t := RemoveTagTx(c.State(), file, tag);
    if t.outcome.Ok? {
      c.Commit(t.db);
    }
    r := t.outcome;
  }
}
