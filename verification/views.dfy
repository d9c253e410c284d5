/**
 * The detached (non-persistent) entity views handed to the rest of the
 * application, and how each is built from the rows of the database. A lazy
 * view carries only columns; a full view adds one level of related entities,
 * each of them lazy, so no view nests deeper than that.
 */
module Views {
  import opened Wrappers
  import opened Persistent
  import Collections
  import Text

  /** The `Named` view: just an id and a name. */
  datatype NamedView = Named(id: int, name: string)

  datatype MetatagView =
    | MetatagLazy(id: int, name: string)
    | MetatagFull(id: int, name: string, tags: seq<NamedView>)

  datatype TagView =
    | TagLazy(id: int, name: string, metatag: MetatagView)
    | TagFull(id: int, name: string, metatag: MetatagView, files: seq<FileView>)

  datatype FileView =
    | FileLazy(id: int, name: string, relpath: string, mime: string)
    | FileFull(id: int, name: string, relpath: string, mime: string, tags: seq<TagView>)

  /** A tag view whose metatag is a lazy view: what ITagLazy builds. */
  predicate IsLazyTag(v: TagView)
  {
    v.TagLazy? && v.metatag.MetatagLazy?
  }

  // ---------------------------------------------------------------------------
  // Files

  function FileLazyOf(id: int, row: FileRow): (v: FileView)
    ensures v.FileLazy? && v.id == id
    ensures v.name == row.name && v.relpath == row.relpath && v.mime == row.mime
  {
    FileLazy(id, row.name, row.relpath, row.mime)
  }

  /** The metatag a tag row points at exists, so ITagLazy can be built. */
  ghost predicate TagResolves(db: Db, t: int)
  {
    t in db.tags && db.tags[t].metatagId in db.metatags
  }

  /**
   * The full file view with its tags listed in the order `tagIds` gives (the
   * order of the file's in-memory tag collection).
   */
  function FileWithTags(db: Db, f: int, tagIds: seq<int>): (v: FileView)
    requires f in db.files
    requires forall i :: 0 <= i < |tagIds| ==> TagResolves(db, tagIds[i])
    ensures v.FileFull? && v.id == f && v.name == db.files[f].name
    ensures v.relpath == db.files[f].relpath && v.mime == db.files[f].mime
    ensures |v.tags| == |tagIds|
    ensures forall i :: 0 <= i < |v.tags| ==> IsLazyTag(v.tags[i]) && v.tags[i].id == tagIds[i]
  {
    var row := db.files[f];
    FileFull(f, row.name, row.relpath, row.mime,
      seq(|tagIds|, i requires 0 <= i < |tagIds| => TagLazyOf(db, tagIds[i])))
  }

  /** IFile: the file with the tags it is linked to, in FileTags key order. */
  function FileFullOf(db: Db, f: int): (v: FileView)
    requires Wf(db) && f in db.files
    ensures v.FileFull? && v.id == f
    ensures v.name == db.files[f].name && v.relpath == db.files[f].relpath && v.mime == db.files[f].mime
    ensures forall i :: 0 <= i < |v.tags| ==> IsLazyTag(v.tags[i]) && Link(f, v.tags[i].id) in db.links
    ensures forall t :: Link(f, t) in db.links ==> exists i :: 0 <= i < |v.tags| && v.tags[i].id == t
  {
    var ids := TagIdsOfFile(db, f);
    var v := FileWithTags(db, f, ids);
    assert forall t :: Link(f, t) in db.links ==> v.tags[IndexOf(ids, t)].id == t;
    v
  }

  // ---------------------------------------------------------------------------
  // Tags

  function MetatagLazyOf(id: int, row: MetatagRow): (v: MetatagView)
    ensures v.MetatagLazy? && v.id == id && v.name == row.name
  {
    MetatagLazy(id, row.name)
  }

  /** ITagLazy: the tag with its metatag as a lazy view. */
  function TagLazyOf(db: Db, t: int): (v: TagView)
    requires TagResolves(db, t)
    ensures IsLazyTag(v) && v.id == t && v.name == db.tags[t].name
    ensures v.metatag.id == db.tags[t].metatagId && v.metatag.name == db.metatags[db.tags[t].metatagId].name
  {
    var row := db.tags[t];
    TagLazy(t, row.name, MetatagLazyOf(row.metatagId, db.metatags[row.metatagId]))
  }

  /**
   * ITagLazy built on a row whose metatag may be missing: reading `.id` of the
   * missing metatag raises AttributeError.
   */
  function TagLazyOrError(db: Db, t: int): (r: Result<TagView>)
    requires t in db.tags
    ensures r.Ok? <==> TagResolves(db, t)
    ensures r.Ok? ==> r.value == TagLazyOf(db, t)
  {
    if db.tags[t].metatagId in db.metatags then Ok(TagLazyOf(db, t)) else Err(AttributeError("id"))
  }

  /** ITag: the tag with the files it is linked to, each as a lazy view, ascending by id. */
  function TagFullOf(db: Db, t: int): (v: TagView)
    requires Wf(db) && t in db.tags
    ensures v.TagFull? && v.id == t && v.name == db.tags[t].name
    ensures v.metatag == MetatagLazyOf(db.tags[t].metatagId, db.metatags[db.tags[t].metatagId])
    ensures |v.files| == |FileIdsOfTag(db, t)|
    ensures forall i :: 0 <= i < |v.files| ==>
              v.files[i].id in db.files && v.files[i] == FileLazyOf(v.files[i].id, db.files[v.files[i].id])
    ensures forall i :: 0 <= i < |v.files| ==> Link(v.files[i].id, t) in db.links
    ensures forall f :: Link(f, t) in db.links ==> exists i :: 0 <= i < |v.files| && v.files[i].id == f
    ensures forall i, j :: 0 <= i < j < |v.files| ==> v.files[i].id < v.files[j].id
  {
    var lazy := TagLazyOf(db, t);
    TagFull(t, lazy.name, lazy.metatag, FilesOfTag(db, t))
  }

  /** The files linked to tag `t` as lazy views, ascending by id. */
  function FilesOfTag(db: Db, t: int): (r: seq<FileView>)
    requires LinksResolve(db) && IdsBelow(db.files, db.nextFile)
    ensures |r| == |FileIdsOfTag(db, t)|
    ensures forall i :: 0 <= i < |r| ==> r[i].id in db.files && r[i] == FileLazyOf(r[i].id, db.files[r[i].id])
    ensures forall i :: 0 <= i < |r| ==> Link(r[i].id, t) in db.links
    ensures forall f :: Link(f, t) in db.links ==> exists i :: 0 <= i < |r| && r[i].id == f
    ensures forall i, j :: 0 <= i < j < |r| ==> r[i].id < r[j].id
  {
    var ids := FileIdsOfTag(db, t);
    var r := seq(|ids|, i requires 0 <= i < |ids| => FileLazyOf(ids[i], db.files[ids[i]]));
    FileIdsComplete(db, t, ids, r);
    r
  }

  lemma FileIdsComplete(db: Db, t: int, ids: seq<int>, r: seq<FileView>)
    requires LinksResolve(db) && IdsBelow(db.files, db.nextFile)
    requires ids == FileIdsOfTag(db, t) && |r| == |ids|
    requires forall i :: 0 <= i < |r| ==> r[i].id == ids[i]
    ensures forall f :: Link(f, t) in db.links ==> exists i :: 0 <= i < |r| && r[i].id == f
  {
    forall f | Link(f, t) in db.links ensures exists i :: 0 <= i < |r| && r[i].id == f {
      assert f in db.files;
      var k :| 0 <= k < |ids| && ids[k] == f;
      assert r[k].id == f;
    }
  }

  // ---------------------------------------------------------------------------
  // Metatags

  function RowName(p: (int, TagRow)): string
  {
    p.1.name
  }

  /** The tags of metatag `m` as rows ordered by name (the relationship's order_by). */
  function TagRowsOfMetatag(db: Db, m: int): (r: seq<(int, TagRow)>)
    ensures Collections.SortedBy(r, RowName)
    ensures forall i :: 0 <= i < |r| ==> r[i].0 in db.tags && r[i].1 == db.tags[r[i].0] && r[i].1.metatagId == m
    ensures IdsBelow(db.tags, db.nextTag) ==> forall t :: t in db.tags && db.tags[t].metatagId == m ==> (t, db.tags[t]) in r
  {
    var rows := Collections.Filter(ScanTable(db.tags, db.nextTag), (p: (int, TagRow)) => p.1.metatagId == m);
    var r := Collections.SortByKey(rows, RowName);
    Collections.SortByKeyPermutes(rows, RowName);
    Collections.SameElements(r, rows);
    Collections.SameElements(rows, r);
    r
  }

  /** The `Named` views of tag rows, in the same order. */
  function NamedOf(rows: seq<(int, TagRow)>): (r: seq<NamedView>)
    ensures |r| == |rows|
    ensures forall i :: 0 <= i < |r| ==> r[i] == Named(rows[i].0, rows[i].1.name)
  {
    seq(|rows|, i requires 0 <= i < |rows| => Named(rows[i].0, rows[i].1.name))
  }

  lemma NamesSorted(rows: seq<(int, TagRow)>)
    requires Collections.SortedBy(rows, RowName)
    ensures forall i, j :: 0 <= i < j < |rows| ==> Text.LexLe(NamedOf(rows)[i].name, NamedOf(rows)[j].name)
  {
    forall i, j | 0 <= i < j < |rows| ensures Text.LexLe(NamedOf(rows)[i].name, NamedOf(rows)[j].name) {
      assert RowName(rows[i]) == NamedOf(rows)[i].name;
      assert RowName(rows[j]) == NamedOf(rows)[j].name;
    }
  }

  /** IMetatag: the metatag with its tags as `Named` views, ordered by tag name. */
  function MetatagFullOf(db: Db, m: int): (v: MetatagView)
    requires m in db.metatags
    ensures v.MetatagFull? && v.id == m && v.name == db.metatags[m].name
    ensures forall i :: 0 <= i < |v.tags| ==>
              v.tags[i].id in db.tags && db.tags[v.tags[i].id].metatagId == m && v.tags[i].name == db.tags[v.tags[i].id].name
    ensures forall i, j :: 0 <= i < j < |v.tags| ==> Text.LexLe(v.tags[i].name, v.tags[j].name)
    ensures IdsBelow(db.tags, db.nextTag) ==>
              forall t :: t in db.tags && db.tags[t].metatagId == m ==> exists i :: 0 <= i < |v.tags| && v.tags[i].id == t
  {
    var rows := TagRowsOfMetatag(db, m);
    NamesSorted(rows);
    var v := MetatagFull(m, db.metatags[m].name, NamedOf(rows));
    TagsOfMetatagComplete(db, m, rows, v.tags);
    v
  }

  lemma TagsOfMetatagComplete(db: Db, m: int, rows: seq<(int, TagRow)>, named: seq<NamedView>)
    requires rows == TagRowsOfMetatag(db, m) && named == NamedOf(rows)
    ensures IdsBelow(db.tags, db.nextTag) ==>
              forall t :: t in db.tags && db.tags[t].metatagId == m ==> exists i :: 0 <= i < |named| && named[i].id == t
  {
    if IdsBelow(db.tags, db.nextTag) {
      forall t | t in db.tags && db.tags[t].metatagId == m
        ensures exists i :: 0 <= i < |named| && named[i].id == t
      {
        var k :| 0 <= k < |rows| && rows[k] == (t, db.tags[t]);
        assert named[k].id == t;
      }
    }
  }
}
