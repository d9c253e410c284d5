/**
 * The tags DAO: the generic entity operations on the Tags table, the
 * metatag argument `insert` and `update` accept, and the tag queries the
 * browser builds on (tags in use, tags by name pattern, tags of some files,
 * tags related to a set of tags).
 */
module TagsDao {
  import opened Wrappers
  import opened Persistent
  import opened Views
  import opened DaoCommon
  import Sql
  import Text

  /** How a caller designates a metatag: its id, a metatag view, or a mapping with an "id" entry. */
  datatype MetatagRef = MetatagId(id: int) | MetatagEntity(metatag: MetatagView) | MetatagDict(fields: map<string, int>)

  /** `_getMetatagId`: an int is the id, a view gives its `id`, anything else is indexed by "id". */
  function GetMetatagId(ref: MetatagRef): (r: Result<int>)
    ensures ref.MetatagId? ==> r == Ok(ref.id)
    ensures ref.MetatagEntity? ==> r == Ok(ref.metatag.id)
    ensures ref.MetatagDict? ==> (r.Ok? <==> "id" in ref.fields)
    ensures ref.MetatagDict? && "id" in ref.fields ==> r == Ok(ref.fields["id"])
    ensures r.Err? ==> r.error == KeyError("id")
  {
    match ref
    case MetatagId(id) => Ok(id)
    case MetatagEntity(m) => Ok(m.id)
    case MetatagDict(fields) => if "id" in fields then Ok(fields["id"]) else Err(KeyError("id"))
  }

  function TagName(p: (int, TagRow)): string
  {
    p.1.name
  }

  function AnyTag(p: (int, TagRow)): bool
  {
    true
  }

  predicate NameTaken(tags: map<int, TagRow>, name: string, except: int)
  {
    exists t :: t in tags && t != except && tags[t].name == name
  }

  /** The lazy views of the tags with these ids, in the same order. */
  function LazyTags(db: Db, ids: seq<int>): (r: seq<TagView>)
    requires Wf(db) && forall i :: 0 <= i < |ids| ==> ids[i] in db.tags
    ensures |r| == |ids|
    ensures forall i :: 0 <= i < |r| ==> r[i] == TagLazyOf(db, ids[i])
  {
    seq(|ids|, i requires 0 <= i < |ids| => TagLazyOf(db, ids[i]))
  }

  /** The ids of the tags satisfying `keep`, ascending. */
  function TagIdsWhere(db: Db, keep: int -> bool): (r: seq<int>)
    ensures forall i :: 0 <= i < |r| ==> r[i] in db.tags && keep(r[i])
    ensures forall i, j :: 0 <= i < j < |r| ==> r[i] < r[j]
    ensures IdsBelow(db.tags, db.nextTag) ==> forall t :: t in db.tags && keep(t) ==> t in r
  {
    Sql.Scan(set t | t in db.tags && keep(t), 1, db.nextTag)
  }

  function RowIds(rows: seq<(int, TagRow)>): (r: seq<int>)
    ensures |r| == |rows| && forall i :: 0 <= i < |r| ==> r[i] == rows[i].0
  {
    seq(|rows|, i requires 0 <= i < |rows| => rows[i].0)
  }

  /** Tag rows ordered by name give lazy views of those tags ordered by name. */
  lemma LazyTagsByName(db: Db, rows: seq<(int, TagRow)>)
    requires Wf(db)
    requires forall i :: 0 <= i < |rows| ==> rows[i].0 in db.tags && rows[i].1 == db.tags[rows[i].0]
    requires forall i, j :: 0 <= i < j < |rows| ==> Text.LexLe(TagName(rows[i]), TagName(rows[j]))
    ensures var r := LazyTags(db, RowIds(rows));
            && (forall i :: 0 <= i < |r| ==> r[i].id == rows[i].0 && r[i].id in db.tags && r[i] == TagLazyOf(db, r[i].id))
            && (forall i, j :: 0 <= i < j < |r| ==> Text.LexLe(r[i].name, r[j].name))
            && (forall t :: t in db.tags && (t, db.tags[t]) in rows ==> TagLazyOf(db, t) in r)
  {
    var r := LazyTags(db, RowIds(rows));
    forall i, j | 0 <= i < j < |r| ensures Text.LexLe(r[i].name, r[j].name) {
      assert r[i].name == TagName(rows[i]) && r[j].name == TagName(rows[j]);
    }
    forall t | t in db.tags && (t, db.tags[t]) in rows ensures TagLazyOf(db, t) in r {
      var k :| 0 <= k < |rows| && rows[k] == (t, db.tags[t]);
      assert r[k] == TagLazyOf(db, t);
    }
  }

  // ---------------------------------------------------------------------------
  // Reads

  /** `getAll`: every tag as a lazy view, ordered by name. */
  function GetAll(db: Db): (r: seq<TagView>)
    requires Wf(db)
    ensures forall i :: 0 <= i < |r| ==> r[i].id in db.tags && r[i] == TagLazyOf(db, r[i].id)
    ensures forall i, j :: 0 <= i < j < |r| ==> Text.LexLe(r[i].name, r[j].name)
    ensures forall t :: t in db.tags ==> TagLazyOf(db, t) in r
  {
    var rows := GetBy(db.tags, db.nextTag, TagName, AnyTag, None, None);
    LazyTagsByName(db, rows);
    LazyTags(db, RowIds(rows))
  }

  /** `getById`: the full view of the tag, or None. */
  function GetById(db: Db, id: int): (r: Option<TagView>)
    requires Wf(db)
    ensures r.Some? <==> id in db.tags
    ensures r.Some? ==> r.value == TagFullOf(db, id)
  {
    if id in db.tags then Some(TagFullOf(db, id)) else None
  }

  /** `getByName`: the full view of the tag with this name (names are unique), or None. */
  function GetByName(db: Db, name: string): (r: Option<TagView>)
    requires Wf(db)
    ensures r.Some? ==> r.value.TagFull? && r.value.name == name && r.value.id in db.tags
    ensures r.Some? ==> r.value == TagFullOf(db, r.value.id)
    ensures r.None? <==> forall t :: t in db.tags ==> db.tags[t].name != name
  {
    match DaoCommon.GetByName(db.tags, db.nextTag, TagName, name)
    case None => None
    case Some(p) => Some(TagFullOf(db, p.0))
  }

  /** Tag `t` is linked to at least one file. */
  predicate InUse(db: Db, t: int)
  {
    exists l :: l in db.links && l.tag == t
  }

  function TagRowInUse(db: Db, p: (int, TagRow)): bool
  {
    InUse(db, p.0)
  }

  /** Being in use is being linked to some file. */
  lemma InUseIff(db: Db, t: int)
    ensures InUse(db, t) <==> exists f :: Link(f, t) in db.links
  {
    if InUse(db, t) {
      var l :| l in db.links && l.tag == t;
      assert Link(l.file, t) == l;
    }
  }

  /** The rows of the tags linked to at least one file, ordered by name. */
  function TaggedRows(db: Db): (r: seq<(int, TagRow)>)
    ensures forall i :: 0 <= i < |r| ==> r[i].0 in db.tags && r[i].1 == db.tags[r[i].0] && InUse(db, r[i].0)
    ensures forall i, j :: 0 <= i < j < |r| ==> Text.LexLe(TagName(r[i]), TagName(r[j])) && r[i].0 != r[j].0
    ensures IdsBelow(db.tags, db.nextTag) ==> forall t :: t in db.tags && InUse(db, t) ==> (t, db.tags[t]) in r
  {
    var r := GetBy(db.tags, db.nextTag, TagName, p => TagRowInUse(db, p), None, None);
    assert forall t :: t in db.tags && InUse(db, t) ==> TagRowInUse(db, (t, db.tags[t]));
    r
  }

  /**
   * `getAllWithOneFileTagged`: the tags linked to at least one file, each
   * once, ordered by name.
   */
  function GetAllWithOneFileTagged(db: Db): (r: seq<TagView>)
    requires Wf(db)
    ensures forall i :: 0 <= i < |r| ==> r[i].id in db.tags && r[i] == TagLazyOf(db, r[i].id) && InUse(db, r[i].id)
    ensures forall i, j :: 0 <= i < j < |r| ==> Text.LexLe(r[i].name, r[j].name) && r[i].id != r[j].id
    ensures forall t :: t in db.tags && InUse(db, t) ==> TagLazyOf(db, t) in r
  {
    var rows := TaggedRows(db);
    LazyTagsByName(db, rows);
    LazyTags(db, RowIds(rows))
  }

  /** The tag name is LIKE the pattern, or there is no pattern. */
  predicate NameLike(db: Db, name: Option<string>, t: int)
    requires t in db.tags
  {
    name.None? || Sql.Like(name.value, db.tags[t].name)
  }

  /** `getByNameLike`: the tags whose name is LIKE `name` (all of them for None), in rowid order. */
  function GetByNameLike(db: Db, name: Option<string>): (r: seq<TagView>)
    requires Wf(db)
    ensures forall i :: 0 <= i < |r| ==> r[i].id in db.tags && r[i] == TagLazyOf(db, r[i].id) && NameLike(db, name, r[i].id)
    ensures forall i, j :: 0 <= i < j < |r| ==> r[i].id < r[j].id
    ensures forall t :: t in db.tags && NameLike(db, name, t) ==> TagLazyOf(db, t) in r
  {
    var ids := TagIdsWhere(db, t => t in db.tags && NameLike(db, name, t));
    var r := LazyTags(db, ids);
    forall t | t in db.tags && NameLike(db, name, t) ensures TagLazyOf(db, t) in r {
      assert r[IndexOf(ids, t)] == TagLazyOf(db, t);
    }
    r
  }

  /** `getByNameLike(None)` lists every tag. */
  lemma ByNameLikeNoneIsAll(db: Db, t: int)
    requires Wf(db) && t in db.tags
    ensures TagLazyOf(db, t) in GetByNameLike(db, None)
  {
    assert NameLike(db, None, t);
  }

  /** The tag is linked to one of the files. */
  predicate OnSomeFile(db: Db, files: seq<FileView>, t: int)
  {
    exists i :: 0 <= i < |files| && Link(files[i].id, t) in db.links
  }

  /** `getCommonTags`: the tags linked to at least one of the given files, each once, in rowid order. */
  function GetCommonTags(db: Db, files: seq<FileView>): (r: seq<TagView>)
    requires Wf(db)
    ensures forall i :: 0 <= i < |r| ==> r[i].id in db.tags && r[i] == TagLazyOf(db, r[i].id) && OnSomeFile(db, files, r[i].id)
    ensures forall i, j :: 0 <= i < j < |r| ==> r[i].id < r[j].id
    ensures forall t :: OnSomeFile(db, files, t) ==> TagLazyOf(db, t) in r
  {
    var ids := TagIdsWhere(db, t => OnSomeFile(db, files, t));
    var r := LazyTags(db, ids);
    forall t | OnSomeFile(db, files, t) ensures TagLazyOf(db, t) in r {
      var i :| 0 <= i < |files| && Link(files[i].id, t) in db.links;
      assert t in db.tags;
      assert r[IndexOf(ids, t)] == TagLazyOf(db, t);
    }
    r
  }

  /** Some file carries tag `t` together with every tag of `tags`. */
  predicate RelatedTo(db: Db, tags: seq<TagView>, t: int)
  {
    exists l :: l in db.links && l.tag == t && CarriesAll(db, l.file, tags)
  }

  predicate CarriesAll(db: Db, f: int, tags: seq<TagView>)
  {
    forall i :: 0 <= i < |tags| ==> Link(f, tags[i].id) in db.links
  }

  /**
   * `getRelatedTags(tags)`: the distinct tags that share a file with all of
   * `tags`, in rowid order. With no tags that is every tag with a file.
   */
  function GetRelatedTags(db: Db, tags: seq<TagView>): (r: seq<TagView>)
    requires Wf(db)
    ensures forall i :: 0 <= i < |r| ==> r[i].id in db.tags && r[i] == TagLazyOf(db, r[i].id) && RelatedTo(db, tags, r[i].id)
    ensures forall i, j :: 0 <= i < j < |r| ==> r[i].id < r[j].id
    ensures forall t :: RelatedTo(db, tags, t) ==> TagLazyOf(db, t) in r
  {
    var ids := TagIdsWhere(db, t => RelatedTo(db, tags, t));
    var r := LazyTags(db, ids);
    forall t | RelatedTo(db, tags, t) ensures TagLazyOf(db, t) in r {
      var l :| l in db.links && l.tag == t && CarriesAll(db, l.file, tags);
      assert t in db.tags;
      assert r[IndexOf(ids, t)] == TagLazyOf(db, t);
    }
    r
  }

  /** Tag `t` is related to `tags` exactly when some file carries `t` and all of `tags`. */
  lemma RelatedIff(db: Db, tags: seq<TagView>, t: int)
    requires Wf(db)
    ensures (exists i :: 0 <= i < |GetRelatedTags(db, tags)| && GetRelatedTags(db, tags)[i].id == t)
            <==> exists f :: Link(f, t) in db.links && CarriesAll(db, f, tags)
  {
    var r := GetRelatedTags(db, tags);
    if exists f :: Link(f, t) in db.links && CarriesAll(db, f, tags) {
      var f :| Link(f, t) in db.links && CarriesAll(db, f, tags);
      assert RelatedTo(db, tags, t);
      var k :| 0 <= k < |r| && r[k] == TagLazyOf(db, t);
    }
    if exists i :: 0 <= i < |r| && r[i].id == t {
      var i :| 0 <= i < |r| && r[i].id == t;
      var l :| l in db.links && l.tag == t && CarriesAll(db, l.file, tags);
      assert Link(l.file, t) == l;
    }
  }

  /** When some file carries all of `tags`, each of them is among the related tags. */
  lemma RelatedIncludesQuery(db: Db, tags: seq<TagView>, f: int, k: int)
    requires Wf(db) && CarriesAll(db, f, tags) && 0 <= k < |tags|
    ensures TagLazyOf(db, tags[k].id) in GetRelatedTags(db, tags)
  {
    assert Link(f, tags[k].id) in db.links;
    assert RelatedTo(db, tags, tags[k].id);
  }

  // ---------------------------------------------------------------------------
  // Writes

  /**
   * `insert(name, metatag)` as written. The metatag reference is resolved
   * first; the row then needs a name and a metatag id and a fresh name. The
   * declared foreign key is not enforced by the store, so a metatag id with no
   * row is stored; building the returned view then reads the missing metatag
   * and raises AttributeError after the row was committed.
   */
  function InsertTagAsWritten(db: Db, name: Option<string>, metatag: Option<MetatagRef>): (t: Tx<TagView>)
    requires Wf(db)
    ensures t.outcome.Ok? ==> Wf(t.db)
  {
    var mid := if metatag.Some? then GetMetatagId(metatag.value) else Ok(0);
    if mid.Err? then Tx(db, Err(mid.error))
    else if name.None? then Tx(db, Err(IntegrityError(NotNull("Tags.name"))))
    else if metatag.None? then Tx(db, Err(IntegrityError(NotNull("Tags.metatag_id"))))
    else if NameTaken(db.tags, name.value, db.nextTag) then Tx(db, Err(IntegrityError(Unique("Tags.name"))))
    else
      var id := db.nextTag;
      var db' := db.(tags := db.tags[id := TagRow(name.value, mid.value)], nextTag := id + 1);
      if mid.value !in db.metatags then Tx(db', Err(AttributeError("id")))
      else
        NewTagHasNoFiles(db', id);
        Tx(db', Ok(TagFullOf(db', id)))
  }

  /** The counterexample: a tag inserted under metatag 7 of an empty catalog is stored dangling and the call fails. */
  lemma InsertTagAsWrittenLeavesDanglingRow()
    ensures var t := InsertTagAsWritten(Empty(), Some("holiday"), Some(MetatagId(7)));
            && t.outcome.Err?
            && t.db != Empty()
            && !Wf(t.db)
  {
    var t := InsertTagAsWritten(Empty(), Some("holiday"), Some(MetatagId(7)));
    assert 1 in t.db.tags && t.db.tags[1].metatagId !in t.db.metatags;
  }

  lemma NewTagHasNoFiles(db: Db, id: int)
    requires forall l :: l in db.links ==> l.tag != id
    ensures FileIdsOfTag(db, id) == []
  {
    assert (set l | l in db.links && l.tag == id :: l.file) == {};
  }

  /**
   * `insert(name, metatag)` with the schema's foreign key honoured: a metatag
   * id with no row is rejected like the other constraint violations, and a
   * rejected insert leaves the catalog unchanged.
   */
  function InsertTagTx(db: Db, name: Option<string>, metatag: Option<MetatagRef>): (t: Tx<TagView>)
    requires Wf(db)
    ensures Wf(t.db)
    ensures t.outcome.Err? ==> t.db == db
    ensures metatag.None? ==> t.outcome.Err?
    ensures t.outcome.Ok? <==>
      && name.Some? && metatag.Some? && GetMetatagId(metatag.value).Ok?
      && GetMetatagId(metatag.value).value in db.metatags
      && !NameTaken(db.tags, name.value, db.nextTag)
    ensures t.outcome.Ok? ==>
      var id := t.outcome.value.id;
      && id !in db.tags
      && t.db.tags == db.tags[id := TagRow(name.value, GetMetatagId(metatag.value).value)]
      && t.db.files == db.files && t.db.metatags == db.metatags && t.db.links == db.links
      && t.outcome.value.TagFull? && t.outcome.value.files == []
  {
    var mid := if metatag.Some? then GetMetatagId(metatag.value) else Ok(0);
    if mid.Err? then Tx(db, Err(mid.error))
    else if name.None? then Tx(db, Err(IntegrityError(NotNull("Tags.name"))))
    else if metatag.None? then Tx(db, Err(IntegrityError(NotNull("Tags.metatag_id"))))
    else if NameTaken(db.tags, name.value, db.nextTag) then Tx(db, Err(IntegrityError(Unique("Tags.name"))))
    else if mid.value !in db.metatags then Tx(db, Err(IntegrityError(ForeignKey("Tags.metatag_id"))))
    else
      var id := db.nextTag;
      var db' := db.(tags := db.tags[id := TagRow(name.value, mid.value)], nextTag := id + 1);
      NewTagHasNoFiles(db', id);
      Tx(db', Ok(TagFullOf(db', id)))
  }

  /** Where the metatag exists, the corrected insert and the one as written agree. */
  lemma InsertTagAgrees(db: Db, name: Option<string>, metatag: Option<MetatagRef>)
    requires Wf(db)
    requires metatag.Some? && GetMetatagId(metatag.value).Ok? ==> GetMetatagId(metatag.value).value in db.metatags
    ensures InsertTagTx(db, name, metatag) == InsertTagAsWritten(db, name, metatag)
  {
  }

  /**
   * `update(tag, name, metatag)`: only the arguments that are not None are
   * set. A missing row raises AttributeError unless nothing is set. The
   * returned lazy view loads the tag's metatag, and that query first flushes
   * the pending change: a name another tag has raises IntegrityError there,
   * before the metatag is read; a metatag with no row then raises
   * AttributeError. Nothing changes on an error.
   */
  function UpdateTagTx(db: Db, id: int, name: Option<string>, metatag: Option<MetatagRef>): (t: Tx<Option<TagView>>)
    requires Wf(db)
    ensures Wf(t.db)
    ensures t.outcome.Err? ==> t.db == db
    ensures t.outcome.Ok? && t.outcome.value.Some? ==>
      && id in db.tags
      && t.db == db.(tags := t.db.tags)
      && t.db.tags.Keys == db.tags.Keys
      && (forall u :: u in db.tags && u != id ==> t.db.tags[u] == db.tags[u])
      && t.db.tags[id].name == (if name.Some? then name.value else db.tags[id].name)
      && (metatag.None? ==> t.db.tags[id].metatagId == db.tags[id].metatagId)
      && (metatag.Some? ==> Ok(t.db.tags[id].metatagId) == GetMetatagId(metatag.value))
      && t.outcome.value.value == TagLazyOf(t.db, id)
    ensures id !in db.tags && (metatag.None? || GetMetatagId(metatag.value).Ok?) ==>
      (t.outcome.Ok? <==> name.None? && metatag.None?)
    ensures id in db.tags && (metatag.None? || GetMetatagId(metatag.value).Ok?) ==>
      var newName := if name.Some? then name.value else db.tags[id].name;
      var newMid := if metatag.Some? then GetMetatagId(metatag.value).value else db.tags[id].metatagId;
      && (t.outcome.Ok? <==> newMid in db.metatags && !NameTaken(db.tags, newName, id))
      && (NameTaken(db.tags, newName, id) ==> t.outcome == Err(IntegrityError(Unique("Tags.name"))))
    ensures t.outcome.Ok? ==> (t.outcome.value.Some? <==> id in db.tags)
  {
    var mid := if metatag.Some? then GetMetatagId(metatag.value) else Ok(0);
    if mid.Err? then Tx(db, Err(mid.error))
    else if id !in db.tags then
      Tx(db, UpdateMissing(if name.Some? then Some("name") else if metatag.Some? then Some("metatag_id") else None))
    else
      var row := db.tags[id];
      var row' := TagRow(if name.Some? then name.value else row.name, if metatag.Some? then mid.value else row.metatagId);
      if NameTaken(db.tags, row'.name, id) then Tx(db, Err(IntegrityError(Unique("Tags.name"))))
      else if row'.metatagId !in db.metatags then Tx(db, Err(AttributeError("id")))
      else
        var db' := db.(tags := db.tags[id := row']);
        Tx(db', Ok(Some(TagLazyOf(db', id))))
  }

  /** An update with neither a name nor a metatag leaves everything as it was. */
  lemma UpdateNothingKeepsTag(db: Db, id: int)
    requires Wf(db)
    ensures UpdateTagTx(db, id, None, None).db == db
    ensures id in db.tags ==> UpdateTagTx(db, id, None, None).outcome == Ok(Some(TagLazyOf(db, id)))
  {
    if id in db.tags {
      assert db.tags[id := db.tags[id]] == db.tags;
    }
  }

  /** `delete(tag)`: the row and its FileTags rows go; a missing row raises. */
  function DeleteTagTx(db: Db, id: int): (t: Tx<Unit>)
    requires Wf(db)
    ensures Wf(t.db)
    ensures t.outcome.Ok? <==> id in db.tags
    ensures t.outcome.Err? ==> t.db == db && t.outcome.error == UnmappedInstance
    ensures t.outcome.Ok? ==>
      && t.db.tags == db.tags - {id}
      && t.db.links == set l | l in db.links && l.tag != id
      && t.db.files == db.files && t.db.metatags == db.metatags
  {
    if id !in db.tags then Tx(db, Err(UnmappedInstance))
    else Tx(db.(tags := db.tags - {id}, links := set l | l in db.links && l.tag != id), Ok(Unit))
  }

  // ---------------------------------------------------------------------------
  // The DAO methods on the committed catalog

  method Insert(c: Catalog, name: Option<string>, metatag: Option<MetatagRef>) returns (r: Result<TagView>)
    requires c.Valid()
    modifies c
    ensures c.Valid()
    ensures r == InsertTagTx(old(c.State()), name, metatag).outcome
    ensures c.State() == InsertTagTx(old(c.State()), name, metatag).db
  {
    var t := InsertTagTx(c.State(), name, metatag);
    if t.outcome.Ok? {
      c.Commit(t.db);
    }
    r := t.outcome;
  }

  method Update(c: Catalog, id: int, name: Option<string>, metatag: Option<MetatagRef>) returns (r: Result<Option<TagView>>)
    requires c.Valid()
    modifies c
    ensures c.Valid()
    ensures r == UpdateTagTx(old(c.State()), id, name, metatag).outcome
    ensures c.State() == UpdateTagTx(old(c.State()), id, name, metatag).db
  {
    var t := UpdateTagTx(c.State(), id, name, metatag);
    if t.outcome.Ok? {
      c.Commit(t.db);
    }
    r := t.outcome;
  }

  method Delete(c: Catalog, id: int) returns (r: Result<Unit>)
    requires c.Valid()
    modifies c
    ensures c.Valid()
    ensures r == DeleteTagTx(old(c.State()), id).outcome && c.State() == DeleteTagTx(old(c.State()), id).db
  {
    var t := DeleteTagTx(c.State(), id);
    if t.outcome.Ok? {
      c.Commit(t.db);
    }
    r := t.outcome;
  }
}
