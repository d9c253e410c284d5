/**
 * The tagger controller: one file and the lists of metatags and tags, with
 * idempotent tagging and untagging of the file and creation of metatags and
 * tags.
 */
module Tagger {
  import opened Wrappers
  import opened Persistent
  import opened Views
  import opened DaoCommon
  import FilesDao
  import TagsDao
  import MetatagsDao

  /**
   * The update events the tagger triggers: UPDATE_METATAGS (0),
   * UPDATE_TAGS (1) and UPDATE_FILE_TAG (2), the last with the tag and
   * whether it was added.
   */
  datatype Update =
    | MetatagsUpdated
    | TagsUpdated
    | FileTagUpdated(tag: TagView, added: bool)

  /** `fileHasTag(id)`'s answer: some tag of the full file view has this id. */
  predicate HasTag(file: FileView, id: int)
    requires file.FileFull?
  {
    exists i :: 0 <= i < |file.tags| && file.tags[i].id == id
  }

  /** The file view `addTag` returns carries the tag. */
  lemma AddedTagShows(db: Db, f: int, t: int)
    requires Wf(db) && FilesDao.AddTagTx(db, f, t).outcome.Ok?
    ensures HasTag(FilesDao.AddTagTx(db, f, t).outcome.value, t)
  {
    var ids := TagIdsOfFile(db, f) + (if Link(f, t) in db.links then [] else [t]);
    var v := FilesDao.AddTagTx(db, f, t).outcome.value;
    assert t in ids;
    var k :| 0 <= k < |ids| && ids[k] == t;
    assert v.tags[k].id == t;
  }

  /** The file view `removeTag` returns no longer carries the tag. */
  lemma RemovedTagGone(db: Db, f: int, t: int)
    requires Wf(db) && FilesDao.RemoveTagTx(db, f, t).outcome.Ok?
    ensures !HasTag(FilesDao.RemoveTagTx(db, f, t).outcome.value, t)
  {
  }

  class TaggerCtrl {
    const catalog: Catalog
    var file: FileView
    var metatags: seq<MetatagView>
    var tags: seq<TagView>
    /** The update events triggered so far, in order. */
    var events: seq<Update>

    ghost predicate Valid()
      reads this, catalog
    {
      catalog.Valid() && file.FileFull?
    }

    /** The tagger opens on a full file view (IFile). */
    constructor (catalog: Catalog, file: FileView)
      requires catalog.Valid() && file.FileFull?
      ensures Valid() && this.catalog == catalog && this.file == file && events == []
    {
      this.catalog := catalog;
      this.file := file;
      metatags, tags, events := [], [], [];
    }

    /** `load`: all metatags and all tags. */
    method Load()
      requires Valid()
      modifies this
      ensures Valid() && file == old(file) && events == old(events)
      ensures metatags == MetatagsDao.GetAll(catalog.State()) && tags == TagsDao.GetAll(catalog.State())
    {
      metatags := MetatagsDao.GetAll(catalog.State());
      tags := TagsDao.GetAll(catalog.State());
    }

    /** `fileHasTag(id)`: scans the file's tags for the id and stops at the first match. */
    method FileHasTag(id: int) returns (b: bool)
      requires file.FileFull?
      ensures b <==> HasTag(file, id)
    {
      var ts := file.tags;
      b := false;
      var i := 0;
      while i < |ts|
        invariant 0 <= i <= |ts|
        invariant forall j :: 0 <= j < i ==> ts[j].id != id
      {
        if ts[i].id == id {
          b := true;
          break;
        }
        i := i + 1;
      }
    }

    /**
     * `addTagToFile(id)`: nothing when the file already shows the tag; else
     * the tag is looked up (a missing one fails reading its id), linked in the
     * store, the file view replaced by the store's answer and UPDATE_FILE_TAG
     * triggered with (tag, True). On an error nothing but the store's own
     * outcome is kept, and the controller is unchanged.
     */
    method AddTagToFile(id: int) returns (r: Result<Unit>)
      requires Valid()
      modifies this, catalog
      ensures Valid()
      ensures HasTag(old(file), id) ==> r == Ok(Unit) && unchanged(this) && catalog.State() == old(catalog.State())
      ensures !HasTag(old(file), id) && id !in old(catalog.State()).tags ==>
        r == Err(AttributeError("id")) && unchanged(this) && catalog.State() == old(catalog.State())
      ensures !HasTag(old(file), id) && id in old(catalog.State()).tags ==>
        var t := FilesDao.AddTagTx(old(catalog.State()), old(file).id, id);
        && catalog.State() == t.db
        && (r.Ok? <==> t.outcome.Ok?)
        && (r.Err? ==> r == Err(t.outcome.error) && unchanged(this))
        && (r.Ok? ==>
             && file == t.outcome.value
             && metatags == old(metatags) && tags == old(tags)
             && events == old(events) + [FileTagUpdated(TagsDao.GetById(old(catalog.State()), id).value, true)])
      ensures r.Ok? ==> HasTag(file, id)
    {
      var has := FileHasTag(id);
      if has {
        return Ok(Unit);
      }
      var tag := TagsDao.GetById(catalog.State(), id);
      if tag.None? {
        return Err(AttributeError("id"));
      }
      ghost var db := catalog.State();
      var res := FilesDao.AddTag(catalog, file.id, id);
      assert unchanged(this);
      if res.Err? {
        return Err(res.error);
      }
      AddedTagShows(db, file.id, id);
      file := res.value;
      events := events + [FileTagUpdated(tag.value, true)];
      r := Ok(Unit);
    }

    /**
     * `removeTagFromFile(id)`: nothing when the file does not show the tag;
     * else the mirror image of `addTagToFile`, triggering (tag, False).
     */
    method RemoveTagFromFile(id: int) returns (r: Result<Unit>)
      requires Valid()
      modifies this, catalog
      ensures Valid()
      ensures !HasTag(old(file), id) ==> r == Ok(Unit) && unchanged(this) && catalog.State() == old(catalog.State())
      ensures HasTag(old(file), id) && id !in old(catalog.State()).tags ==>
        r == Err(AttributeError("id")) && unchanged(this) && catalog.State() == old(catalog.State())
      ensures HasTag(old(file), id) && id in old(catalog.State()).tags ==>
        var t := FilesDao.RemoveTagTx(old(catalog.State()), old(file).id, id);
        && catalog.State() == t.db
        && (r.Ok? <==> t.outcome.Ok?)
        && (r.Err? ==> r == Err(t.outcome.error) && unchanged(this))
        && (r.Ok? ==>
             && file == t.outcome.value
             && metatags == old(metatags) && tags == old(tags)
             && events == old(events) + [FileTagUpdated(TagsDao.GetById(old(catalog.State()), id).value, false)])
      ensures r.Ok? && HasTag(old(file), id) ==> !HasTag(file, id)
    {
      var has := FileHasTag(id);
      if !has {
        return Ok(Unit);
      }
      var tag := TagsDao.GetById(catalog.State(), id);
      if tag.None? {
        return Err(AttributeError("id"));
      }
      ghost var db := catalog.State();
      var res := FilesDao.RemoveTag(catalog, file.id, id);
      if res.Err? {
        return Err(res.error);
      }
      RemovedTagGone(db, file.id, id);
      file := res.value;
      events := events + [FileTagUpdated(tag.value, false)];
      r := Ok(Unit);
    }

    /** Reloads the metatags from the store and triggers UPDATE_METATAGS. */
    method ReloadMetatags()
      requires catalog.Valid()
      modifies this
      ensures metatags == MetatagsDao.GetAll(catalog.State())
      ensures file == old(file) && tags == old(tags) && events == old(events) + [MetatagsUpdated]
    {
      metatags := MetatagsDao.GetAll(catalog.State());
      events := events + [MetatagsUpdated];
    }

    /** Reloads the tags from the store and triggers UPDATE_TAGS. */
    method ReloadTags()
      requires catalog.Valid()
      modifies this
      ensures tags == TagsDao.GetAll(catalog.State())
      ensures file == old(file) && metatags == old(metatags) && events == old(events) + [TagsUpdated]
    {
      tags := TagsDao.GetAll(catalog.State());
      events := events + [TagsUpdated];
    }

    /** `createMetatag(name)`: inserts the metatag, reloads the metatags and triggers UPDATE_METATAGS. */
    method CreateMetatag(name: Option<string>) returns (r: Result<MetatagView>)
      requires Valid()
      modifies this, catalog
      ensures Valid()
      ensures var t := MetatagsDao.InsertTx(old(catalog.State()), name);
              r == t.outcome && catalog.State() == t.db
      ensures r.Err? ==> unchanged(this)
      ensures r.Ok? ==>
        && metatags == MetatagsDao.GetAll(catalog.State())
        && file == old(file) && tags == old(tags) && events == old(events) + [MetatagsUpdated]
    {
      r := MetatagsDao.Insert(catalog, name);
      if r.Err? {
        return;
      }
      ReloadMetatags();
    }

    /** `createTag(name, metatag)`: inserts the tag, reloads the tags and triggers UPDATE_TAGS. */
    method CreateTag(name: Option<string>, metatag: Option<TagsDao.MetatagRef>) returns (r: Result<TagView>)
      requires Valid()
      modifies this, catalog
      ensures Valid()
      ensures var t := TagsDao.InsertTagTx(old(catalog.State()), name, metatag);
              r == t.outcome && catalog.State() == t.db
      ensures r.Err? ==> unchanged(this)
      ensures r.Ok? ==>
        && tags == TagsDao.GetAll(catalog.State())
        && file == old(file) && metatags == old(metatags) && events == old(events) + [TagsUpdated]
    {
      r := TagsDao.Insert(catalog, name, metatag);
      if r.Err? {
        return;
      }
      ReloadTags();
    }
  }
}
