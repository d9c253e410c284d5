/**
 * The editor controller: the lists of metatags and tags, and the operations
 * that add, delete and rename them. Each operation answers whether the store
 * accepted it; only an accepted change refreshes the lists.
 */
module Editor {
  import opened Wrappers
  import opened Views
  import opened DaoCommon
  import TagsDao
  import MetatagsDao

  // Update events
  const UPDATE_METATAGS := 0
  const UPDATE_TAGS := 1

  class EditorCtrl {
    const catalog: Catalog
    var metatags: seq<MetatagView>
    var tags: seq<TagView>
    /** The update events triggered so far, in order. */
    var events: seq<int>

    constructor (catalog: Catalog)
      ensures this.catalog == catalog && events == []
    {
      this.catalog := catalog;
      metatags, tags, events := [], [], [];
    }

    /** `load`: all metatags and all tags. */
    method Load()
      requires catalog.Valid()
      modifies this
      ensures metatags == MetatagsDao.GetAll(catalog.State()) && tags == TagsDao.GetAll(catalog.State())
      ensures events == old(events)
    {
      metatags := MetatagsDao.GetAll(catalog.State());
      tags := TagsDao.GetAll(catalog.State());
    }

    /** `_updateTags`: reloads the tags and triggers UPDATE_TAGS. */
    method UpdateTags()
      requires catalog.Valid()
      modifies this
      ensures tags == TagsDao.GetAll(catalog.State())
      ensures metatags == old(metatags) && events == old(events) + [UPDATE_TAGS]
    {
      tags := TagsDao.GetAll(catalog.State());
      events := events + [UPDATE_TAGS];
    }

    /** `_updateMetatags`: reloads the metatags and triggers UPDATE_METATAGS. */
    method UpdateMetatags()
      requires catalog.Valid()
      modifies this
      ensures metatags == MetatagsDao.GetAll(catalog.State())
      ensures tags == old(tags) && events == old(events) + [UPDATE_METATAGS]
    {
      metatags := MetatagsDao.GetAll(catalog.State());
      events := events + [UPDATE_METATAGS];
    }

    /**
     * `addTag(name, metatag)`: True and the tags reloaded when the store
     * inserts the tag; False, with the lists and the store untouched, when it
     * raises.
     */
    method AddTag(name: Option<string>, metatag: MetatagView) returns (ok: bool)
      requires catalog.Valid()
      modifies this, catalog
      ensures catalog.Valid()
      ensures var t := TagsDao.InsertTagTx(old(catalog.State()), name, Some(TagsDao.MetatagEntity(metatag)));
              catalog.State() == t.db && (ok <==> t.outcome.Ok?)
      ensures !ok ==> unchanged(this)
      ensures ok ==> tags == TagsDao.GetAll(catalog.State()) && metatags == old(metatags) && events == old(events) + [UPDATE_TAGS]
    {
      var r := TagsDao.Insert(catalog, name, Some(TagsDao.MetatagEntity(metatag)));
      if r.Err? {
        return false;
      }
      UpdateTags();
      ok := true;
    }

    /** `addMetatag(name)`: True and the metatags reloaded on success, False and nothing changed otherwise. */
    method AddMetatag(name: Option<string>) returns (ok: bool)
      requires catalog.Valid()
      modifies this, catalog
      ensures catalog.Valid()
      ensures var t := MetatagsDao.InsertTx(old(catalog.State()), name);
              catalog.State() == t.db && (ok <==> t.outcome.Ok?)
      ensures !ok ==> unchanged(this)
      ensures ok ==> metatags == MetatagsDao.GetAll(catalog.State()) && tags == old(tags) && events == old(events) + [UPDATE_METATAGS]
    {
      var r := MetatagsDao.Insert(catalog, name);
      if r.Err? {
        return false;
      }
      UpdateMetatags();
      ok := true;
    }

    /** `deleteTag(tag)`: True and the tags reloaded on success, False and nothing changed otherwise. */
    method DeleteTag(tag: TagView) returns (ok: bool)
      requires catalog.Valid()
      modifies this, catalog
      ensures catalog.Valid()
      ensures var t := TagsDao.DeleteTagTx(old(catalog.State()), tag.id);
              catalog.State() == t.db && (ok <==> t.outcome.Ok?)
      ensures !ok ==> unchanged(this)
      ensures ok ==> tags == TagsDao.GetAll(catalog.State()) && metatags == old(metatags) && events == old(events) + [UPDATE_TAGS]
    {
      var r := TagsDao.Delete(catalog, tag.id);
      if r.Err? {
        return false;
      }
      UpdateTags();
      ok := true;
    }

    /**
     * `deleteMetatag(metatag)`: True and the metatags reloaded on success;
     * False and nothing changed otherwise, in particular while the metatag
     * still owns tags.
     */
    method DeleteMetatag(metatag: MetatagView) returns (ok: bool)
      requires catalog.Valid()
      modifies this, catalog
      ensures catalog.Valid()
      ensures var t := MetatagsDao.DeleteTx(old(catalog.State()), metatag.id);
              catalog.State() == t.db && (ok <==> t.outcome.Ok?)
      ensures !ok ==> unchanged(this)
      ensures ok ==> metatags == MetatagsDao.GetAll(catalog.State()) && tags == old(tags) && events == old(events) + [UPDATE_METATAGS]
    {
      var r := MetatagsDao.Delete(catalog, metatag.id);
      if r.Err? {
        return false;
      }
      UpdateMetatags();
      ok := true;
    }

    /** `editTag(tag, newName, newMetatag)`: True and the tags reloaded on success, False and nothing changed otherwise. */
    method EditTag(tag: TagView, newName: Option<string>, newMetatag: MetatagView) returns (ok: bool)
      requires catalog.Valid()
      modifies this, catalog
      ensures catalog.Valid()
      ensures var t := TagsDao.UpdateTagTx(old(catalog.State()), tag.id, newName, Some(TagsDao.MetatagEntity(newMetatag)));
              catalog.State() == t.db && (ok <==> t.outcome.Ok?)
      ensures var db := old(catalog.State());
              tag.id in db.tags ==>
                (ok <==> newMetatag.id in db.metatags && !TagsDao.NameTaken(db.tags, if newName.Some? then newName.value else db.tags[tag.id].name, tag.id))
      ensures !ok ==> unchanged(this)
      ensures ok ==> tags == TagsDao.GetAll(catalog.State()) && metatags == old(metatags) && events == old(events) + [UPDATE_TAGS]
    {
      var r := TagsDao.Update(catalog, tag.id, newName, Some(TagsDao.MetatagEntity(newMetatag)));
      if r.Err? {
        return false;
      }
      UpdateTags();
      ok := true;
    }

    /**
     * `editMetatag(metatag, newName)`: True with both lists reloaded (tag
     * views show their metatag's name) on success, False and nothing changed
     * otherwise.
     */
    method EditMetatag(metatag: MetatagView, newName: Option<string>) returns (ok: bool)
      requires catalog.Valid()
      modifies this, catalog
      ensures catalog.Valid()
      ensures var t := MetatagsDao.UpdateTx(old(catalog.State()), metatag.id, SetTo(newName));
              catalog.State() == t.db && (ok <==> t.outcome.Ok?)
      ensures !ok ==> unchanged(this)
      ensures ok ==>
        && metatags == MetatagsDao.GetAll(catalog.State()) && tags == TagsDao.GetAll(catalog.State())
        && events == old(events) + [UPDATE_METATAGS, UPDATE_TAGS]
    {
      var r := MetatagsDao.Update(catalog, metatag.id, SetTo(newName));
      if r.Err? {
        return false;
      }
      events := events + [UPDATE_METATAGS, UPDATE_TAGS];
      Load();
      ok := true;
    }
  }
}
