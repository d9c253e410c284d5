/**
 * The metatags DAO: the generic entity operations on the Metatags table,
 * whose full view lists the metatag's tags by name and whose lazy view is
 * just the id and name.
 */
module MetatagsDao {
  import opened Wrappers
  import opened Persistent
  import opened Views
  import opened DaoCommon
  import Text

  function MetatagName(p: (int, MetatagRow)): string
  {
    p.1.name
  }

  function AnyMetatag(p: (int, MetatagRow)): bool
  {
    true
  }

  predicate NameTaken(metatags: map<int, MetatagRow>, name: string, except: int)
  {
    exists m :: m in metatags && m != except && metatags[m].name == name
  }

  /** Some tag still belongs to metatag `m`. */
  predicate OwnsTags(db: Db, m: int)
  {
    exists t :: t in db.tags && db.tags[t].metatagId == m
  }

  /** The lazy views of metatag rows, in the same order. */
  function LazyMetatags(rows: seq<(int, MetatagRow)>): (r: seq<MetatagView>)
    ensures |r| == |rows|
    ensures forall i :: 0 <= i < |r| ==> r[i] == MetatagLazyOf(rows[i].0, rows[i].1)
  {
    seq(|rows|, i requires 0 <= i < |rows| => MetatagLazyOf(rows[i].0, rows[i].1))
  }

  // ---------------------------------------------------------------------------
  // Reads

  /** `getAll`: every metatag as a lazy view, ordered by name. */
  function GetAll(db: Db): (r: seq<MetatagView>)
    requires Wf(db)
    ensures forall i :: 0 <= i < |r| ==> r[i].id in db.metatags && r[i] == MetatagLazyOf(r[i].id, db.metatags[r[i].id])
    ensures forall i, j :: 0 <= i < j < |r| ==> Text.LexLe(r[i].name, r[j].name)
    ensures forall m :: m in db.metatags ==> MetatagLazyOf(m, db.metatags[m]) in r
  {
    var rows := GetBy(db.metatags, db.nextMetatag, MetatagName, AnyMetatag, None, None);
    LazyMetatagsByName(db, rows);
    LazyMetatags(rows)
  }

  lemma LazyMetatagsByName(db: Db, rows: seq<(int, MetatagRow)>)
    requires forall i :: 0 <= i < |rows| ==> rows[i].0 in db.metatags && rows[i].1 == db.metatags[rows[i].0]
    requires forall i, j :: 0 <= i < j < |rows| ==> Text.LexLe(MetatagName(rows[i]), MetatagName(rows[j]))
    requires forall m :: m in db.metatags ==> (m, db.metatags[m]) in rows
    ensures var r := LazyMetatags(rows);
            && (forall i :: 0 <= i < |r| ==> r[i].id in db.metatags && r[i] == MetatagLazyOf(r[i].id, db.metatags[r[i].id]))
            && (forall i, j :: 0 <= i < j < |r| ==> Text.LexLe(r[i].name, r[j].name))
            && (forall m :: m in db.metatags ==> MetatagLazyOf(m, db.metatags[m]) in r)
  {
    var r := LazyMetatags(rows);
    forall i, j | 0 <= i < j < |r| ensures Text.LexLe(r[i].name, r[j].name) {
      assert r[i].name == MetatagName(rows[i]) && r[j].name == MetatagName(rows[j]);
    }
    forall m | m in db.metatags ensures MetatagLazyOf(m, db.metatags[m]) in r {
      var k :| 0 <= k < |rows| && rows[k] == (m, db.metatags[m]);
      assert r[k] == MetatagLazyOf(m, db.metatags[m]);
    }
  }

  /** `getById`: the full view of the metatag with its tags, or None. */
  function GetById(db: Db, id: int): (r: Option<MetatagView>)
    ensures r.Some? <==> id in db.metatags
    ensures r.Some? ==> r.value == MetatagFullOf(db, id)
  {
    if id in db.metatags then Some(MetatagFullOf(db, id)) else None
  }

  /** `getByName`: the full view of the metatag with this name (names are unique), or None. */
  function GetByName(db: Db, name: string): (r: Option<MetatagView>)
    requires Wf(db)
    ensures r.Some? ==> r.value.MetatagFull? && r.value.name == name && r.value.id in db.metatags
    ensures r.Some? ==> r.value == MetatagFullOf(db, r.value.id)
    ensures r.None? <==> forall m :: m in db.metatags ==> db.metatags[m].name != name
  {
    match DaoCommon.GetByName(db.metatags, db.nextMetatag, MetatagName, name)
    case None => None
    case Some(p) => Some(MetatagFullOf(db, p.0))
  }

  // ---------------------------------------------------------------------------
  // Writes

  /**
   * `insert(name)`: only the name is supplied; a missing or taken name raises
   * IntegrityError and nothing is stored; otherwise the new metatag's full
   * view, with no tags yet, is returned.
   */
  function InsertTx(db: Db, name: Option<string>): (t: Tx<MetatagView>)
    requires Wf(db)
    ensures Wf(t.db)
    ensures t.outcome.Err? ==> t.db == db
    ensures t.outcome.Ok? <==> name.Some? && !NameTaken(db.metatags, name.value, db.nextMetatag)
    ensures name.None? ==> t.outcome == Err(IntegrityError(NotNull("Metatags.name")))
    ensures t.outcome.Ok? ==>
      var id := t.outcome.value.id;
      && id !in db.metatags
      && t.db == db.(metatags := db.metatags[id := MetatagRow(name.value)], nextMetatag := id + 1)
      && t.outcome.value == MetatagFull(id, name.value, [])
  {
    if name.None? then Tx(db, Err(IntegrityError(NotNull("Metatags.name"))))
    else if NameTaken(db.metatags, name.value, db.nextMetatag) then Tx(db, Err(IntegrityError(Unique("Metatags.name"))))
    else
      var id := db.nextMetatag;
      var db' := db.(metatags := db.metatags[id := MetatagRow(name.value)], nextMetatag := id + 1);
      NewMetatagHasNoTags(db', id);
      Tx(db', Ok(MetatagFullOf(db', id)))
  }

  lemma NewMetatagHasNoTags(db: Db, id: int)
    requires id in db.metatags && forall t :: t in db.tags ==> db.tags[t].metatagId != id
    ensures MetatagFullOf(db, id) == MetatagFull(id, db.metatags[id].name, [])
  {
    assert TagRowsOfMetatag(db, id) == [];
  }

  /** A second metatag with a name already in use is rejected and the catalog stays as it was. */
  lemma DuplicateNameRejected(db: Db, m: int)
    requires Wf(db) && m in db.metatags
    ensures var t := InsertTx(db, Some(db.metatags[m].name));
            t.outcome == Err(IntegrityError(Unique("Metatags.name"))) && t.db == db
  {
    assert m != db.nextMetatag;
  }

  /**
   * `update(metatag, name=...)`: a missing row gives None when nothing is set
   * and AttributeError otherwise; a None or taken name raises IntegrityError;
   * otherwise the lazy view of the renamed metatag. Nothing changes on an error.
   */
  function UpdateTx(db: Db, id: int, name: Change<string>): (t: Tx<Option<MetatagView>>)
    requires Wf(db)
    ensures Wf(t.db)
    ensures t.outcome.Err? ==> t.db == db
    ensures id !in db.metatags ==> t.db == db && (t.outcome.Ok? <==> name.Keep?)
    ensures id in db.metatags ==>
      (t.outcome.Ok? <==> name.Apply(db.metatags[id].name).Some?
                          && !NameTaken(db.metatags, name.Apply(db.metatags[id].name).value, id))
    ensures t.outcome.Ok? && t.outcome.value.Some? ==>
      && id in db.metatags && name.Apply(db.metatags[id].name).Some?
      && var row' := MetatagRow(name.Apply(db.metatags[id].name).value);
      && t.db == db.(metatags := db.metatags[id := row'])
      && t.outcome.value.value == MetatagLazyOf(id, row')
  {
    if id !in db.metatags then Tx(db, UpdateMissing(if name.SetTo? then Some("name") else None))
    else
      var n := name.Apply(db.metatags[id].name);
      if n.None? then Tx(db, Err(IntegrityError(NotNull("Metatags.name"))))
      else if NameTaken(db.metatags, n.value, id) then Tx(db, Err(IntegrityError(Unique("Metatags.name"))))
      else
        var row' := MetatagRow(n.value);
        Tx(db.(metatags := db.metatags[id := row']), Ok(Some(MetatagLazyOf(id, row'))))
  }

  /**
   * `delete(metatag)`: a missing row raises; a metatag that still owns tags
   * cannot go, since the store would null their non-null metatag_id; otherwise
   * the row goes.
   */
  function DeleteTx(db: Db, id: int): (t: Tx<Unit>)
    requires Wf(db)
    ensures Wf(t.db)
    ensures t.outcome.Err? ==> t.db == db
    ensures id !in db.metatags ==> t.outcome == Err(UnmappedInstance)
    ensures id in db.metatags && OwnsTags(db, id) ==> t.outcome == Err(IntegrityError(NotNull("Tags.metatag_id")))
    ensures t.outcome.Ok? <==> id in db.metatags && !OwnsTags(db, id)
    ensures t.outcome.Ok? ==> t.db == db.(metatags := db.metatags - {id})
  {
    if id !in db.metatags then Tx(db, Err(UnmappedInstance))
    else if OwnsTags(db, id) then Tx(db, Err(IntegrityError(NotNull("Tags.metatag_id"))))
    else Tx(db.(metatags := db.metatags - {id}), Ok(Unit))
  }

  /** Deleting the metatag of an existing tag fails and keeps every tag's metatag. */
  lemma DeleteOwnerFails(db: Db, t: int)
    requires Wf(db) && t in db.tags
    ensures DeleteTx(db, db.tags[t].metatagId).outcome.Err?
    ensures DeleteTx(db, db.tags[t].metatagId).db == db
  {
    assert OwnsTags(db, db.tags[t].metatagId);
  }

  // ---------------------------------------------------------------------------
  // The DAO methods on the committed catalog

  method Insert(c: Catalog, name: Option<string>) returns (r: Result<MetatagView>)
    requires c.Valid()
    modifies c
    ensures c.Valid()
    ensures r == InsertTx(old(c.State()), name).outcome && c.State() == InsertTx(old(c.State()), name).db
  {
    var t := InsertTx(c.State(), name);
    if t.outcome.Ok? {
      c.Commit(t.db);
    }
    r := t.outcome;
  }

  method Update(c: Catalog, id: int, name: Change<string>) returns (r: Result<Option<MetatagView>>)
    requires c.Valid()
    modifies c
    ensures c.Valid()
    ensures r == UpdateTx(old(c.State()), id, name).outcome && c.State() == UpdateTx(old(c.State()), id, name).db
  {
    var t := UpdateTx(c.State(), id, name);
    if t.outcome.Ok? {
      c.Commit(t.db);
    }
    r := t.outcome;
  }

  method Delete(c: Catalog, id: int) returns (r: Result<Unit>)
    requires c.Valid()
    modifies c
    ensures c.Valid()
    ensures r == DeleteTx(old(c.State()), id).outcome && c.State() == DeleteTx(old(c.State()), id).db
  {
    var t := DeleteTx(c.State(), id);
    if t.outcome.Ok? {
      c.Commit(t.db);
    }
    r := t.outcome;
  }
}
