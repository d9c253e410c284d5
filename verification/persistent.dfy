/**
 * The relational schema of the catalog: the Files, Tags and Metatags tables,
 * the FileTags association table, and the integrity the schema declares.
 */
module Persistent {
  import Sql

  /** A row of Files; `(relpath, name)` is unique across the table. */
  datatype FileRow = FileRow(name: string, relpath: string, mime: string)

  /** A row of Tags; `name` is unique and every tag belongs to one metatag. */
  datatype TagRow = TagRow(name: string, metatagId: int)

  /** A row of Metatags; `name` is unique. */
  datatype MetatagRow = MetatagRow(name: string)

  /** A row of FileTags; the pair is the composite primary key. */
  datatype Link = Link(file: int, tag: int)

  /**
   * The whole database. Each table maps its integer primary key to its row;
   * `next*` is the id the next insert into that table receives.
   */
  datatype Db = Db(
    files: map<int, FileRow>,
    tags: map<int, TagRow>,
    metatags: map<int, MetatagRow>,
    links: set<Link>,
    nextFile: int,
    nextTag: int,
    nextMetatag: int)

  /** The empty database the schema creates. */
  function Empty(): (db: Db)
    ensures Wf(db)
  {
    Db(map[], map[], map[], {}, 1, 1, 1)
  }

  ghost predicate IdsBelow<R>(table: map<int, R>, next: int)
  {
    next >= 1 && forall id :: id in table ==> 1 <= id < next
  }

  ghost predicate UniqueFilePaths(files: map<int, FileRow>)
  {
    forall a, b ::
      a in files && b in files && files[a].relpath == files[b].relpath && files[a].name == files[b].name
      ==> a == b
  }

  ghost predicate UniqueTagNames(tags: map<int, TagRow>)
  {
    forall a, b :: a in tags && b in tags && tags[a].name == tags[b].name ==> a == b
  }

  ghost predicate UniqueMetatagNames(metatags: map<int, MetatagRow>)
  {
    forall a, b :: a in metatags && b in metatags && metatags[a].name == metatags[b].name ==> a == b
  }

  /** Every tag's metatag_id names an existing metatag. */
  ghost predicate TagsHaveMetatags(db: Db)
  {
    forall t :: t in db.tags ==> db.tags[t].metatagId in db.metatags
  }

  /** Every FileTags row references an existing file and an existing tag. */
  ghost predicate LinksResolve(db: Db)
  {
    forall l :: l in db.links ==> l.file in db.files && l.tag in db.tags
  }

  /** The integrity the schema declares: keys, unique constraints and foreign keys. */
  ghost predicate Wf(db: Db)
  {
    && IdsBelow(db.files, db.nextFile)
    && IdsBelow(db.tags, db.nextTag)
    && IdsBelow(db.metatags, db.nextMetatag)
    && UniqueFilePaths(db.files)
    && UniqueTagNames(db.tags)
    && UniqueMetatagNames(db.metatags)
    && TagsHaveMetatags(db)
    && LinksResolve(db)
  }

  // ---------------------------------------------------------------------------
  // Table scans and relationships

  /** The rows of `table` with the given keys, in the order of `ids`. */
  function Rows<R>(table: map<int, R>, ids: seq<int>): (r: seq<(int, R)>)
    requires forall i :: 0 <= i < |ids| ==> ids[i] in table
    ensures |r| == |ids|
    ensures forall i :: 0 <= i < |r| ==> r[i].0 == ids[i] && r[i].1 == table[ids[i]]
  {
    seq(|ids|, i requires 0 <= i < |ids| => (ids[i], table[ids[i]]))
  }

  /** The whole table in rowid order. */
  function ScanTable<R>(table: map<int, R>, next: int): (r: seq<(int, R)>)
    ensures forall i :: 0 <= i < |r| ==> r[i].0 in table && r[i].1 == table[r[i].0]
    ensures forall i, j :: 0 <= i < j < |r| ==> r[i].0 < r[j].0
    ensures IdsBelow(table, next) ==> forall id :: id in table ==> (id, table[id]) in r
  {
    var ids := Sql.Scan(table.Keys, 1, next);
    var r := Rows(table, ids);
    assert IdsBelow(table, next) ==> forall id :: id in table ==> r[IndexOf(ids, id)] == (id, table[id]);
    r
  }

  function IndexOf(ids: seq<int>, id: int): (i: int)
    requires id in ids
    ensures 0 <= i < |ids| && ids[i] == id
  {
    if ids[0] == id then 0 else 1 + IndexOf(ids[1..], id)
  }

  /** The ids of the tags linked to file `f`, ascending (the FileTags key order). */
  function TagIdsOfFile(db: Db, f: int): (r: seq<int>)
    ensures forall i :: 0 <= i < |r| ==> Link(f, r[i]) in db.links
    ensures forall t :: Link(f, t) in db.links && 1 <= t < db.nextTag ==> t in r
    ensures forall i, j :: 0 <= i < j < |r| ==> r[i] < r[j]
  {
    Sql.Scan(set l | l in db.links && l.file == f :: l.tag, 1, db.nextTag)
  }

  /** The ids of the files linked to tag `t`, ascending. */
  function FileIdsOfTag(db: Db, t: int): (r: seq<int>)
    ensures forall i :: 0 <= i < |r| ==> Link(r[i], t) in db.links
    ensures forall f :: Link(f, t) in db.links && 1 <= f < db.nextFile ==> f in r
    ensures forall i, j :: 0 <= i < j < |r| ==> r[i] < r[j]
  {
    Sql.Scan(set l | l in db.links && l.tag == t :: l.file, 1, db.nextFile)
  }

  /** In a well-formed database a file lists a tag exactly when that tag lists the file. */
  lemma LinksAreSymmetric(db: Db, f: int, t: int)
    requires Wf(db)
    ensures t in TagIdsOfFile(db, f) <==> f in FileIdsOfTag(db, t)
    ensures t in TagIdsOfFile(db, f) <==> Link(f, t) in db.links
  {
    if Link(f, t) in db.links {
      assert t in db.tags && f in db.files;
    }
  }
}
