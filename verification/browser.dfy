/**
 * The browser controller: the tags in use, the name filter, the files they
 * select and the tags and metatags still worth offering, recomputed after
 * every change and announced to the view through update events.
 */
module Browser {
  import opened Wrappers
  import opened Persistent
  import opened Views
  import opened DaoCommon
  import Collections
  import Text
  import Sql
  import Json
  import FilesDao
  import TagsDao
  import MetatagsDao

  // Update events
  const UPDATE_METATAGS := 0
  const UPDATE_TAGS := 1
  const UPDATE_FILES := 2
  const UPDATE_USED_TAGS := 3
  const UPDATE_AVAILABLE_METATAGS := 4
  const UPDATE_AVAILABLE_TAGS := 5

  /** How many random files the empty query shows. */
  const START_RANDOM_FILES := 9

  function TagIds(tags: seq<TagView>): (r: seq<int>)
    ensures |r| == |tags| && forall i :: 0 <= i < |r| ==> r[i] == tags[i].id
  {
    seq(|tags|, i requires 0 <= i < |tags| => tags[i].id)
  }

  /** Tag views handed to `getByNameAndTags`. */
  function TagRefs(tags: seq<TagView>): (r: seq<FilesDao.TagRef>)
    ensures |r| == |tags| && forall i :: 0 <= i < |r| ==> r[i] == FilesDao.TagEntity(tags[i])
  {
    seq(|tags|, i requires 0 <= i < |tags| => FilesDao.TagEntity(tags[i]))
  }

  lemma ResolveViews(tags: seq<TagView>)
    ensures FilesDao.ResolveTagIds(TagRefs(tags)) == Ok(TagIds(tags))
  {
    var refs := TagRefs(tags);
    var r := FilesDao.ResolveTagIds(refs);
    assert forall i :: 0 <= i < |refs| ==> !refs[i].TagText?;
    assert r.value == TagIds(tags);
  }

  // ---------------------------------------------------------------------------
  // `_getFiles`

  /**
   * `_getFiles(tags, name)`: with no tags and no name, the first
   * START_RANDOM_FILES files of a random `order` when the randomize setting
   * is truthy and nothing otherwise; else the files `getByNameAndTags(name, tags)`
   * selects.
   */
  function GetFiles(db: Db, tags: seq<TagView>, name: Option<string>, randomize: Json.Json, order: seq<int>): seq<FileView>
    requires IsOrderOf(order, db.files)
  {
    if tags == [] && name.None? then
      if Json.Truthy(randomize) then FilesDao.GetRandom(db, order, START_RANDOM_FILES) else []
    else
      ResolveViews(tags);
      FilesDao.GetByNameAndTags(db, name, Some(TagRefs(tags)), None, None).value
  }

  /**
   * The files shown: nothing or up to START_RANDOM_FILES distinct random files
   * for the empty query, and exactly the answer of `getByNameAndTags` for the
   * used tags (never an error, since they are entities) otherwise.
   */
  lemma GetFilesMeaning(db: Db, tags: seq<TagView>, name: Option<string>, randomize: Json.Json, order: seq<int>)
    requires IsOrderOf(order, db.files)
    ensures var r := GetFiles(db, tags, name, randomize, order);
      && (tags == [] && name.None? && !Json.Truthy(randomize) ==> r == [])
      && (tags == [] && name.None? && Json.Truthy(randomize) ==>
           && |r| == (if |db.files| < START_RANDOM_FILES then |db.files| else START_RANDOM_FILES)
           && (forall i :: 0 <= i < |r| ==> r[i].id in db.files)
           && (forall i, j :: 0 <= i < j < |r| ==> r[i].id != r[j].id))
      && (!(tags == [] && name.None?) ==> Ok(r) == FilesDao.GetByNameAndTags(db, name, Some(TagRefs(tags)), None, None))
  {
    ResolveViews(tags);
  }

  /** With tags in use, every file shown carries all of them. */
  lemma ShownFilesCarryUsedTags(db: Db, tags: seq<TagView>, name: Option<string>, randomize: Json.Json, order: seq<int>, i: int, k: int)
    requires IsOrderOf(order, db.files) && tags != []
    requires 0 <= i < |GetFiles(db, tags, name, randomize, order)| && 0 <= k < |tags|
    ensures Link(GetFiles(db, tags, name, randomize, order)[i].id, tags[k].id) in db.links
  {
    ResolveViews(tags);
    var r := FilesDao.ByNameAndTags(db, name, TagIds(tags), None, None);
    assert GetFiles(db, tags, name, randomize, order) == r;
    assert FilesDao.Matches(db, name, TagIds(tags), (r[i].id, db.files[r[i].id]));
    assert TagIds(tags)[k] == tags[k].id;
  }

  // ---------------------------------------------------------------------------
  // `_getAvailableTags`

  /** The tags are in strictly ascending id order. */
  ghost predicate TagIdsAscending(tags: seq<TagView>)
  {
    forall i, j :: 0 <= i < j < |tags| ==> tags[i].id < tags[j].id
  }

  /** The tags whose id is not among `usedIds`, in their original order. */
  function WithoutUsed(tags: seq<TagView>, usedIds: seq<int>): (r: seq<TagView>)
    ensures |r| <= |tags|
    ensures forall i :: 0 <= i < |r| ==> r[i] in tags && r[i].id !in usedIds
    ensures forall i :: 0 <= i < |tags| && tags[i].id !in usedIds ==> tags[i] in r
  {
    if tags == [] then []
    else
      var init, last := tags[..|tags| - 1], tags[|tags| - 1];
      assert tags == init + [last];
      var rest := WithoutUsed(init, usedIds);
      assert rest + [] == rest;
      rest + (if last.id in usedIds then [] else [last])
  }

  /** Dropping the used tags keeps ascending ids ascending. */
  lemma {:induction false} WithoutUsedAscending(tags: seq<TagView>, usedIds: seq<int>)
    requires TagIdsAscending(tags)
    ensures TagIdsAscending(WithoutUsed(tags, usedIds))
    decreases |tags|
  {
    if tags != [] {
      var init, last := tags[..|tags| - 1], tags[|tags| - 1];
      assert tags == init + [last];
      var rest := WithoutUsed(init, usedIds);
      AppendAscending(init, last, rest);
      WithoutUsedAscending(init, usedIds);
      assert rest + [] == rest;
    }
  }

  /** Keeping some of the tags before `last`, in ascending order, and then `last` stays ascending. */
  lemma AppendAscending(init: seq<TagView>, last: TagView, rest: seq<TagView>)
    requires forall i :: 0 <= i < |rest| ==> rest[i] in init
    ensures TagIdsAscending(init + [last]) ==> TagIdsAscending(init)
    ensures TagIdsAscending(init + [last]) && TagIdsAscending(rest) ==> TagIdsAscending(rest + [last])
  {
    var tags := init + [last];
    if !(TagIdsAscending(tags) && TagIdsAscending(rest)) {
      if TagIdsAscending(tags) {
        AscendingPrefix(init, last);
      }
      return;
    }
    AscendingPrefix(init, last);
    var r := rest + [last];
    forall i, j | 0 <= i < j < |r| ensures r[i].id < r[j].id {
      if j == |rest| {
        var k :| 0 <= k < |init| && init[k] == rest[i];
        assert tags[k] == rest[i] && tags[|init|] == last;
      } else {
        assert r[i] == rest[i] && r[j] == rest[j];
      }
    }
  }

  lemma AscendingPrefix(init: seq<TagView>, last: TagView)
    requires TagIdsAscending(init + [last])
    ensures TagIdsAscending(init)
  {
    var tags := init + [last];
    forall i, j | 0 <= i < j < |init| ensures init[i].id < init[j].id {
      assert tags[i] == init[i] && tags[j] == init[j];
    }
  }

  /** What `_getAvailableTags(files)` returns while `used` are the tags in use. */
  function AvailableTagsSpec(db: Db, used: seq<TagView>, files: seq<FileView>): seq<TagView>
    requires Wf(db)
  {
    if |used| == 0 || |files| == 0 then TagsDao.GetAllWithOneFileTagged(db)
    else WithoutUsed(TagsDao.GetRelatedTags(db, used), TagIds(used))
  }

  /**
   * The available tags are ordered by name when every tagged tag is offered,
   * and by ascending id when they are the related tags left over.
   */
  lemma AvailableTagsOrder(db: Db, used: seq<TagView>, files: seq<FileView>)
    requires Wf(db)
    ensures var r := AvailableTagsSpec(db, used, files);
            |used| == 0 || |files| == 0 ==> forall i, j :: 0 <= i < j < |r| ==> Text.LexLe(r[i].name, r[j].name)
    ensures |used| > 0 && |files| > 0 ==> TagIdsAscending(AvailableTagsSpec(db, used, files))
  {
    if |used| > 0 && |files| > 0 {
      WithoutUsedAscending(TagsDao.GetRelatedTags(db, used), TagIds(used));
    }
  }

  /**
   * `_getAvailableTags(files)`: every tag in use somewhere when no tag is used
   * or no file is shown; otherwise the tags related to the used ones, minus
   * the used ones.
   */
  method AvailableTags(db: Db, used: seq<TagView>, files: seq<FileView>) returns (r: seq<TagView>)
    requires Wf(db)
    ensures r == AvailableTagsSpec(db, used, files)
  {
    if |used| == 0 || |files| == 0 {
      return TagsDao.GetAllWithOneFileTagged(db);
    }
    r := DropUsed(TagsDao.GetRelatedTags(db, used), TagIds(used));
  }

  /** `WithoutUsed` on one more element of a list: that element is kept unless its id is used. */
  lemma WithoutUsedStep(tags: seq<TagView>, i: int, usedIds: seq<int>)
    requires 0 <= i < |tags|
    ensures WithoutUsed(tags[..i + 1], usedIds) == WithoutUsed(tags[..i], usedIds) + (if tags[i].id in usedIds then [] else [tags[i]])
  {
    assert tags[..i + 1][..i] == tags[..i];
  }

  /** The loop of `_getAvailableTags`: keeps the tags whose id is not used, in order. */
  method DropUsed(common: seq<TagView>, usedIds: seq<int>) returns (r: seq<TagView>)
    ensures r == WithoutUsed(common, usedIds)
  {
    r := [];
    var i := 0;
    while i < |common|
      invariant 0 <= i <= |common|
      invariant r == WithoutUsed(common[..i], usedIds)
    {
      WithoutUsedStep(common, i, usedIds);
      r := r + (if common[i].id in usedIds then [] else [common[i]]);
      i := i + 1;
    }
    assert common[..i] == common;
  }

  /**
   * With tags in use and files shown, the available tags are exactly the
   * tags sharing a file with all used tags whose id is not used.
   */
  lemma AvailableTagsAreRelatedUnused(db: Db, used: seq<TagView>, files: seq<FileView>, t: int)
    requires Wf(db) && |used| > 0 && |files| > 0
    ensures (exists i :: 0 <= i < |AvailableTagsSpec(db, used, files)| && AvailableTagsSpec(db, used, files)[i].id == t)
            <==> TagsDao.RelatedTo(db, used, t) && t !in TagIds(used)
  {
    var r := AvailableTagsSpec(db, used, files);
    if exists i :: 0 <= i < |r| && r[i].id == t {
      var i :| 0 <= i < |r| && r[i].id == t;
      AvailableTagIsRelatedUnused(db, used, files, i);
    }
    if TagsDao.RelatedTo(db, used, t) && t !in TagIds(used) {
      RelatedUnusedIsAvailable(db, used, files, t);
    }
  }

  lemma AvailableTagIsRelatedUnused(db: Db, used: seq<TagView>, files: seq<FileView>, i: int)
    requires Wf(db) && |used| > 0 && |files| > 0
    requires 0 <= i < |AvailableTagsSpec(db, used, files)|
    ensures var t := AvailableTagsSpec(db, used, files)[i].id;
            TagsDao.RelatedTo(db, used, t) && t !in TagIds(used)
  {
    var common := TagsDao.GetRelatedTags(db, used);
    var r := WithoutUsed(common, TagIds(used));
    assert r == AvailableTagsSpec(db, used, files);
    assert r[i] in common && r[i].id !in TagIds(used);
    var k :| 0 <= k < |common| && common[k] == r[i];
    assert TagsDao.RelatedTo(db, used, common[k].id);
  }

  lemma RelatedUnusedIsAvailable(db: Db, used: seq<TagView>, files: seq<FileView>, t: int)
    requires Wf(db) && |used| > 0 && |files| > 0
    requires TagsDao.RelatedTo(db, used, t) && t !in TagIds(used)
    ensures exists i :: 0 <= i < |AvailableTagsSpec(db, used, files)| && AvailableTagsSpec(db, used, files)[i].id == t
  {
    var common := TagsDao.GetRelatedTags(db, used);
    var r := WithoutUsed(common, TagIds(used));
    assert r == AvailableTagsSpec(db, used, files);
    assert TagLazyOf(db, t) in common;
    var k :| 0 <= k < |common| && common[k] == TagLazyOf(db, t);
    assert common[k].id == t;
    assert common[k] in r;
    var i :| 0 <= i < |r| && r[i] == common[k];
    assert r[i].id == t;
  }

  /** With no tag in use the available tags are every tag with a file, used or not. */
  lemma AvailableTagsWithoutUse(db: Db, files: seq<FileView>, f: int, t: int)
    requires Wf(db) && Link(f, t) in db.links
    ensures TagLazyOf(db, t) in AvailableTagsSpec(db, [], files)
  {
    assert TagsDao.InUse(db, t);
  }

  // ---------------------------------------------------------------------------
  // `_getAvailableMetatags`

  function MetatagIds(ms: seq<MetatagView>): (r: seq<int>)
    ensures |r| == |ms| && forall i :: 0 <= i < |r| ==> r[i] == ms[i].id
  {
    seq(|ms|, i requires 0 <= i < |ms| => ms[i].id)
  }

  /** The metatags of `tags`, the first seen for each id, in order of first appearance (the dict's values). */
  function FirstMetatags(tags: seq<TagView>): (r: seq<MetatagView>)
    ensures forall i, j :: 0 <= i < j < |r| ==> r[i].id != r[j].id
    ensures forall i :: 0 <= i < |r| ==> exists k :: 0 <= k < |tags| && tags[k].metatag == r[i]
    ensures forall k :: 0 <= k < |tags| ==> tags[k].metatag.id in MetatagIds(r)
  {
    if tags == [] then []
    else
      var init, last := tags[..|tags| - 1], tags[|tags| - 1];
      var prev := FirstMetatags(init);
      assert tags == init + [last];
      FirstMetatagsStep(init, last, prev);
      if last.metatag.id in MetatagIds(prev) then prev else prev + [last.metatag]
  }

  /** One step of `FirstMetatags`: appending a tag keeps the three properties of its result. */
  lemma FirstMetatagsStep(init: seq<TagView>, last: TagView, prev: seq<MetatagView>)
    requires forall i, j :: 0 <= i < j < |prev| ==> prev[i].id != prev[j].id
    requires forall i :: 0 <= i < |prev| ==> exists k :: 0 <= k < |init| && init[k].metatag == prev[i]
    requires forall k :: 0 <= k < |init| ==> init[k].metatag.id in MetatagIds(prev)
    ensures var r := if last.metatag.id in MetatagIds(prev) then prev else prev + [last.metatag];
      && (forall i, j :: 0 <= i < j < |r| ==> r[i].id != r[j].id)
      && (forall i :: 0 <= i < |r| ==> exists k :: 0 <= k < |init + [last]| && (init + [last])[k].metatag == r[i])
      && (forall k :: 0 <= k < |init + [last]| ==> (init + [last])[k].metatag.id in MetatagIds(r))
  {
    var tags := init + [last];
    forall i | 0 <= i < |prev| ensures exists k :: 0 <= k < |tags| && tags[k].metatag == prev[i] {
      var k :| 0 <= k < |init| && init[k].metatag == prev[i];
      assert tags[k] == init[k];
    }
    if last.metatag.id !in MetatagIds(prev) {
      var r := prev + [last.metatag];
      assert MetatagIds(r) == MetatagIds(prev) + [last.metatag.id];
      assert tags[|init|].metatag == r[|prev|];
    }
  }

  /** The sort key: the lower-cased name. */
  function LowerName(m: MetatagView): string
  {
    Text.Lower(m.name)
  }

  /** What `_getAvailableMetatags(tags)` returns. */
  function AvailableMetatagsSpec(tags: seq<TagView>): seq<MetatagView>
  {
    Collections.SortByKey(FirstMetatags(tags), LowerName)
  }

  /**
   * `_getAvailableMetatags(tags)`: one metatag per distinct metatag id of the
   * tags, sorted by lower-cased name.
   */
  method AvailableMetatags(tags: seq<TagView>) returns (r: seq<MetatagView>)
    ensures r == AvailableMetatagsSpec(tags)
  {
    var seen: seq<MetatagView> := [];
    var i := 0;
    while i < |tags|
      invariant 0 <= i <= |tags|
      invariant seen == FirstMetatags(tags[..i])
    {
      assert tags[..i + 1][..i] == tags[..i];
      if tags[i].metatag.id !in MetatagIds(seen) {
        seen := seen + [tags[i].metatag];
      }
      i := i + 1;
    }
    assert tags[..i] == tags;
    r := Collections.SortByKey(seen, LowerName);
  }

  /** No metatag id occurs twice among the available metatags. */
  lemma AvailableMetatagsDistinct(tags: seq<TagView>)
    ensures var r := AvailableMetatagsSpec(tags);
            forall i, j :: 0 <= i < j < |r| ==> r[i].id != r[j].id
  {
    var first := FirstMetatags(tags);
    var r := AvailableMetatagsSpec(tags);
    Collections.SortByKeyPermutes(first, LowerName);
    assert Collections.Distinct(first);
    KeepsDistinct(first, r);
    Collections.SameElements(r, first);
    forall i, j | 0 <= i < j < |r| ensures r[i].id != r[j].id {
      assert r[i] != r[j];
      assert r[i] in first && r[j] in first;
      var a :| 0 <= a < |first| && first[a] == r[i];
      var b :| 0 <= b < |first| && first[b] == r[j];
      assert a != b;
      if a < b {
        assert first[a].id != first[b].id;
      } else {
        assert first[b].id != first[a].id;
      }
    }
  }

  /** Every available metatag is the metatag of some input tag, and they are ordered by lower-cased name. */
  lemma AvailableMetatagsFromTags(tags: seq<TagView>)
    ensures var r := AvailableMetatagsSpec(tags);
            && (forall i :: 0 <= i < |r| ==> exists k :: 0 <= k < |tags| && tags[k].metatag == r[i])
            && Collections.SortedBy(r, LowerName)
  {
    var first := FirstMetatags(tags);
    var r := AvailableMetatagsSpec(tags);
    Collections.SortByKeyPermutes(first, LowerName);
    Collections.SameElements(r, first);
    forall i | 0 <= i < |r| ensures exists k :: 0 <= k < |tags| && tags[k].metatag == r[i] {
      var a :| 0 <= a < |first| && first[a] == r[i];
    }
  }

  /** The metatag of every input tag is available. */
  lemma AvailableMetatagsCoverTags(tags: seq<TagView>)
    ensures var r := AvailableMetatagsSpec(tags);
            forall k :: 0 <= k < |tags| ==> tags[k].metatag.id in MetatagIds(r)
  {
    var first := FirstMetatags(tags);
    var r := AvailableMetatagsSpec(tags);
    Collections.SortByKeyPermutes(first, LowerName);
    Collections.SameElements(first, r);
    forall k | 0 <= k < |tags| ensures tags[k].metatag.id in MetatagIds(r) {
      var a :| 0 <= a < |first| && first[a].id == tags[k].metatag.id;
      var b :| 0 <= b < |r| && r[b] == first[a];
      assert MetatagIds(r)[b] == tags[k].metatag.id;
    }
  }

  // ---------------------------------------------------------------------------
  // `addNameFilter`

  /**
   * The LIKE pattern `addNameFilter` builds: None for no name or a blank one,
   * otherwise the whitespace-separated words joined by '%' inside '%' ... '%'.
   */
  function NameFilterOf(name: Option<string>): (r: Option<string>)
  {
    if name.None? then None
    else
      var joined := Text.Join(Text.Split(name.value), "%");
      if joined == [] then None else Some("%" + joined + "%")
  }

  /** The words of a text joined by '%' is empty only when there are no words. */
  lemma {:induction false} JoinEmptyIffNoParts(parts: seq<string>)
    requires forall k :: 0 <= k < |parts| ==> parts[k] != []
    ensures Text.Join(parts, "%") == [] <==> parts == []
  {
    if |parts| > 1 {
      assert Text.Join(parts, "%") == parts[0] + "%" + Text.Join(parts[1..], "%");
    }
  }

  /** The filter is None exactly for no name or a blank one, and otherwise holds no whitespace. */
  lemma NameFilterShape(name: Option<string>)
    ensures NameFilterOf(name).None? <==> name.None? || Text.AllSpace(name.value)
    ensures NameFilterOf(name).Some? ==>
      var f := NameFilterOf(name).value;
      |f| >= 3 && f[0] == '%' && f[|f| - 1] == '%' && Text.NoSpace(f)
  {
    if name.Some? {
      var words := Text.Split(name.value);
      Text.SplitEmptyIffBlank(name.value);
      JoinEmptyIffNoParts(words);
      JoinHasNoSpace(words);
    }
  }

  lemma {:induction false} JoinHasNoSpace(parts: seq<string>)
    requires forall k :: 0 <= k < |parts| ==> Text.NoSpace(parts[k])
    ensures Text.NoSpace(Text.Join(parts, "%"))
  {
    if |parts| > 1 {
      JoinHasNoSpace(parts[1..]);
      var rest := Text.Join(parts[1..], "%");
      var j := parts[0] + "%" + rest;
      assert Text.Join(parts, "%") == j;
      assert Text.NoSpace(parts[0]);
      forall i | 0 <= i < |j| ensures !Text.IsSpace(j[i]) {
        if i < |parts[0]| {
          assert j[i] == parts[0][i];
        } else if i == |parts[0]| {
          assert j[i] == '%';
        } else {
          assert j[i] == rest[i - |parts[0]| - 1];
        }
      }
    }
  }

  /** `'%' + w1 + '%' + ... + wn + '%'`, the pattern a non-empty word list gives. */
  function WordsPattern(words: seq<string>): string
  {
    if words == [] then "%" else "%" + words[0] + WordsPattern(words[1..])
  }

  /** `g0 + w1 + g1 + ... + wn + gn`: a text holding the words in order, with any gaps around them. */
  function Interleave(words: seq<string>, gaps: seq<string>): string
    requires |gaps| == |words| + 1
  {
    if words == [] then gaps[0] else gaps[0] + words[0] + Interleave(words[1..], gaps[1..])
  }

  lemma {:induction false} JoinedPattern(words: seq<string>)
    requires words != []
    ensures "%" + Text.Join(words, "%") + "%" == WordsPattern(words)
  {
    if |words| == 1 {
      assert WordsPattern(words[1..]) == "%";
    } else {
      JoinedPattern(words[1..]);
      assert Text.Join(words, "%") == words[0] + "%" + Text.Join(words[1..], "%");
    }
  }

  /** The word pattern matches every text that holds the words in order. */
  lemma {:induction false} WordsPatternMatches(words: seq<string>, gaps: seq<string>)
    requires |gaps| == |words| + 1
    ensures Sql.Like(WordsPattern(words), Interleave(words, gaps))
  {
    if words == [] {
      Sql.LikeAnything(gaps[0]);
    } else {
      var p, t := WordsPattern(words[1..]), Interleave(words[1..], gaps[1..]);
      WordsPatternMatches(words[1..], gaps[1..]);
      Sql.LikeSelfPrefix(words[0], p, t);
      Sql.LikeSkip(words[0] + p, gaps[0], words[0] + t);
      assert WordsPattern(words) == "%" + (words[0] + p);
      assert Interleave(words, gaps) == gaps[0] + (words[0] + t);
    }
  }

  /** A name filter matches every file name that holds the filter's words in order. */
  lemma NameFilterMatches(name: string, gaps: seq<string>)
    requires !Text.AllSpace(name) && |gaps| == |Text.Split(name)| + 1
    ensures NameFilterOf(Some(name)).Some?
    ensures Sql.Like(NameFilterOf(Some(name)).value, Interleave(Text.Split(name), gaps))
  {
    var words := Text.Split(name);
    Text.SplitEmptyIffBlank(name);
    JoinEmptyIffNoParts(words);
    JoinedPattern(words);
    WordsPatternMatches(words, gaps);
  }

  // ---------------------------------------------------------------------------
  // List edits

  /** `s.remove(x)`: drops the first element equal to `x`, or None (ValueError) when there is none. */
  function RemoveFirst<T(==)>(s: seq<T>, x: T): (r: Option<seq<T>>)
    ensures r.None? <==> x !in s
    ensures r.Some? ==> exists k :: 0 <= k < |s| && s[k] == x && x !in s[..k] && r.value == s[..k] + s[k + 1..]
  {
    if x !in s then None
    else
      var k := FirstIndex(s, x);
      Some(s[..k] + s[k + 1..])
  }

  /** The position of the first `x` in `s`. */
  function FirstIndex<T(==)>(s: seq<T>, x: T): (k: nat)
    requires x in s
    ensures k < |s| && s[k] == x && x !in s[..k]
  {
    if s[0] == x then 0
    else
      var k := FirstIndex(s[1..], x);
      assert s[..k + 1] == [s[0]] + s[1..][..k];
      k + 1
  }

  /** The index of the first file with this id, if any. */
  function FirstWithId(files: seq<FileView>, id: int): (r: Option<nat>)
    ensures r.None? <==> forall i :: 0 <= i < |files| ==> files[i].id != id
    ensures r.Some? ==> r.value < |files| && files[r.value].id == id && forall i :: 0 <= i < r.value ==> files[i].id != id
  {
    if files == [] then None
    else if files[0].id == id then Some(0)
    else
      match FirstWithId(files[1..], id)
      case None => None
      case Some(k) => Some(k + 1)
  }

  /** The files after removing the first one with this id; the rest keep their order. */
  function WithoutFirstId(files: seq<FileView>, id: int): seq<FileView>
  {
    match FirstWithId(files, id)
    case None => files
    case Some(k) => files[..k] + files[k + 1..]
  }

  /** Removing by id drops exactly one file when there is one, and none otherwise. */
  lemma WithoutFirstIdLength(files: seq<FileView>, id: int)
    ensures |WithoutFirstId(files, id)| == if exists i :: 0 <= i < |files| && files[i].id == id then |files| - 1 else |files|
  {
    match FirstWithId(files, id)
    case None =>
    case Some(k) =>
      assert files[k].id == id;
  }

  /** Removing by id only drops: every remaining file was shown, as often as before at most. */
  lemma WithoutFirstIdSubMultiset(files: seq<FileView>, id: int)
    ensures multiset(WithoutFirstId(files, id)) <= multiset(files)
  {
    match FirstWithId(files, id)
    case None =>
    case Some(k) =>
      assert files == files[..k] + [files[k]] + files[k + 1..];
  }

  /** `_getAvailableTags` followed by `_getAvailableMetatags` on its result. */
  method Available(db: Db, used: seq<TagView>, files: seq<FileView>) returns (tags: seq<TagView>, metatags: seq<MetatagView>)
    requires Wf(db)
    ensures tags == AvailableTagsSpec(db, used, files) && metatags == AvailableMetatagsSpec(tags)
  {
    tags := AvailableTags(db, used, files);
    metatags := AvailableMetatags(tags);
  }

  /** The files, available tags and available metatags `_searchFiles` computes. */
  method Search(db: Db, used: seq<TagView>, name: Option<string>, randomize: Json.Json, order: seq<int>)
    returns (files: seq<FileView>, tags: seq<TagView>, metatags: seq<MetatagView>)
    requires Wf(db) && IsOrderOf(order, db.files)
    ensures files == GetFiles(db, used, name, randomize, order)
    ensures tags == AvailableTagsSpec(db, used, files) && metatags == AvailableMetatagsSpec(tags)
  {
    files := GetFiles(db, used, name, randomize, order);
    tags, metatags := Available(db, used, files);
  }

  /** The loop of `removeFile`: drops the first file with this id. */
  method RemoveById(files: seq<FileView>, id: int) returns (r: seq<FileView>)
    ensures r == WithoutFirstId(files, id)
  {
    r := files;
    var i := 0;
    while i < |files|
      invariant 0 <= i <= |files|
      invariant forall j :: 0 <= j < i ==> files[j].id != id
    {
      if files[i].id == id {
        r := files[..i] + files[i + 1..];
        break;
      }
      i := i + 1;
    }
  }

  // ---------------------------------------------------------------------------
  // The controller

  /**
   * The browser's state. It only reads the database, so each operation takes
   * the database as the DAOs see it during the call.
   */
  class BrowserCtrl {
    var metatags: seq<MetatagView>
    var tags: seq<TagView>
    var usedTags: seq<TagView>
    var nameFilter: Option<string>
    var files: seq<FileView>
    var availableTags: seq<TagView>
    var availableMetatags: seq<MetatagView>
    /** The update events triggered so far, in order. */
    var events: seq<int>

    constructor ()
      ensures events == [] && usedTags == [] && nameFilter == None
    {
      metatags, tags, usedTags, nameFilter := [], [], [], None;
      files, availableTags, availableMetatags, events := [], [], [], [];
    }

    /** `load`: all metatags and tags, nothing in use, and the files of the empty query. */
    method Load(db: Db, randomize: Json.Json, order: seq<int>)
      requires Wf(db) && IsOrderOf(order, db.files)
      modifies this
      ensures metatags == MetatagsDao.GetAll(db) && tags == TagsDao.GetAll(db)
      ensures usedTags == [] && nameFilter == None
      ensures files == GetFiles(db, usedTags, nameFilter, randomize, order)
      ensures availableTags == AvailableTagsSpec(db, usedTags, files)
      ensures availableMetatags == AvailableMetatagsSpec(availableTags)
      ensures events == old(events)
    {
      LoadLists(db);
      usedTags, nameFilter := [], None;
      Refresh(db, randomize, order);
    }

    /** The first half of `load`: every metatag and every tag. */
    method LoadLists(db: Db)
      requires Wf(db)
      modifies this
      ensures metatags == MetatagsDao.GetAll(db) && tags == TagsDao.GetAll(db)
      ensures usedTags == old(usedTags) && nameFilter == old(nameFilter) && events == old(events)
    {
      metatags, tags := MetatagsDao.GetAll(db), TagsDao.GetAll(db);
    }

    /** The files, available tags and available metatags of the current query; nothing is announced. */
    method Refresh(db: Db, randomize: Json.Json, order: seq<int>)
      requires Wf(db) && IsOrderOf(order, db.files)
      modifies this
      ensures files == GetFiles(db, usedTags, nameFilter, randomize, order)
      ensures availableTags == AvailableTagsSpec(db, usedTags, files)
      ensures availableMetatags == AvailableMetatagsSpec(availableTags)
      ensures usedTags == old(usedTags) && nameFilter == old(nameFilter)
      ensures metatags == old(metatags) && tags == old(tags) && events == old(events)
    {
      files, availableTags, availableMetatags := Search(db, usedTags, nameFilter, randomize, order);
    }

    /** `_searchFiles`: recompute files, available tags and metatags, then announce them. */
    method SearchFiles(db: Db, randomize: Json.Json, order: seq<int>)
      requires Wf(db) && IsOrderOf(order, db.files)
      modifies this
      ensures files == GetFiles(db, usedTags, nameFilter, randomize, order)
      ensures availableTags == AvailableTagsSpec(db, usedTags, files)
      ensures availableMetatags == AvailableMetatagsSpec(availableTags)
      ensures usedTags == old(usedTags) && nameFilter == old(nameFilter)
      ensures metatags == old(metatags) && tags == old(tags)
      ensures events == old(events) + [UPDATE_USED_TAGS, UPDATE_FILES, UPDATE_AVAILABLE_METATAGS, UPDATE_AVAILABLE_TAGS]
    {
      Refresh(db, randomize, order);
      events := events + [UPDATE_USED_TAGS, UPDATE_FILES, UPDATE_AVAILABLE_METATAGS, UPDATE_AVAILABLE_TAGS];
    }

    /** `addTag`: the tag is appended to the tags in use and the search reruns. */
    method AddTag(db: Db, tag: TagView, randomize: Json.Json, order: seq<int>)
      requires Wf(db) && IsOrderOf(order, db.files)
      modifies this
      ensures usedTags == old(usedTags) + [tag] && nameFilter == old(nameFilter)
      ensures files == GetFiles(db, usedTags, nameFilter, randomize, order)
      ensures availableTags == AvailableTagsSpec(db, usedTags, files)
      ensures availableMetatags == AvailableMetatagsSpec(availableTags)
      ensures events == old(events) + [UPDATE_USED_TAGS, UPDATE_FILES, UPDATE_AVAILABLE_METATAGS, UPDATE_AVAILABLE_TAGS]
    {
      usedTags := usedTags + [tag];
      SearchFiles(db, randomize, order);
    }

    /**
     * `removeTag`: the first equal tag in use is dropped and the search reruns;
     * a tag not in use raises ValueError and nothing changes.
     */
    method RemoveTag(db: Db, tag: TagView, randomize: Json.Json, order: seq<int>) returns (r: Result<Unit>)
      requires Wf(db) && IsOrderOf(order, db.files)
      modifies this
      ensures r.Err? <==> tag !in old(usedTags)
      ensures r.Err? ==> r.error == ValueError && unchanged(this)
      ensures r.Ok? ==>
        && usedTags == RemoveFirst(old(usedTags), tag).value && nameFilter == old(nameFilter)
        && files == GetFiles(db, usedTags, nameFilter, randomize, order)
        && availableTags == AvailableTagsSpec(db, usedTags, files)
        && availableMetatags == AvailableMetatagsSpec(availableTags)
        && events == old(events) + [UPDATE_USED_TAGS, UPDATE_FILES, UPDATE_AVAILABLE_METATAGS, UPDATE_AVAILABLE_TAGS]
    {
      match RemoveFirst(usedTags, tag) {
        case None =>
          return Err(ValueError);
        case Some(rest) =>
          usedTags := rest;
          SearchFiles(db, randomize, order);
          r := Ok(Unit);
      }
    }

    /** `addNameFilter`: the filter becomes the LIKE pattern of the name's words and the search reruns. */
    method AddNameFilter(db: Db, name: Option<string>, randomize: Json.Json, order: seq<int>)
      requires Wf(db) && IsOrderOf(order, db.files)
      modifies this
      ensures nameFilter == NameFilterOf(name) && usedTags == old(usedTags)
      ensures files == GetFiles(db, usedTags, nameFilter, randomize, order)
      ensures availableTags == AvailableTagsSpec(db, usedTags, files)
      ensures availableMetatags == AvailableMetatagsSpec(availableTags)
      ensures events == old(events) + [UPDATE_USED_TAGS, UPDATE_FILES, UPDATE_AVAILABLE_METATAGS, UPDATE_AVAILABLE_TAGS]
    {
      nameFilter := NameFilterOf(name);
      SearchFiles(db, randomize, order);
    }

    /**
     * `removeFile` (the list part): the first shown file with the file's id
     * leaves the list, the others stay in order, and the available tags and
     * metatags are recomputed for the remaining files.
     */
    method RemoveFile(db: Db, file: FileView)
      requires Wf(db)
      modifies this
      ensures files == WithoutFirstId(old(files), file.id)
      ensures usedTags == old(usedTags) && nameFilter == old(nameFilter)
      ensures availableTags == AvailableTagsSpec(db, usedTags, files)
      ensures availableMetatags == AvailableMetatagsSpec(availableTags)
      ensures events == old(events) + [UPDATE_FILES, UPDATE_AVAILABLE_METATAGS, UPDATE_AVAILABLE_TAGS]
    {
      files := RemoveById(files, file.id);
      availableTags, availableMetatags := Available(db, usedTags, files);
      events := events + [UPDATE_FILES, UPDATE_AVAILABLE_METATAGS, UPDATE_AVAILABLE_TAGS];
    }
  }
}
