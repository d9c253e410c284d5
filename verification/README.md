# tag-manager, modelled in Dafny

tag-manager catalogues files with tags. Each tag belongs to a metatag, and the catalog lives in an SQLite database reached through SQLAlchemy.

This project models the core of the catalog and what computes over it:

- **The database.** The schema of the three tables and the FileTags association is `Persistent`. The detached lazy and full views handed to the application are `Views`.
- **The data-access layer.** The session wrapper, the view conversion and the generic queries are `DaoCommon`. The per-entity DAOs are `FilesDao`, `TagsDao` and `MetatagsDao`.
- **The controllers.** The browser is `Browser` and its list window is `BrowserUi`. The tagger is `Tagger`, the editor is `Editor`, the mover's pattern evaluator is `Mover`, and the signal-inhibit flag is `UiUtils`.
- **The other parts.** The thumbnail cache is `Thumbnailer`. The settings manager is `Config`. The web resources are `WebCommon` and `WebFiles`.

Supporting modules hold shared definitions:

- `Wrappers`: Option, Result and the exceptions.
- `Text`: ASCII case folding, code-point order, split, join, replace and integer formatting.
- `Sql`: LIKE matching, OFFSET/LIMIT and rowid scans.
- `Collections`: filter and stable sort.
- `Paths`: `os.path.join`, `basename`, `dirname` and `splitext`.
- `Json`: the settings values.

How the model is built:

- **Writes are functions.** Each DAO write is a function from one database state to the next. It returns a `Tx`: the new `Persistent.Db` and what the call returned or raised. A DAO method commits the new state into the `DaoCommon.Catalog` object only when the call succeeded. A failed call therefore leaves the catalog as it was, which is the rollback.
- **Reads take the database as a value.** A read takes the database state as a `Db` value. The browser controller only reads, so its methods take the state the DAOs see during the call.
- **Schema constraints are checked explicitly.** SQLite enforces NOT NULL, UNIQUE and PRIMARY KEY constraints, and these are modelled as explicit checks. SQLite's default configuration does not enforce FOREIGN KEY constraints. A file-tag link is only added once both rows have been looked up, so links always resolve. A tag's metatag id is the one foreign key a caller can break. `TagsDao.InsertTagAsWritten` models the source's unchecked insert, which leaves a dangling row. The DAO and the controllers use the corrected `TagsDao.InsertTagTx`, which rejects a missing metatag (see Findings).
- **Stores and widgets are state.** The controllers and the browser's list window are classes whose fields the methods update. The file system seen by the thumbnailer is a `Host` object that holds the set of existing paths and the commands launched.

## Model

| member | source | states |
|---|---|---|
| Persistent.Empty | src/dao/Common.py:17-20 | the database the schema creates has empty tables and satisfies every declared key, unique and foreign-key constraint |
| Persistent.ScanTable | src/dao/Common.py:194 | a full table scan: rows of the table only, ascending by id, and every row of the table |
| Persistent.TagIdsOfFile | src/dao/entities/Persistent.py:16-19 | a file's tags are exactly its FileTags rows, each tag once and in ascending key order |
| Persistent.FileIdsOfTag | src/dao/entities/Persistent.py:45-47 | a tag's files are exactly its FileTags rows, each file once and in ascending key order |
| Persistent.LinksAreSymmetric | src/dao/entities/Persistent.py:31-47 | a file lists a tag exactly when the tag lists the file, and exactly when the FileTags row exists |
| Views.NamedOf | src/dao/entities/Common.py:3-7 | every `Named` view copies id and name of its row, same length and order |
| Views.FileLazyOf | src/dao/entities/Common.py:10-15 | a lazy file carries exactly id, name, relpath and mime and no tags |
| Views.FileWithTags | src/dao/entities/Common.py:17-23 | a full file lists one lazy tag per id given, in the order given |
| Views.FileFullOf | src/dao/entities/Common.py:17-23 | a full file copies the columns and lists, as lazy tags, exactly the tags it is linked to |
| Views.MetatagLazyOf | src/dao/entities/Common.py:47-50 | a lazy metatag copies id and name |
| Views.TagLazyOf | src/dao/entities/Common.py:26-30 | a lazy tag copies id and name and always carries its metatag as a lazy metatag |
| Views.TagLazyOrError | src/dao/entities/Common.py:26-30 | building a lazy tag whose metatag row is missing raises AttributeError; otherwise it is the lazy tag |
| Views.TagFullOf | src/dao/entities/Common.py:37-44 | a full tag carries its own metatag as a lazy view and lists exactly the files linked to it, each once, ascending by id, as lazy views, so files inside a tag carry no tags |
| Views.FilesOfTag | src/dao/entities/Common.py:42-44 | the lazy views of exactly the files linked to the tag, each built from its own row, ascending by id |
| Views.TagRowsOfMetatag | src/dao/entities/Persistent.py:56-58 | a metatag's tags are exactly the tag rows pointing at it, ordered by tag name |
| Views.NamesSorted | src/dao/entities/Persistent.py:56-58 | the `Named` views of rows ordered by name are ordered by name |
| Views.MetatagFullOf | src/dao/entities/Common.py:52-58 | a full metatag copies id and name and lists its own tags as `Named` views with their names, ordered by name; in a database whose ids are below the counters, every tag of the metatag is listed |
| DaoCommon.SessionDao.constructor | src/dao/Common.py:25-26 | a DAO starts without a session |
| DaoCommon.SessionDao.OpenSession | src/dao/Common.py:45-53 | a new session is made and becomes the current one |
| DaoCommon.SessionDao.CloseSession | src/dao/Common.py:55-64 | the session is committed when asked and then closed, leaving no current session; a commit that raises leaves it current |
| DaoCommon.SessionDao.WithSession | src/dao/Common.py:67-94 | with no current session: one is opened, committed on success, rolled back on an exception that propagates, and always closed; with a current session: it is neither committed nor closed and stays current |
| DaoCommon.ReturnNonPersistent | src/dao/Common.py:96-116 | a list is converted element-wise with the same length and order, None stays None, and `full` picks the full view |
| DaoCommon.Convert | src/dao/Common.py:107-112 | no row stays no row, one row stays one, a list stays a list of the same length, each element transformed in place |
| DaoCommon.OrderedScan | src/dao/Common.py:197-202 | sorting a table scan yields rows of the table only, and every row that passes the filter |
| DaoCommon.OrderBy | src/dao/Common.py:197-202 | exactly the rows that pass the filter, ordered by name, without repeats when the scan had none |
| DaoCommon.GetBy | src/dao/Common.py:183-207 | only rows equal to the filters, ordered by name, each once, at most `limit` of them, and without offset or limit every matching row |
| DaoCommon.GetByIsPage | src/dao/Common.py:199-206 | offset and limit apply after ordering: a page of the result is that page of the whole ordered result |
| DaoCommon.SameKeyRowsAscending | src/dao/Common.py:197-202 | rows that all carry one name come out in rowid order, ascending by id |
| DaoCommon.PageIsSlice | src/dao/Common.py:203-206 | the page is the ordered rows from `offset` on, and without offset or limit all of them |
| DaoCommon.GetByName | src/dao/Common.py:139-153 | the first row by name order whose name matches, which is the matching row with the lowest id, and None exactly when no row has that name |
| DaoCommon.SameKeyFirstIsLeast | src/dao/Common.py:150-153 | the first row `_getBy` gives for one name has the lowest id among the rows with that name |
| DaoCommon.GetById | src/dao/Common.py:221-234 | the row with that primary key, and None exactly when there is none |
| DaoCommon.GetRandom | src/dao/Common.py:166-181 | `min(limit, rows)` distinct rows of the table |
| DaoCommon.UpdateMissing | src/dao/Common.py:267-274 | `update` on a missing row raises AttributeError when some attribute is set, and returns None when none is |
| DaoCommon.Catalog.constructor | src/dao/Common.py:17-20 | a fresh catalog holds the empty, well-formed database |
| DaoCommon.Catalog.Commit | src/dao/Common.py:86-88 | committing makes the transaction's database the stored one |
| FilesDao.GetTagId | src/dao/FilesDAO.py:87-93 | an int is the id itself, an entity gives its `.id`, and text has no `.id` (AttributeError) |
| FilesDao.LazyFiles | src/dao/Common.py:108-109 | lazy file views of the rows, in the same order |
| FilesDao.LazyFilesOfTable | src/dao/Common.py:157-164 | rows of the Files table ordered by name give lazy views of those files ordered by name |
| FilesDao.GetAll | src/dao/Common.py:157-164 | every file as a lazy view, ordered by name, each file included |
| FilesDao.GetById | src/dao/Common.py:209-219 | the full view of the file, and None exactly when the id is unknown |
| FilesDao.GetByName | src/dao/Common.py:139-153 | the full view of the file with that name and the lowest id, and None exactly when no file has that name |
| FilesDao.GetRandom | src/dao/Common.py:166-181 | `min(limit, files)` distinct files as lazy views |
| FilesDao.MatchingRows | src/dao/FilesDAO.py:73-85 | only matching rows, ordered by name, at most `limit`; every matching row without offset or limit, and with them the page of that ordered result |
| FilesDao.LazyFilesMatch | src/dao/FilesDAO.py:61-62 | converting matching rows to lazy views keeps every view a matching file |
| FilesDao.ByNameAndTags | src/dao/FilesDAO.py:73-85 | lazy views of exactly the matching files, ordered by name; with offset or limit, the page of that ordered result |
| FilesDao.LazyFilesPage | src/dao/FilesDAO.py:81-85 | converting a page of rows to lazy views gives the same page of the converted rows |
| FilesDao.ResolveTagIds | src/dao/FilesDAO.py:76-79 | every tag reference resolves to its id, or the query fails with AttributeError when one is text |
| FilesDao.GetByNameAndTags | src/dao/FilesDAO.py:61-85 | it fails exactly when some tag is given as text; otherwise it selects by the name pattern and all tag ids |
| FilesDao.SelectsConjunction | src/dao/FilesDAO.py:73-79 | a file is selected exactly when its name is LIKE the pattern and it carries every listed tag (a conjunction) |
| FilesDao.SelectedIffMatches | src/dao/FilesDAO.py:73-79 | once tag ids are known, a file is in the result exactly when it matches the filter |
| FilesDao.MatchesByRefs | src/dao/FilesDAO.py:76-79 | filtering by the resolved ids is filtering by the referenced tags |
| FilesDao.NoFilterSelectsAll | src/dao/FilesDAO.py:73-79 | with no name and no tags every file is returned |
| FilesDao.InsertTx | src/dao/FilesDAO.py:24-25 | a missing name, relpath or mime, or a taken (relpath, name), raises and stores nothing; otherwise a row with exactly those values and the next id is added and its full view returned |
| FilesDao.UpdateTx | src/dao/Common.py:256-274 | exactly the given columns change and the others are kept; a NULL or a clash with another file raises and changes nothing; an unknown id changes nothing |
| FilesDao.DeleteTx | src/dao/Common.py:276-288 | the file and its FileTags rows go; an unknown id raises and changes nothing |
| FilesDao.AddTagTx | src/dao/FilesDAO.py:27-42 | an unknown tag raises NoResultFound and an unknown file AttributeError, changing nothing; otherwise the link exists afterwards and nothing else changes |
| FilesDao.RemoveTagTx | src/dao/FilesDAO.py:44-59 | the same errors as `addTag`; otherwise the link is gone afterwards and nothing else changes |
| FilesDao.AddTagIdempotent | src/dao/FilesDAO.py:40-41 | adding a tag twice leaves the database as adding it once |
| FilesDao.RemoveUndoesAdd | src/dao/FilesDAO.py:40-41 | removing a newly added tag restores the database |
| FilesDao.AddTagShowsTagOnce | src/dao/FilesDAO.py:38-42 | after `addTag` the returned file lists the tag exactly once |
| FilesDao.InsertKeepsPathsUnique | src/dao/entities/Persistent.py:24 | after an insert no two files share (relpath, name) |
| FilesDao.Insert | src/dao/FilesDAO.py:24-25 | the catalog takes the insert's new state and returns its outcome |
| FilesDao.Update | src/dao/Common.py:256-274 | the catalog takes the update's new state and returns its outcome |
| FilesDao.Delete | src/dao/Common.py:276-288 | the catalog takes the delete's new state and returns its outcome |
| FilesDao.AddTag | src/dao/FilesDAO.py:27-42 | the catalog takes the new state, and on success the file carries the tag |
| FilesDao.RemoveTag | src/dao/FilesDAO.py:44-59 | the catalog takes the new state, and afterwards the file does not carry the tag |
| TagsDao.GetMetatagId | src/dao/TagsDAO.py:41-49 | an int is the id, a metatag view gives its id, and a mapping gives its "id" entry or raises KeyError |
| TagsDao.LazyTags | src/dao/Common.py:108-109 | lazy tag views of the ids, in the same order |
| TagsDao.TagIdsWhere | src/dao/TagsDAO.py:57-71 | exactly the tags that pass the filter, each once, in ascending id (rowid) order |
| TagsDao.LazyTagsByName | src/dao/Common.py:157-164 | tag rows ordered by name give lazy views ordered by name |
| TagsDao.GetAll | src/dao/Common.py:157-164 | every tag as a lazy view, ordered by name |
| TagsDao.GetById | src/dao/Common.py:209-219 | the full view of the tag (`Views.TagFullOf`), and None exactly when the id is unknown |
| TagsDao.GetByName | src/dao/Common.py:139-153 | the full view (`Views.TagFullOf`) of the tag with that name, and None exactly when no tag has it |
| TagsDao.InUseIff | src/dao/TagsDAO.py:51-55 | a tag survives the join with its files exactly when some file is linked to it |
| TagsDao.TaggedRows | src/dao/TagsDAO.py:51-55 | exactly the tag rows with at least one file, each once, ordered by name |
| TagsDao.GetAllWithOneFileTagged | src/dao/TagsDAO.py:51-55 | exactly the tags with at least one file, each once, ordered by name |
| TagsDao.GetByNameLike | src/dao/TagsDAO.py:57-71 | exactly the tags whose name is LIKE the pattern, in rowid order |
| TagsDao.ByNameLikeNoneIsAll | src/dao/TagsDAO.py:67-68 | without a pattern every tag is returned |
| TagsDao.GetCommonTags | src/dao/TagsDAO.py:73-89 | exactly the tags linked to at least one of the given files, each once |
| TagsDao.GetRelatedTags | src/dao/TagsDAO.py:91-115 | exactly the tags that share a file with all the given tags, each once (`distinct`) |
| TagsDao.RelatedIff | src/dao/TagsDAO.py:103-115 | a tag is related exactly when some file carries it and every given tag |
| TagsDao.RelatedIncludesQuery | src/dao/TagsDAO.py:103-115 | when some file carries all the given tags, each of them is among the related tags |
| TagsDao.InsertTagAsWritten | src/dao/TagsDAO.py:26-31 | the insert as the code behaves: a successful insert keeps the schema's integrity (see Findings for the failing case) |
| TagsDao.InsertTagAsWrittenLeavesDanglingRow | src/dao/TagsDAO.py:26-31 | inserting a tag under a metatag id with no row raises, yet the tag row is stored |
| TagsDao.NewTagHasNoFiles | src/dao/entities/Common.py:37-44 | a tag with no FileTags rows has no files |
| TagsDao.InsertTagTx | src/dao/TagsDAO.py:26-31 | without a metatag the insert fails on the NOT NULL metatag_id; a missing name, a taken name or an unknown metatag is rejected and nothing changes; otherwise exactly the new row is added |
| TagsDao.InsertTagAgrees | src/dao/TagsDAO.py:26-31 | where the metatag exists, the corrected insert behaves exactly as the code |
| TagsDao.UpdateTagTx | src/dao/TagsDAO.py:33-39 | only arguments that are not None are set, the rest of the row and the database are kept, and every error leaves the database unchanged; an existing tag is updated exactly when its resulting metatag exists and its resulting name is not another tag's; a name clash raises IntegrityError even when the metatag is also missing, because the flush comes before the metatag is read; a missing tag succeeds only for an empty update, since the generic update in src/dao/Common.py:258-273 sets each attribute on the row found by id |
| TagsDao.UpdateNothingKeepsTag | src/dao/TagsDAO.py:33-39 | an update with neither name nor metatag changes nothing and returns the tag as it was |
| TagsDao.DeleteTagTx | src/dao/Common.py:276-288 | the tag and its FileTags rows go; an unknown id raises and changes nothing |
| TagsDao.Insert | src/dao/TagsDAO.py:26-31 | the catalog takes the insert's new state and returns its outcome |
| TagsDao.Update | src/dao/TagsDAO.py:33-39 | the catalog takes the update's new state and returns its outcome, so an existing tag is updated exactly when its resulting metatag exists and its resulting name is free |
| TagsDao.Delete | src/dao/Common.py:276-288 | the catalog takes the delete's new state and returns its outcome |
| MetatagsDao.LazyMetatags | src/dao/Common.py:108-109 | lazy metatag views of the rows, in the same order |
| MetatagsDao.GetAll | src/dao/MetatagsDAO.py:10-14 | every metatag as a lazy view, ordered by name |
| MetatagsDao.LazyMetatagsByName | src/dao/Common.py:157-164 | metatag rows ordered by name give lazy views ordered by name, each metatag included |
| MetatagsDao.GetById | src/dao/MetatagsDAO.py:10-14 | the full view of the metatag with its tags (`Views.MetatagFullOf`), and None exactly when the id is unknown |
| MetatagsDao.GetByName | src/dao/MetatagsDAO.py:10-14 | the full view (`Views.MetatagFullOf`) of the metatag with that name, and None exactly when no metatag has it |
| MetatagsDao.InsertTx | src/dao/MetatagsDAO.py:16-17 | only the name is supplied; a missing or taken name raises and stores nothing; otherwise the new metatag with no tags |
| MetatagsDao.NewMetatagHasNoTags | src/dao/entities/Common.py:52-58 | a metatag that owns no tag has an empty tag list |
| MetatagsDao.DuplicateNameRejected | src/dao/entities/Persistent.py:51 | inserting a metatag with a name in use raises and leaves the catalog unchanged |
| MetatagsDao.UpdateTx | src/dao/Common.py:256-274 | the name changes and nothing else; a NULL or taken name raises and changes nothing |
| MetatagsDao.DeleteTx | src/dao/entities/Persistent.py:41-58 | an unknown id raises; a metatag that still owns tags cannot go, because its tags' metatag_id cannot be NULL; otherwise only the row goes |
| MetatagsDao.DeleteOwnerFails | src/dao/entities/Persistent.py:41-58 | deleting the metatag of an existing tag fails and leaves every tag's metatag as it was |
| MetatagsDao.Insert | src/dao/MetatagsDAO.py:16-17 | the catalog takes the insert's new state and returns its outcome |
| MetatagsDao.Update | src/dao/Common.py:256-274 | the catalog takes the update's new state and returns its outcome |
| MetatagsDao.Delete | src/dao/Common.py:276-288 | the catalog takes the delete's new state and returns its outcome |
| Browser.TagIds | src/ui/browser/BrowserCtrl.py:84 | the ids of the used tags, in order |
| Browser.TagRefs | src/ui/browser/BrowserCtrl.py:103 | the used tags are passed to the query as entities, in order |
| Browser.ResolveViews | src/dao/FilesDAO.py:87-93 | tag entities always resolve, to their ids |
| Browser.GetFilesMeaning | src/ui/browser/BrowserCtrl.py:97-103 | states what `Browser.GetFiles` returns: the empty query gives nothing when randomize is off (unset counts as off) and otherwise `min(9, files)` distinct random files; any other query gives exactly `getByNameAndTags(name, tags)` |
| Browser.ShownFilesCarryUsedTags | src/ui/browser/BrowserCtrl.py:103 | with tags in use, every file shown carries all of them |
| Browser.WithoutUsed | src/ui/browser/BrowserCtrl.py:83-88 | exactly the tags whose id is not used, and never more tags than given |
| Browser.WithoutUsedAscending | src/ui/browser/BrowserCtrl.py:83-88 | dropping the used tags keeps the original order: tags ascending by id stay ascending by id |
| Browser.AvailableTagsOrder | src/ui/browser/BrowserCtrl.py:68-88 | `Browser.AvailableTagsSpec`: the available tags are ordered by name when nothing is used or no file is shown, and by ascending id otherwise, as the two queries return them |
| Browser.AvailableTags | src/ui/browser/BrowserCtrl.py:68-88 | the method computes `AvailableTagsSpec`: every tag some file carries while nothing is used or shown, else the related tags minus the used ones (see the next rows) |
| Browser.DropUsed | src/ui/browser/BrowserCtrl.py:83-88 | the loop keeps exactly the tags whose id is not used, in order |
| Browser.AvailableTagsAreRelatedUnused | src/ui/browser/BrowserCtrl.py:81-88 | with tags in use and files shown, a tag is available exactly when it shares a file with all used tags and is not used itself |
| Browser.AvailableTagIsRelatedUnused | src/ui/browser/BrowserCtrl.py:81-88 | every available tag is related to the used tags and not used |
| Browser.RelatedUnusedIsAvailable | src/ui/browser/BrowserCtrl.py:81-88 | every related tag that is not used is available |
| Browser.AvailableTagsWithoutUse | src/ui/browser/BrowserCtrl.py:77-79 | with no tag in use, every tag that some file carries is available |
| Browser.MetatagIds | src/ui/browser/BrowserCtrl.py:93 | the ids of the metatags, in order |
| Browser.FirstMetatags | src/ui/browser/BrowserCtrl.py:91-94 | the dict's values: one metatag per distinct id, each the metatag of some input tag, and every input tag's metatag id present |
| Browser.FirstMetatagsStep | src/ui/browser/BrowserCtrl.py:92-94 | one loop step keeps ids distinct, values taken from the tags and every tag covered |
| Browser.AvailableMetatags | src/ui/browser/BrowserCtrl.py:90-95 | the loop and the sort compute `AvailableMetatagsSpec`: the distinct metatags of the tags, sorted by lower-cased name (see the next rows) |
| Browser.AvailableMetatagsDistinct | src/ui/browser/BrowserCtrl.py:90-95 | no metatag id appears twice |
| Browser.AvailableMetatagsFromTags | src/ui/browser/BrowserCtrl.py:90-95 | every available metatag is the metatag of some input tag, and the list is sorted by lower-cased name |
| Browser.AvailableMetatagsCoverTags | src/ui/browser/BrowserCtrl.py:90-95 | the metatag of every input tag is available |
| Browser.JoinEmptyIffNoParts | src/ui/browser/BrowserCtrl.py:117-119 | the '%'-join of non-empty words is empty exactly when there are no words |
| Browser.NameFilterShape | src/ui/browser/BrowserCtrl.py:113-121 | states the shape of `Browser.NameFilterOf`: the filter is None exactly for None or a blank name; otherwise it starts and ends with '%' and holds no whitespace |
| Browser.JoinHasNoSpace | src/ui/browser/BrowserCtrl.py:117 | joining whitespace-free words with '%' gives no whitespace |
| Browser.JoinedPattern | src/ui/browser/BrowserCtrl.py:117-121 | '%' + the words joined by '%' + '%' is the words with a '%' around each |
| Browser.WordsPatternMatches | src/ui/browser/BrowserCtrl.py:117-121 | the pattern matches every text that holds the words in order, whatever lies between them |
| Browser.NameFilterMatches | src/ui/browser/BrowserCtrl.py:113-121 | states what `Browser.NameFilterOf` selects: a name filter matches every file name that holds the name's words in order |
| Browser.RemoveFirst | src/ui/browser/BrowserCtrl.py:110 | `list.remove` drops the first equal element and keeps the rest in order, and raises ValueError when there is none |
| Browser.FirstIndex | src/ui/browser/BrowserCtrl.py:110 | the position of the first occurrence |
| Browser.FirstWithId | src/ui/browser/BrowserCtrl.py:149-152 | the first position whose file has the id, or none exactly when no file has it |
| Browser.WithoutFirstIdLength | src/ui/browser/BrowserCtrl.py:149-152 | exactly one file leaves when one has the id, none otherwise |
| Browser.WithoutFirstIdSubMultiset | src/ui/browser/BrowserCtrl.py:149-152 | removal only drops files: no file appears more often than before |
| Browser.Available | src/ui/browser/BrowserCtrl.py:126-127 | the available tags of the files, then the available metatags of those tags |
| Browser.Search | src/ui/browser/BrowserCtrl.py:124-127 | the files of the query, then the available tags and metatags |
| Browser.RemoveById | src/ui/browser/BrowserCtrl.py:149-152 | the loop with `break` drops exactly the first file with the id |
| Browser.BrowserCtrl.constructor | src/ui/browser/BrowserCtrl.py:31-35 | no events, no tag in use, no name filter |
| Browser.BrowserCtrl.Load | src/ui/browser/BrowserCtrl.py:50-57 | all metatags and tags, nothing in use, no filter, the files of the empty query and their available tags and metatags |
| Browser.BrowserCtrl.LoadLists | src/ui/browser/BrowserCtrl.py:51-52 | every metatag and every tag, ordered by name |
| Browser.BrowserCtrl.Refresh | src/ui/browser/BrowserCtrl.py:125-127 | files, available tags and available metatags of the current query, the rest unchanged |
| Browser.BrowserCtrl.SearchFiles | src/ui/browser/BrowserCtrl.py:124-132 | the current query's results, then the four update events in order |
| Browser.BrowserCtrl.AddTag | src/ui/browser/BrowserCtrl.py:105-107 | the tag is appended to the used tags and the search reruns |
| Browser.BrowserCtrl.RemoveTag | src/ui/browser/BrowserCtrl.py:109-111 | the first equal used tag is dropped and the search reruns; a tag not in use raises ValueError and nothing changes |
| Browser.BrowserCtrl.AddNameFilter | src/ui/browser/BrowserCtrl.py:113-122 | the filter becomes the words' LIKE pattern (None when blank) and the search reruns |
| Browser.BrowserCtrl.RemoveFile | src/ui/browser/BrowserCtrl.py:147-159 | the first shown file with the id leaves and the others keep their order; available tags and metatags are recomputed and three events fire |
| BrowserUi.IconNames | src/ui/browser/BrowserUI.py:258-266 | exactly six names: the mime, the mime with '/' turned into '-', that with "gnome-mime-" in front, the part before the first '/', that with the prefix, and the stock file icon |
| BrowserUi.IconNamesWithoutSlash | src/ui/browser/BrowserUI.py:259-265 | none of the four derived names keeps a '/' |
| BrowserUi.EmptyFilterShowsMetatag | src/ui/browser/BrowserUI.py:183-184 | states `BrowserUi.TagShown`: with an empty filter text, a tag is shown exactly when it belongs to the selected metatag |
| BrowserUi.VisibilityOfListed | src/ui/browser/BrowserUI.py:181-187 | states `BrowserUi.Visibility`: each listed tag's button is shown exactly when its metatag is the selected one and the filter text occurs in its lower-cased name |
| BrowserUi.VisibilityOfUnlisted | src/ui/browser/BrowserUI.py:181-187 | a button of a tag not in the list keeps its visibility |
| BrowserUi.RowOf | src/ui/browser/BrowserUI.py:153-156 | a store row holds the file's id and its path |
| BrowserUi.FilledAsWritten | src/ui/browser/BrowserUI.py:150-156 | the rows already in the store stay in front (the fill as written; see Findings) |
| BrowserUi.LoadMoreOvershoots | src/ui/browser/BrowserUI.py:151 | with 1000 files, one page shows 100 rows, and one "load more" then shows 300 rows where the limit has become 200 |
| BrowserUi.Filled | src/ui/browser/BrowserUI.py:148-156 | the store keeps its rows and is filled, in order, up to `min(limit, files)` rows, never past the number of files |
| BrowserUi.LoadMoreAddsOnePage | src/ui/browser/BrowserUI.py:373-375 | after a full page, "load more" adds one page of rows, or the rest of the files |
| BrowserUi.ActiveIndex | src/ui/browser/BrowserUI.py:117-124 | the selector activates the last entry with the selected name, or none |
| BrowserUi.DefaultMetatag | src/ui/browser/BrowserUI.py:281-290 | an available metatag with the configured name, found whenever one exists, and None when no name is configured |
| BrowserUi.AppendRows | src/ui/browser/BrowserUI.py:152-156 | the loop appends exactly the rows `Filled` describes |
| BrowserUi.BrowserView.constructor | src/ui/browser/BrowserUI.py:52-54 | the configured default metatag is selected, the filter text is empty and one page is allowed |
| BrowserUi.BrowserView.UpdateFilesList | src/ui/browser/BrowserUI.py:147-164 | the store is cleared unless appending and then filled; the "load more" button is hidden exactly when every file is in the store |
| BrowserUi.BrowserView.LoadMoreFiles | src/ui/browser/BrowserUI.py:373-375 | the limit grows by `FILES_LIMIT` (100) and the next rows are appended |
| BrowserUi.BrowserView.IsCurrentMetatagAvailable | src/ui/browser/BrowserUI.py:268-279 | False with no selection, and otherwise true exactly when some available metatag has the selected id |
| BrowserUi.BrowserView.UpdateMetatagSelector | src/ui/browser/BrowserUI.py:103-125 | hidden when nothing is available; otherwise a missing or unavailable selection becomes the first available metatag, which leaves the selection available |
| BrowserUi.BrowserView.FilterTagsList | src/ui/browser/BrowserUI.py:177-187 | every available tag's button is shown or hidden by the predicate and nothing else changes |
| BrowserUi.BrowserView.FilterByTagName | src/ui/browser/BrowserUI.py:369-371 | the lower-cased text becomes the filter and the buttons are filtered by it |
| BrowserUi.BrowserView.GetFileInStore | src/ui/browser/BrowserUI.py:292-298 | the first of the controller's files with the id, and None exactly when there is none |
| Tagger.AddedTagShows | src/ui/tagger/TaggerCtrl.py:68-70 | the file view `addTag` returns carries the tag, so `fileHasTag` holds afterwards |
| Tagger.RemovedTagGone | src/ui/tagger/TaggerCtrl.py:75-77 | the file view `removeTag` returns no longer carries the tag |
| Tagger.TaggerCtrl.constructor | src/ui/tagger/TaggerCtrl.py:21-25 | the tagger opens on the given file with no events |
| Tagger.TaggerCtrl.Load | src/ui/tagger/TaggerCtrl.py:46-48 | every metatag and every tag, ordered by name |
| Tagger.TaggerCtrl.FileHasTag | src/ui/tagger/TaggerCtrl.py:50-63 | true exactly when some tag of the file has the id |
| Tagger.TaggerCtrl.AddTagToFile | src/ui/tagger/TaggerCtrl.py:65-70 | a tag the file has: nothing happens; otherwise the link is stored, the file view is replaced by the DAO's answer, and UPDATE_FILE_TAG fires with (tag, True); afterwards the file has the tag |
| Tagger.TaggerCtrl.RemoveTagFromFile | src/ui/tagger/TaggerCtrl.py:72-77 | a tag the file lacks: nothing happens; otherwise the link is removed, the view replaced, (tag, False) fires, and afterwards the file lacks the tag |
| Tagger.TaggerCtrl.ReloadMetatags | src/ui/tagger/TaggerCtrl.py:81-82 | the metatags are reloaded from the store and UPDATE_METATAGS fires |
| Tagger.TaggerCtrl.ReloadTags | src/ui/tagger/TaggerCtrl.py:87-88 | the tags are reloaded from the store and UPDATE_TAGS fires |
| Tagger.TaggerCtrl.CreateMetatag | src/ui/tagger/TaggerCtrl.py:79-83 | the insert's outcome is returned; on success the metatags are reloaded and UPDATE_METATAGS fires, and on failure the controller is unchanged |
| Tagger.TaggerCtrl.CreateTag | src/ui/tagger/TaggerCtrl.py:85-89 | the insert's outcome is returned; on success the tags are reloaded and UPDATE_TAGS fires, and on failure the controller is unchanged |
| Editor.EditorCtrl.constructor | src/ui/editor/EditorCtrl.py:21-29 | the editor starts on the catalog with no events |
| Editor.EditorCtrl.Load | src/ui/editor/EditorCtrl.py:31-33 | every metatag and every tag, ordered by name, with no event |
| Editor.EditorCtrl.UpdateTags | src/ui/editor/EditorCtrl.py:40-42 | the tags are reloaded and UPDATE_TAGS fires, the metatags untouched |
| Editor.EditorCtrl.UpdateMetatags | src/ui/editor/EditorCtrl.py:44-46 | the metatags are reloaded and UPDATE_METATAGS fires, the tags untouched |
| Editor.EditorCtrl.AddTag | src/ui/editor/EditorCtrl.py:49-57 | True, with the tags reloaded, exactly when the store inserts the tag; False, with the lists untouched, when it raises |
| Editor.EditorCtrl.AddMetatag | src/ui/editor/EditorCtrl.py:60-68 | True, with the metatags reloaded, exactly when the insert succeeds; False, with the lists untouched, otherwise |
| Editor.EditorCtrl.DeleteTag | src/ui/editor/EditorCtrl.py:70-78 | True, with the tags reloaded, exactly when the delete succeeds; False, with the lists untouched, otherwise |
| Editor.EditorCtrl.DeleteMetatag | src/ui/editor/EditorCtrl.py:81-89 | True, with the metatags reloaded, exactly when the delete succeeds (a metatag that owns tags fails); False, with the lists untouched, otherwise |
| Editor.EditorCtrl.EditTag | src/ui/editor/EditorCtrl.py:91-100 | True, with the tags reloaded, exactly when the update succeeds, which for an existing tag is exactly when the new metatag exists and the new name is not another tag's; False, with the lists untouched, otherwise |
| Editor.EditorCtrl.EditMetatag | src/ui/editor/EditorCtrl.py:102-112 | True exactly when the rename succeeds, and then both metatags and tags are reloaded, UPDATE_METATAGS and then UPDATE_TAGS firing; False, with the lists untouched, otherwise |
| Thumbnailer.ThumbPathShape | src/Thumbnailer.py:59-72 | states the paths `Thumbnailer.Thumbnailer.ThumbnailPath` and `Thumbnailer.Thumbnailer.FailPath` build: a thumbnail or marker path is `<folder><size>/<id>.png` |
| Thumbnailer.ThumbPathsDistinct | src/Thumbnailer.py:59-72 | distinct file ids give distinct paths |
| Thumbnailer.ThumbFolder | src/Thumbnailer.py:99 | the folder a thumbnail is written into is its size folder |
| Thumbnailer.FolderIsNoThumb | src/Thumbnailer.py:99-101 | a size folder is never a thumbnail or marker path |
| Thumbnailer.GenerationPaths | src/Thumbnailer.py:99-101 | the folder created for a thumbnail is its size folder, and it is never a failure marker |
| Thumbnailer.ThumbType | src/Thumbnailer.py:87-95 | folder exactly for `inode/directory`, video exactly for the five video types, image exactly for the five image types (pdf and djvu included), and None otherwise |
| Thumbnailer.FolderPick | src/Thumbnailer.py:120-131 | the first name in the sorted order that is not a directory and has a video or image type, or none when there is no such name |
| Thumbnailer.FolderCommands | src/Thumbnailer.py:120-131 | states the commands `Thumbnailer.FolderCommand` builds: at most one generator is launched, writing the thumbnail, and none exactly when no file is usable |
| Thumbnailer.Launches | src/Thumbnailer.py:102-109 | states `Thumbnailer.VideoCommand` and `Thumbnailer.ImageCommand` as launched: at most one command; exactly one for a video or an image; none for an unknown type; every command writes the thumbnail |
| Thumbnailer.FindUsable | src/Thumbnailer.py:122-131 | the loop with `break` finds the entry `FolderPick` names |
| Thumbnailer.FirstUsable | src/Thumbnailer.py:122-131 | the first usable entry is the one picked |
| Thumbnailer.Host.constructor | src/Thumbnailer.py:44-47 | the host's existing paths include its directories, and nothing has been launched |
| Thumbnailer.Thumbnailer.constructor | src/Thumbnailer.py:30-33 | the cache lives in `thumbnails/` and `thumbnails_fail/` under the profile folder |
| Thumbnailer.Thumbnailer.CreateThumbnail | src/Thumbnailer.py:97-109 | the thumbnail's folder exists afterwards, the type's generator is launched, and an unknown type launches nothing and answers False; when a path that is not a folder sits at the folder's place, FileExistsError is raised and nothing changes or is launched |
| Thumbnailer.Thumbnailer.CreateFolderThumbnail | src/Thumbnailer.py:120-131 | no path changes, and the generator runs for the first usable file only |
| Thumbnailer.Thumbnailer.GetThumbnail | src/Thumbnailer.py:35-57 | a missing source gives None and changes nothing; an existing thumbnail is returned as is; an unknown type or a failure marker gives None and changes nothing; otherwise generation starts and the source path is returned, or FileExistsError is raised with nothing changed when a non-folder path sits at the size folder's place; no failure marker is ever created |
| Thumbnailer.Thumbnailer.StartGeneration | src/Thumbnailer.py:53-55 | the size folder is created and the generator launched, with no failure marker created; a non-folder path at the size folder's place raises FileExistsError and changes nothing |
| Thumbnailer.Thumbnailer.RemoveThumbnail | src/Thumbnailer.py:74-85 | afterwards neither the thumbnail nor the failure marker exists, and nothing else changes, so a second call changes nothing |
| Config.SetConfig | src/Config.py:26-32 | states `Config.GetConfig` after a set: saved exactly when the value differs from the current one (None for an absent key), and unchanged otherwise; afterwards `getConfig(key)` answers the value and every other key and entry is kept |
| Config.Checked | src/Config.py:124-136 | the entries present are kept, and a missing root, ui or server entry gets its default |
| Config.CheckIdempotent | src/Config.py:124-139 | checking checked settings adds nothing and saves nothing |
| Config.LoadSettings | src/Config.py:118-122 | a missing file gives empty settings; otherwise the file's object |
| Config.ProfileName | src/Config.py:149-150 | the profile name is a slash-free suffix of the profile folder |
| Config.OverridesUnderProfile | src/Config.py:152-153 | states `Config.OverridesFolder`: the overrides folder lies under the profile folder and ends in `overrides/` |
| Config.MoverKeysInProfile | src/Config.py:64-65 | states `Config.MoverKeysModule`: the custom-keys module lies under the profile folder and is named `moverKeys.py` |
| Config.MoverDefaultsInProfile | src/Config.py:67-68 | states `Config.MoverDefaultsModule`: the default-values module lies under the profile folder and is named `moverDefaults.py` |
| Config.InModulesFolder | src/Config.py:64-68 | a file of the profile's `modules/` folder lies under the profile folder and keeps its name |
| Config.ConfigManager.constructor | src/Config.py:105-116 | setup loads the file (if any), fills in the defaults, and gives the server the default port when it has none |
| Config.ConfigManager.Root | src/Config.py:146-147 | the root entry, and KeyError exactly when it is missing |
| Config.ConfigManager.Set | src/Config.py:26-32 | the settings become `SetConfig`'s, and one save is counted exactly when the value changed |
| Config.ConfigManager.Check | src/Config.py:124-139 | the settings become `Checked`'s, and one save is counted exactly when something was added |
| Config.ConfigManager.ServerSanityCheck | src/Config.py:79-83 | an unset port becomes 44659 and is saved; a set port is kept and nothing is saved; nothing else changes |
| UiUtils.Inhibitable.InhibitSignals | src/ui/Utils.py:3-15 | the method runs with the flag raised and its result or exception is passed on; a raised flag (a nested call) stays raised, and a lowered one is lowered again only when the method returns normally: after an exception it stays raised |
| UiUtils.Inhibitable.WithInhibit | src/ui/Utils.py:17-26 | None without running the method while the flag is raised; otherwise the method's result |
| Mover.Keys | src/ui/mover/MoverUI.py:293 | the keys of a dict in insertion order, one per pair |
| Mover.Lookup | src/ui/mover/MoverUI.py:184-185 | a value is found only as a pair of the dict with that key; None exactly when no pair has the key |
| Mover.Put | src/ui/mover/MoverUI.py:234 | assigning a key keeps its place if present and appends it otherwise; the key then maps to the new value and every other key keeps its value |
| Mover.Latest | src/ui/mover/MoverUI.py:289-290 | the value the last pair with a key gives it, None when no pair has it |
| Mover.UpdateWith | src/ui/mover/MoverUI.py:289-290 | after `update`, a key the update carries maps to the update's last value for it, any other key to its old value; no key is lost and keys stay distinct |
| Mover.LatestIsLookup | src/ui/mover/MoverUI.py:289-290 | in a dict with distinct keys the first and the last pair with a key agree |
| Mover.BuiltLatest | src/ui/mover/MoverUI.py:231-235 | a dict built by assigning pairs in turn answers each key with the last value assigned to it |
| Mover.BuildReplacements | src/ui/mover/MoverUI.py:230-235 | the builders' loop yields the dict built from the pairs in order |
| Mover.BasicReplace | src/ui/mover/MoverUI.py:217-220 | the only key is `{_FileExtension}` and it maps to the extension of the source path |
| Mover.MetatagPairs | src/ui/mover/MoverUI.py:231-234 | one assignment per metatag selector, `{<metatag name>}` to the selector's value, in order |
| Mover.CustomPairs | src/ui/mover/MoverUI.py:239-242 | one assignment per custom entry, `{<entry name>}` to the entry's value, in order |
| Mover.MergedPrecedence | src/ui/mover/MoverUI.py:288-290 | states what `Mover.Merged` answers: in the merged replacements a custom entry wins over a metatag, and a metatag over the extension |
| Mover.AdvancedPairs | src/ui/mover/MoverUI.py:261-264 | one assignment per custom key, `{<key>}` to the evaluator's value for that key, path, target name and merged replacements |
| Mover.AdvancedReplace | src/ui/mover/MoverUI.py:255-257 | no advanced replacements unless both the keys and their evaluator are configured |
| Mover.AdvancedReplacements | src/ui/mover/MoverUI.py:245-265 | the method computes exactly the advanced replacements |
| Mover.ApplyReplacements | src/ui/mover/MoverUI.py:293-296 | the loop applies every pair's replacement to the pattern in dict order |
| Mover.EvaluatePattern | src/ui/mover/MoverUI.py:286-287 | without a pattern the result is "/" |
| Mover.Evaluate | src/ui/mover/MoverUI.py:285-299 | the method computes the evaluated pattern: merged replacements, then advanced ones, then '//' collapsed |
| Mover.BraceFreeUntouched | src/ui/mover/MoverUI.py:293-296 | states `Mover.ReplaceAll`: text without braces holds no placeholder, so no replacement changes it |
| Mover.KeyReplaced | src/ui/mover/MoverUI.py:293-294 | states `Mover.ReplaceAll`: a single placeholder is replaced by the dict's value for it, or left in place when the dict has no such key |
| Mover.MergedWellKeyed | src/ui/mover/MoverUI.py:288-290 | with brace-free names and values every merged key is a placeholder and every value brace-free |
| Mover.AdvancedWellKeyed | src/ui/mover/MoverUI.py:258-265 | the same for the advanced replacements |
| Mover.EvaluateOneKey | src/ui/mover/MoverUI.py:285-299 | a pattern with one placeholder evaluates to the pattern with the placeholder's value (merged first, advanced second, itself if neither has it), '//' collapsed |
| Mover.PlainPattern | src/ui/mover/MoverUI.py:298 | a pattern without braces only has its '//' collapsed |
| Mover.TargetFolder | src/ui/mover/MoverUI.py:275-280 | the folder ends in '/' and extends, by at most that '/', the evaluated pattern with one leading '/' removed |
| Mover.NoFolderPattern | src/ui/mover/MoverUI.py:275-287 | without a folder pattern the target folder is "/" |
| Mover.FileTagsOf | src/ui/mover/MoverUI.py:315-321 | exactly the selectors with a non-empty value, as (value, metatag), and no more pairs than selectors |
| Mover.FileTagsOfAppend | src/ui/mover/MoverUI.py:316-321 | the tags keep the selectors' order: the tags of a concatenation are the concatenation of the tags |
| Mover.FileTags | src/ui/mover/MoverUI.py:315-321 | the loop computes exactly those tags |
| Mover.MetatagDefaultValue | src/ui/mover/MoverUI.py:181-186 | a default exists exactly when defaults are loaded, hold the metatags section and name the metatag; it is the configured value |
| Mover.DefaultTargetName | src/ui/mover/MoverUI.py:301-305 | the configured default name when there is one, otherwise the name given |
| WebCommon.CheckRequirementsCreate | src/web/resources/Common.py:157-169 | valid exactly when every required parameter is present with a value other than None |
| WebCommon.RequirementsMonotone | src/web/resources/Common.py:164-169 | more parameters never break the requirements, and a required parameter set to None always does |
| WebFiles.DataOf | src/web/resources/Common.py:59 | the loaded body holds exactly the fields given, none of them None |
| WebFiles.RequiresName | src/web/resources/Files.py:19 | a body meets the files resource's create requirements exactly when it has a name |
| WebFiles.Post | src/web/resources/Common.py:51-75 | every POST fails with 400 and leaves the catalog as it was: 100 for an unloadable body, 200 without a name, 300 otherwise |
| WebFiles.ChangeOf | src/web/resources/Common.py:93 | a field absent from the body is kept, a present one is set |
| WebFiles.Updated | src/web/resources/Common.py:93 | an updated row takes the body's name and mime where given and keeps its relpath |
| WebFiles.Put | src/web/resources/Common.py:77-98 | 100 for an unloadable body; an existing file takes the new name and mime, with status 200, exactly when no other file has that (relpath, name); a missing file answers None only to an empty body; every failure is 301 with 400 and changes nothing |
| WebFiles.Delete | src/web/resources/Common.py:100-114 | the hook `WebFiles.DeleteEntityPre` always allows the delete; 204 with no content exactly when the file exists, and then the file and its links are gone and nothing else changes; otherwise 301 with 400 and nothing changes |
| WebFiles.NamePattern | src/web/resources/Files.py:29-32 | no pattern without a name; otherwise the name with each space turned into '%', wrapped in '%' |
| WebFiles.LikeSpacesAsWildcards | src/web/resources/Files.py:32 | a '%' that replaced a space matches that space |
| WebFiles.NamePatternFindsContaining | src/web/resources/Files.py:29-34 | the pattern of a name argument matches every file name containing it |
| WebFiles.GetEntities | src/web/resources/Files.py:21-34 | without tags, the files whose name matches the pattern, paged by offset and limit; any tag argument raises AttributeError |
| WebFiles.Get | src/web/resources/Common.py:38-49 | with an id, the full view of that file or None; without, the listing, or the escaping AttributeError when tags are given |
| WebFiles.ListingFindsByName | src/web/resources/Files.py:27-34 | listing by any part of a file's name includes that file |
| WebFiles.PutThenGet | src/web/resources/Common.py:77-98 | after a successful PUT, reading the file back gives the new name and mime, the same relpath and the same tags |
| WebFiles.DeleteThenGet | src/web/resources/Common.py:100-123 | after a DELETE, reading the file gives None and deleting it again fails with 301 |
| Text.Lower | src/ui/browser/BrowserCtrl.py:95 | same length, each letter A-Z lowered and every other character kept |
| Text.LexLeTotal | src/dao/FilesDAO.py:80 | any two names are ordered one way or the other |
| Text.LexLeTransitive | src/dao/FilesDAO.py:80 | the name order is transitive |
| Text.LexLeAntisymmetric | src/dao/FilesDAO.py:80 | names ordered both ways are equal |
| Text.SplitFrom | src/ui/browser/BrowserCtrl.py:117 | states `Text.Split`: the words of a string: non-empty and free of whitespace; none exactly when the string is blank |
| Text.SplitEmptyIffBlank | src/ui/browser/BrowserCtrl.py:116-117 | splitting gives no words exactly when the string is all whitespace |
| Text.Join | src/ui/browser/BrowserCtrl.py:117 | joining no parts gives the empty string, one part gives that part |
| Text.ReplaceAbsent | src/ui/mover/MoverUI.py:294 | replacing a pattern that does not occur changes nothing |
| Text.ReplaceSkips | src/ui/mover/MoverUI.py:294 | a prefix without the pattern's first character passes through a replacement unchanged |
| Text.ReplaceFirstOccurrence | src/ui/mover/MoverUI.py:294 | states `Text.Replace`: the first occurrence is replaced and the replacement goes on after it |
| Text.ReplaceChar | src/web/resources/Files.py:32 | replacing one character by another changes exactly the positions holding it |
| Text.ReplaceEmpty | src/ui/mover/MoverUI.py:294 | replacing the empty string inserts the replacement around every character |
| Text.ReplaceIsSinglePass | src/ui/mover/MoverUI.py:298 | an example input, not a general law: one pass of collapsing '//' leaves "//" from "///" |
| Text.SplitFirst | src/ui/browser/BrowserUI.py:263 | the longest prefix without the separator, followed in the string by the separator when shorter |
| Text.NatToString | src/Thumbnailer.py:68 | a non-empty string of digits |
| Text.IntToString | src/Thumbnailer.py:68 | a non-empty string without '/', not starting with '.', ending in a digit |
| Text.NatToStringRoundTrip | src/Thumbnailer.py:68 | parsing the decimal text of a natural number gives the number back |
| Text.IntToStringRoundTrip | src/Thumbnailer.py:68 | parsing the text of an id gives the id back |
| Text.IntToStringInjective | src/Thumbnailer.py:68 | distinct ids have distinct texts |
| Sql.LikeAnything | src/dao/FilesDAO.py:75 | '%' matches every string |
| Sql.LikeSkip | src/dao/FilesDAO.py:75 | a leading '%' may skip any prefix |
| Sql.LikeSelfPrefix | src/dao/FilesDAO.py:75 | a literal prefix matches itself |
| Sql.LikeContains | src/dao/FilesDAO.py:75 | states `Sql.Like`: '%w%' matches every string containing w |
| Sql.LikeIgnoresCase | src/dao/FilesDAO.py:75 | LIKE gives the same answer on a string and on its ASCII-lowered form |
| Sql.Scan | src/dao/Common.py:194 | the keys in a range, ascending and without repeats, every one of them |
| Sql.Page | src/dao/FilesDAO.py:81-84 | OFFSET then LIMIT: a contiguous run of the rows from the offset, at most limit long, as long as possible, empty past the end |
| Collections.Filter | src/dao/Common.py:197-198 | exactly the kept elements, each from the input |
| Collections.FilterSubMultiset | src/dao/Common.py:197-198 | filtering never adds or repeats an element |
| Collections.FilterAppend | src/dao/Common.py:197-198 | filtering keeps order: the filter of a concatenation is the concatenation of the filters |
| Collections.InsertByKey | src/ui/browser/BrowserCtrl.py:95 | inserting into a sorted list keeps it sorted and adds exactly that element |
| Collections.SortByKey | src/ui/browser/BrowserCtrl.py:95 | sorted by the key, same length |
| Collections.SortByKeyPermutes | src/ui/browser/BrowserCtrl.py:95 | sorting is a permutation |
| Collections.SortAllEqual | src/dao/Common.py:199-202 | sorting leaves rows with equal keys in their order |
| Paths.RFind | src/Config.py:150 | the last position of the character, or -1 |
| Paths.JoinRelative | src/Thumbnailer.py:67-68 | states `Paths.Join`: joining a relative part appends it, after a '/' when needed |
| Paths.Basename | src/Config.py:150 | a slash-free suffix of the path |
| Paths.BasenameOfJoin | src/Config.py:150 | the basename of a path joined with a slash-free name is that name |
| Paths.RStripSlashes | src/Thumbnailer.py:99 | the path without its trailing slashes |
| Paths.Dirname | src/Thumbnailer.py:99 | a prefix of the path |
| Paths.DirnameOfJoin | src/Thumbnailer.py:67-68 | the folder of a path joined with a slash-free name is the path |
| Paths.SplitExt | src/ui/mover/MoverUI.py:218 | root and extension concatenate to the path; the extension is empty or a '.' and slash-free |

## Left out

- The SQLAlchemy engine, sessions at the driver level, SQL text and the database file are not modelled. A session is a flag and the catalog is a value held by `DaoCommon.Catalog`.
- SQLite's row order is taken to be rowid order, that is ascending id. Results ordered by name break ties by id.
- Ids are unbounded integers. SQLite's 64-bit rowid limit is not modelled.
- `FilesDao.InsertTx`, `TagsDao.InsertTagTx` and `MetatagsDao.InsertTx` take the new id from a counter that never decreases. The tables are declared without AUTOINCREMENT, so SQLite gives a new row the largest id in use plus one, and reuses the id of a deleted highest row. The model never reuses an id. New rows still get an id above every id in use, so the rowid order of the rows in the table is the same.
- `TagsDao.Insert` follows the corrected `TagsDao.InsertTagTx`: an insert with a missing metatag fails and leaves the catalog unchanged. The committed dangling row of the source is exhibited only by `TagsDao.InsertTagAsWritten` (see Findings). `DaoCommon.Catalog`'s invariant therefore keeps every tag's metatag present, a state the source can leave.
- `Tagger.TaggerCtrl.CreateTag` creates its tag through the corrected insert, like `TagsDao.Insert`. With a missing metatag the call fails and the catalog is left unchanged, where the source keeps the committed row.
- `Editor.EditorCtrl.AddTag` creates its tag through the corrected insert, like `TagsDao.Insert`. With a missing metatag it returns False, as the source does, but the catalog is left unchanged, where the source keeps the committed row.
- `BrowserUi.BrowserView.UpdateFilesList` fills the store with the corrected `BrowserUi.Filled`. The as-written overshoot is exhibited only by `BrowserUi.FilledAsWritten` and `BrowserUi.LoadMoreOvershoots` (see Findings).
- `BrowserUi.BrowserView.LoadMoreFiles` appends one page with the corrected `BrowserUi.Filled`, for the same reason.
- `func.random()` is not modelled as randomness. A random listing takes the order of the ids as a parameter.
- Python's `1 == True` is not modelled. A reference to a tag or metatag is either an id or a view, never a boolean.
- `Text.Lower` folds ASCII letters only. Python's `str.lower` and SQLite's LIKE agree on ASCII, and non-ASCII case folding is left out.
- `TagsDao.GetRelatedTags` returns each related tag once. A duplicate tag id in the query is not reproduced as a duplicate row.
- `WebFiles.Put` requires a body without an `id`. With an id, the source's `setattr` would renumber the row, and that renumbering is not modelled.
- The marshalling schemas are not modelled. A loaded body is a `FileInput`, or an error when it cannot be loaded. Replies carry entities, not JSON.
- Parsing the `offset` and `limit` query arguments is not modelled. They are given as numbers.
- Exceptions that escape a web handler (Flask's 500 reply) are modelled as an `Err` result of the handler.
- Only the `/files` resource is modelled among the web resources. The tags, metatags, file-list and tree resources, the server set-up and the error classes are not part of this model.
- `WebFiles.GetEntities` is modelled as written. Tag arguments arrive as strings, which have no `id`, so any tag filter raises AttributeError. No corrected listing by tags is given.
- `Browser.BrowserCtrl.RemoveFile` models only the removal from the lists. The source first calls `System.removeFile`, which src/System.py does not define, so the call raises AttributeError before the lists change. The model leaves that call out and performs the list update.
- `Browser.BrowserCtrl.RemoveTag` drops the first used tag equal to the given one by value. Python's `list.remove` on entities without `__eq__` matches by identity. The only caller passes back the tag object it added, so the two agree there.
- `FilesDao.Update`, `FilesDao.Delete`, `TagsDao.Update`, `TagsDao.Delete`, `MetatagsDao.Update` and `MetatagsDao.Delete` take an integer id. The source also accepts an entity and uses its `.id` (src/dao/Common.py:267-270 and 283-286). Every caller in the model passes the id.
- `Tagger.TaggerCtrl.constructor` requires a full file view. The browser hands the tagger a lazy view, on which `fileHasTag` would raise, and that crash is not modelled.
- `BrowserUi.BrowserView.FilterTagsList` requires a selected metatag whenever tags are available. Without one, the source raises AttributeError, and that path is not modelled.
- `BrowserUi.BrowserView.FilterByTagName` has the same requirement, for the same reason.
- Widgets, pixbufs, Glade files, icons, signals and dialogs are not modelled. A list store is a sequence of rows and a selector is its value. `UiUtils` models the inhibit flag around a method, not the widget callbacks.
- Writing the JSON settings file is not modelled. The file's content is the loaded value, and each `save()` increments the `saves` counter of `Config.ConfigManager`.
- `Config.ConfigManager.constructor` requires every section of the loaded file to be a JSON object. For any other file the source raises later, on first use.
- Creating the thumbnail folders is modelled as adding each folder to the host's set of folders. `makedirs`'s intermediate folders are not modelled.
- Creating the profile folder when it is missing (src/Config.py:108-109) is not modelled. The profile folder is taken to exist.
- `Thumbnailer.Thumbnailer.CreateThumbnail` records the launched command. The external process runs fire-and-forget, and its output, exit status and timing are not modelled.
- `Thumbnailer.Thumbnailer.CreateThumbnail` adds only the thumbnail's own folder. The missing parent folders that `os.makedirs` also creates, and the errors a non-folder parent would raise, are not modelled.
- The MIME guess, the directory walk and the natural sort are given as inputs to the thumbnailer.
- `Mover.EvaluateOneKey` is stated for a pattern with a single placeholder. Patterns with several placeholders are covered only by `Mover.Evaluate`'s equality with `Mover.EvaluatePattern`.
- The profile's evaluator of custom keys is an arbitrary function given as input. Loading the `moverKeys.py` and `moverDefaults.py` modules is not modelled.
- The strip applied to a mover entry's text and the look-up of a combo box's tag by index are not modelled. A selector is given with the value it shows.
- The mover's file operations are not part of this model: the window calls controller methods (`moveFileTo`, `addFile`, `getTargetFullPath`, `metatags`) that the controller does not define.
- Logging, the command-line scripts and the application start-up are not modelled.

## Findings

| source | as written | input that shows it | evidently intended | confidence | as-written member | corrected member |
|---|---|---|---|---|---|---|
| src/dao/TagsDAO.py:26-31 | the tag row is inserted and committed with whatever metatag id it is given; SQLite does not enforce the foreign key by default, so building the returned view then fails on the missing metatag with AttributeError | an empty catalog, name "holiday", metatag id 7: the call fails, yet the tag stays in the catalog with a dangling metatag | a metatag id with no row is rejected like the other constraint violations, and the catalog is left unchanged | medium, not executed | TagsDao.InsertTagAsWrittenLeavesDanglingRow | TagsDao.InsertTagTx |
| src/ui/browser/BrowserUI.py:151 | an append fills the store up to `len(store) + files_limit`, although `files_limit` already counts the rows shown | 1000 files: the first fill shows 100 rows, and one "load more" shows 300 instead of 200 | each "load more" adds one page, so the store holds `min(files_limit, len(files))` rows | medium, not executed | BrowserUi.LoadMoreOvershoots | BrowserUi.LoadMoreAddsOnePage |
