/**
 * The browser window's logic apart from the widgets: the icon names tried
 * for a mime type, which tag buttons the metatag selector and the name
 * filter show, the paged list of files, and the metatag selection. The
 * controller's lists are read from the browser controller.
 */
module BrowserUi {
  import opened Wrappers
  import opened Views
  import Text
  import Paths
  import Browser

  const ICON_SIZE := 256
  /** How many more files each "load more" shows. */
  const FILES_LIMIT := 100
  /** `Gtk.STOCK_FILE`. */
  const STOCK_FILE := "gtk-file"
  const GNOME_MIME := "gnome-mime-"

  /**
   * `_generateGtkIconNames(mime)`: the mime type; the mime type with every
   * '/' turned into '-'; that with the "gnome-mime-" prefix; the part of the
   * mime type before the first '/'; that with the prefix; and the stock file
   * icon.
   */
  function IconNames(mime: string): (r: seq<string>)
    ensures |r| == 6 && r[0] == mime && r[5] == STOCK_FILE
    ensures |r[1]| == |mime| && forall i :: 0 <= i < |mime| ==> r[1][i] == if mime[i] == '/' then '-' else mime[i]
    ensures r[2] == GNOME_MIME + r[1]
    ensures r[3] <= mime && (forall i :: 0 <= i < |r[3]| ==> r[3][i] != '/') && (|r[3]| < |mime| ==> mime[|r[3]|] == '/')
    ensures r[4] == GNOME_MIME + r[3]
  {
    var alt := Text.Replace(mime, "/", "-");
    var generic := Text.SplitFirst(mime, '/');
    Text.ReplaceChar(mime, '/', '-');
    [mime, alt, GNOME_MIME + alt, generic, GNOME_MIME + generic, STOCK_FILE]
  }

  /** The icon names differ from the mime type only in its separator: none of the derived names keeps a '/'. */
  lemma IconNamesWithoutSlash(mime: string)
    ensures forall k :: 1 <= k <= 4 ==> forall i :: 0 <= i < |IconNames(mime)[k]| ==> IconNames(mime)[k][i] != '/'
  {
    var r := IconNames(mime);
    forall k, i | 1 <= k <= 4 && 0 <= i < |r[k]| ensures r[k][i] != '/' {
      if k == 2 || k == 4 {
        if i >= |GNOME_MIME| {
          assert r[k][i] == r[k - 1][i - |GNOME_MIME|];
        }
      }
    }
  }

  /**
   * The predicate of `filterTagsList`: a tag button is shown exactly when the
   * tag belongs to the selected metatag and the (lower-cased) filter text
   * occurs in its lower-cased name.
   */
  predicate TagShown(tag: TagView, selected: MetatagView, filter: string)
  {
    tag.metatag.id == selected.id && Text.Occurs(filter, Text.Lower(tag.name))
  }

  /** The empty filter hides no tag of the selected metatag. */
  lemma EmptyFilterShowsMetatag(tag: TagView, selected: MetatagView)
    ensures TagShown(tag, selected, []) <==> tag.metatag.id == selected.id
  {
    assert Text.OccursAt([], Text.Lower(tag.name), 0);
  }

  /** The button visibilities after `filterTagsList` has visited the tags in order. */
  function Visibility(tags: seq<TagView>, selected: MetatagView, filter: string, shown: map<int, bool>): map<int, bool>
  {
    if tags == [] then shown
    else
      var last := tags[|tags| - 1];
      Visibility(tags[..|tags| - 1], selected, filter, shown)[last.id := TagShown(last, selected, filter)]
  }

  /** No later tag of the list has the id of tag `j`. */
  predicate LastWithId(tags: seq<TagView>, j: int)
    requires 0 <= j < |tags|
  {
    forall k :: j < k < |tags| ==> tags[k].id != tags[j].id
  }

  /** Each listed tag's button shows the predicate for the last tag with that id. */
  lemma {:induction false} VisibilityOfListed(tags: seq<TagView>, selected: MetatagView, filter: string, shown: map<int, bool>, j: int)
    requires 0 <= j < |tags| && LastWithId(tags, j)
    ensures var v := Visibility(tags, selected, filter, shown);
      tags[j].id in v && v[tags[j].id] == TagShown(tags[j], selected, filter)
    decreases |tags|
  {
    var prefix := tags[..|tags| - 1];
    if j < |tags| - 1 {
      assert tags[j] == prefix[j];
      assert tags[|tags| - 1].id != tags[j].id;
      assert LastWithId(prefix, j) by {
        forall k | j < k < |prefix| ensures prefix[k].id != prefix[j].id {
          assert prefix[k] == tags[k];
        }
      }
      VisibilityOfListed(prefix, selected, filter, shown, j);
    }
  }

  /** A button of an unlisted tag keeps its visibility. */
  lemma {:induction false} VisibilityOfUnlisted(tags: seq<TagView>, selected: MetatagView, filter: string, shown: map<int, bool>, id: int)
    requires forall j :: 0 <= j < |tags| ==> tags[j].id != id
    ensures var v := Visibility(tags, selected, filter, shown);
      (id in v <==> id in shown) && (id in shown ==> v[id] == shown[id])
    decreases |tags|
  {
    if tags != [] {
      var prefix := tags[..|tags| - 1];
      assert tags[|tags| - 1].id != id;
      assert forall j :: 0 <= j < |prefix| ==> prefix[j].id != id by {
        forall j | 0 <= j < |prefix| ensures prefix[j].id != id {
          assert prefix[j] == tags[j];
        }
      }
      VisibilityOfUnlisted(prefix, selected, filter, shown, id);
    }
  }

  /** A row of the files store: the file's id, its basename and its path (the thumbnail is left out). */
  datatype Row = Row(id: int, name: string, path: string)

  function RowOf(f: FileView): (r: Row)
    ensures r.id == f.id && r.path == f.name
  {
    Row(f.id, Paths.Basename(f.name), f.name)
  }

  function Min(a: int, b: int): int
  {
    if a <= b then a else b
  }

  /**
   * The store after `updateFilesList` as written: rows are appended for
   * `files[len(store) .. min(len(store) + files_limit, len(files))]`.
   */
  function FilledAsWritten(base: seq<Row>, files: seq<FileView>, limit: nat): (r: seq<Row>)
    ensures base <= r
  {
    var end := Min(|base| + limit, |files|);
    base + seq(if end > |base| then end - |base| else 0, k requires 0 <= k < end - |base| => RowOf(files[|base| + k]))
  }

  /** Showing one page and loading more, as written, shows 300 files where the limit has become 200. */
  lemma LoadMoreOvershoots(files: seq<FileView>)
    requires |files| == 1000
    ensures |FilledAsWritten([], files, FILES_LIMIT)| == 100
    ensures |FilledAsWritten(FilledAsWritten([], files, FILES_LIMIT), files, FILES_LIMIT + FILES_LIMIT)| == 300
  {
  }

  /**
   * The store after `updateFilesList` with `files_limit` read as the number
   * of files shown: rows are appended for `files[len(store) ..
   * min(files_limit, len(files))]`, so the store holds the first
   * `min(files_limit, len(files))` files after a refresh, and never more
   * files than there are.
   */
  function Filled(base: seq<Row>, files: seq<FileView>, limit: nat): (r: seq<Row>)
    ensures base <= r
    ensures |r| == if |base| < Min(limit, |files|) then Min(limit, |files|) else |base|
    ensures forall i :: |base| <= i < |r| ==> r[i] == RowOf(files[i])
    ensures |base| <= |files| ==> |r| <= |files|
  {
    var end := Min(limit, |files|);
    base + seq(if end > |base| then end - |base| else 0, k requires 0 <= k < end - |base| => RowOf(files[|base| + k]))
  }

  /** Loading more after a full page adds exactly one page, or the rest of the files. */
  lemma LoadMoreAddsOnePage(base: seq<Row>, files: seq<FileView>, limit: nat)
    requires |base| == Min(limit, |files|)
    ensures |Filled(base, files, limit + FILES_LIMIT)| == Min(limit + FILES_LIMIT, |files|)
    ensures |Filled(base, files, limit + FILES_LIMIT)| <= |base| + FILES_LIMIT
  {
  }

  /** `_isCurrentMetatagAvailable`'s answer. */
  predicate MetatagAvailable(selected: Option<MetatagView>, available: seq<MetatagView>)
  {
    selected.Some? && exists i :: 0 <= i < |available| && available[i].id == selected.value.id
  }

  /** The index the metatag selector activates: the last entry with the selected name, or -1. */
  function ActiveIndex(available: seq<MetatagView>, name: string): (r: int)
    ensures -1 <= r < |available|
    ensures r >= 0 ==> available[r].name == name
    ensures forall i :: r < i < |available| ==> available[i].name != name
  {
    if available == [] then -1
    else if available[|available| - 1].name == name then |available| - 1
    else ActiveIndex(available[..|available| - 1], name)
  }

  /** `_getDefaultMetatag`'s answer: the first available metatag with the configured name. */
  function DefaultMetatag(name: Option<string>, available: seq<MetatagView>): (r: Option<MetatagView>)
    ensures r.Some? ==> name.Some? && r.value in available && r.value.name == name.value
    ensures name.Some? && (exists i :: 0 <= i < |available| && available[i].name == name.value) ==> r.Some?
  {
    if name.None? || available == [] then None
    else if available[0].name == name.value then Some(available[0])
    else DefaultMetatag(name, available[1..])
  }

  /** The loop of `updateFilesList`: a row for each file from the end of the store up to the limit. */
  method AppendRows(base: seq<Row>, files: seq<FileView>, limit: nat) returns (rows: seq<Row>)
    ensures rows == Filled(base, files, limit)
  {
    rows := base;
    var maxIndex := Min(limit, |files|);
    var i := |rows|;
    while i < maxIndex
      invariant |base| <= i && i == |rows| && base <= rows
      invariant i <= maxIndex || i == |base|
      invariant forall j :: |base| <= j < i ==> rows[j] == RowOf(files[j])
    {
      rows := rows + [RowOf(files[i])];
      i := i + 1;
    }
    var r := Filled(base, files, limit);
    assert |rows| == |r|;
    assert forall j :: 0 <= j < |r| ==> rows[j] == r[j] by {
      forall j | 0 <= j < |r| ensures rows[j] == r[j] {
        if j < |base| {
          assert rows[j] == base[j] && r[j] == base[j];
        }
      }
    }
  }

  class BrowserView {
    const ctrl: Browser.BrowserCtrl
    /** `files_store`. */
    var store: seq<Row>
    /** `files_limit`. */
    var filesLimit: nat
    var loadMoreShown: bool
    /** `metatag_selected`. */
    var metatagSelected: Option<MetatagView>
    /** `selected_tag_name`, lower-cased. */
    var selectedTagName: string
    /** Whether each tag button (by tag id) is shown. */
    var buttonShown: map<int, bool>
    var selectorShown: bool
    var activeIndex: int

    /** The state `_build` sets up: the configured default metatag, no name filter, one page of files. */
    constructor (ctrl: Browser.BrowserCtrl, defaultName: Option<string>)
      ensures this.ctrl == ctrl && store == [] && filesLimit == FILES_LIMIT && selectedTagName == []
      ensures metatagSelected == DefaultMetatag(defaultName, ctrl.availableMetatags)
    {
      this.ctrl := ctrl;
      store := [];
      filesLimit := FILES_LIMIT;
      loadMoreShown := false;
      metatagSelected := DefaultMetatag(defaultName, ctrl.availableMetatags);
      selectedTagName := [];
      buttonShown := map[];
      selectorShown := false;
      activeIndex := -1;
    }

    /**
     * `updateFilesList(append)`: the store is cleared unless appending, then
     * filled from the controller's files up to the limit; the "load more"
     * button is hidden exactly when every file is in the store.
     */
    method UpdateFilesList(append: bool)
      modifies this
      ensures store == Filled(if append then old(store) else [], ctrl.files, filesLimit)
      ensures loadMoreShown <==> |store| != |ctrl.files|
      ensures filesLimit == old(filesLimit) && metatagSelected == old(metatagSelected)
      ensures selectedTagName == old(selectedTagName) && buttonShown == old(buttonShown)
      ensures selectorShown == old(selectorShown) && activeIndex == old(activeIndex)
    {
      var base := if append then store else [];
      var files := ctrl.files;
      var rows := AppendRows(base, files, filesLimit);
      store := rows;
      loadMoreShown := |rows| != |files|;
    }

    /** `onLoadMoreFiles`: one more page allowed, and appended. */
    method LoadMoreFiles()
      modifies this
      ensures filesLimit == old(filesLimit) + FILES_LIMIT
      ensures store == Filled(old(store), ctrl.files, filesLimit)
      ensures loadMoreShown <==> |store| != |ctrl.files|
    {
      filesLimit := filesLimit + FILES_LIMIT;
      UpdateFilesList(true);
    }

    /** `_isCurrentMetatagAvailable`: scans the available metatags for the selected id. */
    method IsCurrentMetatagAvailable() returns (available: bool)
      ensures available <==> MetatagAvailable(metatagSelected, ctrl.availableMetatags)
    {
      if metatagSelected.None? {
        return false;
      }
      var metatags := ctrl.availableMetatags;
      var id := metatagSelected.value.id;
      available := false;
      var i := 0;
      while i < |metatags|
        invariant 0 <= i <= |metatags|
        invariant forall j :: 0 <= j < i ==> metatags[j].id != id
      {
        if metatags[i].id == id {
          available := true;
          break;
        }
        i := i + 1;
      }
    }

    /**
     * `updateMetatagSelector`: hidden when no metatag is available;
     * otherwise a missing or unavailable selection falls back to the first
     * available metatag, and the entry named like the selection is activated.
     */
    method UpdateMetatagSelector()
      modifies this
      ensures ctrl.availableMetatags == [] ==> !selectorShown && metatagSelected == old(metatagSelected) && activeIndex == old(activeIndex)
      ensures ctrl.availableMetatags != [] ==>
        && selectorShown
        && metatagSelected == (if MetatagAvailable(old(metatagSelected), ctrl.availableMetatags) then old(metatagSelected) else Some(ctrl.availableMetatags[0]))
        && activeIndex == ActiveIndex(ctrl.availableMetatags, metatagSelected.value.name)
      ensures ctrl.availableMetatags != [] ==> MetatagAvailable(metatagSelected, ctrl.availableMetatags)
      ensures store == old(store) && filesLimit == old(filesLimit) && buttonShown == old(buttonShown)
    {
      var metatags := ctrl.availableMetatags;
      if |metatags| == 0 {
        selectorShown := false;
        return;
      }
      var available := IsCurrentMetatagAvailable();
      if !available {
        metatagSelected := Some(metatags[0]);
      }
      var name := metatagSelected.value.name;
      var active := -1;
      var i := 0;
      while i < |metatags|
        invariant 0 <= i <= |metatags|
        invariant active == ActiveIndex(metatags[..i], name)
      {
        assert metatags[..i + 1][..i] == metatags[..i];
        if metatags[i].name == name {
          active := i;
        }
        i := i + 1;
      }
      assert metatags[..i] == metatags;
      activeIndex := active;
      selectorShown := true;
    }

    /** `filterTagsList`: each available tag's button shown or hidden by the predicate. */
    method FilterTagsList()
      requires metatagSelected.Some? || ctrl.availableTags == []
      modifies this
      ensures store == old(store) && metatagSelected == old(metatagSelected) && selectedTagName == old(selectedTagName)
      ensures ctrl.availableTags == [] ==> buttonShown == old(buttonShown)
      ensures ctrl.availableTags != [] ==>
        buttonShown == Visibility(ctrl.availableTags, metatagSelected.value, selectedTagName, old(buttonShown))
    {
      var tags := ctrl.availableTags;
      if tags == [] {
        return;
      }
      var selected := metatagSelected.value;
      var shown := buttonShown;
      var i := 0;
      while i < |tags|
        invariant 0 <= i <= |tags|
        invariant shown == Visibility(tags[..i], selected, selectedTagName, old(buttonShown))
      {
        assert tags[..i + 1][..i] == tags[..i];
        shown := shown[tags[i].id := TagShown(tags[i], selected, selectedTagName)];
        i := i + 1;
      }
      assert tags[..i] == tags;
      buttonShown := shown;
    }

    /** `onFilterByTagName`: the lower-cased text becomes the filter, then the buttons are filtered. */
    method FilterByTagName(text: string)
      requires metatagSelected.Some? || ctrl.availableTags == []
      modifies this
      ensures selectedTagName == Text.Lower(text) && metatagSelected == old(metatagSelected)
      ensures ctrl.availableTags != [] ==>
        buttonShown == Visibility(ctrl.availableTags, metatagSelected.value, Text.Lower(text), old(buttonShown))
    {
      selectedTagName := Text.Lower(text);
      FilterTagsList();
    }

    /** `_getFileInStore(id)`: the first of the controller's files with the id, or None. */
    method GetFileInStore(id: int) returns (file: Option<FileView>)
      ensures file.None? <==> forall i :: 0 <= i < |ctrl.files| ==> ctrl.files[i].id != id
      ensures file.Some? ==> file.value == ctrl.files[Browser.FirstWithId(ctrl.files, id).value]
    {
      var files := ctrl.files;
      file := None;
      var i := 0;
      while i < |files|
        invariant 0 <= i <= |files|
        invariant forall j :: 0 <= j < i ==> files[j].id != id
      {
        if files[i].id == id {
          file := Some(files[i]);
          assert Browser.FirstWithId(files, id) == Some(i);
          break;
        }
        i := i + 1;
      }
    }
  }
}
