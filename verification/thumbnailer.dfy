/**
 * The thumbnail cache: where a file's thumbnail and failure marker live,
 * which files can have one, and when `getThumbnail` hands back a cached
 * thumbnail, starts a generator or gives up. The filesystem is the set of
 * existing paths and the generators are the commands launched; MIME
 * detection is a function supplied by the caller.
 */
module Thumbnailer {
  import opened Wrappers
  import opened Views
  import Text
  import Paths

  const VIDEO_MIMES: seq<string> := ["video/x-msvideo", "video/x-matroska", "video/mp4", "video/x-ogm+ogg", "video/x-ms-wmv"]
  const IMAGE_MIMES: seq<string> := ["image/gif", "image/png", "image/jpeg", "application/pdf", "image/vnd.djvu"]
  const DIRECTORY_MIME := "inode/directory"

  const THUMB_VIDEO := 0
  const THUMB_IMAGE := 1
  const THUMB_FOLDER := 2

  const THUMB_EXTENSION := ".png"

  // ---------------------------------------------------------------------------
  // Paths

  /** `<folder>/<size>/<id>.png`, the layout shared by thumbnails and failure markers. */
  function ThumbPath(folder: string, size: int, id: int): string
  {
    Paths.Join(Paths.Join(folder, Text.IntToString(size)), Text.IntToString(id) + THUMB_EXTENSION)
  }

  /** The folder holding the thumbnails of one icon size. */
  function SizeFolder(folder: string, size: int): string
  {
    Paths.Join(folder, Text.IntToString(size))
  }

  /** Under a folder ending in '/', the path is the folder, the size, '/', the id and '.png'. */
  lemma ThumbPathShape(folder: string, size: int, id: int)
    requires folder != [] && folder[|folder| - 1] == '/'
    ensures SizeFolder(folder, size) == folder + Text.IntToString(size)
    ensures ThumbPath(folder, size, id) == folder + Text.IntToString(size) + "/" + Text.IntToString(id) + THUMB_EXTENSION
  {
  }

  /** Distinct files get distinct thumbnail paths. */
  lemma ThumbPathsDistinct(folder: string, size: int, id1: int, id2: int)
    requires folder != [] && folder[|folder| - 1] == '/'
    requires id1 != id2
    ensures ThumbPath(folder, size, id1) != ThumbPath(folder, size, id2)
  {
    ThumbPathShape(folder, size, id1);
    ThumbPathShape(folder, size, id2);
    var pre := folder + Text.IntToString(size) + "/";
    var s1, s2 := Text.IntToString(id1), Text.IntToString(id2);
    if ThumbPath(folder, size, id1) == ThumbPath(folder, size, id2) {
      assert pre + s1 + THUMB_EXTENSION == pre + s2 + THUMB_EXTENSION;
      assert |s1| == |s2|;
      assert (pre + s1 + THUMB_EXTENSION)[|pre|..|pre| + |s1|] == s1;
      assert (pre + s2 + THUMB_EXTENSION)[|pre|..|pre| + |s2|] == s2;
      Text.IntToStringInjective(id1, id2);
    }
  }

  /** The folder a thumbnail is written into is the size folder. */
  lemma ThumbFolder(folder: string, size: int, id: int)
    requires folder != [] && folder[|folder| - 1] == '/'
    ensures Paths.Dirname(ThumbPath(folder, size, id)) == SizeFolder(folder, size)
  {
    ThumbPathShape(folder, size, id);
    var a, b := SizeFolder(folder, size), Text.IntToString(id) + THUMB_EXTENSION;
    assert a[|a| - 1] == Text.IntToString(size)[|Text.IntToString(size)| - 1];
    Paths.DirnameOfJoin(a, b);
  }

  /** A size folder is never a thumbnail or marker path: one ends in a digit, the other in 'g'. */
  lemma FolderIsNoThumb(folder: string, other: string, size: int, size': int, id: int)
    requires folder != [] && folder[|folder| - 1] == '/'
    requires other != [] && other[|other| - 1] == '/'
    ensures SizeFolder(folder, size) != ThumbPath(other, size', id)
  {
    ThumbPathShape(folder, size, id);
    ThumbPathShape(other, size', id);
    var a := SizeFolder(folder, size);
    var p := ThumbPath(other, size', id);
    assert a[|a| - 1] == Text.IntToString(size)[|Text.IntToString(size)| - 1];
    assert p[|p| - 1] == 'g';
  }

  /** A thumbnail is written into its size folder, which is never a thumbnail or marker path. */
  lemma GenerationPaths(folder: string, other: string, size: int, id: int)
    requires folder != [] && folder[|folder| - 1] == '/'
    requires other != [] && other[|other| - 1] == '/'
    ensures Paths.Dirname(ThumbPath(folder, size, id)) == SizeFolder(folder, size)
    ensures SizeFolder(folder, size) != ThumbPath(other, size, id)
  {
    ThumbFolder(folder, size, id);
    FolderIsNoThumb(folder, other, size, size, id);
  }

  // ---------------------------------------------------------------------------
  // Types

  /** `getThumbnailType` on a MIME type: directory first, then video, then image (pdf and djvu count as images). */
  function ThumbType(mime: string): (r: Option<int>)
    ensures r == Some(THUMB_FOLDER) <==> mime == DIRECTORY_MIME
    ensures r == Some(THUMB_VIDEO) <==> mime in VIDEO_MIMES
    ensures r == Some(THUMB_IMAGE) <==> mime in IMAGE_MIMES
    ensures r.None? <==> mime != DIRECTORY_MIME && mime !in VIDEO_MIMES && mime !in IMAGE_MIMES
  {
    if mime == DIRECTORY_MIME then Some(THUMB_FOLDER)
    else if mime in VIDEO_MIMES then Some(THUMB_VIDEO)
    else if mime in IMAGE_MIMES then Some(THUMB_IMAGE)
    else None
  }

  /** The generator command for a video. */
  function VideoCommand(path: string, thumb: string, size: int): seq<string>
  {
    ["ffmpegthumbnailer", "-i", path, "-o", thumb, "-s", Text.IntToString(size)]
  }

  /** The generator command for an image. */
  function ImageCommand(path: string, thumb: string, size: int): seq<string>
  {
    ["convert", path, "-thumbnail", Text.IntToString(size) + "x" + Text.IntToString(size), thumb]
  }

  /**
   * The file `createFolderThumbnail` generates from: the first name, in the
   * given (sorted) order, that is not a directory and whose MIME type is a
   * video or image type.
   */
  function FolderPick(path: string, names: seq<string>, dirs: set<string>, mimeOf: string -> string): (r: Option<nat>)
    ensures r.Some? ==> r.value < |names| && Usable(path, names[r.value], dirs, mimeOf)
    ensures r.Some? ==> forall k :: 0 <= k < r.value ==> !Usable(path, names[k], dirs, mimeOf)
    ensures r.None? <==> forall k :: 0 <= k < |names| ==> !Usable(path, names[k], dirs, mimeOf)
  {
    if names == [] then None
    else if Usable(path, names[0], dirs, mimeOf) then Some(0)
    else
      match FolderPick(path, names[1..], dirs, mimeOf)
      case None => None
      case Some(k) => Some(k + 1)
  }

  predicate Usable(path: string, name: string, dirs: set<string>, mimeOf: string -> string)
  {
    var p := Paths.Join(path, name);
    p !in dirs && (mimeOf(p) in VIDEO_MIMES || mimeOf(p) in IMAGE_MIMES)
  }

  /** The command launched for a usable folder entry. */
  function FolderCommand(path: string, name: string, thumb: string, size: int, mimeOf: string -> string): seq<string>
  {
    var p := Paths.Join(path, name);
    if mimeOf(p) in VIDEO_MIMES then VideoCommand(p, thumb, size) else ImageCommand(p, thumb, size)
  }

  /** The commands `createFolderThumbnail` launches: at most one, writing the thumbnail. */
  function FolderCommands(path: string, names: seq<string>, thumb: string, size: int, dirs: set<string>, mimeOf: string -> string): (r: seq<seq<string>>)
    ensures |r| <= 1
    ensures forall i :: 0 <= i < |r| ==> |r[i]| > 4 && r[i][4] == thumb
    ensures r == [] <==> FolderPick(path, names, dirs, mimeOf).None?
  {
    match FolderPick(path, names, dirs, mimeOf)
    case None => []
    case Some(k) => [FolderCommand(path, names[k], thumb, size, mimeOf)]
  }

  /** The commands `createThumbnail` launches for a type: one generator, or none for a folder without usable files or an unknown type. */
  function Launches(thumbType: int, path: string, thumb: string, size: int, names: seq<string>, dirs: set<string>, mimeOf: string -> string): (r: seq<seq<string>>)
    ensures |r| <= 1
    ensures thumbType !in {THUMB_VIDEO, THUMB_IMAGE, THUMB_FOLDER} ==> r == []
    ensures thumbType in {THUMB_VIDEO, THUMB_IMAGE} ==> |r| == 1
    ensures forall i :: 0 <= i < |r| ==> |r[i]| > 4 && r[i][4] == thumb
  {
    if thumbType == THUMB_VIDEO then [VideoCommand(path, thumb, size)]
    else if thumbType == THUMB_IMAGE then [ImageCommand(path, thumb, size)]
    else if thumbType == THUMB_FOLDER then FolderCommands(path, names, thumb, size, dirs, mimeOf)
    else []
  }

  /** The walk of `createFolderThumbnail`: the first entry that is not a directory and has a video or image type. */
  method FindUsable(path: string, names: seq<string>, dirs: set<string>, mimeOf: string -> string) returns (r: Option<nat>)
    ensures r == FolderPick(path, names, dirs, mimeOf)
  {
    r := None;
    var i := 0;
    while i < |names|
      invariant 0 <= i <= |names|
      invariant forall k :: 0 <= k < i ==> !Usable(path, names[k], dirs, mimeOf)
    {
      var p := Paths.Join(path, names[i]);
      if p !in dirs {
        var mime := mimeOf(p);
        if mime in VIDEO_MIMES || mime in IMAGE_MIMES {
          FirstUsable(path, names, dirs, mimeOf, i);
          r := Some(i);
          break;
        }
      }
      i := i + 1;
    }
  }

  /** The first usable entry is the one picked. */
  lemma FirstUsable(path: string, names: seq<string>, dirs: set<string>, mimeOf: string -> string, i: nat)
    requires i < |names| && Usable(path, names[i], dirs, mimeOf)
    requires forall k :: 0 <= k < i ==> !Usable(path, names[k], dirs, mimeOf)
    ensures FolderPick(path, names, dirs, mimeOf) == Some(i)
  {
    var r := FolderPick(path, names, dirs, mimeOf);
    assert r.Some?;
    assert !(r.value < i);
    assert !(r.value > i);
  }

  // ---------------------------------------------------------------------------
  // The filesystem and the thumbnailer

  /** The part of the host the thumbnailer sees: existing paths, directories and launched commands. */
  class Host {
    var paths: set<string>
    var dirs: set<string>
    var launched: seq<seq<string>>

    /** Every directory is an existing path. */
    ghost predicate Valid()
      reads this
    {
      dirs <= paths
    }

    constructor (paths: set<string>, dirs: set<string>)
      ensures Valid() && this.paths == paths + dirs && this.dirs == dirs && launched == []
    {
      this.paths := paths + dirs;
      this.dirs := dirs;
      launched := [];
    }
  }

  class Thumbnailer {
    const host: Host
    const thumbnailsFolder: string
    const thumbnailsFailFolder: string
    const iconSize: int

    ghost predicate Valid()
    {
      && thumbnailsFolder != [] && thumbnailsFolder[|thumbnailsFolder| - 1] == '/'
      && thumbnailsFailFolder != [] && thumbnailsFailFolder[|thumbnailsFailFolder| - 1] == '/'
    }

    /** The cache lives in `thumbnails/` and `thumbnails_fail/` under the profile folder. */
    constructor (host: Host, profileFolder: string, iconSize: int)
      ensures Valid() && this.host == host && this.iconSize == iconSize
      ensures thumbnailsFolder == Paths.Join(profileFolder, "thumbnails/")
      ensures thumbnailsFailFolder == Paths.Join(profileFolder, "thumbnails_fail/")
    {
      this.host := host;
      this.iconSize := iconSize;
      thumbnailsFolder := Paths.Join(profileFolder, "thumbnails/");
      thumbnailsFailFolder := Paths.Join(profileFolder, "thumbnails_fail/");
    }

    /** `_getThumbnailPath(file)`. */
    function ThumbnailPath(file: FileView): string
    {
      ThumbPath(thumbnailsFolder, iconSize, file.id)
    }

    /** `_getThumbnailFailPath(file)`. */
    function FailPath(file: FileView): string
    {
      ThumbPath(thumbnailsFailFolder, iconSize, file.id)
    }

    /**
     * `createThumbnail(path, thumb, type)`: the thumbnail's folder is created
     * when missing, then the generator for the type is launched; an unknown
     * type launches nothing and answers False. A path at the folder's place
     * that is not a folder makes `makedirs` raise FileExistsError before
     * anything is launched. No file is created besides the folder: the
     * generators run on their own.
     */
    method CreateThumbnail(path: string, thumb: string, thumbType: int, names: seq<string>, mimeOf: string -> string)
      returns (r: Result<Option<bool>>)
      requires host.Valid()
      modifies host
      ensures host.Valid()
      ensures var folder := Paths.Dirname(thumb);
        folder in old(host.paths) && folder !in old(host.dirs) ==> r == Err(FileExistsError(folder)) && unchanged(host)
      ensures var folder := Paths.Dirname(thumb);
        folder !in old(host.paths) || folder in old(host.dirs) ==>
          && host.dirs == old(host.dirs) + {folder}
          && host.paths == old(host.paths) + {folder}
          && r == Ok(if thumbType in {THUMB_VIDEO, THUMB_IMAGE, THUMB_FOLDER} then None else Some(false))
          && host.launched == old(host.launched) + Launches(thumbType, path, thumb, iconSize, names, old(host.dirs) + {folder}, mimeOf)
    {
      var folder := Paths.Dirname(thumb);
      if folder !in host.dirs {
        if folder in host.paths {
          return Err(FileExistsError(folder));
        }
        host.dirs := host.dirs + {folder};
        host.paths := host.paths + {folder};
      }
      r := Ok(None);
      if thumbType == THUMB_VIDEO {
        host.launched := host.launched + [VideoCommand(path, thumb, iconSize)];
      } else if thumbType == THUMB_IMAGE {
        host.launched := host.launched + [ImageCommand(path, thumb, iconSize)];
      } else if thumbType == THUMB_FOLDER {
        CreateFolderThumbnail(path, thumb, names, mimeOf);
      } else {
        r := Ok(Some(false));
      }
    }

    /**
     * `createFolderThumbnail(path, thumb)` over the folder's sorted file
     * names: walks them and launches the generator for the first usable one,
     * then stops.
     */
    method CreateFolderThumbnail(path: string, thumb: string, names: seq<string>, mimeOf: string -> string)
      modifies host
      ensures host.paths == old(host.paths) && host.dirs == old(host.dirs)
      ensures host.launched == old(host.launched) + FolderCommands(path, names, thumb, iconSize, host.dirs, mimeOf)
    {
      var pick := FindUsable(path, names, host.dirs, mimeOf);
      if pick.Some? {
        var p := Paths.Join(path, names[pick.value]);
        if mimeOf(p) in VIDEO_MIMES {
          host.launched := host.launched + [VideoCommand(p, thumb, iconSize)];
        } else {
          host.launched := host.launched + [ImageCommand(p, thumb, iconSize)];
        }
      }
    }

    /**
     * `getThumbnail(file)`: None for a file missing under the root; the
     * thumbnail path when it exists; None for a type without thumbnails or
     * after a recorded failure; otherwise generation starts and the file's
     * own path is returned, unless the size folder's place holds something
     * that is not a folder, which raises FileExistsError.
     */
    method GetThumbnail(file: FileView, root: string, names: seq<string>, mimeOf: string -> string) returns (r: Result<Option<string>>)
      requires Valid() && host.Valid()
      modifies host
      ensures host.Valid()
      ensures Paths.Join(root, file.name) !in old(host.paths) ==> r == Ok(None) && unchanged(host)
      ensures Paths.Join(root, file.name) in old(host.paths) && ThumbnailPath(file) in old(host.paths) ==>
        r == Ok(Some(ThumbnailPath(file))) && unchanged(host)
      ensures Paths.Join(root, file.name) in old(host.paths) && ThumbnailPath(file) !in old(host.paths) ==>
        var thumbType := ThumbType(mimeOf(Paths.Join(root, file.name)));
        var folder := SizeFolder(thumbnailsFolder, iconSize);
        && (thumbType.None? || FailPath(file) in old(host.paths) ==> r == Ok(None) && unchanged(host))
        && (thumbType.Some? && FailPath(file) !in old(host.paths) && folder in old(host.paths) && folder !in old(host.dirs) ==>
              r == Err(FileExistsError(folder)) && unchanged(host))
        && (thumbType.Some? && FailPath(file) !in old(host.paths) && (folder !in old(host.paths) || folder in old(host.dirs)) ==>
              && r == Ok(Some(Paths.Join(root, file.name)))
              && host.paths == old(host.paths) + {folder}
              && host.launched == old(host.launched) + Launches(thumbType.value, Paths.Join(root, file.name), ThumbnailPath(file), iconSize,
                                                                names, old(host.dirs) + {folder}, mimeOf))
      ensures FailPath(file) in host.paths <==> FailPath(file) in old(host.paths)
    {
      var path := Paths.Join(root, file.name);
      if path !in host.paths {
        return Ok(None);
      }
      var thumb := ThumbnailPath(file);
      if thumb in host.paths {
        return Ok(Some(thumb));
      }
      var fail := FailPath(file);
      var thumbType := ThumbType(mimeOf(path));
      if thumbType.None? {
        return Ok(None);
      } else if fail !in host.paths {
        var started := StartGeneration(file, path, thumbType.value, names, mimeOf);
        if started.Err? {
          return Err(started.error);
        }
        return Ok(Some(path));
      } else {
        return Ok(None);
      }
    }

    /**
     * The generating branch of `getThumbnail`: the size folder is created and
     * the generator for the type launched, or FileExistsError is raised when
     * the folder's place holds something else.
     */
    method StartGeneration(file: FileView, path: string, thumbType: int, names: seq<string>, mimeOf: string -> string)
      returns (r: Result<Unit>)
      requires Valid() && host.Valid()
      modifies host
      ensures host.Valid()
      ensures var folder := SizeFolder(thumbnailsFolder, iconSize);
        folder in old(host.paths) && folder !in old(host.dirs) ==> r == Err(FileExistsError(folder)) && unchanged(host)
      ensures var folder := SizeFolder(thumbnailsFolder, iconSize);
        folder !in old(host.paths) || folder in old(host.dirs) ==>
          && r == Ok(Unit)
          && host.paths == old(host.paths) + {folder}
          && host.launched == old(host.launched) + Launches(thumbType, path, ThumbnailPath(file), iconSize,
                                                            names, old(host.dirs) + {folder}, mimeOf)
      ensures FailPath(file) in host.paths <==> FailPath(file) in old(host.paths)
    {
      GenerationPaths(thumbnailsFolder, thumbnailsFailFolder, iconSize, file.id);
      var created := CreateThumbnail(path, ThumbnailPath(file), thumbType, names, mimeOf);
      r := if created.Err? then Err(created.error) else Ok(Unit);
    }

    /** `removeThumbnail(file)`: afterwards neither the thumbnail nor the failure marker exists; nothing else changes. */
    method RemoveThumbnail(file: FileView)
      modifies host
      ensures host.paths == old(host.paths) - {ThumbnailPath(file), FailPath(file)}
      ensures host.dirs == old(host.dirs) && host.launched == old(host.launched)
    {
      var thumb, fail := ThumbnailPath(file), FailPath(file);
      if thumb in host.paths {
        host.paths := host.paths - {thumb};
      }
      if fail in host.paths {
        host.paths := host.paths - {fail};
      }
    }
  }
}
