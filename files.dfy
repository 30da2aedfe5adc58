/**
 * The media directory `public/memories` as the sync routines see it, and the
 * classification of a file name that both of them apply: hidden names first,
 * then the lower-cased extension.
 */
module Files {
  import opened Wrappers
  import Text
  import opened Store
  import opened Seqs

  /**
   * One name listed by `readdirSync(memoriesDir)`.  `listing` is the result of
   * `readdirSync` on it when `statSync(...).isDirectory()` holds, and `None`
   * when the name is not a directory.
   */
  datatype Entry = Entry(name: string, listing: Option<seq<string>>)

  /** `public/memories`: `None` when the directory does not exist, else its listing in order. */
  type MediaRoot = Option<seq<Entry>>

  /** The url prefix of the files of folder `dir`: `/memories/<dir>/`. */
  function DirPrefix(dir: string): string {
    "/memories/" + dir + "/"
  }

  /** The canonical url `/memories/<dir>/<file>` under which a file is recorded. */
  function MediaUrl(dir: string, file: string): (r: string)
    ensures Text.StartsWith(r, DirPrefix(dir))
    ensures r[|DirPrefix(dir)|..] == file
  {
    DirPrefix(dir) + file
  }

  /** Different file names of one folder give different urls. */
  lemma MediaUrlInjective(dir: string, f1: string, f2: string)
    requires MediaUrl(dir, f1) == MediaUrl(dir, f2)
    ensures f1 == f2
  {
    assert f1 == MediaUrl(dir, f1)[|DirPrefix(dir)|..];
  }

  /** `file.startsWith('.')`. */
  predicate IsHidden(file: string) {
    |file| > 0 && file[0] == '.'
  }

  /** The index of the last `.` in `s`, if there is one. */
  function LastDot(s: string): (r: Option<nat>)
    ensures r.Some? ==> r.value < |s| && s[r.value] == '.'
    ensures r.Some? ==> forall j :: r.value < j < |s| ==> s[j] != '.'
    ensures r.None? ==> forall j :: 0 <= j < |s| ==> s[j] != '.'
  {
    if s == [] then None
    else if s[|s| - 1] == '.' then Some(|s| - 1)
    else LastDot(s[..|s| - 1])
  }

  /**
   * `path.extname` of a name that does not start with `.`: the suffix from
   * its last `.`, or the empty string when it has none.
   */
  function Extname(file: string): (r: string)
    ensures |r| <= |file| && r == file[|file| - |r|..]
    ensures r == [] <==> '.' !in file
    ensures r != [] ==> r[0] == '.' && '.' !in r[1..]
  {
    match LastDot(file)
    case None => []
    case Some(k) => file[k..]
  }

  const VideoExtensions: seq<string> := [".mp4", ".mov", ".webm"]
  const ImageExtensions: seq<string> := [".jpg", ".jpeg", ".png", ".gif", ".webp"]

  /** `list.includes(x)`, one element after the other. */
  predicate Includes(list: seq<string>, x: string)
    decreases |list|
  {
    list != [] && (list[0] == x || Includes(list[1..], x))
  }

  lemma {:induction false} IncludesIsIn(list: seq<string>, x: string)
    ensures Includes(list, x) <==> x in list
    decreases |list|
  {
    if list != [] {
      IncludesIsIn(list[1..], x);
      ConsSplit(list);
    }
  }

  /** What the sync loops do with a file name: skip it silently, log it as unknown, or record it. */
  datatype Kind = Hidden | Unknown | Media(mediaType: MediaType)

  function KindOf(file: string): Kind {
    if IsHidden(file) then Hidden
    else
      var ext := Text.Lower(Extname(file));
      if Includes(VideoExtensions, ext) then Media(Video)
      else if Includes(ImageExtensions, ext) then Media(Image)
      else Unknown
  }

  /**
   * The classification as both sync loops write it: skip a hidden name,
   * then test the lower-cased extension against the video list and the
   * image list.
   */
  method Classify(file: string) returns (k: Kind)
    ensures k == KindOf(file)
  {
    if IsHidden(file) {
      return Hidden;
    }
    var ext := Text.Lower(Extname(file));
    var t := Image;
    if Includes(VideoExtensions, ext) {
      t := Video;
    } else if !Includes(ImageExtensions, ext) {
      return Unknown;
    }
    return Media(t);
  }

  /** In `stem.ext` with no `.` in `ext`, the last `.` is the one before `ext`. */
  lemma ExtnameOf(stem: string, ext: string)
    requires '.' !in ext
    ensures Extname(stem + "." + ext) == "." + ext
  {
    var file := stem + "." + ext;
    var k := |stem|;
    assert file[k] == '.';
    forall j | k < j < |file| ensures file[j] != '.' {
      assert file[j] == ext[j - k - 1];
    }
    match LastDot(file)
    case Some(d) =>
      assert d == k;
      assert file[k..] == "." + ext;
    case None =>
      assert false;
  }

  /**
   * A visible name `stem.ext`, with no `.` in `ext`, is classified by
   * `.ext` alone, whatever its letter case and whatever dots `stem` holds.
   */
  lemma KindOfExtension(stem: string, ext: string)
    requires stem != [] && stem[0] != '.' && '.' !in ext
    ensures Text.Lower("." + ext) in VideoExtensions ==> KindOf(stem + "." + ext) == Media(Video)
    ensures Text.Lower("." + ext) in ImageExtensions ==> KindOf(stem + "." + ext) == Media(Image)
    ensures Text.Lower("." + ext) !in VideoExtensions + ImageExtensions ==> KindOf(stem + "." + ext) == Unknown
  {
    var file := stem + "." + ext;
    var e := Text.Lower("." + ext);
    ExtnameOf(stem, ext);
    assert file[0] == stem[0];
    assert Text.Lower(Extname(file)) == e;
    IncludesIsIn(VideoExtensions, e);
    IncludesIsIn(ImageExtensions, e);
  }

  /** A visible name without any `.` has no extension and is an unknown file type. */
  lemma KindOfNoExtension(file: string)
    requires !IsHidden(file) && '.' !in file
    ensures KindOf(file) == Unknown
  {
    var ext := Text.Lower(Extname(file));
    assert |ext| == 0;
    IncludesIsIn(VideoExtensions, ext);
    IncludesIsIn(ImageExtensions, ext);
    assert forall x :: x in VideoExtensions + ImageExtensions ==> |x| > 0;
  }

  /** The item a file name of kind `k` gives: one when `k` is `Media`, none otherwise. */
  function KindItems(roomId: string, dir: string, file: string, k: Kind): (r: seq<MediaItem>)
    ensures |r| <= 1
    ensures forall x :: x in r ==> x.roomId == roomId
  {
    match k
    case Media(t) => [MediaItem(roomId, MediaUrl(dir, file), t)]
    case _ => []
  }

  /** The item a file name gives: one when its kind is `Media`, none otherwise. */
  function FileItems(roomId: string, dir: string, file: string): (r: seq<MediaItem>)
    ensures |r| <= 1
    ensures forall x :: x in r ==> x.roomId == roomId
  {
    KindItems(roomId, dir, file, KindOf(file))
  }

  /** The file names whose kind is `Media`, as the items the sync loops would record. */
  function MediaItems(roomId: string, dir: string, files: seq<string>): (r: seq<MediaItem>)
    ensures |r| <= |files|
    ensures forall x :: x in r ==> x.roomId == roomId
    decreases |files|
  {
    if files == [] then [] else FileItems(roomId, dir, files[0]) + MediaItems(roomId, dir, files[1..])
  }

  /** Every item of a folder carries the folder's room id and a url under the folder's prefix. */
  lemma {:induction false} MediaItemsUnder(roomId: string, dir: string, files: seq<string>)
    ensures forall x :: x in MediaItems(roomId, dir, files) ==> x.roomId == roomId && Text.StartsWith(x.url, DirPrefix(dir))
    decreases |files|
  {
    if files != [] {
      MediaItemsUnder(roomId, dir, files[1..]);
      assert MediaItems(roomId, dir, files) == FileItems(roomId, dir, files[0]) + MediaItems(roomId, dir, files[1..]);
      match KindOf(files[0])
      case Media(t) =>
        assert FileItems(roomId, dir, files[0]) == [MediaItem(roomId, MediaUrl(dir, files[0]), t)];
      case _ =>
        assert FileItems(roomId, dir, files[0]) == [];
    }
  }

  /** A listed name the sync loops act on: a directory whose name is the slug of a room. */
  predicate Matched(rooms: RoomTable, e: Entry) {
    e.listing.Some? && e.name in rooms
  }

  /** The items of one listed name: those of its files when it is matched, none otherwise. */
  function FolderItems(rooms: RoomTable, e: Entry): seq<MediaItem> {
    if Matched(rooms, e) then MediaItems(rooms[e.name].id, e.name, e.listing.value) else []
  }

  /** Every item the sync loops consider, folder after folder. */
  function Candidates(rooms: RoomTable, entries: seq<Entry>): seq<MediaItem>
    decreases |entries|
  {
    if entries == [] then [] else FolderItems(rooms, entries[0]) + Candidates(rooms, entries[1..])
  }

  /** The entries the sync loops act on, in listing order. */
  function MatchedOnly(rooms: RoomTable, entries: seq<Entry>): (r: seq<Entry>)
    ensures forall e :: e in r <==> e in entries && Matched(rooms, e)
    ensures Candidates(rooms, r) == Candidates(rooms, entries)
    decreases |entries|
  {
    if entries == [] then []
    else if Matched(rooms, entries[0]) then [entries[0]] + MatchedOnly(rooms, entries[1..])
    else MatchedOnly(rooms, entries[1..])
  }
}
