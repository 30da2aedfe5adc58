/**
 * `scripts/sync-media.ts`: the command-line variant of the media sync.  It
 * walks the same folders with the same classification, but records each
 * media file with its own `upsert` keyed by url, counting a file as added
 * when the upsert created its row and as skipped otherwise.
 */
module SyncScript {
  import opened Wrappers
  import opened Store
  import opened Files
  import opened Seqs

  datatype ScriptResult = DirectoryMissing | Finished(added: nat, skipped: nat)

  /** The state the loops carry: the store, `totalAdded` and `totalSkipped`. */
  datatype Tally = Tally(media: MediaTable, added: nat, skipped: nat)

  /**
   * The `try` block of one file: the upsert of its item, unless its url is
   * in `failing`, in which case the error is caught and the counters and the
   * store stay as they were.
   */
  function UpsertItem(failing: set<string>, t: Tally, x: MediaItem): Tally {
    if x.url in failing then t
    else
      var u := UpsertByUrl(t.media, x);
      if u.1 then Tally(u.0, t.added + 1, t.skipped) else Tally(u.0, t.added, t.skipped + 1)
  }

  /** One iteration of the file loop for a file classified as `k`: files that are not media are passed over. */
  function UpsertKind(roomId: string, dir: string, failing: set<string>, t: Tally, file: string, k: Kind): Tally {
    match k
    case Media(mt) => UpsertItem(failing, t, MediaItem(roomId, MediaUrl(dir, file), mt))
    case _ => t
  }

  /** One iteration of the file loop. */
  function UpsertFile(roomId: string, dir: string, failing: set<string>, t: Tally, file: string): Tally {
    UpsertKind(roomId, dir, failing, t, file, KindOf(file))
  }

  function UpsertFiles(roomId: string, dir: string, failing: set<string>, t: Tally, files: seq<string>): Tally
    decreases |files|
  {
    if files == [] then t
    else UpsertFiles(roomId, dir, failing, UpsertFile(roomId, dir, failing, t, files[0]), files[1..])
  }

  /** One iteration of the folder loop: a name that is not a matched directory is passed over. */
  function ScriptFolder(rooms: RoomTable, failing: set<string>, t: Tally, e: Entry): Tally {
    if Matched(rooms, e) then UpsertFiles(rooms[e.name].id, e.name, failing, t, e.listing.value) else t
  }

  function ScriptFolders(rooms: RoomTable, failing: set<string>, t: Tally, entries: seq<Entry>): Tally
    decreases |entries|
  {
    if entries == [] then t
    else ScriptFolders(rooms, failing, ScriptFolder(rooms, failing, t, entries[0]), entries[1..])
  }

  datatype ScriptOutcome = ScriptOutcome(result: ScriptResult, media: MediaTable)

  /** The whole script on values: a missing root directory ends it with the store untouched. */
  function SyncMediaRun(rooms: RoomTable, media: MediaTable, root: MediaRoot, failing: set<string>): ScriptOutcome {
    match root
    case None => ScriptOutcome(DirectoryMissing, media)
    case Some(entries) =>
      var t := ScriptFolders(rooms, failing, Tally(media, 0, 0), entries);
      ScriptOutcome(Finished(t.added, t.skipped), t.media)
  }

  /**
   * One upsert is the batch insert of its item, unless its url fails; it
   * moves exactly one of the two counters.
   */
  lemma UpsertItemStep(failing: set<string>, t: Tally, x: MediaItem)
    ensures var u := Unrecorded([x], failing);
      var ins := InsertMany(t.media, u);
      var t1 := UpsertItem(failing, t, x);
      && t1.media == ins.0 && t1.added == t.added + ins.1 && t1.skipped + ins.1 == t.skipped + |u|
  {
    assert [x][1..] == [];
    if x.url !in failing {
      var step := UpsertByUrl(t.media, x);
      assert InsertMany(t.media, [x]) == (step.0, if step.1 then 1 else 0);
    }
  }

  /** The same for a file of kind `k`: hidden and unknown files have no item and change nothing. */
  lemma UpsertKindStep(roomId: string, dir: string, failing: set<string>, t: Tally, file: string, k: Kind)
    ensures var u := Unrecorded(KindItems(roomId, dir, file, k), failing);
      var ins := InsertMany(t.media, u);
      var t1 := UpsertKind(roomId, dir, failing, t, file, k);
      && t1.media == ins.0 && t1.added == t.added + ins.1 && t1.skipped + ins.1 == t.skipped + |u|
  {
    match k
    case Media(mt) =>
      var x := MediaItem(roomId, MediaUrl(dir, file), mt);
      assert KindItems(roomId, dir, file, k) == [x];
      UpsertItemStep(failing, t, x);
    case Hidden =>
      assert KindItems(roomId, dir, file, k) == [];
    case Unknown =>
      assert KindItems(roomId, dir, file, k) == [];
  }

  /** The same for one file. */
  lemma UpsertFileStep(roomId: string, dir: string, failing: set<string>, t: Tally, file: string)
    ensures var u := Unrecorded(FileItems(roomId, dir, file), failing);
      var ins := InsertMany(t.media, u);
      var t1 := UpsertFile(roomId, dir, failing, t, file);
      && t1.media == ins.0 && t1.added == t.added + ins.1 && t1.skipped + ins.1 == t.skipped + |u|
  {
    UpsertKindStep(roomId, dir, failing, t, file, KindOf(file));
  }

  /**
   * The file loop of a folder is the batch insert of its media items whose
   * upsert does not fail; every such item is counted once, as added or as
   * skipped.
   */
  lemma {:induction false} UpsertFilesIsInsertMany(roomId: string, dir: string, failing: set<string>, t: Tally, files: seq<string>)
    ensures var u := Unrecorded(MediaItems(roomId, dir, files), failing);
      var ins := InsertMany(t.media, u);
      var t1 := UpsertFiles(roomId, dir, failing, t, files);
      && t1.media == ins.0 && t1.added == t.added + ins.1 && t1.skipped + ins.1 == t.skipped + |u|
    decreases |files|
  {
    if files != [] {
      var t1 := UpsertFile(roomId, dir, failing, t, files[0]);
      UpsertFileStep(roomId, dir, failing, t, files[0]);
      UpsertFilesIsInsertMany(roomId, dir, failing, t1, files[1..]);
      var head := FileItems(roomId, dir, files[0]);
      var rest := MediaItems(roomId, dir, files[1..]);
      assert MediaItems(roomId, dir, files) == head + rest;
      UnrecordedAppend(head, rest, failing);
      InsertManyAppend(t.media, Unrecorded(head, failing), Unrecorded(rest, failing));
    }
  }

  /** The folder loop is the batch insert of every non-failing candidate, in listing order. */
  lemma {:induction false} ScriptFoldersIsInsertMany(rooms: RoomTable, failing: set<string>, t: Tally, entries: seq<Entry>)
    ensures var u := Unrecorded(Candidates(rooms, entries), failing);
      var ins := InsertMany(t.media, u);
      var t1 := ScriptFolders(rooms, failing, t, entries);
      && t1.media == ins.0 && t1.added == t.added + ins.1 && t1.skipped + ins.1 == t.skipped + |u|
    decreases |entries|
  {
    if entries != [] {
      var e := entries[0];
      var t1 := ScriptFolder(rooms, failing, t, e);
      if Matched(rooms, e) {
        UpsertFilesIsInsertMany(rooms[e.name].id, e.name, failing, t, e.listing.value);
      }
      ScriptFoldersIsInsertMany(rooms, failing, t1, entries[1..]);
      var head := FolderItems(rooms, e);
      var rest := Candidates(rooms, entries[1..]);
      UnrecordedAppend(head, rest, failing);
      InsertManyAppend(t.media, Unrecorded(head, failing), Unrecorded(rest, failing));
    }
  }

  /**
   * The script as a whole: the store it leaves is the old one with every
   * non-failing candidate inserted by url; `added` is the number of rows it
   * created, `added + skipped` the number of non-failing candidates.  A
   * missing root directory changes nothing.
   */
  lemma SyncMediaCounts(rooms: RoomTable, media: MediaTable, root: MediaRoot, failing: set<string>)
    ensures root.None? ==> SyncMediaRun(rooms, media, root, failing) == ScriptOutcome(DirectoryMissing, media)
    ensures Extends(media, SyncMediaRun(rooms, media, root, failing).media)
    ensures root.Some? ==> var o := SyncMediaRun(rooms, media, root, failing);
      var u := Unrecorded(Candidates(rooms, root.value), failing);
      && o.result.Finished?
      && o.media == InsertMany(media, u).0
      && o.media.Keys == media.Keys + ItemUrls(u)
      && o.result.added + |media| == |o.media|
      && o.result.added + o.result.skipped == |u|
  {
    if root.Some? {
      var u := Unrecorded(Candidates(rooms, root.value), failing);
      ScriptFoldersIsInsertMany(rooms, failing, Tally(media, 0, 0), root.value);
      InsertManyKeeps(media, u);
      InsertManyKeys(media, u);
    }
  }

  lemma {:induction false} ScriptFoldersMatchedOnly(rooms: RoomTable, failing: set<string>, t: Tally, entries: seq<Entry>)
    ensures ScriptFolders(rooms, failing, t, MatchedOnly(rooms, entries)) == ScriptFolders(rooms, failing, t, entries)
    decreases |entries|
  {
    if entries != [] {
      var e := entries[0];
      if Matched(rooms, e) {
        ScriptFoldersMatchedOnly(rooms, failing, ScriptFolder(rooms, failing, t, e), entries[1..]);
        var m := [e] + MatchedOnly(rooms, entries[1..]);
        assert m[0] == e;
        assert m[1..] == MatchedOnly(rooms, entries[1..]);
      } else {
        ScriptFoldersMatchedOnly(rooms, failing, t, entries[1..]);
      }
    }
  }

  /** Folders without a room and names that are not directories make no difference at all. */
  lemma SyncMediaIgnoresUnmatched(rooms: RoomTable, media: MediaTable, entries: seq<Entry>, failing: set<string>)
    ensures SyncMediaRun(rooms, media, Some(MatchedOnly(rooms, entries)), failing)
         == SyncMediaRun(rooms, media, Some(entries), failing)
  {
    ScriptFoldersMatchedOnly(rooms, failing, Tally(media, 0, 0), entries);
  }

  /**
   * A second run over the same folders adds nothing and leaves the store as
   * the first left it, provided no upsert of the first failed.
   */
  lemma SyncMediaIdempotent(rooms: RoomTable, media: MediaTable, entries: seq<Entry>, failing1: set<string>, failing2: set<string>)
    requires forall x :: x in Candidates(rooms, entries) ==> x.url !in failing1
    ensures var first := SyncMediaRun(rooms, media, Some(entries), failing1);
      var second := SyncMediaRun(rooms, first.media, Some(entries), failing2);
      second.result.added == 0 && second.media == first.media
  {
    var c := Candidates(rooms, entries);
    var first := SyncMediaRun(rooms, media, Some(entries), failing1);
    UnrecordedNone(c, failing1);
    SyncMediaCounts(rooms, media, Some(entries), failing1);
    assert first.media.Keys == media.Keys + ItemUrls(c);
    var u2 := Unrecorded(c, failing2);
    ItemUrlsMembers(c);
    ItemUrlsMembers(u2);
    UnrecordedMembers(c, failing2);
    assert ItemUrls(u2) <= first.media.Keys;
    InsertManyAllPresent(first.media, u2);
    ScriptFoldersIsInsertMany(rooms, failing2, Tally(first.media, 0, 0), entries);
  }

  // ---------------------------------------------------------------------
  // The script

  /** One iteration of the file loop; an early return is the loop's `continue`. */
  method SyncFile(db: Database, roomId: string, dir: string, file: string, failing: set<string>, added: nat, skipped: nat)
    returns (totalAdded: nat, totalSkipped: nat)
    requires db.Valid() && HasRoomId(db.rooms, roomId)
    modifies db
    ensures db.Valid() && db.rooms == old(db.rooms)
    ensures Tally(db.media, totalAdded, totalSkipped) == UpsertFile(roomId, dir, failing, Tally(old(db.media), added, skipped), file)
  {
    totalAdded, totalSkipped := added, skipped;
    var kind := Classify(file);
    if !kind.Media? {
      return;
    }
    var t := kind.mediaType;
    var url := MediaUrl(dir, file);
    if url in failing {
      return;
    }
    var item := MediaItem(roomId, url, t);
    ghost var u := UpsertByUrl(db.media, item);
    var created := db.Upsert(item);
    assert db.media == u.0 && created == u.1;
    if created {
      totalAdded := totalAdded + 1;
    } else {
      totalSkipped := totalSkipped + 1;
    }
  }

  /** The file loop of one matched folder. */
  method SyncFolderFiles(db: Database, roomId: string, dir: string, files: seq<string>, failing: set<string>, added: nat, skipped: nat)
    returns (totalAdded: nat, totalSkipped: nat)
    requires db.Valid() && HasRoomId(db.rooms, roomId)
    modifies db
    ensures db.Valid() && db.rooms == old(db.rooms)
    ensures Tally(db.media, totalAdded, totalSkipped) == UpsertFiles(roomId, dir, failing, Tally(old(db.media), added, skipped), files)
  {
    totalAdded, totalSkipped := added, skipped;
    for j := 0 to |files|
      invariant db.Valid() && db.rooms == old(db.rooms)
      invariant UpsertFiles(roomId, dir, failing, Tally(db.media, totalAdded, totalSkipped), files[j..])
             == UpsertFiles(roomId, dir, failing, Tally(old(db.media), added, skipped), files)
    {
      DropTail(files, j);
      totalAdded, totalSkipped := SyncFile(db, roomId, dir, files[j], failing, totalAdded, totalSkipped);
    }
  }

  /**
   * `syncMedia`.  `failing` names the urls whose upsert throws.  The result
   * and the new Media table are those of `SyncMediaRun`.
   */
  method SyncMedia(db: Database, root: MediaRoot, failing: set<string>) returns (result: ScriptResult)
    requires db.Valid()
    modifies db
    ensures db.Valid() && db.rooms == old(db.rooms)
    ensures ScriptOutcome(result, db.media) == SyncMediaRun(old(db.rooms), old(db.media), root, failing)
  {
    if root.None? {
      return DirectoryMissing;
    }
    var dirs := root.value;
    var totalAdded, totalSkipped := 0, 0;
    ghost var start := Tally(db.media, 0, 0);
    for i := 0 to |dirs|
      invariant db.Valid() && db.rooms == old(db.rooms)
      invariant ScriptFolders(db.rooms, failing, Tally(db.media, totalAdded, totalSkipped), dirs[i..])
             == ScriptFolders(db.rooms, failing, start, dirs)
    {
      var dirName := dirs[i].name;
      DropTail(dirs, i);
      if dirs[i].listing.None? {
        continue;
      }
      var room := db.FindRoomBySlug(dirName);
      if room.None? {
        continue;
      }
      assert HasRoomId(db.rooms, room.value.id) by {
        assert db.rooms[dirName].id == room.value.id;
      }
      totalAdded, totalSkipped := SyncFolderFiles(db, room.value.id, dirName, dirs[i].listing.value, failing, totalAdded, totalSkipped);
    }
    result := Finished(totalAdded, totalSkipped);
  }
}
