/**
 * The two sync variants side by side.  When nothing fails, the route's
 * prefiltered `createMany` and the script's per-file `upsert` leave the same
 * Media table and report the same number of added rows; the route counts
 * as skipped only the files its room already records, so its `skipped`
 * never exceeds the script's.
 */
module SyncAgreement {
  import opened Wrappers
  import opened Store
  import opened Files
  import SyncRoute
  import SyncScript

  /**
   * Without a failing batch, one folder of the route inserts exactly what a
   * batch insert of all the folder's media items would: the prefilter only
   * drops urls already present.
   */
  lemma RouteFolderIsInsertMany(rooms: RoomTable, failing: set<string>, r: SyncRoute.Run, e: Entry)
    requires e.name !in failing
    ensures SyncRoute.SyncFolder(rooms, failing, r, e).media == InsertMany(r.media, FolderItems(rooms, e)).0
    ensures SyncRoute.SyncFolder(rooms, failing, r, e).added == r.added + InsertMany(r.media, FolderItems(rooms, e)).1
  {
    if Matched(rooms, e) {
      SyncRoute.FolderQueue(rooms, r, e);
      var id := rooms[e.name].id;
      var existing := UrlsWithPrefix(r.media, id, DirPrefix(e.name));
      InsertManySkipsKnown(r.media, FolderItems(rooms, e), existing);
    }
  }

  lemma {:induction false} RouteFoldersIsInsertMany(rooms: RoomTable, failing: set<string>, r: SyncRoute.Run, entries: seq<Entry>)
    requires forall i :: 0 <= i < |entries| ==> entries[i].name !in failing
    ensures SyncRoute.SyncFolders(rooms, failing, r, entries).media == InsertMany(r.media, Candidates(rooms, entries)).0
    ensures SyncRoute.SyncFolders(rooms, failing, r, entries).added == r.added + InsertMany(r.media, Candidates(rooms, entries)).1
    decreases |entries|
  {
    if entries != [] {
      var r1 := SyncRoute.SyncFolder(rooms, failing, r, entries[0]);
      RouteFolderIsInsertMany(rooms, failing, r, entries[0]);
      RouteFoldersIsInsertMany(rooms, failing, r1, entries[1..]);
      InsertManyAppend(r.media, FolderItems(rooms, entries[0]), Candidates(rooms, entries[1..]));
    }
  }

  /**
   * With no failing batch and no failing upsert, the route and the script
   * leave the same store and report the same `added`; the route's `skipped`
   * is at most the script's.
   */
  lemma RouteAndScriptAgree(rooms: RoomTable, media: MediaTable, entries: seq<Entry>)
    ensures var route := SyncRoute.Sync(rooms, media, Some(entries), {});
      var script := SyncScript.SyncMediaRun(rooms, media, Some(entries), {});
      && route.media == script.media
      && route.response.added == script.result.added
      && route.response.skipped <= script.result.skipped
  {
    var c := Candidates(rooms, entries);
    RouteFoldersIsInsertMany(rooms, {}, SyncRoute.Run(media, 0, 0, [SyncRoute.FoundFolders(|entries|)]), entries);
    SyncRoute.SyncCounts(rooms, media, Some(entries), {});
    UnrecordedNone(c, {});
    SyncScript.SyncMediaCounts(rooms, media, Some(entries), {});
    SyncScript.ScriptFoldersIsInsertMany(rooms, {}, SyncScript.Tally(media, 0, 0), entries);
  }
}
