/**
 * `POST /api/admin/sync-media`: reconcile the folders of `public/memories`
 * with the Media table.  For each folder named after a room's slug, every
 * file of a known media type whose url the room does not yet record is
 * queued, and the queue goes to one `createMany` with `skipDuplicates`.
 *
 * `ScanFiles` (one folder's file loop) and `SyncFolders` (the folder loop)
 * are left folds giving the meaning of the two loops of `Post`; the lemmas
 * state what a run does to the store and to its counters.
 */
module SyncRoute {
  import opened Wrappers
  import opened Store
  import opened Files
  import opened Seqs

  /** The lines of `logs`, tagged; the message text is not modelled. */
  datatype LogEntry =
    | FoundFolders(count: nat)
    | RoomNotFound(dir: string)
    | RoomFound(dir: string, roomId: string)
    | UnknownFileType(file: string)
    | PreparedToAdd(file: string)
    | BatchInserted(count: nat)
    | BatchFailed(dir: string)
    | NothingToInsert

  datatype Response = NotFound | Complete(added: nat, skipped: nat, logs: seq<LogEntry>)

  function Status(r: Response): int {
    if r.NotFound? then 404 else 200
  }

  /** The state of one folder's file loop: `newMediaItems`, `totalSkipped` and `logs`. */
  datatype Scan = Scan(queue: seq<MediaItem>, skipped: nat, logs: seq<LogEntry>)

  /** The media file `file`, whose item is `x`: queued when its url is new, counted as skipped otherwise. */
  function ScanItem(existing: set<string>, acc: Scan, file: string, x: MediaItem): Scan {
    if x.url in existing then acc.(skipped := acc.skipped + 1)
    else acc.(queue := acc.queue + [x], logs := acc.logs + [PreparedToAdd(file)])
  }

  /** One iteration of the file loop, for a file already classified as `k`. */
  function ScanKind(roomId: string, dir: string, existing: set<string>, acc: Scan, file: string, k: Kind): Scan {
    match k
    case Hidden => acc
    case Unknown => acc.(logs := acc.logs + [UnknownFileType(file)])
    case Media(t) => ScanItem(existing, acc, file, MediaItem(roomId, MediaUrl(dir, file), t))
  }

  /** One iteration of the file loop. */
  function ScanFile(roomId: string, dir: string, existing: set<string>, acc: Scan, file: string): Scan {
    ScanKind(roomId, dir, existing, acc, file, KindOf(file))
  }

  /** An item is queued exactly when its url is not among the existing ones, and skipped otherwise. */
  lemma ScanItemAccounting(existing: set<string>, acc: Scan, file: string, x: MediaItem)
    ensures ScanItem(existing, acc, file, x).queue == acc.queue + Unrecorded([x], existing)
    ensures ScanItem(existing, acc, file, x).skipped + |Unrecorded([x], existing)| == acc.skipped + 1
  {
    assert [x][1..] == [];
  }

  function ScanFiles(roomId: string, dir: string, existing: set<string>, acc: Scan, files: seq<string>): Scan
    decreases |files|
  {
    if files == [] then acc
    else ScanFiles(roomId, dir, existing, ScanFile(roomId, dir, existing, acc, files[0]), files[1..])
  }

  /** A file of kind `k` is queued when `k` is `Media` and its url is new, and counted as skipped when its url exists. */
  lemma ScanKindAccounting(roomId: string, dir: string, existing: set<string>, acc: Scan, file: string, k: Kind)
    ensures ScanKind(roomId, dir, existing, acc, file, k).queue
         == acc.queue + Unrecorded(KindItems(roomId, dir, file, k), existing)
    ensures ScanKind(roomId, dir, existing, acc, file, k).skipped + |Unrecorded(KindItems(roomId, dir, file, k), existing)|
         == acc.skipped + |KindItems(roomId, dir, file, k)|
  {
    match k
    case Media(t) =>
      var x := MediaItem(roomId, MediaUrl(dir, file), t);
      assert KindItems(roomId, dir, file, k) == [x];
      ScanItemAccounting(existing, acc, file, x);
    case Hidden =>
      assert KindItems(roomId, dir, file, k) == [];
    case Unknown =>
      assert KindItems(roomId, dir, file, k) == [];
  }

  /** One file is queued when it is a media file with a new url, and counted as skipped when its url exists. */
  lemma ScanFileAccounting(roomId: string, dir: string, existing: set<string>, acc: Scan, file: string)
    ensures ScanFile(roomId, dir, existing, acc, file).queue
         == acc.queue + Unrecorded(FileItems(roomId, dir, file), existing)
    ensures ScanFile(roomId, dir, existing, acc, file).skipped + |Unrecorded(FileItems(roomId, dir, file), existing)|
         == acc.skipped + |FileItems(roomId, dir, file)|
  {
    ScanKindAccounting(roomId, dir, existing, acc, file, KindOf(file));
  }

  /**
   * The file loop queues exactly the media items of the folder whose url is
   * not among the existing ones, in listing order, and counts every other
   * media item as skipped: each classified file is either queued or skipped.
   */
  lemma {:induction false} ScanAccounting(roomId: string, dir: string, existing: set<string>, acc: Scan, files: seq<string>)
    ensures ScanFiles(roomId, dir, existing, acc, files).queue
         == acc.queue + Unrecorded(MediaItems(roomId, dir, files), existing)
    ensures ScanFiles(roomId, dir, existing, acc, files).skipped + |Unrecorded(MediaItems(roomId, dir, files), existing)|
         == acc.skipped + |MediaItems(roomId, dir, files)|
    decreases |files|
  {
    if files != [] {
      var acc1 := ScanFile(roomId, dir, existing, acc, files[0]);
      ScanFileAccounting(roomId, dir, existing, acc, files[0]);
      ScanAccounting(roomId, dir, existing, acc1, files[1..]);
      var head := FileItems(roomId, dir, files[0]);
      var rest := MediaItems(roomId, dir, files[1..]);
      assert ScanFiles(roomId, dir, existing, acc, files) == ScanFiles(roomId, dir, existing, acc1, files[1..]);
      assert MediaItems(roomId, dir, files) == head + rest;
      UnrecordedAppend(head, rest, existing);
      var uh, ur := Unrecorded(head, existing), Unrecorded(rest, existing);
      AppendAssoc(acc.queue, uh, ur);
    }
  }

  /** The names the file loop does not skip at once: those not starting with `.`. */
  function Visible(files: seq<string>): (r: seq<string>)
    ensures forall f :: f in r <==> f in files && !IsHidden(f)
  {
    if files == [] then []
    else if IsHidden(files[0]) then Visible(files[1..])
    else [files[0]] + Visible(files[1..])
  }

  /** Hidden files play no part: the loop over the visible names alone ends in the same state. */
  lemma {:induction false} HiddenFilesIgnored(roomId: string, dir: string, existing: set<string>, acc: Scan, files: seq<string>)
    ensures ScanFiles(roomId, dir, existing, acc, Visible(files)) == ScanFiles(roomId, dir, existing, acc, files)
    decreases |files|
  {
    if files != [] {
      var acc1 := ScanFile(roomId, dir, existing, acc, files[0]);
      if IsHidden(files[0]) {
        HiddenFilesIgnored(roomId, dir, existing, acc, files[1..]);
      } else {
        HiddenFilesIgnored(roomId, dir, existing, acc1, files[1..]);
        var v := [files[0]] + Visible(files[1..]);
        assert v[0] == files[0];
        assert v[1..] == Visible(files[1..]);
      }
    }
  }

  /** The file loop only appends to the log, and every file of unknown type is logged. */
  lemma {:induction false} ScanLogs(roomId: string, dir: string, existing: set<string>, acc: Scan, files: seq<string>)
    ensures acc.logs <= ScanFiles(roomId, dir, existing, acc, files).logs
    ensures forall f :: f in files && KindOf(f) == Unknown ==> UnknownFileType(f) in ScanFiles(roomId, dir, existing, acc, files).logs
    decreases |files|
  {
    if files != [] {
      var file := files[0];
      var acc1 := ScanFile(roomId, dir, existing, acc, file);
      ScanLogs(roomId, dir, existing, acc1, files[1..]);
      var final := ScanFiles(roomId, dir, existing, acc, files).logs;
      assert final == ScanFiles(roomId, dir, existing, acc1, files[1..]).logs;
      ConsSplit(files);
      match KindOf(file)
      case Unknown =>
        assert acc1 == acc.(logs := acc.logs + [UnknownFileType(file)]);
        assert final[|acc1.logs| - 1] == acc1.logs[|acc1.logs| - 1];
      case Hidden =>
        assert acc1 == acc;
      case Media(t) =>
        assert acc1 == ScanItem(existing, acc, file, MediaItem(roomId, MediaUrl(dir, file), t));
    }
  }

  /** Every media file whose url is not among the existing ones is logged as prepared to add. */
  lemma {:induction false} ScanLogsQueued(roomId: string, dir: string, existing: set<string>, acc: Scan, files: seq<string>)
    ensures forall f :: f in files && KindOf(f).Media? && MediaUrl(dir, f) !in existing
              ==> PreparedToAdd(f) in ScanFiles(roomId, dir, existing, acc, files).logs
    decreases |files|
  {
    if files != [] {
      var file := files[0];
      var acc1 := ScanFile(roomId, dir, existing, acc, file);
      ScanLogs(roomId, dir, existing, acc1, files[1..]);
      ScanLogsQueued(roomId, dir, existing, acc1, files[1..]);
      var final := ScanFiles(roomId, dir, existing, acc, files).logs;
      assert final == ScanFiles(roomId, dir, existing, acc1, files[1..]).logs;
      ConsSplit(files);
      match KindOf(file)
      case Media(t) =>
        if MediaUrl(dir, file) !in existing {
          assert acc1 == ScanItem(existing, acc, file, MediaItem(roomId, MediaUrl(dir, file), t));
          assert acc1.logs[|acc1.logs| - 1] == PreparedToAdd(file);
          assert final[|acc1.logs| - 1] == acc1.logs[|acc1.logs| - 1];
        }
      case _ =>
    }
  }

  /** What a file of kind `k` does to the queue and the skip count does not depend on the log. */
  lemma ScanKindIgnoresLogs(roomId: string, dir: string, existing: set<string>, acc: Scan, logs: seq<LogEntry>, file: string, k: Kind)
    ensures var a2 := ScanKind(roomId, dir, existing, acc.(logs := logs), file, k);
      ScanKind(roomId, dir, existing, acc, file, k).(logs := a2.logs) == a2
  {
  }

  /** What one file does to the queue and the skip count does not depend on the log. */
  lemma ScanFileIgnoresLogs(roomId: string, dir: string, existing: set<string>, acc: Scan, logs: seq<LogEntry>, file: string)
    ensures var a2 := ScanFile(roomId, dir, existing, acc.(logs := logs), file);
      ScanFile(roomId, dir, existing, acc, file).(logs := a2.logs) == a2
  {
    ScanKindIgnoresLogs(roomId, dir, existing, acc, logs, file, KindOf(file));
  }

  /** What the file loop does to the queue and the skip count does not depend on the log. */
  lemma {:induction false} ScanIgnoresLogs(roomId: string, dir: string, existing: set<string>, acc: Scan, logs: seq<LogEntry>, files: seq<string>)
    ensures var s1 := ScanFiles(roomId, dir, existing, acc, files);
      var s2 := ScanFiles(roomId, dir, existing, acc.(logs := logs), files);
      s1.queue == s2.queue && s1.skipped == s2.skipped
    decreases |files|
  {
    if files != [] {
      var a1 := ScanFile(roomId, dir, existing, acc, files[0]);
      var a2 := ScanFile(roomId, dir, existing, acc.(logs := logs), files[0]);
      ScanFileIgnoresLogs(roomId, dir, existing, acc, logs, files[0]);
      ScanIgnoresLogs(roomId, dir, existing, a1, a2.logs, files[1..]);
      assert ScanFiles(roomId, dir, existing, acc, files) == ScanFiles(roomId, dir, existing, a1, files[1..]);
      assert ScanFiles(roomId, dir, existing, acc.(logs := logs), files) == ScanFiles(roomId, dir, existing, a1.(logs := a2.logs), files[1..]);
    }
  }

  /** A file of kind `k` queues at most an item of the folder's room. */
  lemma ScanKindRoom(roomId: string, dir: string, existing: set<string>, acc: Scan, file: string, k: Kind)
    requires forall i :: 0 <= i < |acc.queue| ==> acc.queue[i].roomId == roomId
    ensures var q := ScanKind(roomId, dir, existing, acc, file, k).queue;
      forall i :: 0 <= i < |q| ==> q[i].roomId == roomId
  {
    match k
    case Media(t) =>
      var url := MediaUrl(dir, file);
      if url !in existing {
        var q := acc.queue + [MediaItem(roomId, url, t)];
        assert ScanKind(roomId, dir, existing, acc, file, k).queue == q;
        forall i | 0 <= i < |q| ensures q[i].roomId == roomId {
          if i < |acc.queue| {
            assert q[i] == acc.queue[i];
          }
        }
      }
    case _ =>
  }

  /** One file queues at most an item of the folder's room. */
  lemma ScanFileRoom(roomId: string, dir: string, existing: set<string>, acc: Scan, file: string)
    requires forall i :: 0 <= i < |acc.queue| ==> acc.queue[i].roomId == roomId
    ensures var q := ScanFile(roomId, dir, existing, acc, file).queue;
      forall i :: 0 <= i < |q| ==> q[i].roomId == roomId
  {
    ScanKindRoom(roomId, dir, existing, acc, file, KindOf(file));
  }

  /** Every item the file loop queues carries the folder's room id. */
  lemma {:induction false} ScanQueueRoom(roomId: string, dir: string, existing: set<string>, acc: Scan, files: seq<string>)
    requires forall i :: 0 <= i < |acc.queue| ==> acc.queue[i].roomId == roomId
    ensures var q := ScanFiles(roomId, dir, existing, acc, files).queue;
      forall i :: 0 <= i < |q| ==> q[i].roomId == roomId
    decreases |files|
  {
    if files != [] {
      var acc1 := ScanFile(roomId, dir, existing, acc, files[0]);
      ScanFileRoom(roomId, dir, existing, acc, files[0]);
      ScanQueueRoom(roomId, dir, existing, acc1, files[1..]);
      assert ScanFiles(roomId, dir, existing, acc, files) == ScanFiles(roomId, dir, existing, acc1, files[1..]);
    }
  }

  /** The state the folder loop carries: the store, `totalAdded`, `totalSkipped` and `logs`. */
  datatype Run = Run(media: MediaTable, added: nat, skipped: nat, logs: seq<LogEntry>)

  /** What a run says about the store and its counters, leaving the log aside. */
  function Totals(r: Run): (MediaTable, nat, nat) {
    (r.media, r.added, r.skipped)
  }

  /**
   * One iteration of the folder loop.  A listed name that is not a directory
   * is passed over; a folder without a room is logged and passed over; a
   * batch whose insert fails (its folder is in `failing`) is logged and
   * leaves the store and `totalAdded` as they were.
   */
  function SyncFolder(rooms: RoomTable, failing: set<string>, r: Run, e: Entry): Run {
    if e.listing.None? then r
    else if e.name !in rooms then r.(logs := r.logs + [RoomNotFound(e.name)])
    else
      var id := rooms[e.name].id;
      var existing := UrlsWithPrefix(r.media, id, DirPrefix(e.name));
      var s := ScanFiles(id, e.name, existing, Scan([], r.skipped, r.logs + [RoomFound(e.name, id)]), e.listing.value);
      InsertQueue(failing, r, e.name, s)
  }

  /**
   * The end of a matched folder's iteration: an empty queue is logged, a
   * failing batch is logged and changes nothing else, and otherwise the
   * queue is inserted and its count added to `totalAdded`.
   */
  function InsertQueue(failing: set<string>, r: Run, dir: string, s: Scan): Run {
    if s.queue == [] then Run(r.media, r.added, s.skipped, s.logs + [NothingToInsert])
    else if dir in failing then Run(r.media, r.added, s.skipped, s.logs + [BatchFailed(dir)])
    else
      var ins := InsertMany(r.media, s.queue);
      Run(ins.0, r.added + ins.1, s.skipped, s.logs + [BatchInserted(ins.1)])
  }

  function SyncFolders(rooms: RoomTable, failing: set<string>, r: Run, entries: seq<Entry>): Run
    decreases |entries|
  {
    if entries == [] then r
    else SyncFolders(rooms, failing, SyncFolder(rooms, failing, r, entries[0]), entries[1..])
  }

  /** The result of a run and the Media table it leaves behind. */
  datatype Outcome = Outcome(response: Response, media: MediaTable)

  /** The whole handler on values: a missing root is a 404 that touches nothing. */
  function Sync(rooms: RoomTable, media: MediaTable, root: MediaRoot, failing: set<string>): Outcome {
    match root
    case None => Outcome(NotFound, media)
    case Some(entries) =>
      var r := SyncFolders(rooms, failing, Run(media, 0, 0, [FoundFolders(|entries|)]), entries);
      Outcome(Complete(r.added, r.skipped, r.logs), r.media)
  }

  // ---------------------------------------------------------------------
  // One folder

  /** The queue of a matched folder: its media items whose url is not yet recorded for the room. */
  lemma FolderQueue(rooms: RoomTable, r: Run, e: Entry)
    requires Matched(rooms, e)
    ensures var id := rooms[e.name].id;
      var s := ScanFiles(id, e.name, UrlsWithPrefix(r.media, id, DirPrefix(e.name)), Scan([], r.skipped, r.logs + [RoomFound(e.name, id)]), e.listing.value);
      && s.queue == Unrecorded(FolderItems(rooms, e), UrlsWithPrefix(r.media, id, DirPrefix(e.name)))
      && s.skipped + |s.queue| == r.skipped + |FolderItems(rooms, e)|
  {
    var id := rooms[e.name].id;
    ScanAccounting(id, e.name, UrlsWithPrefix(r.media, id, DirPrefix(e.name)), Scan([], r.skipped, r.logs + [RoomFound(e.name, id)]), e.listing.value);
  }

  /**
   * A folder keeps every row, adds to `totalAdded` exactly the rows it
   * inserts, and adds to the two counters together at most its number of
   * media items.
   */
  lemma SyncFolderCounts(rooms: RoomTable, failing: set<string>, r: Run, e: Entry)
    ensures Extends(r.media, SyncFolder(rooms, failing, r, e).media)
    ensures SyncFolder(rooms, failing, r, e).added + |r.media| == r.added + |SyncFolder(rooms, failing, r, e).media|
    ensures SyncFolder(rooms, failing, r, e).added + SyncFolder(rooms, failing, r, e).skipped
         <= r.added + r.skipped + |FolderItems(rooms, e)|
  {
    if Matched(rooms, e) {
      FolderQueue(rooms, r, e);
      var id := rooms[e.name].id;
      var s := ScanFiles(id, e.name, UrlsWithPrefix(r.media, id, DirPrefix(e.name)), Scan([], r.skipped, r.logs + [RoomFound(e.name, id)]), e.listing.value);
      assert SyncFolder(rooms, failing, r, e) == InsertQueue(failing, r, e.name, s);
      InsertQueueCounts(failing, r, e.name, s);
    }
  }

  /**
   * The batch step keeps every row, adds to `totalAdded` exactly the rows it
   * inserts, and inserts at most the queue.
   */
  lemma InsertQueueCounts(failing: set<string>, r: Run, dir: string, s: Scan)
    ensures Extends(r.media, InsertQueue(failing, r, dir, s).media)
    ensures InsertQueue(failing, r, dir, s).added + |r.media| == r.added + |InsertQueue(failing, r, dir, s).media|
    ensures InsertQueue(failing, r, dir, s).added + InsertQueue(failing, r, dir, s).skipped <= r.added + s.skipped + |s.queue|
  {
    InsertManyKeeps(r.media, s.queue);
  }

  /** Without a failing batch, a folder leaves every one of its media items' urls in the table. */
  lemma SyncFolderCovers(rooms: RoomTable, failing: set<string>, r: Run, e: Entry)
    requires e.name !in failing
    ensures forall x :: x in FolderItems(rooms, e) ==> x.url in SyncFolder(rooms, failing, r, e).media
  {
    if Matched(rooms, e) {
      FolderQueue(rooms, r, e);
      var id := rooms[e.name].id;
      var existing := UrlsWithPrefix(r.media, id, DirPrefix(e.name));
      var s := ScanFiles(id, e.name, existing, Scan([], r.skipped, r.logs + [RoomFound(e.name, id)]), e.listing.value);
      assert SyncFolder(rooms, failing, r, e) == InsertQueue(failing, r, e.name, s);
      var after := SyncFolder(rooms, failing, r, e).media;
      InsertManyKeys(r.media, s.queue);
      InsertManyKeeps(r.media, s.queue);
      ItemUrlsMembers(s.queue);
      UnrecordedMembers(FolderItems(rooms, e), existing);
      forall x | x in FolderItems(rooms, e) ensures x.url in after {
        if x.url !in existing {
          assert x in s.queue;
        }
      }
    }
  }

  /** A folder whose media items are all recorded already changes neither the store nor `totalAdded`. */
  lemma SyncFolderStable(rooms: RoomTable, failing: set<string>, r: Run, e: Entry)
    requires forall x :: x in FolderItems(rooms, e) ==> x.url in r.media
    ensures SyncFolder(rooms, failing, r, e).media == r.media
    ensures SyncFolder(rooms, failing, r, e).added == r.added
  {
    if Matched(rooms, e) {
      FolderQueue(rooms, r, e);
      var id := rooms[e.name].id;
      var existing := UrlsWithPrefix(r.media, id, DirPrefix(e.name));
      var s := ScanFiles(id, e.name, existing, Scan([], r.skipped, r.logs + [RoomFound(e.name, id)]), e.listing.value);
      assert SyncFolder(rooms, failing, r, e) == InsertQueue(failing, r, e.name, s);
      ItemUrlsMembers(s.queue);
      UnrecordedMembers(FolderItems(rooms, e), existing);
      InsertManyAllPresent(r.media, s.queue);
    }
  }

  /** What a folder does to the store and the counters does not depend on the log so far. */
  lemma SyncFolderTotals(rooms: RoomTable, failing: set<string>, r: Run, logs: seq<LogEntry>, e: Entry)
    ensures Totals(SyncFolder(rooms, failing, r.(logs := logs), e)) == Totals(SyncFolder(rooms, failing, r, e))
  {
    if Matched(rooms, e) {
      var id := rooms[e.name].id;
      var existing := UrlsWithPrefix(r.media, id, DirPrefix(e.name));
      var acc1 := Scan([], r.skipped, r.logs + [RoomFound(e.name, id)]);
      var acc2 := Scan([], r.skipped, logs + [RoomFound(e.name, id)]);
      ScanIgnoresLogs(id, e.name, existing, acc1, acc2.logs, e.listing.value);
      assert acc1.(logs := acc2.logs) == acc2;
      var s1 := ScanFiles(id, e.name, existing, acc1, e.listing.value);
      var s2 := ScanFiles(id, e.name, existing, acc2, e.listing.value);
      assert SyncFolder(rooms, failing, r, e) == InsertQueue(failing, r, e.name, s1);
      assert SyncFolder(rooms, failing, r.(logs := logs), e) == InsertQueue(failing, r.(logs := logs), e.name, s2);
      InsertQueueTotals(failing, r, logs, e.name, s1, s2);
    }
  }

  /** The batch step's effect on the store and the counters depends only on the queue and the skip count. */
  lemma InsertQueueTotals(failing: set<string>, r: Run, logs: seq<LogEntry>, dir: string, s1: Scan, s2: Scan)
    requires s1.queue == s2.queue && s1.skipped == s2.skipped
    ensures Totals(InsertQueue(failing, r.(logs := logs), dir, s2)) == Totals(InsertQueue(failing, r, dir, s1))
  {
  }

  /**
   * The last line a matched folder logs: no new items when its queue is
   * empty, the failure when its batch fails, and otherwise the number of
   * rows the batch actually added.
   */
  lemma SyncFolderLastLog(rooms: RoomTable, failing: set<string>, r: Run, e: Entry)
    requires Matched(rooms, e)
    ensures var q := Unrecorded(FolderItems(rooms, e), UrlsWithPrefix(r.media, rooms[e.name].id, DirPrefix(e.name)));
      var after := SyncFolder(rooms, failing, r, e);
      && after.added >= r.added
      && |after.logs| > 0
      && after.logs[|after.logs| - 1]
         == (if q == [] then NothingToInsert else if e.name in failing then BatchFailed(e.name) else BatchInserted(after.added - r.added))
  {
    FolderQueue(rooms, r, e);
    var id := rooms[e.name].id;
    var s := ScanFiles(id, e.name, UrlsWithPrefix(r.media, id, DirPrefix(e.name)), Scan([], r.skipped, r.logs + [RoomFound(e.name, id)]), e.listing.value);
    assert SyncFolder(rooms, failing, r, e) == InsertQueue(failing, r, e.name, s);
  }

  /**
   * A matched folder whose batch insert fails is caught: the store and
   * `totalAdded` stay as they were, the skip count is that of its scan, and
   * the log ends with the failure when there was something to insert (and
   * with `NothingToInsert` otherwise).
   */
  lemma SyncFolderFails(rooms: RoomTable, failing: set<string>, r: Run, e: Entry)
    requires Matched(rooms, e) && e.name in failing
    ensures SyncFolder(rooms, failing, r, e).media == r.media
    ensures SyncFolder(rooms, failing, r, e).added == r.added
    ensures var q := Unrecorded(FolderItems(rooms, e), UrlsWithPrefix(r.media, rooms[e.name].id, DirPrefix(e.name)));
      var after := SyncFolder(rooms, failing, r, e);
      && after.skipped + |q| == r.skipped + |FolderItems(rooms, e)|
      && |after.logs| > 0
      && after.logs[|after.logs| - 1] == (if q == [] then NothingToInsert else BatchFailed(e.name))
  {
    SyncFolderLastLog(rooms, failing, r, e);
    FolderQueue(rooms, r, e);
    var id := rooms[e.name].id;
    var s := ScanFiles(id, e.name, UrlsWithPrefix(r.media, id, DirPrefix(e.name)), Scan([], r.skipped, r.logs + [RoomFound(e.name, id)]), e.listing.value);
    assert SyncFolder(rooms, failing, r, e) == InsertQueue(failing, r, e.name, s);
  }

  /**
   * A folder whose media items are all recorded, each for its own room,
   * inserts nothing and counts every one of them as skipped.
   */
  lemma SyncFolderAllRecorded(rooms: RoomTable, failing: set<string>, r: Run, e: Entry)
    requires forall x :: x in FolderItems(rooms, e) ==> x.url in r.media && r.media[x.url].roomId == x.roomId
    ensures SyncFolder(rooms, failing, r, e).media == r.media
    ensures SyncFolder(rooms, failing, r, e).added == r.added
    ensures SyncFolder(rooms, failing, r, e).skipped == r.skipped + |FolderItems(rooms, e)|
  {
    if Matched(rooms, e) {
      FolderQueue(rooms, r, e);
      var id := rooms[e.name].id;
      var existing := UrlsWithPrefix(r.media, id, DirPrefix(e.name));
      MediaItemsUnder(id, e.name, e.listing.value);
      UnrecordedAllKnown(FolderItems(rooms, e), existing);
      var s := ScanFiles(id, e.name, existing, Scan([], r.skipped, r.logs + [RoomFound(e.name, id)]), e.listing.value);
      assert SyncFolder(rooms, failing, r, e) == InsertQueue(failing, r, e.name, s);
    }
  }

  /**
   * A folder only appends to the log; a directory without a room leaves a
   * `RoomNotFound` line, and a name that is not a directory changes nothing.
   */
  lemma SyncFolderLogs(rooms: RoomTable, failing: set<string>, r: Run, e: Entry)
    ensures r.logs <= SyncFolder(rooms, failing, r, e).logs
    ensures e.listing.Some? && e.name !in rooms ==> RoomNotFound(e.name) in SyncFolder(rooms, failing, r, e).logs
    ensures e.listing.None? ==> SyncFolder(rooms, failing, r, e) == r
  {
    if Matched(rooms, e) {
      var id := rooms[e.name].id;
      var acc := Scan([], r.skipped, r.logs + [RoomFound(e.name, id)]);
      ScanLogs(id, e.name, UrlsWithPrefix(r.media, id, DirPrefix(e.name)), acc, e.listing.value);
      assert r.logs <= acc.logs;
    } else if e.listing.Some? {
      assert SyncFolder(rooms, failing, r, e).logs[|r.logs|] == RoomNotFound(e.name);
    }
  }

  // ---------------------------------------------------------------------
  // The folder loop

  lemma {:induction false} SyncFoldersCounts(rooms: RoomTable, failing: set<string>, r: Run, entries: seq<Entry>)
    ensures Extends(r.media, SyncFolders(rooms, failing, r, entries).media)
    ensures SyncFolders(rooms, failing, r, entries).added + |r.media| == r.added + |SyncFolders(rooms, failing, r, entries).media|
    ensures SyncFolders(rooms, failing, r, entries).added + SyncFolders(rooms, failing, r, entries).skipped
         <= r.added + r.skipped + |Candidates(rooms, entries)|
    decreases |entries|
  {
    if entries != [] {
      SyncFolderCounts(rooms, failing, r, entries[0]);
      SyncFoldersCounts(rooms, failing, SyncFolder(rooms, failing, r, entries[0]), entries[1..]);
    }
  }

  lemma {:induction false} SyncFoldersCovers(rooms: RoomTable, failing: set<string>, r: Run, entries: seq<Entry>)
    requires forall i :: 0 <= i < |entries| ==> entries[i].name !in failing
    ensures forall x :: x in Candidates(rooms, entries) ==> x.url in SyncFolders(rooms, failing, r, entries).media
    decreases |entries|
  {
    if entries != [] {
      var r1 := SyncFolder(rooms, failing, r, entries[0]);
      SyncFolderCovers(rooms, failing, r, entries[0]);
      SyncFoldersCounts(rooms, failing, r1, entries[1..]);
      SyncFoldersCovers(rooms, failing, r1, entries[1..]);
    }
  }

  /**
   * A failing batch does not stop the loop: every media item of a folder
   * whose batch does not fail is recorded at the end, whatever the other
   * folders do.
   */
  lemma {:induction false} SyncFoldersRecordsNonFailing(rooms: RoomTable, failing: set<string>, r: Run, entries: seq<Entry>)
    ensures forall i, x :: 0 <= i < |entries| && entries[i].name !in failing && x in FolderItems(rooms, entries[i])
              ==> x.url in SyncFolders(rooms, failing, r, entries).media
    decreases |entries|
  {
    if entries != [] {
      var r1 := SyncFolder(rooms, failing, r, entries[0]);
      var final := SyncFolders(rooms, failing, r, entries).media;
      assert final == SyncFolders(rooms, failing, r1, entries[1..]).media;
      SyncFoldersRecordsNonFailing(rooms, failing, r1, entries[1..]);
      SyncFoldersCounts(rooms, failing, r1, entries[1..]);
      if entries[0].name !in failing {
        SyncFolderCovers(rooms, failing, r, entries[0]);
      }
      forall i, x | 0 <= i < |entries| && entries[i].name !in failing && x in FolderItems(rooms, entries[i])
        ensures x.url in final
      {
        if i > 0 {
          assert entries[i] == entries[1..][i - 1];
        }
      }
    }
  }

  /**
   * When every candidate is recorded, each for its own room, the loop
   * inserts nothing and counts every candidate as skipped.
   */
  lemma {:induction false} SyncFoldersAllRecorded(rooms: RoomTable, failing: set<string>, r: Run, entries: seq<Entry>)
    requires forall x :: x in Candidates(rooms, entries) ==> x.url in r.media && r.media[x.url].roomId == x.roomId
    ensures SyncFolders(rooms, failing, r, entries).media == r.media
    ensures SyncFolders(rooms, failing, r, entries).added == r.added
    ensures SyncFolders(rooms, failing, r, entries).skipped == r.skipped + |Candidates(rooms, entries)|
    decreases |entries|
  {
    if entries != [] {
      var r1 := SyncFolder(rooms, failing, r, entries[0]);
      assert Candidates(rooms, entries) == FolderItems(rooms, entries[0]) + Candidates(rooms, entries[1..]);
      SyncFolderAllRecorded(rooms, failing, r, entries[0]);
      SyncFoldersAllRecorded(rooms, failing, r1, entries[1..]);
    }
  }

  lemma {:induction false} SyncFoldersStable(rooms: RoomTable, failing: set<string>, r: Run, entries: seq<Entry>)
    requires forall x :: x in Candidates(rooms, entries) ==> x.url in r.media
    ensures SyncFolders(rooms, failing, r, entries).media == r.media
    ensures SyncFolders(rooms, failing, r, entries).added == r.added
    decreases |entries|
  {
    if entries != [] {
      SyncFolderStable(rooms, failing, r, entries[0]);
      SyncFoldersStable(rooms, failing, SyncFolder(rooms, failing, r, entries[0]), entries[1..]);
    }
  }

  lemma {:induction false} SyncFoldersAllFail(rooms: RoomTable, failing: set<string>, r: Run, entries: seq<Entry>)
    requires forall i :: 0 <= i < |entries| ==> entries[i].name in failing
    ensures SyncFolders(rooms, failing, r, entries).media == r.media
    ensures SyncFolders(rooms, failing, r, entries).added == r.added
    decreases |entries|
  {
    if entries != [] {
      SyncFoldersAllFail(rooms, failing, SyncFolder(rooms, failing, r, entries[0]), entries[1..]);
    }
  }

  lemma {:induction false} SyncFoldersTotals(rooms: RoomTable, failing: set<string>, r: Run, logs: seq<LogEntry>, entries: seq<Entry>)
    ensures Totals(SyncFolders(rooms, failing, r.(logs := logs), entries)) == Totals(SyncFolders(rooms, failing, r, entries))
    decreases |entries|
  {
    if entries != [] {
      var r1 := SyncFolder(rooms, failing, r, entries[0]);
      var r2 := SyncFolder(rooms, failing, r.(logs := logs), entries[0]);
      SyncFolderTotals(rooms, failing, r, logs, entries[0]);
      assert r2 == r1.(logs := r2.logs);
      SyncFoldersTotals(rooms, failing, r1, r2.logs, entries[1..]);
    }
  }

  lemma {:induction false} SyncFoldersMatchedOnly(rooms: RoomTable, failing: set<string>, r: Run, entries: seq<Entry>)
    ensures Totals(SyncFolders(rooms, failing, r, MatchedOnly(rooms, entries))) == Totals(SyncFolders(rooms, failing, r, entries))
    decreases |entries|
  {
    if entries != [] {
      var e := entries[0];
      var r1 := SyncFolder(rooms, failing, r, e);
      if Matched(rooms, e) {
        SyncFoldersMatchedOnly(rooms, failing, r1, entries[1..]);
        var m := [e] + MatchedOnly(rooms, entries[1..]);
        assert m[0] == e;
        assert m[1..] == MatchedOnly(rooms, entries[1..]);
      } else {
        SyncFoldersMatchedOnly(rooms, failing, r, entries[1..]);
        assert r1 == r.(logs := r1.logs);
        SyncFoldersTotals(rooms, failing, r, r1.logs, entries[1..]);
      }
    }
  }

  lemma {:induction false} SyncFoldersLogs(rooms: RoomTable, failing: set<string>, r: Run, entries: seq<Entry>)
    ensures r.logs <= SyncFolders(rooms, failing, r, entries).logs
    ensures forall e :: e in entries && e.listing.Some? && e.name !in rooms ==> RoomNotFound(e.name) in SyncFolders(rooms, failing, r, entries).logs
    decreases |entries|
  {
    if entries != [] {
      var r1 := SyncFolder(rooms, failing, r, entries[0]);
      SyncFolderLogs(rooms, failing, r, entries[0]);
      SyncFoldersLogs(rooms, failing, r1, entries[1..]);
      var final := SyncFolders(rooms, failing, r, entries).logs;
      forall e | e in entries && e.listing.Some? && e.name !in rooms ensures RoomNotFound(e.name) in final {
        if e == entries[0] {
          var k :| 0 <= k < |r1.logs| && r1.logs[k] == RoomNotFound(e.name);
          assert final[k] == r1.logs[k];
        } else {
          assert e in entries[1..];
        }
      }
    }
  }

  // ---------------------------------------------------------------------
  // A whole run

  /**
   * The store after a run keeps every row it had; `added` is the number of
   * rows the run inserted, and `added + skipped` never exceeds the number of
   * media files found in matched folders.  A missing root is a 404 and the
   * store is untouched.
   */
  lemma SyncCounts(rooms: RoomTable, media: MediaTable, root: MediaRoot, failing: set<string>)
    ensures root.None? ==> Sync(rooms, media, root, failing) == Outcome(NotFound, media)
    ensures Status(Sync(rooms, media, root, failing).response) == 404 <==> root.None?
    ensures Extends(media, Sync(rooms, media, root, failing).media)
    ensures root.Some? ==> Sync(rooms, media, root, failing).response.Complete?
    ensures root.Some? ==> var o := Sync(rooms, media, root, failing);
      && o.response.added + |media| == |o.media|
      && o.response.added + o.response.skipped <= |Candidates(rooms, root.value)|
  {
    if root.Some? {
      SyncFoldersCounts(rooms, failing, Run(media, 0, 0, [FoundFolders(|root.value|)]), root.value);
    }
  }

  /**
   * Running the sync a second time on the same folders adds nothing and
   * leaves the store as the first run left it, provided no batch of the
   * first run failed; the second run may fail anywhere.
   */
  lemma SyncIdempotent(rooms: RoomTable, media: MediaTable, entries: seq<Entry>, failing1: set<string>, failing2: set<string>)
    requires forall i :: 0 <= i < |entries| ==> entries[i].name !in failing1
    ensures var first := Sync(rooms, media, Some(entries), failing1);
      var second := Sync(rooms, first.media, Some(entries), failing2);
      second.response.added == 0 && second.media == first.media
  {
    var first := Sync(rooms, media, Some(entries), failing1);
    SyncFoldersCovers(rooms, failing1, Run(media, 0, 0, [FoundFolders(|entries|)]), entries);
    SyncFoldersStable(rooms, failing2, Run(first.media, 0, 0, [FoundFolders(|entries|)]), entries);
  }

  /**
   * The second run also reports every candidate as skipped, provided no
   * batch of the first run failed and each candidate's url is recorded for
   * the candidate's own room after it (a url taken by another room is queued
   * again and dropped by the batch insert).
   */
  lemma SyncIdempotentSkips(rooms: RoomTable, media: MediaTable, entries: seq<Entry>, failing1: set<string>, failing2: set<string>)
    requires forall i :: 0 <= i < |entries| ==> entries[i].name !in failing1
    requires var m1 := Sync(rooms, media, Some(entries), failing1).media;
      forall x :: x in Candidates(rooms, entries) && x.url in m1 ==> m1[x.url].roomId == x.roomId
    ensures var first := Sync(rooms, media, Some(entries), failing1);
      var second := Sync(rooms, first.media, Some(entries), failing2);
      && second.response.added == 0
      && second.response.skipped == |Candidates(rooms, entries)|
      && second.media == first.media
  {
    var first := Sync(rooms, media, Some(entries), failing1);
    SyncFoldersCovers(rooms, failing1, Run(media, 0, 0, [FoundFolders(|entries|)]), entries);
    SyncFoldersAllRecorded(rooms, failing2, Run(first.media, 0, 0, [FoundFolders(|entries|)]), entries);
  }

  /**
   * A failing batch is logged and the run goes on: every media item of a
   * folder whose batch does not fail is recorded at the end.
   */
  lemma SyncContinuesAfterFailure(rooms: RoomTable, media: MediaTable, entries: seq<Entry>, failing: set<string>)
    ensures forall i, x :: 0 <= i < |entries| && entries[i].name !in failing && x in FolderItems(rooms, entries[i])
              ==> x.url in Sync(rooms, media, Some(entries), failing).media
  {
    SyncFoldersRecordsNonFailing(rooms, failing, Run(media, 0, 0, [FoundFolders(|entries|)]), entries);
  }

  /** When every batch insert fails, the run adds nothing and the store is unchanged. */
  lemma SyncAllBatchesFail(rooms: RoomTable, media: MediaTable, entries: seq<Entry>, failing: set<string>)
    requires forall i :: 0 <= i < |entries| ==> entries[i].name in failing
    ensures Sync(rooms, media, Some(entries), failing).response.added == 0
    ensures Sync(rooms, media, Some(entries), failing).media == media
  {
    SyncFoldersAllFail(rooms, failing, Run(media, 0, 0, [FoundFolders(|entries|)]), entries);
  }

  /**
   * Folders without a room and names that are not directories affect only
   * the log: the run over the matched folders alone gives the same store
   * and the same counters.
   */
  lemma SyncIgnoresUnmatched(rooms: RoomTable, media: MediaTable, entries: seq<Entry>, failing: set<string>)
    ensures var all := Sync(rooms, media, Some(entries), failing);
      var matched := Sync(rooms, media, Some(MatchedOnly(rooms, entries)), failing);
      && matched.media == all.media
      && matched.response.added == all.response.added
      && matched.response.skipped == all.response.skipped
  {
    var start := Run(media, 0, 0, [FoundFolders(|entries|)]);
    var start2 := Run(media, 0, 0, [FoundFolders(|MatchedOnly(rooms, entries)|)]);
    SyncFoldersMatchedOnly(rooms, failing, start, entries);
    SyncFoldersTotals(rooms, failing, start, start2.logs, MatchedOnly(rooms, entries));
    assert start2 == start.(logs := start2.logs);
  }

  /** The log opens with the number of listed names and names every directory that has no room. */
  lemma SyncLogs(rooms: RoomTable, media: MediaTable, entries: seq<Entry>, failing: set<string>)
    ensures var logs := Sync(rooms, media, Some(entries), failing).response.logs;
      && |logs| > 0 && logs[0] == FoundFolders(|entries|)
      && forall e :: e in entries && e.listing.Some? && e.name !in rooms ==> RoomNotFound(e.name) in logs
  {
    SyncFoldersLogs(rooms, failing, Run(media, 0, 0, [FoundFolders(|entries|)]), entries);
  }

  // ---------------------------------------------------------------------
  // The handler

  /** One iteration of the file loop: it changes nothing but the loop's variables. */
  method ScanOne(roomId: string, dir: string, existing: set<string>, file: string, queue: seq<MediaItem>, skipped: nat, logs: seq<LogEntry>)
    returns (newQueue: seq<MediaItem>, newSkipped: nat, newLogs: seq<LogEntry>)
    ensures Scan(newQueue, newSkipped, newLogs) == ScanFile(roomId, dir, existing, Scan(queue, skipped, logs), file)
  {
    newQueue, newSkipped, newLogs := queue, skipped, logs;
    ghost var acc := Scan(queue, skipped, logs);
    var kind := Classify(file);
    match kind
    case Hidden =>
      assert ScanFile(roomId, dir, existing, acc, file) == acc;
    case Unknown =>
      newLogs := logs + [UnknownFileType(file)];
      assert ScanFile(roomId, dir, existing, acc, file) == acc.(logs := newLogs);
    case Media(t) =>
      var url := MediaUrl(dir, file);
      var item := MediaItem(roomId, url, t);
      assert ScanFile(roomId, dir, existing, acc, file) == ScanItem(existing, acc, file, item);
      if url !in existing {
        newQueue := queue + [item];
        newLogs := logs + [PreparedToAdd(file)];
      } else {
        newSkipped := skipped + 1;
      }
  }

  /** The file loop of one folder: it changes nothing but its own variables. */
  method ScanFolder(roomId: string, dir: string, existing: set<string>, files: seq<string>, skipped: nat, logs: seq<LogEntry>)
    returns (queue: seq<MediaItem>, totalSkipped: nat, outLogs: seq<LogEntry>)
    ensures Scan(queue, totalSkipped, outLogs) == ScanFiles(roomId, dir, existing, Scan([], skipped, logs), files)
  {
    queue, totalSkipped, outLogs := [], skipped, logs;
    for j := 0 to |files|
      invariant ScanFiles(roomId, dir, existing, Scan(queue, totalSkipped, outLogs), files[j..])
             == ScanFiles(roomId, dir, existing, Scan([], skipped, logs), files)
    {
      DropTail(files, j);
      queue, totalSkipped, outLogs := ScanOne(roomId, dir, existing, files[j], queue, totalSkipped, outLogs);
    }
  }

  /**
   * One iteration of the folder loop of the handler; an early return is the
   * loop's `continue`.
   */
  method SyncEntry(db: Database, e: Entry, failing: set<string>, added: nat, skipped: nat, logs: seq<LogEntry>)
    returns (totalAdded: nat, totalSkipped: nat, outLogs: seq<LogEntry>)
    requires db.Valid()
    modifies db
    ensures db.Valid() && db.rooms == old(db.rooms)
    ensures Run(db.media, totalAdded, totalSkipped, outLogs)
         == SyncFolder(db.rooms, failing, Run(old(db.media), added, skipped, logs), e)
  {
    totalAdded, totalSkipped, outLogs := added, skipped, logs;
    if e.listing.None? {
      return;
    }
    var room := db.FindRoomBySlug(e.name);
    if room.None? {
      outLogs := outLogs + [RoomNotFound(e.name)];
      return;
    }
    var id := room.value.id;
    outLogs := outLogs + [RoomFound(e.name, id)];
    var existing := db.FindMediaUrls(id, DirPrefix(e.name));
    var queue;
    queue, totalSkipped, outLogs := ScanFolder(id, e.name, existing, e.listing.value, totalSkipped, outLogs);
    ghost var r := Run(old(db.media), added, skipped, logs);
    ghost var scan := Scan(queue, totalSkipped, outLogs);
    assert SyncFolder(db.rooms, failing, r, e) == InsertQueue(failing, r, e.name, scan);
    if |queue| > 0 {
      if e.name in failing {
        outLogs := outLogs + [BatchFailed(e.name)];
      } else {
        ScanQueueRoom(id, e.name, existing, Scan([], skipped, logs + [RoomFound(e.name, id)]), e.listing.value);
        assert HasRoomId(db.rooms, id) by {
          assert db.rooms[e.name].id == id;
        }
        var count := db.CreateMany(queue);
        totalAdded := totalAdded + count;
        outLogs := outLogs + [BatchInserted(count)];
      }
    } else {
      outLogs := outLogs + [NothingToInsert];
    }
  }

  /**
   * The handler.  `root` is the listing of `public/memories`; `failing`
   * names the folders whose batch insert throws.  The response and the new
   * Media table are those of `Sync`; the Room table is never written.
   */
  method Post(db: Database, root: MediaRoot, failing: set<string>) returns (resp: Response)
    requires db.Valid()
    modifies db
    ensures db.Valid() && db.rooms == old(db.rooms)
    ensures Outcome(resp, db.media) == Sync(old(db.rooms), old(db.media), root, failing)
  {
    if root.None? {
      return NotFound;
    }
    var dirs := root.value;
    var totalAdded, totalSkipped := 0, 0;
    var logs := [FoundFolders(|dirs|)];
    ghost var start := Run(db.media, 0, 0, logs);
    for i := 0 to |dirs|
      invariant db.Valid() && db.rooms == old(db.rooms)
      invariant SyncFolders(db.rooms, failing, Run(db.media, totalAdded, totalSkipped, logs), dirs[i..])
             == SyncFolders(db.rooms, failing, start, dirs)
    {
      DropTail(dirs, i);
      totalAdded, totalSkipped, logs := SyncEntry(db, dirs[i], failing, totalAdded, totalSkipped, logs);
    }
    resp := Complete(totalAdded, totalSkipped, logs);
  }
}
