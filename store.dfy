/**
 * The persistent store behind the routes: a Room table keyed by slug and a
 * Media table keyed by url, each key being a unique column.  The value-level
 * functions (`UpsertByUrl`, `InsertMany`) give the meaning of the ORM calls the
 * routes make; `Database` is the mutable store those calls act on.
 */
module Store {
  import opened Wrappers
  import Text
  import opened Seqs

  datatype MediaType = Image | Video

  /** A Media row, less its url (the key of the table) and its generated id. */
  datatype MediaRecord = MediaRecord(roomId: string, mediaType: MediaType)

  /** The `{ roomId, url, type }` object passed to `create`, `createMany` and `upsert`. */
  datatype MediaItem = MediaItem(roomId: string, url: string, mediaType: MediaType)

  datatype Room = Room(id: string, name: string, slug: string, coverImage: Option<string>)

  type MediaTable = map<string, MediaRecord>
  type RoomTable = map<string, Room>

  function RecordOf(item: MediaItem): MediaRecord {
    MediaRecord(item.roomId, item.mediaType)
  }

  predicate HasRoomId(rooms: RoomTable, id: string) {
    exists s :: s in rooms && rooms[s].id == id
  }

  /** The unique and foreign-key constraints of the two tables. */
  ghost predicate WellFormed(rooms: RoomTable, media: MediaTable) {
    && (forall s :: s in rooms ==> rooms[s].slug == s)
    && (forall s, t :: s in rooms && t in rooms && rooms[s].id == rooms[t].id ==> s == t)
    && (forall u :: u in media ==> HasRoomId(rooms, media[u].roomId))
  }

  /** `m2` keeps every row of `m` unchanged: nothing was removed or modified. */
  ghost predicate Extends(m: MediaTable, m2: MediaTable) {
    forall u :: u in m ==> u in m2 && m2[u] == m[u]
  }

  function ItemUrls(items: seq<MediaItem>): set<string>
    decreases |items|
  {
    if items == [] then {} else {items[0].url} + ItemUrls(items[1..])
  }

  lemma {:induction false} ItemUrlsMembers(items: seq<MediaItem>)
    ensures forall x :: x in items ==> x.url in ItemUrls(items)
    ensures forall u :: u in ItemUrls(items) ==> exists x :: x in items && x.url == u
    decreases |items|
  {
    if items != [] {
      ItemUrlsMembers(items[1..]);
      ConsSplit(items);
      forall u | u in ItemUrls(items) ensures exists x :: x in items && x.url == u {
        if u != items[0].url {
          var x :| x in items[1..] && x.url == u;
          assert x in items;
        } else {
          assert items[0] in items;
        }
      }
    }
  }

  /** The urls recorded for `roomId` that start with `prefix` (`findMany` with `startsWith`). */
  function UrlsWithPrefix(media: MediaTable, roomId: string, prefix: string): (r: set<string>)
    ensures r <= media.Keys
    ensures forall u :: u in r <==> u in media && media[u].roomId == roomId && Text.StartsWith(u, prefix)
  {
    set u | u in media && media[u].roomId == roomId && Text.StartsWith(u, prefix)
  }

  /**
   * `media.upsert({ where: { url }, update: {}, create: item })`: keyed by the
   * url alone, whatever room already owns it.  The flag says a row was created.
   */
  function UpsertByUrl(m: MediaTable, item: MediaItem): (r: (MediaTable, bool))
    ensures r.1 <==> item.url !in m
    ensures Extends(m, r.0)
    ensures r.0.Keys == m.Keys + {item.url}
    ensures r.1 ==> r.0[item.url] == RecordOf(item)
    ensures |r.0| == |m| + (if r.1 then 1 else 0)
  {
    if item.url in m then (m, false) else (m[item.url := RecordOf(item)], true)
  }

  /**
   * `media.createMany({ data: items, skipDuplicates: true })`: every item whose
   * url is already taken (by an old row or by an earlier item) is dropped, the
   * others are inserted; the count is the number of rows actually inserted.
   */
  function InsertMany(m: MediaTable, items: seq<MediaItem>): (r: (MediaTable, nat))
    ensures r.1 == |r.0| - |m|
    ensures r.1 <= |items|
    decreases |items|
  {
    if items == [] then (m, 0)
    else
      var step := UpsertByUrl(m, items[0]);
      var rest := InsertMany(step.0, items[1..]);
      (rest.0, rest.1 + if step.1 then 1 else 0)
  }

  /** `InsertMany` keeps every existing row unchanged. */
  lemma {:induction false} InsertManyKeeps(m: MediaTable, items: seq<MediaItem>)
    ensures Extends(m, InsertMany(m, items).0)
    decreases |items|
  {
    if items != [] {
      var m1 := UpsertByUrl(m, items[0]).0;
      InsertManyKeeps(m1, items[1..]);
      assert InsertMany(m, items).0 == InsertMany(m1, items[1..]).0;
    }
  }

  /** After `InsertMany` the table holds exactly the old urls and those of the items. */
  lemma {:induction false} InsertManyKeys(m: MediaTable, items: seq<MediaItem>)
    ensures InsertMany(m, items).0.Keys == m.Keys + ItemUrls(items)
    decreases |items|
  {
    if items != [] {
      var m1 := UpsertByUrl(m, items[0]).0;
      InsertManyKeys(m1, items[1..]);
      assert InsertMany(m, items).0 == InsertMany(m1, items[1..]).0;
      assert m1.Keys == m.Keys + {items[0].url};
      assert ItemUrls(items) == {items[0].url} + ItemUrls(items[1..]);
      UnionAssoc(m.Keys, {items[0].url}, ItemUrls(items[1..]));
    }
  }

  /** Every row `InsertMany` adds is the record of one of the items, keyed by its url. */
  lemma {:induction false} InsertManyNewRows(m: MediaTable, items: seq<MediaItem>, u: string)
    requires u in InsertMany(m, items).0 && u !in m
    ensures exists i :: 0 <= i < |items| && items[i].url == u && InsertMany(m, items).0[u] == RecordOf(items[i])
    decreases |items|
  {
    var m1 := UpsertByUrl(m, items[0]).0;
    if u in m1 {
      assert items[0].url == u;
      InsertManyKeeps(m1, items[1..]);
      assert InsertMany(m, items).0[u] == m1[u];
    } else {
      InsertManyNewRows(m1, items[1..], u);
      var i :| 0 <= i < |items[1..]| && items[1..][i].url == u && InsertMany(m1, items[1..]).0[u] == RecordOf(items[1..][i]);
      assert items[i + 1] == items[1..][i];
    }
  }

  /** A batch whose urls are all taken inserts nothing. */
  lemma {:induction false} InsertManyAllPresent(m: MediaTable, items: seq<MediaItem>)
    requires ItemUrls(items) <= m.Keys
    ensures InsertMany(m, items) == (m, 0)
    decreases |items|
  {
    if items != [] {
      InsertManyAllPresent(m, items[1..]);
    }
  }

  lemma {:induction false} InsertManyAppendTable(m: MediaTable, a: seq<MediaItem>, b: seq<MediaItem>)
    ensures InsertMany(m, a + b).0 == InsertMany(InsertMany(m, a).0, b).0
    decreases |a|
  {
    if a == [] {
      assert a + b == b;
    } else {
      var m1 := UpsertByUrl(m, a[0]).0;
      InsertManyAppendTable(m1, a[1..], b);
      HeadTailAppend(a, b);
    }
  }

  /** Inserting `a + b` is inserting `a`, then `b` into the result; the counts add up. */
  lemma InsertManyAppend(m: MediaTable, a: seq<MediaItem>, b: seq<MediaItem>)
    ensures InsertMany(m, a + b).0 == InsertMany(InsertMany(m, a).0, b).0
    ensures InsertMany(m, a + b).1 == InsertMany(m, a).1 + InsertMany(InsertMany(m, a).0, b).1
  {
    InsertManyAppendTable(m, a, b);
    InsertManyKeeps(m, a);
    InsertManyKeeps(InsertMany(m, a).0, b);
  }

  /** Items whose url is not in `known`, in their original order. */
  function Unrecorded(items: seq<MediaItem>, known: set<string>): (r: seq<MediaItem>)
    ensures |r| <= |items|
  {
    if items == [] then []
    else if items[0].url in known then Unrecorded(items[1..], known)
    else [items[0]] + Unrecorded(items[1..], known)
  }

  /** The items kept are exactly those whose url is not known. */
  lemma {:induction false} UnrecordedMembers(items: seq<MediaItem>, known: set<string>)
    ensures forall x :: x in Unrecorded(items, known) <==> x in items && x.url !in known
    decreases |items|
  {
    if items != [] {
      UnrecordedMembers(items[1..], known);
      assert forall x :: x in items <==> x == items[0] || x in items[1..];
    }
  }

  /** Filtering by a set that holds none of the urls keeps every item. */
  lemma {:induction false} UnrecordedNone(items: seq<MediaItem>, known: set<string>)
    requires forall x :: x in items ==> x.url !in known
    ensures Unrecorded(items, known) == items
    decreases |items|
  {
    if items != [] {
      assert items[0] in items;
      assert forall x :: x in items[1..] ==> x in items;
      UnrecordedNone(items[1..], known);
    }
  }

  /** Filtering by a set that holds every url keeps nothing. */
  lemma {:induction false} UnrecordedAllKnown(items: seq<MediaItem>, known: set<string>)
    requires forall x :: x in items ==> x.url in known
    ensures Unrecorded(items, known) == []
    decreases |items|
  {
    if items != [] {
      assert items[0] in items;
      assert forall x :: x in items[1..] ==> x in items;
      UnrecordedAllKnown(items[1..], known);
    }
  }

  /** Filtering distributes over concatenation. */
  lemma {:induction false} UnrecordedAppend(a: seq<MediaItem>, b: seq<MediaItem>, known: set<string>)
    ensures Unrecorded(a + b, known) == Unrecorded(a, known) + Unrecorded(b, known)
    decreases |a|
  {
    if a == [] {
      assert a + b == b;
    } else {
      UnrecordedAppend(a[1..], b, known);
      HeadTailAppend(a, b);
      var ra, rb := Unrecorded(a[1..], known), Unrecorded(b, known);
      if a[0].url in known {
        assert Unrecorded(a + b, known) == ra + rb;
        assert Unrecorded(a, known) == ra;
      } else {
        assert Unrecorded(a + b, known) == [a[0]] + (ra + rb);
        assert Unrecorded(a, known) == [a[0]] + ra;
        AppendAssoc([a[0]], ra, rb);
      }
    }
  }

  /**
   * Dropping items whose url is already in the table changes nothing about
   * the table `InsertMany` produces: they would have been skipped anyway.
   */
  lemma {:induction false} InsertManySkipsKnown(m: MediaTable, items: seq<MediaItem>, known: set<string>)
    requires known <= m.Keys
    ensures InsertMany(m, Unrecorded(items, known)).0 == InsertMany(m, items).0
    decreases |items|
  {
    if items != [] {
      var m1 := UpsertByUrl(m, items[0]).0;
      InsertManySkipsKnown(m1, items[1..], known);
      if items[0].url in known {
        assert m1 == m;
      } else {
        var rest := Unrecorded(items[1..], known);
        HeadTailAppend([items[0]], rest);
      }
    }
  }

  /**
   * The mutable store.  Each method models one ORM call; a call that the
   * database would reject (a unique or foreign-key violation) reports failure
   * and leaves both tables unchanged.
   */
  class Database {
    var rooms: RoomTable
    var media: MediaTable

    ghost predicate Valid()
      reads this
    {
      WellFormed(rooms, media)
    }

    constructor ()
      ensures Valid() && rooms == map[] && media == map[]
    {
      rooms := map[];
      media := map[];
    }

    /** `room.findUnique({ where: { slug } })`. */
    method FindRoomBySlug(slug: string) returns (r: Option<Room>)
      ensures r.Some? <==> slug in rooms
      ensures r.Some? ==> r.value == rooms[slug]
    {
      r := if slug in rooms then Some(rooms[slug]) else None;
    }

    /** `media.findMany({ where: { roomId, url: { startsWith: prefix } }, select: { url } })`. */
    method FindMediaUrls(roomId: string, prefix: string) returns (urls: set<string>)
      ensures urls == UrlsWithPrefix(media, roomId, prefix)
    {
      urls := UrlsWithPrefix(media, roomId, prefix);
    }

    /** `room.create`: rejected when the slug or the generated id is already taken. */
    method CreateRoom(room: Room) returns (ok: bool)
      requires Valid()
      modifies this
      ensures Valid() && media == old(media)
      ensures ok <==> room.slug !in old(rooms) && !HasRoomId(old(rooms), room.id)
      ensures rooms == if ok then old(rooms)[room.slug := room] else old(rooms)
    {
      ok := room.slug !in rooms && !HasRoomId(rooms, room.id);
      if ok {
        forall u | u in media ensures HasRoomId(rooms[room.slug := room], media[u].roomId) {
          var s :| s in rooms && rooms[s].id == media[u].roomId;
          assert s != room.slug;
          assert rooms[room.slug := room][s] == rooms[s];
        }
        rooms := rooms[room.slug := room];
      }
    }

    /** `media.create`: rejected when the url is taken or the room id does not exist. */
    method CreateMedia(item: MediaItem) returns (ok: bool)
      requires Valid()
      modifies this
      ensures Valid() && rooms == old(rooms)
      ensures ok <==> item.url !in old(media) && HasRoomId(rooms, item.roomId)
      ensures media == if ok then old(media)[item.url := RecordOf(item)] else old(media)
    {
      ok := item.url !in media && HasRoomId(rooms, item.roomId);
      if ok {
        media := media[item.url := RecordOf(item)];
      }
    }

    /** `media.createMany({ data: items, skipDuplicates: true })`, returning the inserted count. */
    method CreateMany(items: seq<MediaItem>) returns (count: nat)
      requires Valid()
      requires forall i :: 0 <= i < |items| ==> HasRoomId(rooms, items[i].roomId)
      modifies this
      ensures Valid() && rooms == old(rooms)
      ensures (media, count) == InsertMany(old(media), items)
    {
      var r := InsertMany(media, items);
      InsertManyKeeps(media, items);
      forall u | u in r.0 ensures HasRoomId(rooms, r.0[u].roomId) {
        if u !in media {
          InsertManyNewRows(media, items, u);
          var i :| 0 <= i < |items| && items[i].url == u && r.0[u] == RecordOf(items[i]);
        }
      }
      media, count := r.0, r.1;
    }

    /** `media.upsert` keyed by url; `created` says whether a row was inserted. */
    method Upsert(item: MediaItem) returns (created: bool)
      requires Valid()
      requires HasRoomId(rooms, item.roomId)
      modifies this
      ensures Valid() && rooms == old(rooms)
      ensures (media, created) == UpsertByUrl(old(media), item)
    {
      var r := UpsertByUrl(media, item);
      media, created := r.0, r.1;
    }
  }
}
