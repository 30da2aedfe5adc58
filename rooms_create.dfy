/**
 * `POST /api/rooms/create`: derive the slug from the name, refuse a slug that
 * is already taken, then insert the room (check, then insert).
 */
module RoomsCreate {
  import opened Wrappers
  import opened Text
  import opened Store
  import Slug

  datatype Response = Created(room: Room) | BadRequest | Conflict | ServerError

  function Status(r: Response): int {
    match r
    case Created(_) => 201
    case BadRequest => 400
    case Conflict => 409
    case ServerError => 500
  }

  /** `coverImage || null`: a missing or empty cover image is stored as null. */
  function StoredCover(coverImage: Option<string>): (r: Option<string>)
    ensures r.Some? <==> Truthy(coverImage)
    ensures r.Some? ==> r == coverImage
  {
    if Truthy(coverImage) then coverImage else None
  }

  /**
   * The handler.  `newId` is the identifier the database generates for the
   * new row; an id that is already in use is the caught error, 500.
   */
  method Post(db: Database, name: Option<string>, coverImage: Option<string>, newId: string) returns (resp: Response)
    requires db.Valid()
    modifies db
    ensures db.Valid() && db.media == old(db.media)
    ensures Status(resp) == 400 <==> !Truthy(name)
    ensures Status(resp) == 409 <==> Truthy(name) && Slug.GenerateSlug(name.value) in old(db.rooms)
    ensures Status(resp) == 201 <==> (Truthy(name) && Slug.GenerateSlug(name.value) !in old(db.rooms)
      && !HasRoomId(old(db.rooms), newId))
    ensures resp.Created? ==> (resp.room == Room(newId, name.value, Slug.GenerateSlug(name.value), StoredCover(coverImage))
      && db.rooms == old(db.rooms)[resp.room.slug := resp.room]
      && |db.rooms| == |old(db.rooms)| + 1)
    ensures !resp.Created? ==> db.rooms == old(db.rooms)
  {
    if !Truthy(name) {
      return BadRequest;
    }
    var slug := Slug.GenerateSlug(name.value);
    var existing := db.FindRoomBySlug(slug);
    if existing.Some? {
      return Conflict;
    }
    var room := Room(newId, name.value, slug, StoredCover(coverImage));
    var ok := db.CreateRoom(room);
    if ok {
      resp := Created(room);
    } else {
      resp := ServerError;
    }
  }

  /**
   * Only a falsy name is refused: a name with no letter or digit is accepted
   * and its room gets the empty slug.
   */
  lemma EmptySlugAccepted()
    ensures Truthy(Some("!!!")) && Slug.GenerateSlug("!!!") == ""
  {
    assert Slug.Alnums(Lower("!!!")) == [] by {
      assert Lower("!!!") == "!!!";
    }
    Slug.EmptySlug("!!!");
  }
}
