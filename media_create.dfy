/**
 * `POST /api/media/create`: validate `{ roomId, url, type }`, then insert one
 * Media row.  The guards are a pure function of the body; the insert acts on
 * the store.
 */
module MediaCreate {
  import opened Wrappers
  import opened Text
  import opened Store

  datatype ValidationError = MissingFields | InvalidType

  datatype Checked = Accept(item: MediaItem) | Reject(error: ValidationError)

  datatype Response = Created(item: MediaItem) | BadRequest(error: ValidationError) | ServerError

  function Status(r: Response): int {
    match r
    case Created(_) => 201
    case BadRequest(_) => 400
    case ServerError => 500
  }

  /** The value of the `type` column for each media type. */
  function TypeName(t: MediaType): string {
    match t
    case Image => "image"
    case Video => "video"
  }

  /** The request's `type` string read back as a media type. */
  function ParseType(s: string): (r: Option<MediaType>)
    ensures r.Some? <==> s == "image" || s == "video"
    ensures r.Some? ==> TypeName(r.value) == s
  {
    if s == "image" then Some(Image) else if s == "video" then Some(Video) else None
  }

  lemma ParseTypeName(t: MediaType)
    ensures ParseType(TypeName(t)) == Some(t)
  {
  }

  /**
   * The two guards in order: any falsy field is `MissingFields`, whatever the
   * type says; only then is a type other than `image`/`video` rejected.
   */
  function Validate(roomId: Option<string>, url: Option<string>, kind: Option<string>): (r: Checked)
    ensures r == Reject(MissingFields) <==> !Truthy(roomId) || !Truthy(url) || !Truthy(kind)
    ensures r == Reject(InvalidType) <==> Truthy(roomId) && Truthy(url) && Truthy(kind) && kind.value != "image" && kind.value != "video"
    ensures r.Accept? ==> r.item.roomId == roomId.value && r.item.url == url.value && TypeName(r.item.mediaType) == kind.value
  {
    if !Truthy(roomId) || !Truthy(url) || !Truthy(kind) then Reject(MissingFields)
    else match ParseType(kind.value)
      case None => Reject(InvalidType)
      case Some(t) => Accept(MediaItem(roomId.value, url.value, t))
  }

  /**
   * The handler.  A rejected body is answered 400 before the store is touched;
   * a store rejection (unknown room id, taken url) is the caught error, 500.
   */
  method Post(db: Database, roomId: Option<string>, url: Option<string>, kind: Option<string>) returns (resp: Response)
    requires db.Valid()
    modifies db
    ensures db.Valid() && db.rooms == old(db.rooms)
    ensures Status(resp) == 400 <==> Validate(roomId, url, kind).Reject?
    ensures resp.BadRequest? ==> resp.error == Validate(roomId, url, kind).error
    ensures Status(resp) == 201 <==> (Validate(roomId, url, kind).Accept?
      && Validate(roomId, url, kind).item.url !in old(db.media)
      && HasRoomId(old(db.rooms), Validate(roomId, url, kind).item.roomId))
    ensures resp.Created? ==> (resp.item == Validate(roomId, url, kind).item
      && db.media == old(db.media)[resp.item.url := RecordOf(resp.item)]
      && |db.media| == |old(db.media)| + 1)
    ensures !resp.Created? ==> db.media == old(db.media)
    ensures Status(resp) in {201, 400, 500}
  {
    var checked := Validate(roomId, url, kind);
    if checked.Reject? {
      return BadRequest(checked.error);
    }
    var ok := db.CreateMedia(checked.item);
    if ok {
      resp := Created(checked.item);
    } else {
      resp := ServerError;
    }
  }

  /** A body with any absent or empty field is reported as missing fields, even when its type is also invalid. */
  lemma MissingFieldsFirst(roomId: Option<string>, url: Option<string>, kind: Option<string>)
    requires !Truthy(roomId) || !Truthy(url) || !Truthy(kind)
    ensures Validate(roomId, url, kind) == Reject(MissingFields)
  {
  }
}
