/** The request and response records of the three routes, as plain values.
    Query-string parsing and JSON serialisation are not modelled. */
module Schema {

  /** An optional query parameter. */
  datatype Option<T> = None | Some(value: T) {

    /** The parameter's value, or `default` when it was omitted. */
    function UnwrapOr(default: T): T {
      match this
      case Some(v) => v
      case None => default
    }
  }

  /** The body of a `400 Bad Request` answer. */
  datatype ErrorResponse = ErrorResponse(reason: string, code: nat)

  /** The query of `GET /api`. */
  datatype SimpleApiQuery = SimpleApiQuery(count: Option<nat>)

  /** The body of a successful `GET /api`: the lootbox title and one URL per draw. */
  datatype SimpleApiResponse = SimpleApiResponse(title: string, result: seq<string>)

  /** The query of `GET /fancy`. */
  datatype FancyApiQuery = FancyApiQuery(
    count: Option<nat>,
    reservedCount: Option<nat>,
    reservedRarity: Option<nat>)

  /** One drawn frame of `GET /fancy`: the label of its rarity group, whether
      it is a reserved frame, and the item's title and URL. */
  datatype FancyApiResponseFrame = FancyApiResponseFrame(
    rarity: string,
    reserved: bool,
    title: string,
    url: string)

  /** The body of a successful `GET /fancy`. */
  datatype FancyApiResponse = FancyApiResponse(title: string, result: seq<FancyApiResponseFrame>)
}
