/** Records of the todo service (models/author.go, models/authorTodo.go), the
    store identifier type and the results its resolvers return. */
module Models {

  datatype Option<+T> = None | Some(value: T)

  /** A store identifier: twelve bytes, written externally as a hex string. */
  type ObjectId = b: seq<bv8> | |b| == 12 witness [0, 0, 0, 0, 0, 0, 0, 0, 0, 0, 0, 0]

  /** The all-zero identifier that a failed parse hands back with its error. */
  const NilObjectId: ObjectId := [0, 0, 0, 0, 0, 0, 0, 0, 0, 0, 0, 0]

  /** The driver's conversion pair between identifiers and hex strings. The real
      decoder is library code and is kept abstract: `parse` is the partial
      string-to-identifier conversion, `hex` the printer. */
  datatype HexCodec = HexCodec(parse: string -> Option<ObjectId>, hex: ObjectId -> string)
  {
    /** Parse and keep the identifier, ignoring the error: a malformed string
        yields the nil identifier, as `id, _ := ObjectIDFromHex(s)` does. */
    function ParseOrNil(s: string): ObjectId {
      match parse(s)
      case Some(id) => id
      case None => NilObjectId
    }
  }

  /** The one law the driver's pair obeys that the model relies on: printing an
      identifier and parsing the text gives the identifier back. It does not
      say that every accepted string is the printed form of its identifier. */
  ghost predicate Lawful(codec: HexCodec) {
    forall id: ObjectId :: codec.parse(codec.hex(id)) == Some(id)
  }

  /** Printing is injective under the law. */
  lemma HexInjective(codec: HexCodec, a: ObjectId, b: ObjectId)
    requires Lawful(codec)
    requires codec.hex(a) == codec.hex(b)
    ensures a == b
  {
    assert codec.parse(codec.hex(a)) == Some(a);
    assert codec.parse(codec.hex(b)) == Some(b);
  }

  datatype Author = Author(id: ObjectId, name: string)

  datatype AuthorTodo = AuthorTodo(id: ObjectId, text: string, done: bool, authorId: ObjectId)

  /** The errors the resolvers and the store report. */
  datatype Error =
    | InvalidHex(input: string)   // a malformed identifier string
    | NoDocuments                 // a find-one query that matched nothing
    | TodoNotFound(id: string)    // a delete that removed nothing

  datatype Result<+T> = Ok(value: T) | Err(error: Error)
}
