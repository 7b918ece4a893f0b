/** What a handler answers. Status codes are those of section 15 of RFC 9110. */
module Http {
  import opened Dogs

  const STATUS_OK := 200
  const STATUS_CREATED := 201
  /** Section 15.3.5 of RFC 9110; the service uses it for "not found". */
  const STATUS_NO_CONTENT := 204
  const STATUS_BAD_REQUEST := 400
  const STATUS_INTERNAL_SERVER_ERROR := 500

  datatype Payload =
    | NoContent                       // sendStatus(204): no body
    | Message(text: string)           // JSON {message: text}
    | Errors(messages: seq<string>)   // JSON {errors: messages}
    | Record(dog: Dog)                // JSON of one record
    | Records(dogs: seq<Dog>)         // JSON array of records
    | Text(text: string)              // plain text

  datatype Response =
    | Sent(status: int, payload: Payload)
      /** The status was set but nothing was sent: the client is left waiting. */
    | Unsent(status: int)
}
