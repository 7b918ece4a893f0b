/** The shared request checks: the id guard in front of the `/dogs/:id`
    routes, the field validator used on creation, and the fallback that
    answers every exception a handler lets escape. */
module ErrorHandler {
  import opened Outcomes
  import opened Js
  import opened Http

  const AGE_MESSAGE := "age should be a number"
  const NAME_MESSAGE := "name should be a string"
  const DESCRIPTION_MESSAGE := "description should be a string"
  const ID_MESSAGE := "id should be a number"
  const FALLBACK_TEXT := "Something broke!"

  /** The last middleware: whatever was thrown (`err` is its stack, which is
      only logged), the answer is the same 500. */
  function ErrorHandleMiddleware(err: string): (r: Response)
    ensures r.Sent? && r.status == STATUS_INTERNAL_SERVER_ERROR
    ensures r.payload == Text(FALLBACK_TEXT)
  {
    Sent(STATUS_INTERNAL_SERVER_ERROR, Text(FALLBACK_TEXT))
  }

  /** The guard on `req.params.id`: None means it calls `next()` and sends
      nothing. It refuses only an absent or empty id and one whose numeric
      value is 0 or NaN, so negative and fractional ids get through. An id
      whose conversion throws goes, through Express, to the error middleware
      (a path segment is always a string, so this cannot happen on a route). */
  function ValidateRequestId(id: JsValue, parse: NumberParser): (r: Option<Response>)
    ensures !Converts(id) ==> r == Some(Sent(STATUS_INTERNAL_SERVER_ERROR, Text(FALLBACK_TEXT)))
    ensures Converts(id) ==>
      (r.Some? <==> id == Str("") || ToNumber(id, parse) == NaN || ToNumber(id, parse) == Integer(0))
    ensures Converts(id) && r.Some? ==> r.value == Sent(STATUS_BAD_REQUEST, Message(ID_MESSAGE))
  {
    if !Truthy(id) then
      Some(Sent(STATUS_BAD_REQUEST, Message(ID_MESSAGE)))
    else if !Converts(id) then
      Some(ErrorHandleMiddleware("TypeError: Cannot convert object to primitive value"))
    else if !Truthy(Num(ToNumber(id, parse))) then
      Some(Sent(STATUS_BAD_REQUEST, Message(ID_MESSAGE)))
    else
      None
  }

  /** An id whose numeric value is a non-zero integer or not an integer at
      all passes the guard: "-5" and "1.5" do. */
  lemma GuardAdmitsNonZeroNumbers(id: string, parse: NumberParser)
    requires id != ""
    requires parse(id) == NonInteger || (parse(id).Integer? && parse(id).value != 0)
    ensures ValidateRequestId(Str(id), parse) == None
  {
  }

  /** `age === null || isNaN(+age)`, for an age whose conversion answers. */
  predicate AgeRejected(age: JsValue, parse: NumberParser)
    requires Converts(age)
  {
    age == Null || ToNumber(age, parse) == NaN
  }

  /** The position of a validator message in the order the checks run. */
  function MessageRank(m: string): int {
    if m == AGE_MESSAGE then 0
    else if m == NAME_MESSAGE then 1
    else if m == DESCRIPTION_MESSAGE then 2
    else 3
  }

  /** One check's contribution: its message when it fails. */
  function Failing(failed: bool, message: string): seq<string> {
    if failed then [message] else []
  }

  /** What `checkErrors(age, name, description)` answers when it does not
      throw: the messages of the failing checks. */
  function ValidationErrors(age: JsValue, name: JsValue, description: JsValue, parse: NumberParser): (errors: seq<string>)
    requires Converts(age)
    ensures errors == [] <==> age != Null && ToNumber(age, parse) != NaN && name.Str? && description.Str?
    ensures AGE_MESSAGE in errors <==> AgeRejected(age, parse)
    ensures NAME_MESSAGE in errors <==> !name.Str?
    ensures DESCRIPTION_MESSAGE in errors <==> !description.Str?
    ensures forall m :: m in errors ==> m == AGE_MESSAGE || m == NAME_MESSAGE || m == DESCRIPTION_MESSAGE
    ensures |errors| <= 3
    ensures forall i, j :: 0 <= i < j < |errors| ==> MessageRank(errors[i]) < MessageRank(errors[j])
  {
    Failing(AgeRejected(age, parse), AGE_MESSAGE)
      + Failing(TypeOf(name) != "string", NAME_MESSAGE)
      + Failing(TypeOf(description) != "string", DESCRIPTION_MESSAGE)
  }

  /** checkErrors: collects the messages in a local list, one check after
      the other. `+age` throws on an unconvertible age, and then so does the
      call. */
  method CheckErrors(age: JsValue, name: JsValue, description: JsValue, parse: NumberParser)
    returns (r: Result<seq<string>>)
    ensures r.Threw? <==> !Converts(age)
    ensures r.Ok? ==> r.value == ValidationErrors(age, name, description, parse)
  {
    var errors := [];
    if age != Null && !Converts(age) {
      return Threw("TypeError: Cannot convert object to primitive value");
    }
    if age == Null || ToNumber(age, parse) == NaN {
      errors := errors + [AGE_MESSAGE];
    }
    assert errors == Failing(AgeRejected(age, parse), AGE_MESSAGE);
    if TypeOf(name) != "string" {
      errors := errors + [NAME_MESSAGE];
    }
    assert errors == Failing(AgeRejected(age, parse), AGE_MESSAGE)
      + Failing(TypeOf(name) != "string", NAME_MESSAGE);
    if TypeOf(description) != "string" {
      errors := errors + [DESCRIPTION_MESSAGE];
    }
    return Ok(errors);
  }

  /** A null age is refused although `+null` is 0. */
  lemma NullAgeRejected(name: JsValue, description: JsValue, parse: NumberParser)
    ensures ToNumber(Null, parse) == Integer(0)
    ensures ValidationErrors(Null, name, description, parse)[0] == AGE_MESSAGE
  {
  }

  /** Any age that is not null and converts to a number is accepted, whatever
      its type: true, "" and "3" among them. */
  lemma CoercibleAgesAccepted(parse: NumberParser)
    requires parse("") == Integer(0) && parse("3") == Integer(3)
    ensures ValidationErrors(Bool(true), Str("Rex"), Str("x"), parse) == []
    ensures ValidationErrors(Str(""), Str("Rex"), Str("x"), parse) == []
    ensures ValidationErrors(Str("3"), Str("Rex"), Str("x"), parse) == []
  {
  }

  /** A body such as {name: "Rex", age: "old", description: "x"} is refused
      for its age alone. */
  lemma NonNumericAgeRejected(parse: NumberParser)
    requires parse("old") == NaN
    ensures ValidationErrors(Str("old"), Str("Rex"), Str("x"), parse) == [AGE_MESSAGE]
  {
  }
}
