/** The routes of the service: GET /, GET /dogs, GET, PATCH and DELETE
    /dogs/:id, and POST /dogs, over a store of dog records. */
module App {
  import opened Outcomes
  import opened Js
  import opened Dogs
  import opened Http
  import opened ErrorHandler

  const GREETING := "Hello World!"
  const UNEXPECTED_MESSAGE := "An unexpected error occurred"

  // ---------------------------------------------------------------------
  // The unknown-key check shared by POST and PATCH.

  /** `Object.keys(rest)` after `const { name, age, breed, description, ...rest } = body`:
      the keys outside the known four, in the order they come. */
  function InvalidKeys(keys: seq<string>): (invalid: seq<string>)
    ensures forall k :: k in invalid <==> k in keys && k !in KNOWN_KEYS
    ensures |invalid| <= |keys|
  {
    if keys == [] then []
    else (if keys[0] in KNOWN_KEYS then [] else [keys[0]]) + InvalidKeys(keys[1..])
  }

  /** The check keeps the order of the keys: it distributes over concatenation. */
  lemma {:induction false} InvalidKeysConcat(a: seq<string>, b: seq<string>)
    ensures InvalidKeys(a + b) == InvalidKeys(a) + InvalidKeys(b)
  {
    if a == [] {
      assert a + b == b;
    } else {
      assert (a + b)[1..] == a[1..] + b;
      InvalidKeysConcat(a[1..], b);
    }
  }

  /** Distinct keys give distinct unknown keys. */
  lemma {:induction false} InvalidKeysDistinct(keys: seq<string>)
    requires forall i, j :: 0 <= i < j < |keys| ==> keys[i] != keys[j]
    ensures forall i, j :: 0 <= i < j < |InvalidKeys(keys)| ==> InvalidKeys(keys)[i] != InvalidKeys(keys)[j]
  {
    if keys != [] {
      InvalidKeysDistinct(keys[1..]);
      assert keys[0] !in keys[1..];
    }
  }

  function InvalidKeyMessage(key: string): string {
    "'" + key + "' is not a valid key"
  }

  /** Two keys are reported with the same message only when they are the same. */
  lemma InvalidKeyMessageInjective(a: string, b: string)
    requires InvalidKeyMessage(a) == InvalidKeyMessage(b)
    ensures a == b
  {
    var m := InvalidKeyMessage(a);
    assert |a| == |b|;
    assert a == m[1..1 + |a|];
    assert b == m[1..1 + |b|];
  }

  /** The `errors` a 400 answer lists: one message per unknown key, in body
      key order. It is empty exactly when every key is known, and a key's
      message is listed exactly when the key is in the body and unknown. */
  function InvalidKeyErrors(body: Body): (errors: seq<string>)
    ensures errors == [] <==> forall i :: 0 <= i < |body| ==> body[i].key in KNOWN_KEYS
    ensures forall key :: InvalidKeyMessage(key) in errors <==> key in Keys(body) && key !in KNOWN_KEYS
    ensures |errors| == |InvalidKeys(Keys(body))|
    ensures forall i, j :: 0 <= i < j < |errors| ==> errors[i] != errors[j]
  {
    InvalidKeysDistinct(Keys(body));
    InvalidKeyErrorsEmpty(body);
    InvalidKeyErrorsNameEachKeyAll(body);
    MessagesOf(InvalidKeys(Keys(body)))
  }

  /** `keys.map((key) => `'${key}' is not a valid key`)`: distinct keys
      give distinct messages, so each key is reported once. */
  function MessagesOf(keys: seq<string>): (errors: seq<string>)
    ensures (forall i, j :: 0 <= i < j < |keys| ==> keys[i] != keys[j]) ==>
      forall i, j :: 0 <= i < j < |errors| ==> errors[i] != errors[j]
  {
    var errors := seq(|keys|, i requires 0 <= i < |keys| => InvalidKeyMessage(keys[i]));
    forall i, j | 0 <= i < j < |errors| && errors[i] == errors[j]
      ensures keys[i] == keys[j]
    {
      InvalidKeyMessageInjective(keys[i], keys[j]);
    }
    errors
  }

  /** The list is empty exactly when every key of the body is known. */
  lemma InvalidKeyErrorsEmpty(body: Body)
    ensures MessagesOf(InvalidKeys(Keys(body))) == [] <==> forall i :: 0 <= i < |body| ==> body[i].key in KNOWN_KEYS
  {
    if MessagesOf(InvalidKeys(Keys(body))) == [] {
      forall i | 0 <= i < |body| ensures body[i].key in KNOWN_KEYS {
        assert Keys(body)[i] == body[i].key;
      }
    } else {
      var k := InvalidKeys(Keys(body))[0];
      assert k in InvalidKeys(Keys(body));
    }
  }

  /** Every unknown key of the body is named, and nothing else is. */
  lemma InvalidKeyErrorsNameEachKey(body: Body, key: string)
    ensures InvalidKeyMessage(key) in MessagesOf(InvalidKeys(Keys(body))) <==> key in Keys(body) && key !in KNOWN_KEYS
  {
    var invalid := InvalidKeys(Keys(body));
    var errors := MessagesOf(invalid);
    if InvalidKeyMessage(key) in errors {
      var i :| 0 <= i < |invalid| && errors[i] == InvalidKeyMessage(key);
      InvalidKeyMessageInjective(invalid[i], key);
    }
    if key in Keys(body) && key !in KNOWN_KEYS {
      var i :| 0 <= i < |invalid| && invalid[i] == key;
      assert errors[i] == InvalidKeyMessage(key);
    }
  }

  lemma InvalidKeyErrorsNameEachKeyAll(body: Body)
    ensures forall key :: InvalidKeyMessage(key) in MessagesOf(InvalidKeys(Keys(body))) <==> key in Keys(body) && key !in KNOWN_KEYS
  {
    forall key ensures InvalidKeyMessage(key) in MessagesOf(InvalidKeys(Keys(body))) <==> key in Keys(body) && key !in KNOWN_KEYS {
      InvalidKeyErrorsNameEachKey(body, key);
    }
  }

  /** The validator's answer on the body's fields, when its age converts. */
  function FieldErrors(body: Body, parse: NumberParser): seq<string>
    requires Converts(Field(body, "age"))
  {
    ValidationErrors(Field(body, "age"), Field(body, "name"), Field(body, "description"), parse)
  }

  /** A body that passes the validator has its name, age and description
      stored exactly as received; only an absent breed becomes null. */
  lemma ValidatedFieldsKept(body: Body, parse: NumberParser)
    requires Converts(Field(body, "age")) && FieldErrors(body, parse) == []
    ensures AsStored(Submitted(body)).name == Field(body, "name")
    ensures AsStored(Submitted(body)).age == Field(body, "age")
    ensures AsStored(Submitted(body)).description == Field(body, "description")
    ensures AsStored(Submitted(body)).breed == StoredValue(Field(body, "breed"))
  {
  }

  // ---------------------------------------------------------------------
  // Listing the store.

  predicate SortedById(rows: seq<Dog>) {
    forall i, j :: 0 <= i < j < |rows| ==> rows[i].id < rows[j].id
  }

  /** `rows` lists every record of `dogs` once, by ascending id. */
  ghost predicate ListsAll(rows: seq<Dog>, dogs: map<int, Dog>) {
    && SortedById(rows)
    && (forall i :: 0 <= i < |rows| ==> rows[i].id in dogs && dogs[rows[i].id] == rows[i])
    && (forall k :: k in dogs ==> dogs[k] in rows)
  }

  /** In a listing sorted by id the first record has the least id, and no
      other record has it. */
  lemma SortedHeadLeast(rows: seq<Dog>, k: int)
    requires SortedById(rows) && 0 <= k < |rows|
    ensures rows[0].id <= rows[k].id
    ensures rows[0].id == rows[k].id ==> k == 0
  {
  }

  lemma SameMembersSameEmptiness(a: seq<Dog>, b: seq<Dog>)
    requires forall d :: d in a <==> d in b
    ensures a == [] <==> b == []
  {
    if a != [] {
      assert a[0] in a;
    }
    if b != [] {
      assert b[0] in b;
    }
  }

  /** Two listings sorted by id with the same records are the same listing. */
  lemma {:induction false} SortedListingUnique(a: seq<Dog>, b: seq<Dog>)
    requires SortedById(a) && SortedById(b)
    requires forall d :: d in a <==> d in b
    ensures a == b
  {
    SameMembersSameEmptiness(a, b);
    if a != [] {
      assert b[0] in b && a[0] in a;
      var i :| 0 <= i < |a| && a[i] == b[0];
      var j :| 0 <= j < |b| && b[j] == a[0];
      SortedHeadLeast(a, i);
      SortedHeadLeast(b, j);
      assert a[0] == b[0];
      forall d ensures d in a[1..] <==> d in b[1..] {
        if d in a[1..] {
          var k :| 0 <= k < |a| - 1 && a[1..][k] == d;
          SortedHeadLeast(a, k + 1);
          assert a[k + 1] in a;
          var l :| 0 <= l < |b| && b[l] == d;
          assert l != 0;
          assert b[1..][l - 1] == d;
        }
        if d in b[1..] {
          var k :| 0 <= k < |b| - 1 && b[1..][k] == d;
          SortedHeadLeast(b, k + 1);
          assert b[k + 1] in b;
          var l :| 0 <= l < |a| && a[l] == d;
          assert l != 0;
          assert a[1..][l - 1] == d;
        }
      }
      SortedListingUnique(a[1..], b[1..]);
      assert a == [a[0]] + a[1..] && b == [b[0]] + b[1..];
    }
  }

  /** GET /dogs answers the same listing for the same store: repeating it
      with no write in between returns the same collection. */
  lemma ListingIsUnique(a: seq<Dog>, b: seq<Dog>, dogs: map<int, Dog>)
    requires ListsAll(a, dogs) && ListsAll(b, dogs)
    ensures a == b
  {
    forall d ensures d in a <==> d in b {
      if d in a {
        var i :| 0 <= i < |a| && a[i] == d;
        assert dogs[a[i].id] in b;
      }
      if d in b {
        var i :| 0 <= i < |b| && b[i] == d;
        assert dogs[b[i].id] in a;
      }
    }
    SortedListingUnique(a, b);
  }

  // ---------------------------------------------------------------------
  // The routes over the store.

  /** The service with the dog table it works on. The store calls
      (`findMany`, `findUnique`, `create`, `update`, `delete` of the ORM) are
      methods here with the CRUD semantics the handlers assume; each takes
      `fault`, which stands for the datastore throwing for a reason outside
      this model (a lost connection, a value the schema refuses). */
  class DogRoutes {
    /** The dog table, by id. */
    var dogs: map<int, Dog>
    /** The id the store assigns to the next record it creates. */
    var nextId: int

    /** Ids are positive, below the next one to assign, each record
        carries the id it is stored under, and no stored field is undefined. */
    ghost predicate Valid()
      reads this
    {
      1 <= nextId && forall k :: k in dogs ==> 1 <= k < nextId && dogs[k].id == k && Complete(dogs[k].data)
    }

    constructor ()
      ensures Valid() && dogs == map[] && nextId == 1
    {
      dogs := map[];
      nextId := 1;
    }

    /** prisma.dog.findMany: every record, by ascending id (the ids in use
        all lie below `nextId`). */
    method FindMany(fault: bool) returns (r: Result<seq<Dog>>)
      requires Valid()
      ensures r.Threw? <==> fault
      ensures r.Ok? ==> ListsAll(r.value, dogs)
    {
      if fault {
        return Threw("findMany failed");
      }
      var rows: seq<Dog> := [];
      var id := 1;
      while id < nextId
        invariant 1 <= id <= nextId
        invariant SortedById(rows)
        invariant forall i :: 0 <= i < |rows| ==> rows[i].id in dogs && dogs[rows[i].id] == rows[i] && rows[i].id < id
        invariant forall k :: k in dogs && k < id ==> dogs[k] in rows
      {
        if id in dogs {
          rows := rows + [dogs[id]];
        }
        id := id + 1;
      }
      return Ok(rows);
    }

    /** prisma.dog.findUnique: throws on an id that is not an integer,
        answers null when there is no such record. */
    method FindUnique(key: Number, fault: bool) returns (r: Result<Option<Dog>>)
      ensures r.Threw? <==> fault || !key.Integer?
      ensures r.Ok? && key.value in dogs ==> r.value == Some(dogs[key.value])
      ensures r.Ok? && key.value !in dogs ==> r.value == None
    {
      if fault || !key.Integer? {
        return Threw("findUnique failed");
      }
      if key.value in dogs {
        return Ok(Some(dogs[key.value]));
      }
      return Ok(None);
    }

    /** prisma.dog.create: stores the record under a fresh id; a field given
        as undefined is stored as null. */
    method Create(data: DogData, fault: bool) returns (r: Result<Dog>)
      requires Valid()
      modifies this
      ensures Valid()
      ensures r.Threw? <==> fault
      ensures r.Threw? ==> unchanged(this)
      ensures r.Ok? ==> old(nextId) !in old(dogs) && r.value == Dog(old(nextId), AsStored(data))
      ensures r.Ok? ==> dogs == old(dogs)[old(nextId) := r.value] && nextId == old(nextId) + 1
    {
      if fault {
        return Threw("create failed");
      }
      var dog := Dog(nextId, AsStored(data));
      dogs := dogs[nextId := dog];
      nextId := nextId + 1;
      return Ok(dog);
    }

    /** prisma.dog.update: throws when there is no record with that id,
        otherwise applies the fields given and answers the updated record. */
    method Update(key: Number, data: DogData, fault: bool) returns (r: Result<Dog>)
      requires Valid()
      modifies this
      ensures Valid()
      ensures r.Threw? <==> fault || !key.Integer? || key.value !in old(dogs)
      ensures r.Threw? ==> unchanged(this)
      ensures r.Ok? ==> r.value == Dog(key.value, Merge(old(dogs)[key.value].data, data))
      ensures r.Ok? ==> dogs == old(dogs)[key.value := r.value] && nextId == old(nextId)
    {
      if fault || !key.Integer? || key.value !in dogs {
        return Threw("update failed");
      }
      var dog := Dog(key.value, Merge(dogs[key.value].data, data));
      dogs := dogs[key.value := dog];
      return Ok(dog);
    }

    /** prisma.dog.delete: throws when there is no record with that id,
        otherwise removes it and answers what it held. */
    method Delete(key: Number, fault: bool) returns (r: Result<Dog>)
      requires Valid()
      modifies this
      ensures Valid()
      ensures r.Threw? <==> fault || !key.Integer? || key.value !in old(dogs)
      ensures r.Threw? ==> unchanged(this)
      ensures r.Ok? ==> r.value == old(dogs)[key.value]
      ensures r.Ok? ==> dogs == old(dogs) - {key.value} && nextId == old(nextId)
    {
      if fault || !key.Integer? || key.value !in dogs {
        return Threw("delete failed");
      }
      var dog := dogs[key.value];
      dogs := dogs - {key.value};
      return Ok(dog);
    }

    /** GET / */
    method Root() returns (res: Response)
      ensures res.Sent? && res.status == STATUS_OK && res.payload == Message(GREETING)
    {
      res := Sent(STATUS_OK, Message(GREETING));
    }

    /** GET /dogs: the whole table; a store exception goes to the error
        middleware. */
    method ListDogs(fault: bool) returns (res: Response)
      requires Valid()
      ensures fault ==> res == Sent(STATUS_INTERNAL_SERVER_ERROR, Text(FALLBACK_TEXT))
      ensures !fault ==> res.Sent? && res.status == STATUS_OK && res.payload.Records?
      ensures !fault ==> ListsAll(res.payload.dogs, dogs)
    {
      var found := FindMany(fault);
      if found.Threw? {
        return ErrorHandleMiddleware(found.error);
      }
      res := Sent(STATUS_OK, Records(found.value));
    }

    /** GET /dogs/:id behind the id guard: 204 when there is no such record,
        the record otherwise; a store exception goes to the error middleware. */
    method GetDog(id: JsValue, parse: NumberParser, fault: bool) returns (res: Response)
      ensures ValidateRequestId(id, parse).Some? ==> res == ValidateRequestId(id, parse).value
      ensures ValidateRequestId(id, parse).None? && (fault || !ToNumber(id, parse).Integer?) ==>
        res == Sent(STATUS_INTERNAL_SERVER_ERROR, Text(FALLBACK_TEXT))
      ensures ValidateRequestId(id, parse).None? && !fault && ToNumber(id, parse).Integer? ==>
        var key := ToNumber(id, parse).value;
        res == if key in dogs then Sent(STATUS_OK, Record(dogs[key])) else Sent(STATUS_NO_CONTENT, NoContent)
    {
      var guard := ValidateRequestId(id, parse);
      if guard.Some? {
        return guard.value;
      }
      var found := FindUnique(ToNumber(id, parse), fault);
      if found.Threw? {
        return ErrorHandleMiddleware(found.error);
      }
      if found.value.None? {
        return Sent(STATUS_NO_CONTENT, NoContent);
      }
      res := Sent(STATUS_OK, Record(found.value.value));
    }

    /** POST /dogs: unknown keys first, then the field validator, then the
        store; the fields are forwarded as they came. The validator runs
        outside the try block, so an age whose conversion throws reaches the
        error middleware. */
    method PostDog(body: Body, parse: NumberParser, fault: bool) returns (res: Response)
      requires Valid()
      modifies this
      ensures Valid()
      ensures InvalidKeyErrors(body) != [] ==>
        res == Sent(STATUS_BAD_REQUEST, Errors(InvalidKeyErrors(body))) && unchanged(this)
      ensures InvalidKeyErrors(body) == [] && !Converts(Field(body, "age")) ==>
        res == Sent(STATUS_INTERNAL_SERVER_ERROR, Text(FALLBACK_TEXT)) && unchanged(this)
      ensures InvalidKeyErrors(body) == [] && Converts(Field(body, "age")) && FieldErrors(body, parse) != [] ==>
        res == Sent(STATUS_BAD_REQUEST, Errors(FieldErrors(body, parse))) && unchanged(this)
      ensures InvalidKeyErrors(body) == [] && Converts(Field(body, "age")) && FieldErrors(body, parse) == [] && fault ==>
        res == Sent(STATUS_INTERNAL_SERVER_ERROR, Errors([UNEXPECTED_MESSAGE])) && unchanged(this)
      ensures InvalidKeyErrors(body) == [] && Converts(Field(body, "age")) && FieldErrors(body, parse) == [] && !fault ==>
        var created := Dog(old(nextId), AsStored(Submitted(body)));
        && old(nextId) !in old(dogs)
        && res == Sent(STATUS_CREATED, Record(created))
        && dogs == old(dogs)[created.id := created] && nextId == old(nextId) + 1
    {
      var invalid := InvalidKeyErrors(body);
      if |invalid| > 0 {
        return Sent(STATUS_BAD_REQUEST, Errors(invalid));
      }
      var data := Submitted(body);
      var checked := CheckErrors(data.age, data.name, data.description, parse);
      if checked.Threw? {
        return ErrorHandleMiddleware(checked.error);
      }
      if |checked.value| > 0 {
        return Sent(STATUS_BAD_REQUEST, Errors(checked.value));
      }
      var created := Create(data, fault);
      if created.Threw? {
        return Sent(STATUS_INTERNAL_SERVER_ERROR, Errors([UNEXPECTED_MESSAGE]));
      }
      res := Sent(STATUS_CREATED, Record(created.value));
    }

    /** PATCH /dogs/:id behind the id guard: unknown keys are refused, the
        field types are not checked, and a store exception sets 500 without
        sending anything. */
    method PatchDog(id: JsValue, body: Body, parse: NumberParser, fault: bool) returns (res: Response)
      requires Valid()
      modifies this
      ensures Valid()
      ensures ValidateRequestId(id, parse).Some? ==>
        res == ValidateRequestId(id, parse).value && unchanged(this)
      ensures ValidateRequestId(id, parse).None? && InvalidKeyErrors(body) != [] ==>
        res == Sent(STATUS_BAD_REQUEST, Errors(InvalidKeyErrors(body))) && unchanged(this)
      ensures ValidateRequestId(id, parse).None? && InvalidKeyErrors(body) == [] ==>
        var key := ToNumber(id, parse);
        if fault || !key.Integer? || key.value !in old(dogs) then
          res == Unsent(STATUS_INTERNAL_SERVER_ERROR) && unchanged(this)
        else
          var updated := Dog(key.value, Merge(old(dogs)[key.value].data, Submitted(body)));
          && res == Sent(STATUS_CREATED, Record(updated))
          && dogs == old(dogs)[key.value := updated] && nextId == old(nextId)
    {
      var guard := ValidateRequestId(id, parse);
      if guard.Some? {
        return guard.value;
      }
      var invalid := InvalidKeyErrors(body);
      if |invalid| > 0 {
        return Sent(STATUS_BAD_REQUEST, Errors(invalid));
      }
      var updated := Update(ToNumber(id, parse), Submitted(body), fault);
      if updated.Threw? {
        return Unsent(STATUS_INTERNAL_SERVER_ERROR);
      }
      res := Sent(STATUS_CREATED, Record(updated.value));
    }

    /** DELETE /dogs/:id behind the id guard: no lookup first; the deleted
        record with 200, or 204 whenever the store throws. */
    method DeleteDog(id: JsValue, parse: NumberParser, fault: bool) returns (res: Response)
      requires Valid()
      modifies this
      ensures Valid()
      ensures ValidateRequestId(id, parse).Some? ==>
        res == ValidateRequestId(id, parse).value && unchanged(this)
      ensures ValidateRequestId(id, parse).None? ==>
        var key := ToNumber(id, parse);
        if fault || !key.Integer? || key.value !in old(dogs) then
          res == Sent(STATUS_NO_CONTENT, NoContent) && unchanged(this)
        else
          && res == Sent(STATUS_OK, Record(old(dogs)[key.value]))
          && dogs == old(dogs) - {key.value} && nextId == old(nextId)
    {
      var guard := ValidateRequestId(id, parse);
      if guard.Some? {
        return guard.value;
      }
      var deleted := Delete(ToNumber(id, parse), fault);
      if deleted.Threw? {
        return Sent(STATUS_NO_CONTENT, NoContent);
      }
      res := Sent(STATUS_OK, Record(deleted.value));
    }
  }

  /** Deleting the same record twice: 200 with the record, then 204; only
      that record is gone. */
  method DeleteTwice(routes: DogRoutes, id: JsValue, parse: NumberParser) returns (first: Response, second: Response)
    requires routes.Valid()
    requires ValidateRequestId(id, parse).None?
    requires ToNumber(id, parse).Integer? && ToNumber(id, parse).value in routes.dogs
    modifies routes
    ensures routes.Valid()
    ensures first == Sent(STATUS_OK, Record(old(routes.dogs)[ToNumber(id, parse).value]))
    ensures second == Sent(STATUS_NO_CONTENT, NoContent)
    ensures routes.dogs == old(routes.dogs) - {ToNumber(id, parse).value}
  {
    first := routes.DeleteDog(id, parse, false);
    second := routes.DeleteDog(id, parse, false);
  }
}
