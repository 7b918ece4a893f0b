# Dog records service: request checks and route decisions

This project models the decision logic of a small HTTP service that keeps
"dog" records (name, age, breed, description, plus an id the datastore
assigns). The model covers three parts of the service:

- the field validator `checkErrors` (`src/error-handler.ts`);
- the id guard `validateRequestId` that sits in front of the `/dogs/:id` routes;
- the route handlers of `src/app.ts`. For each one the model fixes the
  order of its checks, the unknown-key check, and the status and body it
  answers for every outcome.

The store is a table `map<int, Dog>` with the CRUD semantics the handlers
assume.

Files, one module each:

- `outcomes.dfy` (`Outcomes`): `Option`, and `Result` for a call that may throw.
- `js_values.dfy` (`Js`): JavaScript values and the coercions the source relies on.
  - `ToNumber` stands for `+x` and `Number(x)`, `Truthy` for `if (x)` and `!x`,
    and `TypeOf` for `typeof`.
  - A number is only NaN, an integral value, or some other number.
  - Turning a string into a number is a parameter `parse`, so every result
    holds whatever that parser answers.
  - An object or array is converted through the string its `toString` gives.
  - `Unconvertible` is a value whose conversion to a primitive throws a
    TypeError: an object with its own `"toString"` key, such as
    `{"toString": 1}`, or an array that holds one at any depth. `ToNumber` is
    defined only for values that convert (`Converts`).
- `dogs.dfy` (`Dogs`): the request body and the record.
  - The body is a sequence of key/value entries, keys distinct, in
    `Object.keys` order.
  - `Field` reads a field as destructuring does: an absent field is `undefined`.
  - `Merge` is the partial update: an `undefined` field leaves the stored value
    as it is.
- `http.dfy` (`Http`): status codes (section 15 of RFC 9110) and responses.
  - `Unsent(500)` is a status that was set although nothing was sent.
- `error_handler.dfy` (`ErrorHandler`): the id guard, the field validator
  (the method `CheckErrors`, proved equal to the function `ValidationErrors`
  whenever it does not throw),
  and the fallback error middleware.
- `app.dfy` (`App`): the unknown-key check and the class `DogRoutes`.
  - `DogRoutes` has the fields `dogs` and `nextId`.
  - The store calls `FindMany`, `FindUnique`, `Create`, `Update` and `Delete`
    stand in for the ORM's `findMany`, `findUnique`, `create`, `update` and
    `delete`.
  - One method per route.
  - `DeleteTwice` shows two DELETEs of the same record one after the other.

Each store call takes a `fault` flag. It stands for the datastore throwing for
a reason the model does not decide, such as a lost connection or a value the
schema refuses.

The model follows what the code does. Several of these behaviours differ from
what a reader of the routes might expect: that ids are positive integers,
that POST stores age as a number, that DELETE looks the record up first, and
that a failed PATCH answers with a body.

- The id guard does not require a positive integer. `"-5"` passes, and the
  lookup answers 204. `"1.5"` passes too; the store then refuses a key that is
  not an integer. GET lets that exception reach the error middleware (500
  "Something broke!"), and DELETE answers 204.
- POST forwards `age` exactly as received; it is not converted to a number.
- DELETE does no lookup first. Any exception from the store's delete becomes 204.
- When the update throws, PATCH sets status 500 and sends nothing at all, not
  even an empty body.
- PATCH applies no type checks, only the unknown-key check.
- A record that is found is answered with the default status 200.

## Model

| member | source | states |
|---|---|---|
| `Js.ToNumber` | src/error-handler.ts:33 | defined for every value that converts: `+null` is 0, `+undefined` is NaN, `+true`/`+false` are 1/0, a number is itself, a string is what the parser makes of it, an object or array is what the parser makes of its toString text |
| `Js.TypeOf` | src/error-handler.ts:36-41 | `typeof v` is "string" exactly for strings; "object" exactly for null, objects and arrays |
| `Js.FalsyConvertsToNaNOrZero` | src/error-handler.ts:18 | a falsy value other than "" converts to NaN or 0, whatever the parser |
| `ErrorHandler.ErrorHandleMiddleware` | src/error-handler.ts:3-11 | whatever the error, the answer is 500 with the text "Something broke!" |
| `ErrorHandler.ValidateRequestId` | src/error-handler.ts:13-24 | for an id that converts: refuses with 400 {message: "id should be a number"} exactly when the id is "" or converts to NaN or 0, otherwise passes to the next handler and sends nothing; an id whose conversion throws ends in the error middleware's 500 "Something broke!" |
| `ErrorHandler.GuardAdmitsNonZeroNumbers` | src/error-handler.ts:18 | any non-empty id whose value is a non-zero integer (negative too) or a non-integer number passes the guard |
| `ErrorHandler.ValidationErrors` | src/error-handler.ts:26-44 | for an age that converts, the list is empty exactly when age is not null, `+age` is not NaN, and name and description are strings; each message is present exactly when its check fails; at most 3 messages, no repeats, always in the order age, name, description |
| `ErrorHandler.CheckErrors` | src/error-handler.ts:31-43 | throws exactly when `+age` throws (an unconvertible, non-null age); otherwise the list built push by push is the validator's answer |
| `ErrorHandler.NullAgeRejected` | src/error-handler.ts:33 | a null age is refused first although `+null` is 0 |
| `ErrorHandler.CoercibleAgesAccepted` | src/error-handler.ts:33 | `true`, `""` and `"3"` are accepted as ages |
| `ErrorHandler.NonNumericAgeRejected` | src/error-handler.ts:33-35 | an age "old" (NaN) with string name and description gives exactly ["age should be a number"] |
| `Dogs.Field` | src/app.ts:43-44 | a destructured field is the body's value under that key, undefined when the key is absent |
| `Dogs.Keys` | src/app.ts:45 | `Object.keys` of the body: one key per entry, in body order, no key twice |
| `Dogs.Submitted` | src/app.ts:83-89 | each of the four fields handed to the store is the value of the body's entry under that key, as received, and undefined when the body has no such entry |
| `Dogs.AsStored` | src/app.ts:61-68 | a created record has a value in every field: a field given as undefined is not given and is stored as null, any other value is stored as given |
| `Dogs.MergeKeepsComplete` | src/app.ts:100-110 | a partial update never leaves a stored field undefined |
| `Dogs.MergeNothing` | src/app.ts:104-109 | an update whose four fields are all undefined leaves the record as it was |
| `Dogs.MergeIdempotent` | src/app.ts:104-109 | applying the same update twice gives the same record as applying it once |
| `App.InvalidKeys` | src/app.ts:43-45 | a key is reported exactly when it is in the body and is not one of name, age, breed, description; never more keys than the body has |
| `App.InvalidKeysConcat` | src/app.ts:45 | the unknown keys keep the body's key order (the check distributes over concatenation) |
| `App.InvalidKeysDistinct` | src/app.ts:45 | each unknown key is reported once |
| `App.InvalidKeyMessageInjective` | src/app.ts:48-50 | two different keys never give the same message |
| `App.MessagesOf` | src/app.ts:48-50 | mapping distinct keys to their messages gives distinct messages |
| `App.InvalidKeyErrors` | src/app.ts:47-52 | the `{errors}` of the 400 answer: one message per unknown key, none repeated; empty exactly when every body key is one of the four known keys; `'<key>' is not a valid key` is listed exactly for the keys in the body that are not known |
| `App.InvalidKeyErrorsEmpty` | src/app.ts:47-52 | the mapped messages are empty exactly when every key of the body is known |
| `App.InvalidKeyErrorsNameEachKey` | src/app.ts:47-52 | the message `'<key>' is not a valid key` is among the mapped messages exactly for the body's unknown keys |
| `App.ValidatedFieldsKept` | src/app.ts:54-68 | a body that passes the validator reaches the store with name, age and description exactly as received; only an absent breed becomes null |
| `App.ListingIsUnique` | src/app.ts:18-21 | two listings of the same table are equal, so repeating GET /dogs with no write in between returns the same collection |
| `App.DogRoutes.FindMany` | src/app.ts:19 | lists every stored record once, by ascending id; throws only on a store fault |
| `App.DogRoutes.FindUnique` | src/app.ts:29-33 | throws on a fault or a key that is not an integer; otherwise the record under that id, or null when there is none |
| `App.DogRoutes.Create` | src/app.ts:61-68 | stores the fields under a fresh id, undefined ones as null, and answers that record; nothing changes when it throws |
| `App.DogRoutes.Update` | src/app.ts:100-110 | throws exactly on a fault, a key that is not an integer, or a missing record, and then changes nothing; otherwise replaces the fields that are not undefined and changes no other record |
| `App.DogRoutes.Delete` | src/app.ts:127-131 | throws exactly on a fault, a key that is not an integer, or a missing record; otherwise removes only that record and answers what it held |
| `App.DogRoutes.Root` | src/app.ts:14-16 | GET / answers 200 {message: "Hello World!"} |
| `App.DogRoutes.ListDogs` | src/app.ts:18-21 | GET /dogs answers 200 with every record by id; a store exception reaches the error middleware (500) |
| `App.DogRoutes.GetDog` | src/app.ts:23-40 | an id the guard refuses gets the guard's answer before the store is asked; then 500 from the middleware on a store exception, 204 when there is no record, else 200 with the record |
| `App.DogRoutes.PostDog` | src/app.ts:42-76 | unknown keys give 400 {errors} with one message per key; otherwise an age whose conversion throws makes the validator throw outside the try block, which the error middleware answers with 500 "Something broke!"; otherwise validator errors give 400 {errors}; otherwise a store exception gives 500 {errors: ["An unexpected error occurred"]}, and success gives 201 with the new record under a fresh id, its fields as received except that an absent one is null; every refusal leaves the store unchanged |
| `App.DogRoutes.PatchDog` | src/app.ts:78-117 | guard first, then unknown keys (400, store untouched), no type checks; a failed update sets 500 and sends nothing; success gives 201 with the merged record and changes only that record |
| `App.DogRoutes.DeleteDog` | src/app.ts:119-137 | guard first; no lookup; 200 with the deleted record and only that id removed, or 204 with nothing changed whenever the store throws |
| `App.DeleteTwice` | src/app.ts:126-135 | deleting the same record twice answers 200 with the record, then 204; only that record is gone |

## Left out

- Express app construction, `express.json()`, middleware registration and
  `app.listen` with its port choice: framework plumbing. An `Http.Response`
  stands for what is written to the client.
- The ORM client and its database. They are replaced by the map store of
  `DogRoutes`, with these assumed semantics:
  - `create` assigns the next id;
  - `create` and `update` treat a field given as undefined as not given: a new
    record has null there, an updated one keeps its value;
  - `update` and `delete` throw on a missing id;
  - every call throws on an id that is not an integer;
  - a call can also throw for a reason outside the model (the `fault` flag).
  The schema's own checks are such a reason; for example, an Int column given a
  string, or a required column left null. Apart from those cases the model
  stores the values it is given.
- The ORM's range limit on integer ids: an integer id with no record behaves
  as absent whatever its size.
- The order of `findMany` is assumed to be ascending id.
- Parsing of decimal text into IEEE-754 numbers behind `+x` and `Number(x)`:
  floating point. It is the `parse` parameter, and numbers keep only "NaN",
  "integral with this value" and "other".
- `Object.keys` puts integer-like keys first. The body is taken as already in
  `Object.keys` order.
- Logging (`console.error`, `console.log`) and the way `express-async-errors`
  carries a rejected promise to the error middleware. The model sends such an
  exception straight to `ErrorHandleMiddleware`.
- Concurrent requests: the service keeps no shared state of its own, so each
  handler runs as one atomic method on the store.
- Which strings convert to 0 is the parser's business: the guard refuses "0"
  or " " only when the parser answers 0 for them, as ECMAScript's does. The
  properties of the guard are proved for any parser.
