/** The dog record and the request body it is made from. */
module Dogs {
  import opened Js

  /** The body keys a route accepts. */
  const KNOWN_KEYS: set<string> := {"name", "age", "breed", "description"}

  /** One own property of the parsed JSON body. */
  datatype Entry = Entry(key: string, value: JsValue)

  predicate DistinctKeys(entries: seq<Entry>) {
    forall i, j :: 0 <= i < j < |entries| ==> entries[i].key != entries[j].key
  }

  /** The parsed JSON body: its own properties, each key once, in the order
      Object.keys enumerates them. */
  type Body = entries: seq<Entry> | DistinctKeys(entries)

  /** Object.keys(body): each key once, in body order. */
  function Keys(body: Body): (keys: seq<string>)
    ensures |keys| == |body|
    ensures forall i :: 0 <= i < |body| ==> keys[i] == body[i].key
    ensures forall i, j :: 0 <= i < j < |keys| ==> keys[i] != keys[j]
  {
    seq(|body|, i requires 0 <= i < |body| => body[i].key)
  }

  /** `v` is what the body holds under `key`: the value of the entry with
      that key, undefined when there is none. */
  ghost predicate Holds(body: Body, key: string, v: JsValue) {
    && (forall i :: 0 <= i < |body| && body[i].key == key ==> v == body[i].value)
    && ((forall i :: 0 <= i < |body| ==> body[i].key != key) ==> v == Undefined)
  }

  /** `body[key]`, as destructuring reads it: undefined when absent. */
  function Field(body: Body, key: string): (v: JsValue)
    ensures Holds(body, key, v)
  {
    if body == [] then Undefined
    else if body[0].key == key then body[0].value
    else Field(body[1..], key)
  }

  /** The four fields a record is made of, as JavaScript values: the handlers
      forward what the body holds without converting it. */
  datatype DogData = DogData(name: JsValue, age: JsValue, breed: JsValue, description: JsValue)

  /** A stored record; `id` is assigned by the store. */
  datatype Dog = Dog(id: int, data: DogData)

  /** `const { name, age, breed, description } = req.body`: each of the four
      fields is the body's value under its key, as received, or undefined
      when the body lacks the key. */
  function Submitted(body: Body): (d: DogData)
    ensures Holds(body, "name", d.name) && Holds(body, "age", d.age)
    ensures Holds(body, "breed", d.breed) && Holds(body, "description", d.description)
  {
    DogData(Field(body, "name"), Field(body, "age"), Field(body, "breed"), Field(body, "description"))
  }

  /** The value the store keeps for a field of a new record: a field given
      as undefined is not given, and the column is left null. */
  function StoredValue(v: JsValue): (s: JsValue)
    ensures s != Undefined
    ensures v == Undefined ==> s == Null
    ensures v != Undefined ==> s == v
  {
    if v == Undefined then Null else v
  }

  /** The record fields the store keeps when it creates a record from `data`. */
  function AsStored(data: DogData): (r: DogData)
    ensures Complete(r)
    ensures data.name != Undefined ==> r.name == data.name
    ensures data.age != Undefined ==> r.age == data.age
    ensures data.breed != Undefined ==> r.breed == data.breed
    ensures data.description != Undefined ==> r.description == data.description
    ensures data.name == Undefined ==> r.name == Null
    ensures data.age == Undefined ==> r.age == Null
    ensures data.breed == Undefined ==> r.breed == Null
    ensures data.description == Undefined ==> r.description == Null
  {
    DogData(StoredValue(data.name), StoredValue(data.age), StoredValue(data.breed), StoredValue(data.description))
  }

  /** A stored record has a value (possibly null) in every field. */
  predicate Complete(data: DogData) {
    data.name != Undefined && data.age != Undefined && data.breed != Undefined && data.description != Undefined
  }

  /** A partial update as the store applies it: a field given as undefined is
      left as it is, any other value replaces it. */
  function Patch(current: JsValue, update: JsValue): JsValue {
    if update == Undefined then current else update
  }

  function Merge(current: DogData, update: DogData): DogData {
    DogData(Patch(current.name, update.name), Patch(current.age, update.age),
            Patch(current.breed, update.breed), Patch(current.description, update.description))
  }

  /** An update that gives no field leaves the record as it is. */
  lemma MergeNothing(current: DogData)
    ensures Merge(current, DogData(Undefined, Undefined, Undefined, Undefined)) == current
  {
  }

  /** Updating a stored record leaves a value (possibly null) in every field. */
  lemma MergeKeepsComplete(current: DogData, update: DogData)
    requires Complete(current)
    ensures Complete(Merge(current, update))
  {
  }

  /** Applying the same update twice is applying it once. */
  lemma MergeIdempotent(current: DogData, update: DogData)
    ensures Merge(Merge(current, update), update) == Merge(current, update)
  {
  }
}
