/** Decoded device messages: the JSON values the fan reports, the documents
    (JSON objects) that carry them, and the few ways the commands read them. */
module Messages {
  import opened Results
  import opened Text

  /** A decoded JSON value. Non-integral numbers carry no value the model
      needs. */
  datatype Json =
    | JStr(s: string)
    | JInt(i: int)
    | JBool(b: bool)
    | JNull
    | JFloat
    | JList(items: seq<Json>)
    | JObj(fields: map<string, Json>)

  /** A JSON object, such as a whole message or its `product-state`. */
  type Doc = map<string, Json>

  /** `int(v)` on a decoded value: text is read as an integer literal, an
      integer (or boolean) stands for itself, and `None`, lists and objects
      raise. */
  function JsonToInt(v: Json): (r: Option<int>)
    ensures v.JStr? ==> r == ParseInteger(v.s)
    ensures v.JInt? ==> r == Some(v.i)
    ensures v.JBool? ==> r == Some(if v.b then 1 else 0)
    ensures (v.JNull? || v.JList? || v.JObj?) ==> r.None?
  {
    match v
    case JStr(s) => ParseInteger(s)
    case JInt(i) => Some(i)
    case JBool(b) => Some(if b then 1 else 0)
    case _ => None
  }

  /** `doc.get(key, {})` used as a condition: the nested object under `key`
      when it is present and non-empty. */
  function NestedObject(d: Doc, key: string): (r: Option<Doc>)
    ensures r.Some? <==> key in d && d[key].JObj? && |d[key].fields| > 0
    ensures r.Some? ==> r.value == d[key].fields
  {
    if key in d && d[key].JObj? && |d[key].fields| > 0 then Some(d[key].fields) else None
  }

  /** `doc.get(key, "OFF") == "ON"`. */
  predicate IsOn(d: Doc, key: string) {
    key in d && d[key] == JStr("ON")
  }

  /** Both angle keys of a sweep are present. */
  predicate HasAngles(d: Doc) {
    "osal" in d && "osau" in d
  }

  /** The object a device reports after accepting a STATE-SET command: each
      written key carries its written text. */
  function Echo(command: map<string, string>): (d: Doc)
    ensures d.Keys == command.Keys
    ensures forall k :: k in command ==> d[k] == JStr(command[k])
  {
    map k | k in command :: JStr(command[k])
  }

  /** A device state snapshot whose `product-state` is `ps`. */
  function Snapshot(ps: Doc): Doc {
    map["product-state" := JObj(ps)]
  }

  /** Reading back a 4-digit field written as text gives the number. */
  lemma PaddedFieldReads(n: nat)
    ensures JsonToInt(JStr(Pad4(n))) == Some(n)
  {
    Pad4RoundTrip(n);
  }
}
