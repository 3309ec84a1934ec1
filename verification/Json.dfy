/** JSON documents as the service sees them once decoded, and the text columns
    that hold them. Decoding and encoding of the characters themselves is not
    modelled: a text is classified by what decoding it into an object yields. */
module Json {
  import opened Wrappers

  datatype Value =
    | Null
    | Bool(b: bool)
    | Num(n: real)
    | Str(s: string)
    | Arr(items: seq<Value>)
    | Obj(fields: map<string, Value>)

  type Object = map<string, Value>

  /** A JSON column. `Unparsable` covers every non-empty text that does not
      decode into an object, arrays and scalars included; `NullText` is the
      literal `null`, which decodes without error into a nil map. */
  datatype Text = Blank | Unparsable(raw: string) | NullText | Document(fields: Object)

  /** Decoding into an object: a decoding error yields the empty default, only
      the literal `null` yields the nil map. */
  function Decode(t: Text): (o: Option<Object>)
    ensures o.None? <==> t.NullText?
  {
    match t
    case Blank => Some(map[])
    case Unparsable(_) => Some(map[])
    case NullText => None
    case Document(fields) => Some(fields)
  }

  /** Decoding where a nil map is replaced by (or read as) an empty one. */
  function Fields(t: Text): Object {
    if t.Document? then t.fields else map[]
  }

  /** Reading a key of a decoded object: an absent key and an explicit null are
      both nil to the caller. */
  function Get(o: Object, key: string): Value {
    if key in o then o[key] else Null
  }

  /** A key holding a non-empty string. */
  predicate HoldsText(o: Object, key: string) {
    key in o && o[key].Str? && o[key].s != ""
  }

  /** A key holding a list with at least one item. */
  predicate HoldsList(o: Object, key: string) {
    key in o && o[key].Arr? && o[key].items != []
  }
}
