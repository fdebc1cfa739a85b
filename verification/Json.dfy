/** Decoded JSON values and the accessors of internal/jsonutil. */
module Json {
  import opened Text

  /** `Num` is an integer literal, `Frac` a literal with a fraction or an exponent. */
  datatype Json =
    | Null
    | Bool(b: bool)
    | Num(n: int)
    | Frac(r: real)
    | Str(s: string)
    | Arr(elems: seq<Json>)
    | Obj(fields: Fields)

  type Fields = map<string, Json>

  /** jsonutil.StringValue(raw[key]): "" unless the field is a string. */
  function StringValue(raw: Fields, key: string): string {
    if key in raw && raw[key].Str? then raw[key].s else ""
  }

  /** jsonutil.MapValue: None stands for Go's nil map. */
  function MapValue(raw: Fields, key: string): Option<Fields> {
    if key in raw && raw[key].Obj? then Some(raw[key].fields) else None
  }

  /** Reading from a nil map is reading from an empty one. */
  function OrEmpty(m: Option<Fields>): Fields {
    if m.Some? then m.value else map[]
  }

  /** jsonutil.FirstMap of two candidates: the first that is not empty. */
  function FirstMap(a: Option<Fields>, b: Option<Fields>): Option<Fields> {
    if a.Some? && a.value != map[] then a
    else if b.Some? && b.value != map[] then b
    else None
  }

  /** The object elements of an array. */
  function ObjectsOf(elems: seq<Json>): seq<Fields> {
    if elems == [] then []
    else (if elems[0].Obj? then [elems[0].fields] else []) + ObjectsOf(elems[1..])
  }

  /** jsonutil.SliceOfMaps(raw[key]). */
  function SliceOfMaps(raw: Fields, key: string): seq<Fields> {
    if key in raw && raw[key].Arr? then ObjectsOf(raw[key].elems) else []
  }

  /** turn.intValue(raw["output_index"]), with -1 for a missing or non-integer index. */
  function OutputIndexOf(raw: Fields): int {
    if "output_index" in raw && raw["output_index"].Num? then raw["output_index"].n else -1
  }
}
