/** JSON values as the proxy manipulates them. Objects are finite maps: the source's
    map type keeps keys unique and its encoding does not depend on insertion order. */
module Json {
  datatype Option<+T> = None | Some(value: T)

  type byte = x: int | 0 <= x < 256

  datatype Value =
    | Null
    | Bool(b: bool)
    | Num(digits: string)
    | Str(text: string)
    | Arr(items: seq<Value>)
    | Obj(fields: map<string, Value>)
  {
    /** Field lookup; a non-object has no fields. */
    function Get(name: string): Option<Value> {
      if Obj? && name in fields then Some(fields[name]) else None
    }

    function AsStr(): Option<string> {
      if Str? then Some(text) else None
    }
  }

  /** A message body: bytes that parse as JSON, other UTF-8 text, or neither. */
  datatype Body = Parsed(value: Value) | Text(text: string) | Binary(bytes: seq<byte>)
}
