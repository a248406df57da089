/** Values of the scripting host (a JavaScript engine) as the bindings see them,
    and the Option/Result shapes used for the host's `null` and its exceptions. */
module Host {

  datatype Option<+T> = None | Some(value: T)

  /** An operation that either produces a value or throws a host exception
      carrying a message. */
  datatype Result<+T> = Ok(value: T) | Throw(message: string)

  /** Identity of a host object: the function template its constructor came from
      and a serial number that tells apart objects made from the same template. */
  datatype ObjId = ObjId(template: nat, serial: nat)

  /** A host value.  `External` is the engine's opaque wrapper around a raw native
      pointer; `Ref` is any host object (wrapper instances included). */
  datatype Value =
    | Undefined
    | Null
    | Boolean(b: bool)
    | Int(i: int)
    | Str(s: string)
    | Array(items: seq<Value>)
    | External(ptr: nat)
    | Ref(obj: ObjId)

  /** `args[i]` of a native call: reading past the end gives `undefined`. */
  function Arg(args: seq<Value>, i: nat): (v: Value)
    ensures i < |args| ==> v == args[i]
    ensures i >= |args| ==> v == Undefined
  {
    if i < |args| then args[i] else Undefined
  }

  /** The decimal text of an integer, as the host prints it. */
  function DecimalString(n: int): (r: string)
    ensures r != []
    decreases if n < 0 then 1 - n else n
  {
    if n < 0 then "-" + DecimalString(-n)
    else if n < 10 then [DigitChar(n)]
    else DecimalString(n / 10) + [DigitChar(n % 10)]
  }

  function DigitChar(d: int): char
    requires 0 <= d < 10
  {
    "0123456789"[d]
  }

  /** `v8::String::AsciiValue` of a host value: its string conversion.  Array
      elements are joined with commas, `undefined` and `null` elements
      contributing nothing. */
  function AsciiValue(v: Value): string
    decreases v, 1
  {
    match v
    case Undefined => "undefined"
    case Null => "null"
    case Boolean(b) => if b then "true" else "false"
    case Int(i) => DecimalString(i)
    case Str(s) => s
    case Array(items) => JoinedFrom(v, 0)
    case External(_) => "[object External]"
    case Ref(_) => "[object Object]"
  }

  function JoinedFrom(v: Value, i: nat): string
    requires v.Array? && i <= |v.items|
    decreases v, 0, |v.items| - i
  {
    if i == |v.items| then ""
    else
      var e := v.items[i];
      var text := if e.Undefined? || e.Null? then "" else AsciiValue(e);
      (if i == 0 then "" else ",") + text + JoinedFrom(v, i + 1)
  }
}
