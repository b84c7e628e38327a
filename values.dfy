/** Python-level values, truthiness and the error kinds the models raise. */
module Values {

  datatype Option<+T> = None | Some(value: T)

  /** A decoded JSON value or an attribute value; `Null` is Python's `None`. */
  datatype Value =
    | Null
    | Bool(b: bool)
    | Int(i: int)
    | Str(s: string)
    | List(items: seq<Value>)
    | Dict(fields: map<string, Value>)

  /** Python truthiness: `None`, `False`, `0`, `""`, `[]` and `{}` are false. */
  predicate Truthy(v: Value)
  {
    match v
    case Null => false
    case Bool(b) => b
    case Int(i) => i != 0
    case Str(s) => s != ""
    case List(xs) => xs != []
    case Dict(m) => m != map[]
  }

  /** Python's `a or b`: the first operand when it is truthy, else the second. */
  function Or(a: Value, b: Value): (r: Value)
    ensures Truthy(a) ==> r == a
    ensures !Truthy(a) ==> r == b
  {
    if Truthy(a) then a else b
  }

  /** The exception classes raised by the modelled code. */
  datatype Error =
    | TypeError(message: string)
    | ValueError(field: string)        // an identity field missing after construction
    | AssertionError(message: string)
    | InvalidURL(url: string)
    | ClientException(message: string)
    | AttributeError(name: string)     // also: a lazy fetch the model does not perform
    | IndexError
    | KeyError(key: string)

  datatype Result<+T> = Ok(value: T) | Err(error: Error) {
    predicate IsFailure() { Err? }
    function PropagateFailure<U>(): Result<U>
      requires Err?
    {
      Err(error)
    }
    function Extract(): T
      requires Ok?
    {
      value
    }
  }

  /** How many of three optional constructor inputs are given (not `None`). */
  function CountGiven(a: bool, b: bool, c: bool): (n: nat)
    ensures n <= 3
    ensures n == 0 <==> !a && !b && !c
    ensures n == 1 <==> (a && !b && !c) || (!a && b && !c) || (!a && !b && c)
  {
    (if a then 1 else 0) + (if b then 1 else 0) + (if c then 1 else 0)
  }

  /** `v[key]` for a string key. */
  function Subscript(v: Value, key: string): (r: Result<Value>)
    ensures r.Ok? <==> v.Dict? && key in v.fields
    ensures r.Ok? ==> r.value == v.fields[key]
    ensures v.Dict? && key !in v.fields ==> r == Err(KeyError(key))
  {
    match v
    case Dict(m) => if key in m then Ok(m[key]) else Err(KeyError(key))
    case _ => Err(TypeError("object is not subscriptable by a string"))
  }

  /** `v[index]` on a list, with Python's negative indices counting from the end. */
  function ListIndex(v: Value, index: int): (r: Result<Value>)
    ensures r.Ok? <==> v.List? && -|v.items| <= index < |v.items|
    ensures r.Ok? && index >= 0 ==> r.value == v.items[index]
    ensures r.Ok? && index < 0 ==> r.value == v.items[|v.items| + index]
    ensures v.List? && !r.Ok? ==> r == Err(IndexError)
  {
    match v
    case List(xs) =>
      if 0 <= index < |xs| then Ok(xs[index])
      else if -|xs| <= index < 0 then Ok(xs[|xs| + index])
      else Err(IndexError)
    case _ => Err(TypeError("object is not a list"))
  }

  /** What `_fetch_info` hands to the request layer: an API path name, the
      fields formatted into that path, and the query parameters (or `None`). */
  datatype InfoRequest = InfoRequest(pathName: string, pathFields: map<string, Value>, params: Option<map<string, Value>>)
}
