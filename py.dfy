/** Python runtime notions that the modelled code relies on: optional values,
    exceptions that escape a call, dynamically typed (JSON-like) values, their
    truthiness, and the `or` and `dict.get` operators. */
module Py {

  datatype Option<+T> = None | Some(value: T)

  /** The exceptions that the modelled code raises or lets escape. */
  datatype Exc =
    | AttributeError
    | TypeError
    | ValueError(message: string)
    /** A collaborator outside the model (HTTP, PDF conversion, LLM, vector store) raised. */
    | ExternalError(message: string)
    /** `from m import name` where module `m` binds no such name. */
    | ImportError(name: string)

  /** The outcome of a Python call: a value, or an exception that escaped it. */
  datatype Result<+T> = Ok(value: T) | Raise(exc: Exc) {
    predicate IsFailure() { Raise? }
    function PropagateFailure<U>(): Result<U>
      requires Raise?
    {
      Raise(exc)
    }
    function Extract(): T
      requires Ok?
    {
      value
    }
  }

  /** A dynamically typed value as decoded from JSON or returned by a library
      (floats are not distinguished from integers). */
  datatype Value =
    | Null
    | Bool(b: bool)
    | Int(i: int)
    | Str(s: string)
    | List(items: seq<Value>)
    | Dict(entries: map<string, Value>)

  /** Python truthiness: None, False, 0 and empty containers are falsy. */
  predicate Truthy(v: Value) {
    match v
    case Null => false
    case Bool(b) => b
    case Int(i) => i != 0
    case Str(s) => s != ""
    case List(xs) => xs != []
    case Dict(m) => m != map[]
  }

  /** `a or b`: the first operand when it is truthy, otherwise the second. */
  function Or(a: Value, b: Value): (r: Value)
    ensures Truthy(r) <==> Truthy(a) || Truthy(b)
    ensures !Truthy(r) ==> r == b
  {
    if Truthy(a) then a else b
  }

  /** `d.get(k, default)` on a dictionary: a present key wins even when its value is None. */
  function Get(d: map<string, Value>, k: string, default: Value): (r: Value)
    ensures k in d ==> r == d[k]
    ensures k !in d ==> r == default
  {
    if k in d then d[k] else default
  }

  /** `v.get(k, default)` on a value of unknown type: only a dictionary has `get`. */
  function GetOn(v: Value, k: string, default: Value): (r: Result<Value>)
    ensures r.Ok? <==> v.Dict?
    ensures v.Dict? ==> r.value == Get(v.entries, k, default)
    ensures r.Raise? ==> r.exc == AttributeError || r.exc == TypeError
  {
    if v.Dict? then Ok(Get(v.entries, k, default)) else Raise(AttributeError)
  }

  /** The items a `for` loop visits when they are then used as dictionaries:
      a list yields its items; an empty string or dictionary yields nothing;
      a non-empty string or dictionary yields strings, on which `.get` fails;
      anything else is not iterable. */
  function IterForGet(v: Value): (r: Result<seq<Value>>)
    ensures v.List? ==> r == Ok(v.items)
    ensures r.Ok? ==> v.List? || !Truthy(v)
    ensures r.Raise? ==> r.exc == AttributeError || r.exc == TypeError
  {
    match v
    case List(xs) => Ok(xs)
    case Str(s) => if s == "" then Ok([]) else Raise(AttributeError)
    case Dict(m) => if m == map[] then Ok([]) else Raise(AttributeError)
    case _ => Raise(TypeError)
  }

  /** Lift a list of strings to a Python list value. */
  function StrList(xs: seq<string>): (r: Value)
    ensures r.List? && |r.items| == |xs|
    ensures forall i :: 0 <= i < |xs| ==> r.items[i] == Str(xs[i])
  {
    List(seq(|xs|, i requires 0 <= i < |xs| => Str(xs[i])))
  }
}
