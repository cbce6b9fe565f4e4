/** The JavaScript values the engine stores and tests, and the errors it raises. */
module Values {
  import opened Common

  /** A JavaScript value as far as the engine distinguishes values: the three "absent"
      values that `set` refuses, the primitive kinds whose truthiness differs, and objects.
      An object keeps its `_id` property (`Undefined` when it has none) and the names of
      its own properties, which is all `getId` and `Object.keys` look at. Numbers are
      integers here; fractions and infinities are not modelled. */
  datatype Value =
    | Undefined
    | Null
    | NaN
    | Bool(b: bool)
    | Num(n: int)
    | Str(s: string)
    | Obj(id: Value, keys: seq<string>)

  /** JavaScript truthiness (`!!v`). */
  predicate Truthy(v: Value) {
    match v
    case Undefined => false
    case Null => false
    case NaN => false
    case Bool(b) => b
    case Num(n) => n != 0
    case Str(s) => s != ""
    case Obj(_, _) => true
  }

  /** `_.isUndefined(v) || _.isNaN(v) || _.isNull(v)`: the values `set` ignores. */
  predicate Absent(v: Value) {
    v == Undefined || v == Null || v == NaN
  }

  /** `Object.keys(v)` for the values `set` passes to it (never a string). */
  function ObjectKeys(v: Value): seq<string> {
    if v.Obj? then v.keys else []
  }

  /** The errors the engine raises, by the JavaScript type that is thrown. */
  datatype Error =
    | VerifierError(code: nat, reason: string)  // an instance of Verifier.Error
    | MeteorError(code: nat, reason: string)    // an instance of Meteor.Error
    | Thrown(message: string)                   // a bare string thrown by the engine
    | UserError(raised: Error)                  // what a predicate's or a fetcher's own code threw
    | RuntimeFault(message: string)             // a TypeError raised by the JavaScript runtime

  /** The error's `message`: "<reason> [<code>]" for the two coded error types. */
  function ErrorText(e: Error): string {
    match e
    case VerifierError(code, reason) => reason + " [" + NatToString(code) + "]"
    case MeteorError(code, reason) => reason + " [" + NatToString(code) + "]"
    case Thrown(m) => m
    case UserError(e) => ErrorText(e)
    case RuntimeFault(m) => m
  }

  /** The one error class `verifies` turns into `false` (`e instanceof Verifier.Error`),
      whether the engine or user code threw it. */
  predicate Recoverable(e: Error) {
    match e
    case VerifierError(_, _) => true
    case UserError(raised) => Recoverable(raised)
    case _ => false
  }

  datatype Option<T> = None | Some(value: T) {
    function GetOr(default: T): T {
      if Some? then value else default
    }
  }

  datatype Result<T> = Ok(value: T) | Err(error: Error)

  /** The identifier `getId` extracts from a resolved value: a string, or a value whose
      `_id` is falsy, is returned as it is; an object's truthy `_id` is returned instead;
      reading `_id` of `undefined` or `null` is a TypeError. */
  function IdOf(v: Value): (r: Result<Value>)
    ensures r.Err? <==> v == Undefined || v == Null
    ensures r.Err? ==> r.error.RuntimeFault?
    ensures r.Ok? && r.value != v ==> v.Obj? && Truthy(v.id) && r.value == v.id
    ensures v.Obj? && Truthy(v.id) ==> r == Ok(v.id)
    ensures v.Str? ==> r == Ok(v)
  {
    match v
    case Undefined => Err(RuntimeFault("TypeError: Cannot read property '_id' of undefined"))
    case Null => Err(RuntimeFault("TypeError: Cannot read property '_id' of null"))
    case Obj(id, _) => if Truthy(id) then Ok(id) else Ok(v)
    case _ => Ok(v)
  }
}
