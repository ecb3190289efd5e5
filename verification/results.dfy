/**
 The value types shared by every mediator: the two-variant outcome of an
 actor's `test`, the outcome of a computation that may throw, and an
 optional value.
 */
module Results {

  /** An optional value: `None` marks an absent value. */
  datatype Option<+T> = None | Some(value: T)

  /** The result of a computation that may throw an `Error`: `Ok` carries the
      value, `Error` the thrown error's message. */
  datatype Result<+T> = Ok(value: T) | Error(message: string)

  /** The outcome of an actor's `test`: accepted with a value, or rejected
      with a reason. A rejection is a value, not an exception. */
  datatype TestResult<+T> = Pass(value: T) | Fail(message: string) {

    predicate IsFailed() {
      Fail?
    }
  }

  /** Unwraps an accepted result; a rejected one throws an error carrying
      its reason. */
  function GetOrThrow<T>(result: TestResult<T>): (r: Result<T>)
    ensures r.Ok? <==> result.Pass?
    ensures r.Ok? ==> result == Pass(r.value)
    ensures r.Error? ==> result == Fail(r.message)
  {
    match result
    case Pass(v) => Ok(v)
    case Fail(m) => Error(m)
  }

  /** Applies `GetOrThrow` to every result from left to right, as
      `results.map(result => result.getOrThrow())` does: the first rejected
      result throws and the rest are not looked at. */
  function GetAllOrThrow<T>(results: seq<TestResult<T>>): (r: Result<seq<T>>)
    ensures r.Ok? <==> forall i :: 0 <= i < |results| ==> results[i].Pass?
    ensures r.Ok? ==> |r.value| == |results|
    ensures r.Ok? ==> forall i :: 0 <= i < |results| ==> results[i] == Pass(r.value[i])
    ensures r.Error? ==>
      exists i :: 0 <= i < |results| && results[i] == Fail(r.message)
        && forall j :: 0 <= j < i ==> results[j].Pass?
    decreases |results|
  {
    if |results| == 0 then Ok([])
    else
      match GetOrThrow(results[0])
      case Error(m) => Error(m)
      case Ok(v) =>
        match GetAllOrThrow(results[1..])
        case Error(m) =>
          assert forall i :: 0 <= i < |results| - 1 ==> results[1..][i] == results[i + 1];
          Error(m)
        case Ok(vs) => Ok([v] + vs)
  }
}
