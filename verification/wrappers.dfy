/** Failure-carrying result types shared by every module of the model. */
module Wrappers {

  datatype Option<+T> = None | Some(value: T)

  /** An exception recorded by an inference request's completion callback.
      Only its identity matters: the pools store it and rethrow it unchanged. */
  datatype Fault = Fault(code: nat)

  /** The ways an operation of the model can fail, named after the exception
      the program throws (or the situation it ends up in). */
  datatype Error =
    | LogicError                 // std::logic_error
    | RuntimeError               // std::runtime_error
    | OutOfRange                 // std::out_of_range (`.at`, `std::stoi`)
    | InvalidArgument            // std::invalid_argument (`std::stoi`)
    | AssertionFailed            // OPENVINO_ASSERT, or an OpenCV assertion
    | Terminate                  // a bare `throw;` with no active exception
    | IndexError                 // Python IndexError
    | PyException                // Python `raise Exception(...)`
    | Unchecked                  // an access the program does not check (undefined behaviour)
    | Deadlock                   // a blocking wait that nothing pending can ever end
    | Rethrown(fault: Fault)     // a recorded inference exception, rethrown
  {
    /** A thrown exception, which a caller may catch or which may leave a
        thread, as opposed to undefined behaviour, `std::terminate` or a
        wait that never ends. */
    predicate IsException()
    {
      !(Unchecked? || Terminate? || Deadlock?)
    }
  }

  datatype Result<+T> = Ok(value: T) | Err(error: Error) {
    predicate IsFailure() { Err? }

    function PropagateFailure<U>(): Result<U>
      requires Err?
    {
      Err(error)
    }

    function Extract(): T
      requires Ok?
    {
      value
    }
  }

  /** The values of `rs` in order, or the first failure among them: the
      shape of a loop that builds one value per step and stops at the first
      exception. */
  function AllOk<T>(rs: seq<Result<T>>): (r: Result<seq<T>>)
    ensures r.Ok? <==> forall k :: 0 <= k < |rs| ==> rs[k].Ok?
    ensures r.Ok? ==> |r.value| == |rs| && forall k :: 0 <= k < |rs| ==> r.value[k] == rs[k].value
    ensures r.Err? ==> exists k :: 0 <= k < |rs| && rs[k] == Err(r.error) && forall k' :: 0 <= k' < k ==> rs[k'].Ok?
  {
    if |rs| == 0 then Ok([])
    else if rs[0].Err? then Err(rs[0].error)
    else
      match AllOk(rs[1..])
      case Err(e) =>
        assert exists k :: 0 <= k < |rs| - 1 && rs[1..][k] == Err(e) && forall k' :: 0 <= k' < k ==> rs[1..][k'].Ok?;
        var k :| 0 <= k < |rs| - 1 && rs[1..][k] == Err(e) && forall k' :: 0 <= k' < k ==> rs[1..][k'].Ok?;
        assert forall k' :: 0 <= k' < k + 1 ==> rs[k'].Ok? by {
          forall k' | 0 <= k' < k + 1 ensures rs[k'].Ok? {
            if k' > 0 { assert rs[k'] == rs[1..][k' - 1]; }
          }
        }
        Err(e)
      case Ok(rest) => Ok([rs[0].value] + rest)
  }
}
