/** The Python exceptions that the modelled code lets escape, and the result
    and option types that carry them in place of a raise. */
module Errors {

  datatype Error =
    | TypeError                  // a required argument was None
    | KeyError(key: string)      // a dictionary lookup missed
    | ValueError(message: string)
    | StopIteration              // next() on a CSV reader with no rows left
    | ZeroDivisionError
    | RuntimeError(message: string)

  /** What leaves an `async def` command when `e` is raised inside it: a
      `StopIteration` is turned into a `RuntimeError` (PEP 479), anything else
      passes unchanged. */
  function AsCoroutineError(e: Error): (r: Error)
    ensures e == StopIteration ==> r == RuntimeError("coroutine raised StopIteration")
    ensures e != StopIteration ==> r == e
  {
    if e == StopIteration then RuntimeError("coroutine raised StopIteration") else e
  }

  datatype Result<+T> = Ok(value: T) | Err(error: Error)

  datatype Option<+T> = None | Some(value: T)
}
