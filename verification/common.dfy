/** Values shared by the models of loadstore.py, memory.py and cache.py. */
module Common {

  /** The Python exceptions the modelled code can raise. */
  datatype Fault =
    | AssertionError   // a failed `assert`
    | IndexError       // `pop()` from an empty list, or a list index past the end

  /** The value of a call that either returns or raises. */
  datatype Result<T> = Ok(value: T) | Err(fault: Fault)

  /** The outcome of a call that returns nothing useful, or raises. */
  datatype Status = Pass | Fail(fault: Fault)

  /**
   * What an access process of the pipeline hands back: the result code of
   * its `(code, execstr)` pair and the simulated time it spent in timeouts.
   * The trace string is diagnostic and is not modelled.
   */
  datatype Response = Response(code: int, latency: nat)
}
