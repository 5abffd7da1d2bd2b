/** Results shared by all modules. */
module Wrappers {

  /** A C string: the terminating NUL cannot occur inside. */
  type CString = s: string | '\0' !in s witness ""

  datatype Option<+T> = None | Some(value: T)

  /** How a step of a process ends. Dead means that the process was killed or the machine
      lost power just before the step; a caller passes it on with `:-`. */
  datatype Outcome = Alive | Dead {
    predicate IsFailure() { Dead? }

    function PropagateFailure(): Outcome
      requires IsFailure()
    {
      Dead
    }
  }
}
