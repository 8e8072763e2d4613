/** Value types shared by the two screen models. */
module Common {

  /** An optional value; `None` stands for an absent JavaScript value (`undefined`, or `null` where the store delivers one). */
  datatype Option<+T> = None | Some(value: T)

  /** How the synchronous part of an (async) event handler ends. */
  datatype Completion =
    | Returned   // the handler reached its end or an early `return`
    | Suspended  // the handler waits at an `await`; its rest runs when the promise settles
    | Threw      // a TypeError was raised before any backend call; the handler's promise rejects

  /** How a backend promise settles. */
  datatype Outcome = Resolved | Rejected(message: string)
}
