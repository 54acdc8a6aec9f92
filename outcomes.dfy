/** The exceptions the family code raises, and the wrappers that carry them
    back to the caller instead of unwinding the stack. */
module Outcomes {

  /** The Python exception classes that the modelled code can raise. */
  datatype Error =
    | GenderError          // a parent role that the person's gender does not allow
    | GenealogicalError    // a second parent of one kind, or a person parenting themselves
    | PersonExistsError    // a person that is not registered in the family
    | TypeError            // a bad Person construction, or an unknown uid
    | ValueError           // an unknown display style
    | IndexError           // indexing an empty string or a too-short list
    | KeyError             // a missing key in a dictionary
    | NameError            // a handler that refers to an undefined variable
    | AttributeError       // reading a field of None

  datatype Option<+T> = None | Some(value: T)

  datatype Result<+T> = Ok(value: T) | Err(error: Error)

  /** The outcome of an operation that returns nothing but may raise. */
  datatype Outcome = Pass | Fail(error: Error)
}
