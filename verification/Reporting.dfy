/** The list of errors that the evidence validator grows in place. */
module Reporting {

  class Validation {
    var errors: seq<string>

    constructor ()
      ensures errors == []
    {
      errors := [];
    }

    method Error(path: string, message: string)
      modifies this
      ensures errors == old(errors) + [path + ": " + message]
    {
      errors := errors + [path + ": " + message];
    }
  }
}
