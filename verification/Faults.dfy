/** Failures that the models do not explain: I/O errors, crashes, refusals by code that is not modelled. */
module Faults {

  /** Decides whether such a failure happens here; in calm weather it does not. */
  method Mishap(calm: bool) returns (fails: bool)
    ensures calm ==> !fails
  {
    fails := *;
    if calm {
      fails := false;
    }
  }
}
