/** Shared result types. */
module Wrappers {

  datatype Option<+T> = None | Some(value: T) {
    function GetOr(fallback: T): T {
      match this
      case Some(v) => v
      case None => fallback
    }
  }

  /** A value, or the error a method of the source throws. */
  datatype Result<+T, +E> = Ok(value: T) | Err(error: E)

  /** There is always a string that is not among these. */
  lemma {:induction false} UnusedString(used: set<string>) returns (x: string)
    ensures x !in used && forall u :: u in used ==> |u| < |x|
    decreases used
  {
    x := "x";
    if used != {} {
      var u :| u in used;
      var y := UnusedString(used - {u});
      x := if |u| < |y| then y else u + "x";
    }
  }
}
