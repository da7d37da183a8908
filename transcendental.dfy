/**
 * The transcendental functions the pipelines call (numpy's exp, log and the `**` power).
 * Their actual values never matter to the properties proved here, so they are handed to the
 * model as arrow values and constrained only by the few facts the proofs use.
 */
module Transcendental {

  datatype Transcendentals = Transcendentals(
    exp: real -> real,
    ln: real -> real,
    pow: (real, real) -> real)
  {
    /** The only facts about exp and pow that the model relies on. */
    ghost predicate Sound()
    {
      && (forall x :: exp(x) > 0.0)
      && (forall x, e :: x >= 0.0 ==> pow(x, e) >= 0.0)
      && (forall e :: pow(1.0, e) == 1.0)
      && (forall e :: e > 0.0 ==> pow(0.0, e) == 0.0)
    }
  }
}
