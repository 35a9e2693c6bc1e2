/** JavaScript truthiness, as the entity constructors use it, and the ordered
    "if (!field) throw" checks they run before assigning any field. */
module Validation {
  import opened Wrappers

  /** `!s` holds for a string exactly when it is empty. */
  predicate TruthyString(s: string) {
    s != ""
  }

  /** `!n` holds for a number when it is 0. */
  predicate TruthyNumber(n: int) {
    n != 0
  }

  /** `!o` holds for an object reference when it is `null` or `undefined`. */
  predicate Present<T>(o: Option<T>) {
    o.Some?
  }

  /** `!input.id` for an optional numeric id: absent or 0 is falsy. */
  predicate TruthyId(id: Option<int>) {
    id.Some? && id.value != 0
  }

  /** One step `if (!field) { throw new Error(message) }`: `passes` is the field's truthiness. */
  datatype Check = Check(passes: bool, message: string)

  /** Check `i` is the first one that fails. */
  ghost predicate FailsFirstAt(checks: seq<Check>, i: int) {
    0 <= i < |checks| && !checks[i].passes && forall j :: 0 <= j < i ==> checks[j].passes
  }

  /** Runs the checks in order and gives the message of the first failing one, if any. */
  function FirstFailure(checks: seq<Check>): (r: Option<string>)
    ensures r.None? <==> forall i :: 0 <= i < |checks| ==> checks[i].passes
    ensures forall i :: FailsFirstAt(checks, i) ==> r == Some(checks[i].message)
    decreases |checks|
  {
    if checks == [] then None
    else if !checks[0].passes then Some(checks[0].message)
    else
      var rest := FirstFailure(checks[1..]);
      assert forall i :: FailsFirstAt(checks, i) && i > 0 ==> FailsFirstAt(checks[1..], i - 1);
      rest
  }
}
