/** Shared vocabulary of the model. */
module Basics {

  datatype Option<+T> = None | Some(value: T)

  /** What `securefile.WriteFileAtomic` can do: fail before the rename (nothing
      changed), fail after it (file replaced, error reported), or succeed. */
  datatype WriteOutcome = FailedBefore | FailedAfter | Written

  /** Content of the file after an attempted atomic write of `next`. */
  function FileAfter<T>(file: T, next: T, outcome: WriteOutcome): T {
    if outcome.FailedBefore? then file else next
  }

  /** Least index satisfying `p`, or -1. */
  function FirstIndex<T>(s: seq<T>, p: T -> bool, from: nat := 0): (r: int)
    requires from <= |s|
    ensures r == -1 || from <= r < |s|
    ensures r >= 0 ==> p(s[r]) && forall j | from <= j < r :: !p(s[j])
    ensures r < 0 ==> forall j | from <= j < |s| :: !p(s[j])
    decreases |s| - from
  {
    if from == |s| then -1 else if p(s[from]) then from else FirstIndex(s, p, from + 1)
  }
}
