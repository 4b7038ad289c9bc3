/** What all modules share: a value or nothing, and a few functions and facts on numbers and sequences. */
module Wrappers {
  datatype Option<+T> = None | Some(value: T) {
    function GetOr(default: T): T {
      match this
      case Some(v) => v
      case None => default
    }
  }

  function Max(a: int, b: int): int { if a >= b then a else b }
  function Min(a: int, b: int): int { if a <= b then a else b }
  function Abs(a: int): int { if a >= 0 then a else -a }

  ghost predicate Distinct<R>(s: seq<R>) {
    forall i, j :: 0 <= i < j < |s| ==> s[i] != s[j]
  }

  lemma Regroup<R>(s: seq<R>, t: seq<R>, u: seq<R>)
    ensures s + t + u == s + (t + u)
  {
  }
}
