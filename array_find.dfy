/**
 * JavaScript's `Array.prototype.find`: scan left to right and return the
 * first element the predicate accepts, or nothing when none does.
 */
module ArrayFind {
  import opened Wrappers

  /** `i` is the index of the first element of `s` that `pred` accepts. */
  ghost predicate IsFirstMatch<T>(s: seq<T>, pred: T -> bool, i: int) {
    0 <= i < |s| && pred(s[i]) && forall j :: 0 <= j < i ==> !pred(s[j])
  }

  /** The index `find` stops at, if any. */
  function FindIndex<T>(s: seq<T>, pred: T -> bool): (r: Option<nat>)
    ensures r.Some? ==> IsFirstMatch(s, pred, r.value)
    ensures r.None? <==> forall j :: 0 <= j < |s| ==> !pred(s[j])
  {
    if |s| == 0 then None
    else if pred(s[0]) then Some(0)
    else match FindIndex(s[1..], pred)
      case None => None
      case Some(i) => Some(i + 1)
  }

  /** `s.find(pred)`, with `undefined` as `None`. */
  function Find<T>(s: seq<T>, pred: T -> bool): (r: Option<T>)
    ensures r.Some? ==> pred(r.value) && r.value in s
    ensures r.Some? ==> exists i :: IsFirstMatch(s, pred, i) && s[i] == r.value
    ensures r.None? <==> forall x :: x in s ==> !pred(x)
  {
    match FindIndex(s, pred)
    case None => None
    case Some(i) => Some(s[i])
  }

  /** The first match is unique, so `FindIndex` returns it. */
  lemma FindIndexIsFirstMatch<T>(s: seq<T>, pred: T -> bool, i: int)
    requires IsFirstMatch(s, pred, i)
    ensures FindIndex(s, pred) == Some(i)
  {
  }

  /** Two predicates that agree on every element of `s` stop `find` at the same index. */
  lemma {:induction false} FindIndexCongruent<T>(s: seq<T>, f: T -> bool, g: T -> bool)
    requires forall j :: 0 <= j < |s| ==> f(s[j]) == g(s[j])
    ensures FindIndex(s, f) == FindIndex(s, g)
  {
    if |s| > 0 && !f(s[0]) {
      FindIndexCongruent(s[1..], f, g);
    }
  }
}
