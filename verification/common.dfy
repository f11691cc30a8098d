/** Small value types shared by the models. */
module Common {

  datatype Option<+T> = None | Some(value: T)

  /** The last `n` elements of a sequence, or all of it when it is shorter. */
  function Last<T>(s: seq<T>, n: nat): (r: seq<T>)
  {
    if |s| <= n then s else s[|s| - n..]
  }

  /** Trimming after each append is the same as trimming the whole once. */
  lemma LastOfAppend<T>(s: seq<T>, x: T, n: nat)
    requires n > 0
    ensures Last(Last(s, n) + [x], n) == Last(s + [x], n)
  {
  }
}
