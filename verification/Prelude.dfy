/** Small shared vocabulary: optional values and sums over sequences. */
module Prelude {

  datatype Option<+T> = None | Some(value: T)

  /** The sum of `w(x)` over the elements of `s`. */
  ghost function Sum<T>(s: seq<T>, w: T -> nat): nat
  {
    if s == [] then 0 else w(s[0]) + Sum(s[1..], w)
  }

  lemma {:induction false} SumUpdate<T>(s: seq<T>, w: T -> nat, i: nat, x: T)
    requires i < |s|
    ensures Sum(s[i := x], w) + w(s[i]) == Sum(s, w) + w(x)
  {
    if i == 0 {
      assert s[i := x][1..] == s[1..];
    } else {
      assert s[i := x][1..] == s[1..][i - 1 := x];
      SumUpdate(s[1..], w, i - 1, x);
    }
  }
}
