/** What several of the models use. */
module Common {

  datatype Option<T> = None | Some(value: T)

  /** The last `cap` of a list, which is all of a shorter one. */
  function Newest<T>(s: seq<T>, cap: nat): seq<T> {
    if |s| > cap then s[|s| - cap..] else s
  }

  lemma {:induction false} SubsetSize<T>(a: set<T>, b: set<T>)
    requires a <= b
    ensures |a| <= |b|
  {
    assert b == a + (b - a);
  }
}
