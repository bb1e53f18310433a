// Where a sequence stands inside another.

module Placement {
  predicate StandsAt<T(==)>(s: seq<T>, at: nat, w: seq<T>) {
    at + |w| <= |s| && s[at..at + |w|] == w
  }

  // The parts of what stands somewhere stand one behind the other.
  lemma {:induction false} PartsStand<T>(s: seq<T>, at: nat, a: seq<T>, b: seq<T>)
    requires StandsAt(s, at, a + b)
    ensures StandsAt(s, at, a) && StandsAt(s, at + |a|, b)
    ensures |a| > 0 ==> at < |s| && s[at] == a[0]
    ensures |b| > 0 ==> at + |a| < |s| && s[at + |a|] == b[0]
  {
    assert s[at..at + |a|] == (a + b)[..|a|];
    assert s[at + |a|..at + |a| + |b|] == (a + b)[|a|..];
  }
}
