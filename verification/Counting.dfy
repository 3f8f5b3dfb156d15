/** How often a number occurs in a sequence, and how large a set is. */
module Counting {
  ghost function Copies(numbers: seq<nat>, t: nat): nat { multiset(numbers)[t] }

  lemma CopiesJoined(p: seq<nat>, q: seq<nat>, t: nat)
    ensures Copies(p + q, t) == Copies(p, t) + Copies(q, t)
  {
  }

  lemma CopiesOfOne(k: nat, t: nat)
    ensures Copies([k], t) == if k == t then 1 else 0
  {
  }

  lemma CopyExists(numbers: seq<nat>, t: nat)
    ensures Copies(numbers, t) > 0 <==> t in numbers
  {
  }

  lemma SubsetIsNoLarger<T>(a: set<T>, b: set<T>)
    requires a <= b
    ensures |a| <= |b|
  {
    assert b == a + (b - a);
  }
}
