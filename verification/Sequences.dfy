/** Lists without repetitions, the removal of one element, and lists put one after the other. */
module Sequences {

  ghost predicate Distinct<T>(s: seq<T>) { forall i, j | 0 <= i < j < |s| :: s[i] != s[j] }

  /** The list without the first `x` in it. */
  function Remove<T(==)>(s: seq<T>, x: T): (r: seq<T>) {
    if s == [] then [] else if s[0] == x then s[1..] else [s[0]] + Remove(s[1..], x)
  }

  lemma {:induction false} RemoveIs<T>(s: seq<T>, x: T)
    requires Distinct(s)
    ensures |Remove(s, x)| == |s| - (if x in s then 1 else 0) && Distinct(Remove(s, x))
    ensures forall y :: y in Remove(s, x) <==> y in s && y != x
  {
    if s != [] {
      assert s == [s[0]] + s[1..];
      assert s[0] !in s[1..];
      RemoveIs(s[1..], x);
    }
  }

  function Joined<T>(blocks: seq<seq<T>>): (s: seq<T>) {
    if blocks == [] then [] else blocks[0] + Joined(blocks[1..])
  }

  lemma {:induction false} JoinedMore<T>(blocks: seq<seq<T>>, last: seq<T>)
    ensures Joined(blocks + [last]) == Joined(blocks) + last
  {
    if blocks == [] {
      assert [last][1..] == [];
    } else {
      JoinedMore(blocks[1..], last);
      assert (blocks + [last])[1..] == blocks[1..] + [last];
    }
  }
}
