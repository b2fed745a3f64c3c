/** Before an attempt is started, the candidates' addresses are reduced to one list without
    duplicates, and the attempt is given the position of its own address in it. */
module AttemptEndpoints {
  import opened Addresses
  import opened Sequences

  /** The position at which `x` first occurs. */
  function FirstIndex<T(==)>(s: seq<T>, x: T): (k: nat)
    requires x in s
    ensures k < |s| && s[k] == x && x !in s[..k]
  {
    if s[0] == x then 0 else 1 + FirstIndex(s[1..], x)
  }

  /** `list` holds what `all` holds, once each, in the order of first occurrence. */
  ghost predicate FirstOccurrences<T>(all: seq<T>, list: seq<T>) {
    && (forall x | x in list :: x in all) && (forall x | x in all :: x in list)
    && (forall i, j | 0 <= i < j < |list| :: FirstIndex(all, list[i]) < FirstIndex(all, list[j]))
  }

  lemma {:induction false} FirstIndexOfPrefix<T>(s: seq<T>, t: seq<T>, x: T)
    requires x in s
    ensures FirstIndex(s + t, x) == FirstIndex(s, x)
  {
    if s[0] != x {
      assert (s + t)[1..] == s[1..] + t;
      FirstIndexOfPrefix(s[1..], t, x);
    }
  }

  /** Reading one more address: known ones leave the list alone, new ones go to its end. */
  lemma OneMore<T>(all: seq<T>, list: seq<T>, x: T)
    requires FirstOccurrences(all, list)
    ensures FirstOccurrences(all + [x], if x in list then list else list + [x])
  {
    var list' := if x in list then list else list + [x];
    forall i, j | 0 <= i < j < |list'|
      ensures FirstIndex(all + [x], list'[i]) < FirstIndex(all + [x], list'[j])
    {
      assert list'[i] == list[i] && list[i] in all;
      FirstIndexOfPrefix(all, [x], list[i]);
      if j < |list| {
        assert list[j] in all;
        FirstIndexOfPrefix(all, [x], list[j]);
      }
    }
  }

  method RemoveDuplicates(all: seq<Address>) returns (list: seq<Address>)
    ensures FirstOccurrences(all, list) && Distinct(list)
  {
    list := [];
    var seen: set<Address> := {};
    for i := 0 to |all|
      invariant FirstOccurrences(all[..i], list)
      invariant forall a :: a in seen <==> a in list
    {
      var a := all[i];
      assert all[..i + 1] == all[..i] + [a];
      OneMore(all[..i], list, a);
      if a !in seen {
        list, seen := list + [a], seen + {a};
      }
    }
    assert all[..|all|] == all;
    ListIsDistinct(all, list);
  }

  lemma ListIsDistinct<T>(all: seq<T>, list: seq<T>)
    requires FirstOccurrences(all, list)
    ensures Distinct(list)
  {
    forall i, j | 0 <= i < j < |list| ensures list[i] != list[j] {
      assert FirstIndex(all, list[i]) < FirstIndex(all, list[j]);
    }
  }

  /** Order of first occurrence pins the list down: no other list fits. */
  lemma OneListFits<T>(all: seq<T>, a: seq<T>, b: seq<T>)
    requires FirstOccurrences(all, a) && FirstOccurrences(all, b)
    ensures a == b
  {
    if b != [] { AgreeUpTo(all, a, b, |b| - 1); }
    if a != [] { AgreeUpTo(all, b, a, |a| - 1); }
  }

  lemma {:induction false} AgreeUpTo<T>(all: seq<T>, a: seq<T>, b: seq<T>, k: nat)
    requires FirstOccurrences(all, a) && FirstOccurrences(all, b) && k < |b|
    ensures k < |a| && a[..k + 1] == b[..k + 1]
  {
    if k > 0 { AgreeUpTo(all, a, b, k - 1); }
    assert k <= |a| && a[..k] == b[..k];
    NextAgrees(all, a, b, k);
    assert a[..k + 1] == a[..k] + [a[k]] && b[..k + 1] == b[..k] + [b[k]];
  }

  lemma NextAgrees<T>(all: seq<T>, a: seq<T>, b: seq<T>, k: nat)
    requires FirstOccurrences(all, a) && FirstOccurrences(all, b) && k < |b| && k <= |a| && a[..k] == b[..k]
    ensures k < |a| && a[k] == b[k]
  {
    var i := NotBefore(all, a, b, k);
    var j := NotBefore(all, b, a, k);
    InOrder(all, a, k, i);
    InOrder(all, b, k, j);
  }

  lemma InOrder<T>(all: seq<T>, list: seq<T>, i: nat, j: nat)
    requires FirstOccurrences(all, list) && i <= j < |list|
    ensures list[i] in all && list[j] in all
    ensures FirstIndex(all, list[i]) <= FirstIndex(all, list[j]) && (list[i] == list[j] ==> i == j)
  {}

  lemma NotBefore<T>(all: seq<T>, a: seq<T>, b: seq<T>, k: nat) returns (i: nat)
    requires FirstOccurrences(all, a) && FirstOccurrences(all, b) && k < |b| && k <= |a| && a[..k] == b[..k]
    ensures k <= i < |a| && a[i] == b[k]
  {
    assert b[k] in b && b[k] in all && b[k] in a;
    forall m | 0 <= m < k ensures a[m] != b[k] {
      assert a[m] == a[..k][m] == b[..k][m] == b[m];
      InOrder(all, b, m, k);
    }
    i :| 0 <= i < |a| && a[i] == b[k];
  }

  /** Where the attempt's own address is; 0 when it is nowhere. */
  method ActiveIndex(list: seq<Address>, own: Address) returns (active: nat)
    ensures own in list ==> active < |list| && list[active] == own
    ensures own !in list ==> active == 0
  {
    for i := 0 to |list|
      invariant own !in list[..i]
    {
      if list[i] == own { return i; }
    }
    return 0;
  }

  datatype Pair = Pair(local: Address, remote: Address)

  function Locals(candidates: seq<Pair>): (s: seq<Address>) {
    seq(|candidates|, k requires 0 <= k < |candidates| => candidates[k].local)
  }

  function Remotes(candidates: seq<Pair>): (s: seq<Address>) {
    seq(|candidates|, k requires 0 <= k < |candidates| => candidates[k].remote)
  }

  /** What an attempt hands to its connection: both lists cover every candidate, and the active
      indices select the attempt's own pair. */
  method EndpointsFor(candidates: seq<Pair>, attempt: nat)
      returns (locals: seq<Address>, activeLocal: nat, remotes: seq<Address>, activeRemote: nat)
    requires attempt < |candidates|
    ensures FirstOccurrences(Locals(candidates), locals) && FirstOccurrences(Remotes(candidates), remotes)
    ensures forall k | 0 <= k < |candidates| :: candidates[k].local in locals && candidates[k].remote in remotes
    ensures activeLocal < |locals| && activeRemote < |remotes|
    ensures Pair(locals[activeLocal], remotes[activeRemote]) == candidates[attempt]
  {
    remotes := RemoveDuplicates(Remotes(candidates));
    locals := RemoveDuplicates(Locals(candidates));
    forall k | 0 <= k < |candidates|
      ensures candidates[k].local in locals && candidates[k].remote in remotes
    {
      assert candidates[k].local == Locals(candidates)[k];
      assert candidates[k].remote == Remotes(candidates)[k];
    }
    activeRemote := ActiveIndex(remotes, candidates[attempt].remote);
    activeLocal := ActiveIndex(locals, candidates[attempt].local);
  }
}
