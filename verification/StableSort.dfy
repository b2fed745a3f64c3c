/** A stable sort by rank, and why there is only one: the order of candidates is determined by
    their ranks and by the order in which they were found. */
module StableSort {
  import opened Selection

  predicate Sorted<T>(s: seq<T>, key: T -> Rank) {
    forall i, j | 0 <= i < j < |s| :: !Before(key(s[j]), key(s[i]))
  }

  /** The elements of one rank, in order. */
  function OfRank<T>(s: seq<T>, key: T -> Rank, r: Rank): (c: seq<T>) {
    if s == [] then [] else (if key(s[0]) == r then [s[0]] else []) + OfRank(s[1..], key, r)
  }

  /** `t` is `s` sorted, with ties in their old order. */
  ghost predicate StablySorted<T>(s: seq<T>, t: seq<T>, key: T -> Rank) {
    Sorted(t, key) && forall r :: OfRank(t, key, r) == OfRank(s, key, r)
  }

  function Insert<T>(x: T, s: seq<T>, key: T -> Rank): (t: seq<T>) {
    if s == [] || !Before(key(s[0]), key(x)) then [x] + s else [s[0]] + Insert(x, s[1..], key)
  }

  function Sort<T>(s: seq<T>, key: T -> Rank): (t: seq<T>) {
    if s == [] then [] else Insert(s[0], Sort(s[1..], key), key)
  }

  lemma {:induction false} InsertOfRank<T>(x: T, s: seq<T>, key: T -> Rank, r: Rank)
    ensures OfRank(Insert(x, s, key), key, r) == (if key(x) == r then [x] else []) + OfRank(s, key, r)
  {
    if s == [] || !Before(key(s[0]), key(x)) {
      assert ([x] + s)[1..] == s;
    } else {
      var t := Insert(x, s[1..], key);
      assert ([s[0]] + t)[1..] == t;
      InsertOfRank(x, s[1..], key, r);
    }
  }

  lemma {:induction false} InsertKeepsAll<T>(x: T, s: seq<T>, key: T -> Rank)
    ensures multiset(Insert(x, s, key)) == multiset(s) + multiset{x}
    ensures forall y | y in Insert(x, s, key) :: y == x || y in s
  {
    if s != [] && Before(key(s[0]), key(x)) {
      assert s == [s[0]] + s[1..];
      InsertKeepsAll(x, s[1..], key);
    }
  }

  lemma SortedMore<T>(x: T, s: seq<T>, key: T -> Rank)
    requires Sorted(s, key) && forall y | y in s :: !Before(key(y), key(x))
    ensures Sorted([x] + s, key)
  {}

  lemma {:induction false} InsertSorted<T>(x: T, s: seq<T>, key: T -> Rank)
    requires Sorted(s, key)
    ensures Sorted(Insert(x, s, key), key)
  {
    if s == [] || !Before(key(s[0]), key(x)) {
      forall y | y in s ensures !Before(key(y), key(x)) {
        if y != s[0] { assert !Before(key(y), key(s[0])); }
      }
      SortedMore(x, s, key);
    } else {
      InsertSorted(x, s[1..], key);
      InsertKeepsAll(x, s[1..], key);
      SortedMore(s[0], Insert(x, s[1..], key), key);
    }
  }

  lemma {:induction false} SortIsStable<T>(s: seq<T>, key: T -> Rank)
    ensures StablySorted(s, Sort(s, key), key)
    ensures multiset(Sort(s, key)) == multiset(s)
  {
    if s != [] {
      SortIsStable(s[1..], key);
      InsertSorted(s[0], Sort(s[1..], key), key);
      InsertKeepsAll(s[0], Sort(s[1..], key), key);
      assert s == [s[0]] + s[1..];
      forall r ensures OfRank(Sort(s, key), key, r) == OfRank(s, key, r) {
        InsertOfRank(s[0], Sort(s[1..], key), key, r);
      }
    }
  }

  lemma {:induction false} OfRankMember<T>(s: seq<T>, key: T -> Rank, r: Rank)
    ensures OfRank(s, key, r) != [] <==> exists i :: 0 <= i < |s| && key(s[i]) == r
    ensures forall i | 0 <= i < |OfRank(s, key, r)| :: key(OfRank(s, key, r)[i]) == r
  {
    if s != [] {
      OfRankMember(s[1..], key, r);
      if exists i :: 0 <= i < |s| && key(s[i]) == r {
        var i :| 0 <= i < |s| && key(s[i]) == r;
        if i > 0 { assert s[1..][i - 1] == s[i]; }
      }
    }
  }

  /** A sorted list starts with its best rank, whichever list it is. */
  lemma SameBest<T>(a: seq<T>, b: seq<T>, key: T -> Rank)
    requires Sorted(a, key) && Sorted(b, key) && a != [] && b != []
    requires forall r :: OfRank(a, key, r) == OfRank(b, key, r)
    ensures a[0] == b[0]
  {
    OfRankMember(a, key, key(b[0]));
    OfRankMember(b, key, key(b[0]));
    var i :| 0 <= i < |a| && key(a[i]) == key(b[0]);
    OfRankMember(a, key, key(a[0]));
    OfRankMember(b, key, key(a[0]));
    var j :| 0 <= j < |b| && key(b[j]) == key(a[0]);
    assert key(a[0]) == key(b[0]);
    assert OfRank(a, key, key(a[0]))[0] == a[0];
    assert OfRank(b, key, key(a[0]))[0] == b[0];
  }

  /** Two stable sorts of the same list are the same list. */
  lemma {:induction false} OneStableSort<T>(a: seq<T>, b: seq<T>, key: T -> Rank)
    requires Sorted(a, key) && Sorted(b, key)
    requires forall r :: OfRank(a, key, r) == OfRank(b, key, r)
    ensures a == b
  {
    if a == [] {
      if b != [] { OfRankMember(b, key, key(b[0])); assert false; }
    } else if b == [] {
      OfRankMember(a, key, key(a[0]));
      assert false;
    } else {
      SameBest(a, b, key);
      forall r ensures OfRank(a[1..], key, r) == OfRank(b[1..], key, r) {
        var head := if key(a[0]) == r then [a[0]] else [];
        assert OfRank(a, key, r)[|head|..] == OfRank(a[1..], key, r);
        assert OfRank(b, key, r)[|head|..] == OfRank(b[1..], key, r);
      }
      OneStableSort(a[1..], b[1..], key);
      assert a == [a[0]] + a[1..] && b == [b[0]] + b[1..];
    }
  }

  lemma SortIsTheStableSort<T>(s: seq<T>, t: seq<T>, key: T -> Rank)
    requires StablySorted(s, t, key)
    ensures t == Sort(s, key)
  {
    SortIsStable(s, key);
    OneStableSort(t, Sort(s, key), key);
  }
}
