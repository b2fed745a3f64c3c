/** The endpoints of a connection are an append-only list with an index into it.  A path change
    sets the active endpoint of every connection in a group. */
module ActiveEndpoints {
  import opened Addresses

  datatype Member = Member(endpoints: seq<Address>, active: nat)

  predicate Valid(m: Member) { m.active < |m.endpoints| }

  predicate Distinct(m: Member) {
    forall i, j | 0 <= i < j < |m.endpoints| :: !SockaddrEqual(m.endpoints[i], m.endpoints[j])
  }

  function Active(m: Member): (a: Address)
    requires Valid(m)
  {
    m.endpoints[m.active]
  }

  /** Where `a` is first found, or the length of the list. */
  function Find(s: seq<Address>, a: Address): (i: nat)
    ensures i <= |s|
    ensures forall k | 0 <= k < i :: !SockaddrEqual(a, s[k])
    ensures i < |s| ==> SockaddrEqual(a, s[i])
  {
    if s == [] || SockaddrEqual(a, s[0]) then 0 else 1 + Find(s[1..], a)
  }

  function SetActive(m: Member, a: Address): (m': Member) {
    var i := Find(m.endpoints, a);
    Member(if i < |m.endpoints| then m.endpoints else m.endpoints + [a], i)
  }

  /** Found or appended: did the index move? */
  predicate Changed(m: Member, a: Address) {
    var i := Find(m.endpoints, a);
    i == |m.endpoints| || i != m.active
  }

  /** The index stays in range, the old list stays a prefix, no address is ever listed twice, and
      the reported flag means that the active address is a different one. */
  lemma SetActiveSelects(m: Member, a: Address)
    requires !a.Unspecified?
    ensures var m' := SetActive(m, a);
      && Valid(m') && Active(m') == a
      && m.endpoints <= m'.endpoints
      && (forall b :: b in m'.endpoints <==> b in m.endpoints || b == a)
      && |m'.endpoints| == |m.endpoints| + (if a in m.endpoints then 0 else 1)
      && (Distinct(m) ==> Distinct(m'))
      && (Distinct(m) && Valid(m) ==> (Changed(m, a) <==> Active(m) != a))
  {
    var i := Find(m.endpoints, a);
    if i < |m.endpoints| { assert m.endpoints[i] == a; }
  }

  lemma SetAgainIsQuiet(m: Member, a: Address)
    requires !a.Unspecified?
    ensures !Changed(SetActive(m, a), a) && SetActive(SetActive(m, a), a) == SetActive(m, a)
  {
    var m' := SetActive(m, a);
    SetActiveSelects(m, a);
    var i := Find(m'.endpoints, a);
    if Find(m.endpoints, a) == |m.endpoints| {
      assert forall k | 0 <= k < |m.endpoints| :: m'.endpoints[k] == m.endpoints[k];
      assert m'.endpoints[|m.endpoints|] == a;
    }
  }

  class Connection {
    var endpoints: seq<Address>
    var active: nat

    function Model(): (m: Member)
      reads this
    {
      Member(endpoints, active)
    }

    constructor (m: Member)
      ensures Model() == m
    {
      endpoints, active := m.endpoints, m.active;
    }

    method SetActiveEndpoint(a: Address) returns (changed: bool)
      requires !a.Unspecified?
      modifies this
      ensures Model() == SetActive(old(Model()), a) && Valid(Model())
      ensures changed == Changed(old(Model()), a)
    {
      ghost var i := Find(endpoints, a);
      for k := 0 to |endpoints|
        invariant k <= i && Model() == old(Model())
      {
        if SockaddrEqual(a, endpoints[k]) {
          changed := k != active;
          active := k;
          return;
        }
      }
      endpoints := endpoints + [a];
      active := |endpoints| - 1;
      changed := true;
    }
  }

  // ---------------------------------------------------------------- groups

  class Group {
    var connections: seq<Connection>   // in the order in which the table is walked

    constructor (connections: seq<Connection>)
      ensures this.connections == connections
    {
      this.connections := connections;
    }

    predicate NoneTwice()
      reads this
    {
      forall i, j | 0 <= i < j < |connections| :: connections[i] != connections[j]
    }

    function Members(): (s: seq<Member>)
      reads this, connections
    {
      seq(|connections|, i requires 0 <= i < |connections| reads this, connections => connections[i].Model())
    }

    /** Every connection is set in turn, and each overwrites the flag of the one before. */
    method SetActiveEndpoint(a: Address, before: bool) returns (changed: bool)
      requires NoneTwice() && !a.Unspecified?
      modifies connections
      ensures forall i | 0 <= i < |connections| :: connections[i].Model() == SetActive(old(connections[i].Model()), a)
      ensures changed == GroupChanged(old(Members()), a, before)
    {
      changed := before;
      for i := 0 to |connections|
        invariant forall k | 0 <= k < i :: connections[k].Model() == SetActive(old(connections[k].Model()), a)
        invariant forall k | i <= k < |connections| :: connections[k].Model() == old(connections[k].Model())
        invariant changed == if i == 0 then before else Changed(old(connections[i - 1].Model()), a)
      {
        assert forall k | 0 <= k < |connections| && k != i :: connections[k] != connections[i];
        changed := connections[i].SetActiveEndpoint(a);
      }
      assert connections != [] ==> old(Members())[|connections| - 1] == old(connections[|connections| - 1].Model());
    }
  }

  function GroupChanged(ms: seq<Member>, a: Address, before: bool): (b: bool) {
    if ms == [] then before else Changed(ms[|ms| - 1], a)
  }

  /** The members' active endpoints are the same address. */
  predicate Agree(ms: seq<Member>) {
    (forall i | 0 <= i < |ms| :: Valid(ms[i]) && Distinct(ms[i])) &&
    forall i, j | 0 <= i < j < |ms| :: Active(ms[i]) == Active(ms[j])
  }

  /** After a path change all members agree on the new address; if they agreed before, the flag
      says whether it is a new one. */
  lemma GroupFollows(ms: seq<Member>, after: seq<Member>, a: Address, before: bool)
    requires Agree(ms) && ms != [] && !a.Unspecified?
    requires |after| == |ms| && forall i | 0 <= i < |ms| :: after[i] == SetActive(ms[i], a)
    ensures Agree(after) && Active(after[0]) == a
    ensures GroupChanged(ms, a, before) <==> Active(ms[0]) != a
  {
    forall i | 0 <= i < |ms| ensures Valid(after[i]) && Distinct(after[i]) && Active(after[i]) == a {
      SetActiveSelects(ms[i], a);
    }
    SetActiveSelects(ms[|ms| - 1], a);
    assert Active(ms[0]) == Active(ms[|ms| - 1]);
  }

  predicate AllSound(ms: seq<Member>) { forall i | 0 <= i < |ms| :: Valid(ms[i]) && Distinct(ms[i]) }

  predicate SomeMove(ms: seq<Member>, a: Address)
    requires AllSound(ms)
  {
    exists i :: 0 <= i < |ms| && Active(ms[i]) != a
  }

  predicate AllMove(ms: seq<Member>, a: Address)
    requires AllSound(ms)
  {
    forall i | 0 <= i < |ms| :: Active(ms[i]) != a
  }

  /** In whatever order the table is walked, the flag tells whether a member moved. */
  ghost predicate FlagTells(ms: seq<Member>, a: Address, before: bool)
    requires AllSound(ms)
  {
    forall order | multiset(order) == multiset(ms) :: GroupChanged(order, a, before) <==> SomeMove(ms, a)
  }

  lemma LastOfOrder(ms: seq<Member>, order: seq<Member>, a: Address, before: bool)
    requires AllSound(ms) && ms != [] && !a.Unspecified? && multiset(order) == multiset(ms)
    ensures exists i :: 0 <= i < |ms| && (GroupChanged(order, a, before) <==> Active(ms[i]) != a)
  {
    assert |multiset(order)| == |multiset(ms)|;
    var last := order[|order| - 1];
    assert last in multiset(order);
    var i :| 0 <= i < |ms| && ms[i] == last;
    SetActiveSelects(ms[i], a);
  }

  lemma AnyCanBeLast(ms: seq<Member>, k: nat)
    requires k < |ms|
    ensures multiset(ms[..k] + ms[k + 1..] + [ms[k]]) == multiset(ms)
  {
    assert ms == ms[..k] + [ms[k]] + ms[k + 1..];
  }

  /** The flag tells whether any member moved, in whatever order the table is walked, exactly if all
      of them move or none does. */
  lemma FlagTellsIff(ms: seq<Member>, a: Address, before: bool)
    requires AllSound(ms) && ms != [] && !a.Unspecified?
    ensures FlagTells(ms, a, before) <==> AllMove(ms, a) || !SomeMove(ms, a)
  {
    if AllMove(ms, a) || !SomeMove(ms, a) {
      forall order | multiset(order) == multiset(ms)
        ensures GroupChanged(order, a, before) <==> SomeMove(ms, a)
      {
        LastOfOrder(ms, order, a, before);
        assert AllMove(ms, a) ==> Active(ms[0]) != a;
      }
    } else {
      var k :| 0 <= k < |ms| && Active(ms[k]) == a;
      AnyCanBeLast(ms, k);
      SetActiveSelects(ms[k], a);
      assert !GroupChanged(ms[..k] + ms[k + 1..] + [ms[k]], a, before);
    }
  }

  /** A move that the flag hides: the first member moves, the last one was there already. */
  lemma HiddenMove()
    ensures var ms := [Member([V4(1, 1), V4(2, 2)], 0), Member([V4(2, 2)], 0)];
      Changed(ms[0], V4(2, 2)) && !GroupChanged(ms, V4(2, 2), false)
  {
    var ms := [Member([V4(1, 1), V4(2, 2)], 0), Member([V4(2, 2)], 0)];
    assert Find([V4(1, 1), V4(2, 2)], V4(2, 2)) == 1;
    assert Find([V4(2, 2)], V4(2, 2)) == 0;
  }
}
