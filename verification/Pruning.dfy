/** Pruning: three level-order passes collect what has to go, two of them stopping early, and the
    collected nodes are then cut out of the tree one by one. */
module Pruning {
  import opened Selection
  import opened CandidateTree

  // ---------------------------------------------------------------- the three passes

  /** The incompatible nodes of one type, in the order visited. */
  function UnfitOf(order: seq<Visit>, t: NodeType, w: Wanted): (ids: seq<Id>) {
    if order == [] then [] else
      var v := order[|order| - 1];
      UnfitOf(order[..|order| - 1], t, w) + if v.data.nodeType == t && Unfit(v, w) then [v.id] else []
  }

  /** What a level-order traversal of a tree looks like. */
  predicate TreeOrder(order: seq<Visit>) {
    && Levelled(order)
    && forall i | 0 <= i < |order| ::
         |order[i].id| <= 4 && order[i].data.nodeType == TypeAt(|order[i].id|) && WellFormed(order[i].data)
  }

  lemma {:induction false} NoneLater(order: seq<Visit>, t: NodeType, w: Wanted, i: nat)
    requires i <= |order| && forall k | i <= k < |order| :: order[k].data.nodeType != t
    ensures UnfitOf(order, t, w) == UnfitOf(order[..i], t, w)
  {
    if i < |order| {
      NoneLater(order[..|order| - 1], t, w, i);
      assert order[..|order| - 1][..i] == order[..i];
    } else {
      assert order[..i] == order;
    }
  }

  method GatherEndpoints(order: seq<Visit>, w: Wanted) returns (list: seq<Id>)
    requires TreeOrder(order)
    ensures list == UnfitOf(order, EndpointNode, w)
  {
    list := [];
    for i := 0 to |order|
      invariant list == UnfitOf(order[..i], EndpointNode, w)
    {
      assert order[..i + 1][..i] == order[..i];
      var v := order[i];
      if v.data.nodeType == EndpointNode {
        if !EndpointFits(v.data.local.value, v.data.remote.value) { list := list + [v.id]; }
      }
    }
    assert order[..|order|] == order;
  }

  /** Stops at the first endpoint; deeper nodes come later, so no protocol is missed. */
  method GatherProtocols(order: seq<Visit>, w: Wanted) returns (list: seq<Id>)
    requires TreeOrder(order)
    ensures list == UnfitOf(order, ProtocolNode, w)
  {
    list := [];
    for i := 0 to |order|
      invariant list == UnfitOf(order[..i], ProtocolNode, w)
    {
      assert order[..i + 1][..i] == order[..i];
      var v := order[i];
      if v.data.nodeType == EndpointNode {
        NoneLater(order, ProtocolNode, w, i);
        return;
      }
      if v.data.nodeType == ProtocolNode {
        var ok := ProtocolSupports(v.data.option.value.protocol, w.desired);
        if !ok { list := list + [v.id]; }
      }
    }
    assert order[..|order|] == order;
  }

  /** Sees only nodes with children and stops at the first one below the paths. */
  method GatherPaths(order: seq<Visit>, w: Wanted) returns (list: seq<Id>)
    requires TreeOrder(order)
    ensures list == UnfitOf(order, PathNode, w)
  {
    list := [];
    for i := 0 to |order|
      invariant list == UnfitOf(order[..i], PathNode, w)
    {
      assert order[..i + 1][..i] == order[..i];
      var v := order[i];
      if !v.leaf {
        if v.data.nodeType == PathNode {
          var interface := v.data.local.value.interface;
          var ok := InterfaceIsCompatible(if interface.Some? then interface.value else "any", w.interfaces);
          if !ok { list := list + [v.id]; }
        } else if v.data.nodeType != RootNode {
          NoneLater(order, PathNode, w, i);
          return;
        }
      }
    }
    assert order[..|order|] == order;
  }

  lemma {:induction false} UnfitOfMember(order: seq<Visit>, t: NodeType, w: Wanted, x: Id)
    ensures x in UnfitOf(order, t, w) <==>
            exists v :: v in order && v.id == x && v.data.nodeType == t && Unfit(v, w)
  {
    if order != [] {
      var init, last := order[..|order| - 1], order[|order| - 1];
      UnfitOfMember(init, t, w, x);
      assert order == init + [last];
      assert forall v :: v in order <==> v in init || v == last;
    }
  }

  /** Descendants before their ancestors, nothing twice. */
  predicate BottomUp(list: seq<Id>) {
    forall i, j | 0 <= i < j < |list| :: |list[i]| >= |list[j]| && list[i] != list[j]
  }

  lemma {:induction false} UnfitOfType(order: seq<Visit>, t: NodeType, w: Wanted)
    requires TreeOrder(order)
    ensures forall x | x in UnfitOf(order, t, w) :: |x| <= 4 && TypeAt(|x|) == t && t != RootNode
  {
    forall x | x in UnfitOf(order, t, w) ensures |x| <= 4 && TypeAt(|x|) == t && t != RootNode {
      UnfitOfMember(order, t, w, x);
    }
  }

  lemma {:induction false} UnfitOfBottomUp(order: seq<Visit>, t: NodeType, w: Wanted)
    requires TreeOrder(order)
    ensures BottomUp(UnfitOf(order, t, w))
  {
    if order != [] {
      var init, last := order[..|order| - 1], order[|order| - 1];
      UnfitOfBottomUp(init, t, w);
      if last.data.nodeType == t && Unfit(last, w) {
        forall x | x in UnfitOf(init, t, w) ensures |x| == |last.id| && x != last.id { UnfitOfNew(order, t, w, x); }
        OneMoreBottomUp(UnfitOf(init, t, w), last.id);
      }
    }
  }

  lemma UnfitOfNew(order: seq<Visit>, t: NodeType, w: Wanted, x: Id)
    requires TreeOrder(order) && order != [] && order[|order| - 1].data.nodeType == t
    requires x in UnfitOf(order[..|order| - 1], t, w)
    ensures |x| == |order[|order| - 1].id| && x != order[|order| - 1].id
  {
    var init := order[..|order| - 1];
    UnfitOfMember(init, t, w, x);
    var m :| 0 <= m < |init| && init[m].id == x && init[m].data.nodeType == t;
    assert order[m] == init[m];
  }

  lemma OneMoreBottomUp(list: seq<Id>, x: Id)
    requires BottomUp(list) && forall y | y in list :: |y| == |x| && y != x
    ensures BottomUp(list + [x])
  {}

  predicate Deeper(a: seq<Id>, d: nat) { forall x | x in a :: |x| > d }
  predicate NoDeeper(a: seq<Id>, d: nat) { forall x | x in a :: |x| <= d }

  lemma BottomUpConcat(a: seq<Id>, b: seq<Id>, d: nat)
    requires BottomUp(a) && BottomUp(b) && Deeper(a, d) && NoDeeper(b, d)
    ensures BottomUp(a + b)
  {
    forall i, j | 0 <= i < j < |a + b|
      ensures |(a + b)[i]| >= |(a + b)[j]| && (a + b)[i] != (a + b)[j]
    {
      if i < |a| <= j { assert a[i] in a && b[j - |a|] in b; }
    }
  }

  /** Endpoints, then protocols, then paths. */
  function Undesirable(order: seq<Visit>, w: Wanted): (list: seq<Id>) {
    UnfitOf(order, EndpointNode, w) + UnfitOf(order, ProtocolNode, w) + UnfitOf(order, PathNode, w)
  }

  lemma UnfitDepths(order: seq<Visit>, w: Wanted)
    requires TreeOrder(order)
    ensures Deeper(UnfitOf(order, EndpointNode, w), 3) && NoDeeper(UnfitOf(order, ProtocolNode, w), 3)
    ensures Deeper(UnfitOf(order, EndpointNode, w) + UnfitOf(order, ProtocolNode, w), 2)
    ensures NoDeeper(UnfitOf(order, PathNode, w), 2)
  {
    UnfitOfType(order, EndpointNode, w);
    UnfitOfType(order, ProtocolNode, w);
    UnfitOfType(order, PathNode, w);
  }

  lemma UndesirableBottomUp(order: seq<Visit>, w: Wanted)
    requires TreeOrder(order)
    ensures BottomUp(Undesirable(order, w))
  {
    var e, p, q := UnfitOf(order, EndpointNode, w), UnfitOf(order, ProtocolNode, w), UnfitOf(order, PathNode, w);
    UnfitOfBottomUp(order, EndpointNode, w);
    UnfitOfBottomUp(order, ProtocolNode, w);
    UnfitOfBottomUp(order, PathNode, w);
    UnfitDepths(order, w);
    BottomUpConcat(e, p, 3);
    BottomUpConcat(e + p, q, 2);
  }

  lemma UndesirableMember(order: seq<Visit>, w: Wanted, x: Id)
    ensures x in Undesirable(order, w) <==> exists v :: v in order && v.id == x && Unfit(v, w)
  {
    UnfitOfMember(order, EndpointNode, w, x);
    UnfitOfMember(order, ProtocolNode, w, x);
    UnfitOfMember(order, PathNode, w, x);
  }

  // ---------------------------------------------------------------- cutting nodes out

  /** The tree without the nodes in `gone` and everything below them. */
  function Without(f: Nodes, gone: set<Id>): (g: Nodes) {
    if f.End? then End
    else if f.id in gone then Without(f.next, gone)
    else Node(f.id, f.data, Without(f.children, gone), Without(f.next, gone))
  }

  /** The names in the subtree that hangs from `x`. */
  function Subtree(f: Nodes, x: Id): (s: seq<Id>) {
    if f.End? then []
    else if f.id == x then [x] + Ids(f.children)
    else if x in Ids(f.children) then Subtree(f.children, x)
    else Subtree(f.next, x)
  }

  predicate Unique(f: Nodes) {
    f.End? ||
    (&& f.id !in Ids(f.children) && f.id !in Ids(f.next)
     && (forall x | x in Ids(f.children) :: x !in Ids(f.next))
     && Unique(f.children) && Unique(f.next))
  }

  lemma {:induction false} PositionedUnique(f: Nodes, parent: Id, k: nat)
    requires Positioned(f, parent, k)
    ensures Unique(f)
  {
    if f.Node? {
      PositionedUnique(f.children, f.id, 0);
      PositionedUnique(f.next, parent, k + 1);
      forall x | x in Ids(f.children) ensures x !in Ids(f.next) && x != f.id {
        IdsBelow(f.children, f.id, 0, x);
        assert x[|parent|] == x[..|f.id|][|parent|] == k;
        if x in Ids(f.next) { IdsBelow(f.next, parent, k + 1, x); }
      }
      if f.id in Ids(f.next) { IdsBelow(f.next, parent, k + 1, f.id); }
    }
  }

  lemma {:induction false} WithoutIds(f: Nodes, gone: set<Id>)
    ensures forall x | x in Ids(Without(f, gone)) :: x in Ids(f) && x !in gone
    ensures Unique(f) ==> Unique(Without(f, gone))
  {
    if f.Node? {
      WithoutIds(f.children, gone);
      WithoutIds(f.next, gone);
    }
  }

  lemma {:induction false} WithoutAgain(f: Nodes, gone: set<Id>, more: set<Id>)
    ensures Without(Without(f, gone), more) == Without(f, gone + more)
  {
    if f.Node? {
      WithoutAgain(f.children, gone, more);
      WithoutAgain(f.next, gone, more);
    }
  }

  lemma {:induction false} WithoutNothing(f: Nodes, gone: set<Id>)
    requires forall x | x in gone :: x !in Ids(f)
    ensures Without(f, gone) == f
  {
    if f.Node? {
      WithoutNothing(f.children, gone);
      WithoutNothing(f.next, gone);
    }
  }

  /** A node is still in the tree as long as none of its ancestors has been cut out. */
  lemma {:induction false} StillThere(f: Nodes, parent: Id, k: nat, gone: set<Id>, x: Id)
    requires Positioned(f, parent, k) && x in Ids(f)
    requires forall g | g in gone :: !(g <= x)
    ensures x in Ids(Without(f, gone))
  {
    if x != f.id {
      if x in Ids(f.children) {
        IdsBelow(f.children, f.id, 0, x);
        assert f.id <= x;
        StillThere(f.children, f.id, 0, gone, x);
      } else {
        StillThere(f.next, parent, k + 1, gone, x);
      }
    }
  }

  /** Cutting out one subtree loses exactly the names in it. */
  lemma {:induction false} CutConserves(f: Nodes, x: Id)
    requires Unique(f) && x in Ids(f)
    ensures multiset(Ids(Without(f, {x}))) + multiset(Subtree(f, x)) == multiset(Ids(f))
  {
    var g := Without(f, {x});
    IdsOf(f);
    if f.id == x {
      WithoutNothing(f.next, {x});
      assert multiset(Subtree(f, x)) == multiset{x} + multiset(Ids(f.children));
    } else if x in Ids(f.children) {
      CutConserves(f.children, x);
      WithoutNothing(f.next, {x});
      IdsOf(g);
      ShiftFirst(multiset{f.id}, multiset(Ids(g.children)), multiset(Ids(f.next)), multiset(Subtree(f.children, x)));
    } else {
      CutConserves(f.next, x);
      WithoutNothing(f.children, {x});
      IdsOf(g);
      ShiftFirst(multiset{f.id}, multiset(Ids(f.children)), multiset(Ids(g.next)), multiset(Subtree(f.next, x)));
    }
  }

  lemma ShiftFirst(a: multiset<Id>, b: multiset<Id>, c: multiset<Id>, d: multiset<Id>)
    ensures a + b + c + d == a + (b + d) + c == a + b + (c + d)
  {}

  lemma IdsOf(f: Nodes)
    requires f.Node?
    ensures multiset(Ids(f)) == multiset{f.id} + multiset(Ids(f.children)) + multiset(Ids(f.next))
  {}

  function AsSet(list: seq<Id>): (s: set<Id>) { set x | x in list }

  lemma NextCut(t: Nodes, list: seq<Id>, i: nat)
    requires Positioned(t, [], 0) && BottomUp(list) && i < |list| && list[i] in Ids(t)
    ensures var left := Without(t, AsSet(list[..i]));
      && Unique(left) && list[i] in Ids(left)
      && Without(left, {list[i]}) == Without(t, AsSet(list[..i + 1]))
  {
    var x, gone := list[i], AsSet(list[..i]);
    PositionedUnique(t, [], 0);
    WithoutIds(t, gone);
    forall g | g in gone ensures !(g <= x) {
      var k :| 0 <= k < i && list[k] == g;
    }
    StillThere(t, [], 0, gone, x);
    WithoutAgain(t, gone, {x});
    assert AsSet(list[..i + 1]) == gone + {x};
  }

  /** Every node is still in the tree when its turn comes, so it is freed once; what is freed and
      what is left add up to the tree. */
  method RemoveNodes(t: Nodes, list: seq<Id>) returns (left: Nodes, freed: seq<Id>)
    requires Positioned(t, [], 0) && BottomUp(list) && forall x | x in list :: x in Ids(t)
    ensures left == Without(t, AsSet(list))
    ensures multiset(freed) + multiset(Ids(left)) == multiset(Ids(t))
  {
    left, freed := t, [];
    WithoutNothing(t, AsSet(list[..0]));
    for i := 0 to |list|
      invariant left == Without(t, AsSet(list[..i]))
      invariant multiset(freed) + multiset(Ids(left)) == multiset(Ids(t))
    {
      assert list[i] in list;
      NextCut(t, list, i);
      CutConserves(left, list[i]);
      freed := freed + Subtree(left, list[i]);
      left := Without(left, {list[i]});
    }
    assert list[..|list|] == list;
  }

  // ---------------------------------------------------------------- what pruning does

  /** The specification: drop incompatible nodes, wherever they are, with all they carry. */
  function Prune(f: Nodes, w: Wanted): (g: Nodes) {
    if f.End? then End
    else if Unfit(ToVisit(f), w) then Prune(f.next, w)
    else Node(f.id, f.data, Prune(f.children, w), Prune(f.next, w))
  }

  lemma {:induction false} CutIsPrune(f: Nodes, gone: set<Id>, w: Wanted)
    requires forall v | v in Visits(f) :: v.id in gone <==> Unfit(v, w)
    ensures Without(f, gone) == Prune(f, w)
  {
    if f.Node? {
      assert ToVisit(f) in Visits(f);
      CutIsPrune(f.children, gone, w);
      CutIsPrune(f.next, gone, w);
    }
  }

  lemma {:induction false} SameIdSameVisit(f: Nodes, u: Visit, v: Visit)
    requires Unique(f) && u in Visits(f) && v in Visits(f) && u.id == v.id
    ensures u == v
  {
    if u != v {
      if u in Visits(f.children) { VisitsAreIds(f.children, u); }
      if u in Visits(f.next) { VisitsAreIds(f.next, u); }
      if v in Visits(f.children) { VisitsAreIds(f.children, v); }
      if v in Visits(f.next) { VisitsAreIds(f.next, v); }
      if u in Visits(f.children) && v in Visits(f.children) {
        SameIdSameVisit(f.children, u, v);
      } else if u in Visits(f.next) && v in Visits(f.next) {
        SameIdSameVisit(f.next, u, v);
      }
    }
  }

  lemma OrderOfTree(t: Nodes)
    requires IsTree(t)
    ensures TreeOrder(LevelOrder(t))
    ensures forall v :: v in LevelOrder(t) <==> v in Visits(t)
  {
    LevelsFromLevelled(t, [], 0, 0);
    forall v | v in LevelOrder(t) ensures v in Visits(t) { LevelsFromSound(t, [], 0, 0, v); }
    forall v | v in Visits(t) ensures v in LevelOrder(t) {
      var d := LevelComplete(t, v);
      LevelsFromHolds(t, 0, d, v);
    }
    forall i | 0 <= i < |LevelOrder(t)|
      ensures var v := LevelOrder(t)[i];
        |v.id| <= 4 && v.data.nodeType == TypeAt(|v.id|) && WellFormed(v.data)
    {
      VisitsAreTyped(t, LevelOrder(t)[i]);
    }
  }

  lemma UndesirableIsUnfit(t: Nodes, w: Wanted)
    requires IsTree(t)
    ensures var list := Undesirable(LevelOrder(t), w);
      && (forall x | x in list :: x in Ids(t))
      && (forall v | v in Visits(t) :: v.id in list <==> Unfit(v, w))
  {
    OrderOfTree(t);
    PositionedUnique(t, [], 0);
    var list := Undesirable(LevelOrder(t), w);
    forall x | x in list ensures x in Ids(t) {
      UndesirableMember(LevelOrder(t), w, x);
      var v :| v in LevelOrder(t) && v.id == x && Unfit(v, w);
      VisitsAreIds(t, v);
    }
    forall v | v in Visits(t) ensures v.id in list <==> Unfit(v, w) {
      UndesirableMember(LevelOrder(t), w, v.id);
      if v.id in list {
        var u :| u in LevelOrder(t) && u.id == v.id && Unfit(u, w);
        SameIdSameVisit(t, u, v);
      }
    }
  }

  /** The passes and the cutting together. */
  method PruneCandidateTree(t: Nodes, w: Wanted) returns (left: Nodes, freed: seq<Id>)
    requires IsTree(t)
    ensures left == Prune(t, w)
    ensures multiset(freed) + multiset(Ids(left)) == multiset(Ids(t))
    ensures forall x | x in freed :: multiset(freed)[x] == 1 && x !in Ids(left)
  {
    OrderOfTree(t);
    UndesirableBottomUp(LevelOrder(t), w);
    UndesirableIsUnfit(t, w);
    var endpoints := GatherEndpoints(LevelOrder(t), w);
    var protocols := GatherProtocols(LevelOrder(t), w);
    var paths := GatherPaths(LevelOrder(t), w);
    var list := endpoints + protocols + paths;
    left, freed := RemoveNodes(t, list);
    CutIsPrune(t, AsSet(list), w);
    FreedOnce(t, left, freed);
  }

  lemma {:induction false} UniqueCounts(f: Nodes, x: Id)
    requires Unique(f)
    ensures multiset(Ids(f))[x] <= 1
  {
    if f.Node? {
      UniqueCounts(f.children, x);
      UniqueCounts(f.next, x);
      var here, below, after := multiset{f.id}, multiset(Ids(f.children)), multiset(Ids(f.next));
      assert multiset(Ids(f)) == here + below + after;
      assert below[x] > 0 ==> x in Ids(f.children) && after[x] == 0 && here[x] == 0;
      assert after[x] > 0 ==> x in Ids(f.next) && here[x] == 0;
    }
  }

  lemma FreedOnce(t: Nodes, left: Nodes, freed: seq<Id>)
    requires Positioned(t, [], 0)
    requires multiset(freed) + multiset(Ids(left)) == multiset(Ids(t))
    ensures forall x | x in freed :: multiset(freed)[x] == 1 && x !in Ids(left)
  {
    PositionedUnique(t, [], 0);
    forall x | x in freed ensures multiset(freed)[x] == 1 && x !in Ids(left) {
      UniqueCounts(t, x);
      assert multiset(Ids(t))[x] == multiset(freed)[x] + multiset(Ids(left))[x];
    }
  }
}
