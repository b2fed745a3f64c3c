/** The candidate tree: a root, paths under it, protocols under each path and endpoints under
    each protocol.  Nodes are linked by first child and next sibling, and are identified by the
    position at which they were created, which pruning does not change. */
module CandidateTree {
  import opened Addresses
  import opened Selection

  datatype NodeType = RootNode | PathNode | ProtocolNode | EndpointNode

  datatype Local = Local(address: Address, interface: Option<string>)
  datatype ProtocolOption = ProtocolOption(protocol: Protocol, alpn: Option<string>)

  datatype Candidate = Candidate(
    nodeType: NodeType, local: Option<Local>, option: Option<ProtocolOption>, remote: Option<Address>)

  type Id = seq<nat>

  datatype Nodes = End | Node(id: Id, data: Candidate, children: Nodes, next: Nodes)

  /** What a traversal shows its visitor. */
  datatype Visit = Visit(id: Id, data: Candidate, leaf: bool)

  /** What the application asked for. */
  datatype Wanted = Wanted(desired: Wishes, interfaces: seq<Combination>)

  // ---------------------------------------------------------------- compatibility of one node

  predicate PathFits(local: Local, w: Wanted) {
    InterfaceCompatible(if local.interface.Some? then local.interface.value else "any", w.interfaces)
  }

  predicate EndpointFits(local: Local, remote: Address) {
    && FamilyOf(local.address) == FamilyOf(remote)
    && (IsWildcard(local.address) || ScopeOf(local.address) == ScopeOf(remote))
  }

  predicate WellFormed(c: Candidate) {
    match c.nodeType
    case RootNode => true
    case PathNode => c.local.Some?
    case ProtocolNode => c.local.Some? && c.option.Some?
    case EndpointNode => c.local.Some? && c.option.Some? && c.remote.Some?
  }

  /** Has to go.  The pass over paths only looks at nodes with children. */
  predicate Unfit(v: Visit, w: Wanted) {
    WellFormed(v.data) &&
    match v.data.nodeType
    case RootNode => false
    case PathNode => !v.leaf && !PathFits(v.data.local.value, w)
    case ProtocolNode => !Supports(v.data.option.value.protocol, w.desired)
    case EndpointNode => !EndpointFits(v.data.local.value, v.data.remote.value)
  }

  // ---------------------------------------------------------------- trees

  function ToVisit(n: Nodes): (v: Visit)
    requires n.Node?
  {
    Visit(n.id, n.data, n.children.End?)
  }

  /** All nodes, parents first. */
  function Visits(f: Nodes): (s: seq<Visit>) {
    if f.End? then [] else [ToVisit(f)] + Visits(f.children) + Visits(f.next)
  }

  function Ids(f: Nodes): (s: seq<Id>) {
    if f.End? then [] else [f.id] + Ids(f.children) + Ids(f.next)
  }

  /** The k-th node under `parent` is called `parent + [k]`. */
  predicate Positioned(f: Nodes, parent: Id, k: nat) {
    f.End? || (f.id == parent + [k] && Positioned(f.children, f.id, 0) && Positioned(f.next, parent, k + 1))
  }

  function TypeAt(depth: nat): (t: NodeType) {
    if depth <= 1 then RootNode else if depth == 2 then PathNode
    else if depth == 3 then ProtocolNode else EndpointNode
  }

  /** There are four levels, and the level decides the type of a node. */
  predicate Typed(f: Nodes) {
    f.End? ||
    (|f.id| <= 4 && f.data.nodeType == TypeAt(|f.id|) && WellFormed(f.data) && Typed(f.children) && Typed(f.next))
  }

  /** A whole tree: its root is `[0]`, and the length of a node's name is its depth. */
  predicate IsTree(t: Nodes) { t.Node? && t.next.End? && Positioned(t, [], 0) && Typed(t) }

  lemma {:induction false} IdsBelow(f: Nodes, parent: Id, k: nat, x: Id)
    requires Positioned(f, parent, k) && x in Ids(f)
    ensures |x| > |parent| && x[..|parent|] == parent && x[|parent|] >= k
  {
    if x != f.id {
      if x in Ids(f.children) {
        IdsBelow(f.children, f.id, 0, x);
        assert x[..|parent|] == x[..|f.id|][..|parent|];
        assert x[|parent|] == x[..|f.id|][|parent|];
      } else {
        IdsBelow(f.next, parent, k + 1, x);
      }
    }
  }

  lemma {:induction false} VisitsAreIds(f: Nodes, v: Visit)
    requires v in Visits(f)
    ensures v.id in Ids(f)
  {
    if v != ToVisit(f) {
      if v in Visits(f.children) { VisitsAreIds(f.children, v); } else { VisitsAreIds(f.next, v); }
    }
  }

  lemma {:induction false} VisitsAreTyped(f: Nodes, v: Visit)
    requires v in Visits(f) && Typed(f)
    ensures |v.id| <= 4 && v.data.nodeType == TypeAt(|v.id|) && WellFormed(v.data)
  {
    if v != ToVisit(f) {
      if v in Visits(f.children) { VisitsAreTyped(f.children, v); } else { VisitsAreTyped(f.next, v); }
    }
  }

  // ---------------------------------------------------------------- level order

  function Height(f: Nodes): (h: nat) {
    if f.End? then 0
    else if 1 + Height(f.children) > Height(f.next) then 1 + Height(f.children) else Height(f.next)
  }

  function Level(f: Nodes, d: nat): (s: seq<Visit>)
    decreases f
  {
    if f.End? then []
    else (if d == 0 then [ToVisit(f)] else Level(f.children, d - 1)) + Level(f.next, d)
  }

  function Levels(f: Nodes): (s: seq<seq<Visit>>) { seq(Height(f), (d: nat) => Level(f, d)) }

  function Flat(levels: seq<seq<Visit>>, d: nat): (s: seq<Visit>)
    decreases |levels| - d
  {
    if d >= |levels| then [] else levels[d] + Flat(levels, d + 1)
  }

  function LevelsFrom(f: Nodes, d: nat): (s: seq<Visit>) { Flat(Levels(f), d) }

  function LevelOrder(f: Nodes): (s: seq<Visit>) { LevelsFrom(f, 0) }

  /** Deeper nodes come later and no node comes twice. */
  predicate Levelled(order: seq<Visit>) {
    forall i, j | 0 <= i < j < |order| :: |order[i].id| <= |order[j].id| && order[i].id != order[j].id
  }

  lemma {:induction false} LevelSound(f: Nodes, parent: Id, k: nat, d: nat, v: Visit)
    requires Positioned(f, parent, k) && v in Level(f, d)
    ensures v in Visits(f) && |v.id| == |parent| + 1 + d
    decreases f
  {
    if d == 0 {
      if v != ToVisit(f) { LevelSound(f.next, parent, k + 1, d, v); }
    } else if v in Level(f.children, d - 1) {
      LevelSound(f.children, f.id, 0, d - 1, v);
    } else {
      LevelSound(f.next, parent, k + 1, d, v);
    }
  }

  lemma VisitsSplit(f: Nodes, v: Visit)
    requires v in Visits(f)
    ensures f.Node? && (v == ToVisit(f) || v in Visits(f.children) || v in Visits(f.next))
    ensures Height(f) > Height(f.children) && Height(f) >= Height(f.next)
  {}

  lemma LevelHolds(f: Nodes, d: nat, v: Visit)
    requires f.Node?
    ensures v in Level(f.next, d) ==> v in Level(f, d)
    ensures v in Level(f.children, d) ==> v in Level(f, d + 1)
    ensures ToVisit(f) in Level(f, 0)
  {
    assert Level(f, d + 1) == Level(f.children, d) + Level(f.next, d + 1);
    assert Level(f, 0) == [ToVisit(f)] + Level(f.next, 0);
    if d > 0 { assert Level(f, d) == Level(f.children, d - 1) + Level(f.next, d); }
  }

  lemma {:induction false} LevelComplete(f: Nodes, v: Visit) returns (d: nat)
    requires v in Visits(f)
    ensures d < Height(f) && v in Level(f, d)
    decreases f
  {
    VisitsSplit(f, v);
    if v == ToVisit(f) {
      d := 0;
      LevelHolds(f, 0, v);
    } else if v in Visits(f.children) {
      var below := LevelComplete(f.children, v);
      d := below + 1;
      LevelHolds(f, below, v);
    } else {
      d := LevelComplete(f.next, v);
      LevelHolds(f, d, v);
    }
  }

  lemma LevelledConcat(a: seq<Visit>, b: seq<Visit>)
    requires Levelled(a) && Levelled(b)
    requires forall u, v | u in a && v in b :: |u.id| <= |v.id| && u.id != v.id
    ensures Levelled(a + b)
  {
    forall i, j | 0 <= i < j < |a + b|
      ensures |(a + b)[i].id| <= |(a + b)[j].id| && (a + b)[i].id != (a + b)[j].id
    {
      if i < |a| <= j { assert a[i] in a && b[j - |a|] in b; }
    }
  }

  /** The part of a level that belongs to the first node, and that of its siblings. */
  function FirstOfLevel(f: Nodes, d: nat): (s: seq<Visit>)
    requires f.Node?
  {
    if d == 0 then [ToVisit(f)] else Level(f.children, d - 1)
  }

  lemma FirstApart(f: Nodes, parent: Id, k: nat, d: nat, u: Visit, v: Visit)
    requires f.Node? && Positioned(f, parent, k) && u in FirstOfLevel(f, d) && v in Level(f.next, d)
    ensures |u.id| == |v.id| && u.id != v.id
  {
    assert Level(f, d) == FirstOfLevel(f, d) + Level(f.next, d);
    LevelSound(f, parent, k, d, u);
    LevelSound(f.next, parent, k + 1, d, v);
    VisitsAreIds(f.next, v);
    IdsBelow(f.next, parent, k + 1, v.id);
    if d > 0 { BelowChild(f, parent, k, d, u); }
  }

  lemma {:induction false} LevelDistinct(f: Nodes, parent: Id, k: nat, d: nat)
    requires Positioned(f, parent, k)
    ensures Levelled(Level(f, d))
    decreases f
  {
    if f.Node? {
      var a, b := FirstOfLevel(f, d), Level(f.next, d);
      if d > 0 { LevelDistinct(f.children, f.id, 0, d - 1); }
      LevelDistinct(f.next, parent, k + 1, d);
      forall u, v | u in a && v in b ensures |u.id| <= |v.id| && u.id != v.id { FirstApart(f, parent, k, d, u, v); }
      LevelledConcat(a, b);
      assert Level(f, d) == a + b;
    }
  }

  lemma BelowChild(f: Nodes, parent: Id, k: nat, d: nat, u: Visit)
    requires f.Node? && Positioned(f, parent, k) && d > 0 && u in Level(f.children, d - 1)
    ensures |u.id| > |parent| && u.id[|parent|] == k
  {
    LevelSound(f.children, f.id, 0, d - 1, u);
    VisitsAreIds(f.children, u);
    IdsBelow(f.children, f.id, 0, u.id);
    assert u.id[|parent|] == u.id[..|f.id|][|parent|];
  }

  lemma {:induction false} LevelsFromSound(f: Nodes, parent: Id, k: nat, d: nat, v: Visit)
    requires Positioned(f, parent, k) && v in LevelsFrom(f, d)
    ensures v in Visits(f) && |v.id| >= |parent| + 1 + d
    decreases Height(f) - d
  {
    assert d < Height(f) && Levels(f)[d] == Level(f, d);
    if v in Levels(f)[d] { LevelSound(f, parent, k, d, v); } else { LevelsFromSound(f, parent, k, d + 1, v); }
  }

  lemma {:induction false} FlatHolds(levels: seq<seq<Visit>>, d: nat, e: nat, v: Visit)
    requires d <= e < |levels| && v in levels[e]
    ensures v in Flat(levels, d)
    decreases e - d
  {
    if d < e { FlatHolds(levels, d + 1, e, v); }
  }

  lemma LevelsFromHolds(f: Nodes, d: nat, e: nat, v: Visit)
    requires d <= e < Height(f) && v in Level(f, e)
    ensures v in LevelsFrom(f, d)
  {
    FlatHolds(Levels(f), d, e, v);
  }

  lemma LevelBeforeDeeper(f: Nodes, parent: Id, k: nat, d: nat)
    requires Positioned(f, parent, k)
    ensures forall u, v | u in Level(f, d) && v in LevelsFrom(f, d + 1) :: |u.id| < |v.id|
  {
    forall u, v | u in Level(f, d) && v in LevelsFrom(f, d + 1) ensures |u.id| < |v.id| {
      LevelSound(f, parent, k, d, u);
      LevelsFromSound(f, parent, k, d + 1, v);
    }
  }

  lemma {:induction false} LevelsFromLevelled(f: Nodes, parent: Id, k: nat, d: nat)
    requires Positioned(f, parent, k)
    ensures Levelled(LevelsFrom(f, d))
    decreases Height(f) - d
  {
    if d < Height(f) {
      var a, b := Level(f, d), LevelsFrom(f, d + 1);
      assert LevelsFrom(f, d) == a + b;
      LevelDistinct(f, parent, k, d);
      LevelsFromLevelled(f, parent, k, d + 1);
      LevelBeforeDeeper(f, parent, k, d);
      LevelledConcat(a, b);
    }
  }
}
