/** What the candidate tree says: which paths, protocol options and resolved addresses it was
    built from, and which candidates are read off it. */
module GatherPlan {
  import opened Addresses
  import opened Selection
  import opened CandidateTree
  import opened Pruning

  datatype OptionPlan = OptionPlan(option: ProtocolOption, remotes: seq<Address>)
  datatype PathPlan = PathPlan(local: Local, options: seq<OptionPlan>)

  function PathData(l: Local): (c: Candidate) { Candidate(PathNode, Some(l), None, None) }
  function ProtocolData(l: Local, o: ProtocolOption): (c: Candidate) { Candidate(ProtocolNode, Some(l), Some(o), None) }
  function EndpointData(l: Local, o: ProtocolOption, a: Address): (c: Candidate) {
    Candidate(EndpointNode, Some(l), Some(o), Some(a))
  }

  function EndpointNodes(parent: Id, l: Local, o: OptionPlan, k: nat): (f: Nodes)
    decreases |o.remotes| - k
  {
    if k >= |o.remotes| then End
    else Node(parent + [k], EndpointData(l, o.option, o.remotes[k]), End, EndpointNodes(parent, l, o, k + 1))
  }

  function ProtocolNodes(parent: Id, l: Local, options: seq<OptionPlan>, k: nat): (f: Nodes)
    decreases |options| - k
  {
    if k >= |options| then End
    else Node(parent + [k], ProtocolData(l, options[k].option),
              EndpointNodes(parent + [k], l, options[k], 0),
              ProtocolNodes(parent, l, options, k + 1))
  }

  function PathNodes(plan: seq<PathPlan>, k: nat): (f: Nodes)
    decreases |plan| - k
  {
    if k >= |plan| then End
    else Node([0] + [k], PathData(plan[k].local),
              ProtocolNodes([0] + [k], plan[k].local, plan[k].options, 0),
              PathNodes(plan, k + 1))
  }

  /** The tree built from a plan. */
  function TreeOf(plan: seq<PathPlan>): (t: Nodes) {
    Node([0], Candidate(RootNode, None, None, None), PathNodes(plan, 0), End)
  }

  lemma {:induction false} EndpointNodesFit(parent: Id, l: Local, o: OptionPlan, k: nat)
    requires |parent| == 3
    ensures Positioned(EndpointNodes(parent, l, o, k), parent, k) && Typed(EndpointNodes(parent, l, o, k))
    decreases |o.remotes| - k
  {
    if k < |o.remotes| { EndpointNodesFit(parent, l, o, k + 1); }
  }

  lemma {:induction false} ProtocolNodesFit(parent: Id, l: Local, options: seq<OptionPlan>, k: nat)
    requires |parent| == 2
    ensures Positioned(ProtocolNodes(parent, l, options, k), parent, k)
    ensures Typed(ProtocolNodes(parent, l, options, k))
    decreases |options| - k
  {
    if k < |options| {
      EndpointNodesFit(parent + [k], l, options[k], 0);
      ProtocolNodesFit(parent, l, options, k + 1);
    }
  }

  lemma {:induction false} PathNodesFit(plan: seq<PathPlan>, k: nat)
    ensures Positioned(PathNodes(plan, k), [0], k) && Typed(PathNodes(plan, k))
    decreases |plan| - k
  {
    if k < |plan| {
      ProtocolNodesFit([0] + [k], plan[k].local, plan[k].options, 0);
      PathNodesFit(plan, k + 1);
    }
  }

  lemma TreeOfIsTree(plan: seq<PathPlan>)
    ensures IsTree(TreeOf(plan))
  {
    PathNodesFit(plan, 0);
  }

  // ---------------------------------------------------------------- growing the tree

  function Snoc(f: Nodes, n: Nodes): (g: Nodes) {
    if f.End? then n else f.(next := Snoc(f.next, n))
  }

  function Length(f: Nodes): (n: nat) { if f.End? then 0 else 1 + Length(f.next) }

  /** Appends a new last child to node `target`. */
  function AppendUnder(f: Nodes, target: Id, c: Candidate): (g: Nodes) {
    if f.End? then End
    else if f.id == target then
      f.(children := Snoc(f.children, Node(target + [Length(f.children)], c, End, End)))
    else f.(children := AppendUnder(f.children, target, c), next := AppendUnder(f.next, target, c))
  }

  lemma {:induction false} AppendAbsent(f: Nodes, target: Id, c: Candidate)
    requires target !in Ids(f)
    ensures AppendUnder(f, target, c) == f
  {
    if f.Node? {
      AppendAbsent(f.children, target, c);
      AppendAbsent(f.next, target, c);
    }
  }

  lemma {:induction false} NotBelow(f: Nodes, parent: Id, k: nat, x: Id)
    requires Positioned(f, parent, k)
    requires |x| <= |parent| || x[..|parent|] != parent || x[|parent|] < k
    ensures x !in Ids(f)
  {
    if x in Ids(f) { IdsBelow(f, parent, k, x); }
  }

  lemma {:induction false} SnocEndpoints(parent: Id, l: Local, o: OptionPlan, a: Address, k: nat)
    requires k <= |o.remotes|
    ensures Length(EndpointNodes(parent, l, o, k)) == |o.remotes| - k
    ensures Snoc(EndpointNodes(parent, l, o, k),
                 Node(parent + [|o.remotes|], EndpointData(l, o.option, a), End, End))
            == EndpointNodes(parent, l, o.(remotes := o.remotes + [a]), k)
    decreases |o.remotes| - k
  {
    if k < |o.remotes| { SnocEndpoints(parent, l, o, a, k + 1); }
  }

  lemma {:induction false} SnocProtocols(parent: Id, l: Local, options: seq<OptionPlan>, o: ProtocolOption, k: nat)
    requires k <= |options|
    ensures Length(ProtocolNodes(parent, l, options, k)) == |options| - k
    ensures Snoc(ProtocolNodes(parent, l, options, k), Node(parent + [|options|], ProtocolData(l, o), End, End))
            == ProtocolNodes(parent, l, options + [OptionPlan(o, [])], k)
    decreases |options| - k
  {
    if k < |options| { SnocProtocols(parent, l, options, o, k + 1); }
  }

  lemma {:induction false} SnocPaths(plan: seq<PathPlan>, l: Local, k: nat)
    requires k <= |plan|
    ensures Length(PathNodes(plan, k)) == |plan| - k
    ensures Snoc(PathNodes(plan, k), Node([0] + [|plan|], PathData(l), End, End))
            == PathNodes(plan + [PathPlan(l, [])], k)
    decreases |plan| - k
  {
    if k < |plan| { SnocPaths(plan, l, k + 1); }
  }

  lemma {:induction false} ProtocolNodesSame(parent: Id, l: Local, a: seq<OptionPlan>, b: seq<OptionPlan>, k: nat)
    requires |a| == |b| && forall i | k <= i < |a| :: a[i] == b[i]
    ensures ProtocolNodes(parent, l, a, k) == ProtocolNodes(parent, l, b, k)
    decreases |a| - k
  {
    if k < |a| { ProtocolNodesSame(parent, l, a, b, k + 1); }
  }

  lemma {:induction false} PathNodesSame(a: seq<PathPlan>, b: seq<PathPlan>, k: nat)
    requires |a| == |b| && forall i | k <= i < |a| :: a[i] == b[i]
    ensures PathNodes(a, k) == PathNodes(b, k)
    decreases |a| - k
  {
    if k < |a| { PathNodesSame(a, b, k + 1); }
  }

  function AddPath(plan: seq<PathPlan>, l: Local): (p: seq<PathPlan>) { plan + [PathPlan(l, [])] }

  function AddOption(plan: seq<PathPlan>, i: nat, o: ProtocolOption): (p: seq<PathPlan>)
    requires i < |plan|
  {
    plan[i := plan[i].(options := plan[i].options + [OptionPlan(o, [])])]
  }

  function AddRemoteTo(options: seq<OptionPlan>, j: nat, a: Address): (p: seq<OptionPlan>)
    requires j < |options|
  {
    options[j := options[j].(remotes := options[j].remotes + [a])]
  }

  function AddRemote(plan: seq<PathPlan>, i: nat, j: nat, a: Address): (p: seq<PathPlan>)
    requires i < |plan| && j < |plan[i].options|
  {
    plan[i := plan[i].(options := AddRemoteTo(plan[i].options, j, a))]
  }

  /** Appending a path to the root. */
  lemma AppendPath(plan: seq<PathPlan>, l: Local)
    ensures AppendUnder(TreeOf(plan), [0], PathData(l)) == TreeOf(AddPath(plan, l))
  {
    SnocPaths(plan, l, 0);
  }

  lemma {:induction false} AppendOptionFrom(plan: seq<PathPlan>, k: nat, i: nat, o: ProtocolOption)
    requires k <= i < |plan|
    ensures AppendUnder(PathNodes(plan, k), [0] + [i], ProtocolData(plan[i].local, o))
            == PathNodes(AddOption(plan, i, o), k)
    decreases i - k
  {
    var target := [0] + [i];
    ProtocolNodesFit([0] + [k], plan[k].local, plan[k].options, 0);
    if k == i {
      SnocProtocols(target, plan[i].local, plan[i].options, o, 0);
      PathNodesSame(plan, AddOption(plan, i, o), k + 1);
    } else {
      assert target[1] != ([0] + [k])[1];
      NotBelow(ProtocolNodes([0] + [k], plan[k].local, plan[k].options, 0), [0] + [k], 0, target);
      AppendAbsent(ProtocolNodes([0] + [k], plan[k].local, plan[k].options, 0), target, ProtocolData(plan[i].local, o));
      AppendOptionFrom(plan, k + 1, i, o);
    }
  }

  /** Appending a protocol to a path. */
  lemma AppendOption(plan: seq<PathPlan>, i: nat, o: ProtocolOption)
    requires i < |plan|
    ensures AppendUnder(TreeOf(plan), [0] + [i], ProtocolData(plan[i].local, o)) == TreeOf(AddOption(plan, i, o))
  {
    AppendOptionFrom(plan, 0, i, o);
  }

  lemma {:induction false} AppendRemoteToProtocols(parent: Id, l: Local, options: seq<OptionPlan>,
                                                   k: nat, j: nat, a: Address)
    requires |parent| == 2 && k <= j < |options|
    ensures AppendUnder(ProtocolNodes(parent, l, options, k), parent + [j], EndpointData(l, options[j].option, a))
            == ProtocolNodes(parent, l, AddRemoteTo(options, j, a), k)
    decreases j - k
  {
    var target := parent + [j];
    var below := EndpointNodes(parent + [k], l, options[k], 0);
    if k == j {
      SnocEndpoints(target, l, options[j], a, 0);
      ProtocolNodesSame(parent, l, options, AddRemoteTo(options, j, a), k + 1);
    } else {
      EndpointNodesFit(parent + [k], l, options[k], 0);
      assert target[|parent|] != (parent + [k])[|parent|];
      NotBelow(below, parent + [k], 0, target);
      AppendAbsent(below, target, EndpointData(l, options[j].option, a));
      AppendRemoteToProtocols(parent, l, options, k + 1, j, a);
    }
  }

  lemma {:induction false} AppendRemoteFrom(plan: seq<PathPlan>, k: nat, i: nat, j: nat, a: Address)
    requires k <= i < |plan| && j < |plan[i].options|
    ensures AppendUnder(PathNodes(plan, k), [0] + [i] + [j], EndpointData(plan[i].local, plan[i].options[j].option, a))
            == PathNodes(AddRemote(plan, i, j, a), k)
    decreases i - k
  {
    var target := [0] + [i] + [j];
    var c := EndpointData(plan[i].local, plan[i].options[j].option, a);
    var here := [0] + [k];
    var below := ProtocolNodes(here, plan[k].local, plan[k].options, 0);
    ProtocolNodesFit(here, plan[k].local, plan[k].options, 0);
    if k == i {
      AppendRemoteToProtocols(here, plan[i].local, plan[i].options, 0, j, a);
      PathNodesFit(plan, k + 1);
      assert target[1] == k;
      NotBelow(PathNodes(plan, k + 1), [0], k + 1, target);
      AppendAbsent(PathNodes(plan, k + 1), target, c);
      PathNodesSame(plan, AddRemote(plan, i, j, a), k + 1);
    } else {
      assert target[1] != here[1];
      assert target[..2][1] == i;
      NotBelow(below, here, 0, target);
      AppendAbsent(below, target, c);
      AppendRemoteFrom(plan, k + 1, i, j, a);
    }
  }

  /** Appending an endpoint to a protocol. */
  lemma AppendRemote(plan: seq<PathPlan>, i: nat, j: nat, a: Address)
    requires i < |plan| && j < |plan[i].options|
    ensures AppendUnder(TreeOf(plan), [0] + [i] + [j], EndpointData(plan[i].local, plan[i].options[j].option, a))
            == TreeOf(AddRemote(plan, i, j, a))
  {
    AppendRemoteFrom(plan, 0, i, j, a);
  }

  // ---------------------------------------------------------------- reading candidates off

  /** The leaves of one type, from left to right. */
  function Picked(f: Nodes, t: NodeType): (s: seq<Candidate>) {
    if f.End? then []
    else (if f.children.End? then (if f.data.nodeType == t then [f.data] else []) else Picked(f.children, t))
         + Picked(f.next, t)
  }

  /** A candidate is compatible when each of its parts is. */
  predicate Fits(c: Candidate, w: Wanted) {
    && (c.local.Some? ==> PathFits(c.local.value, w))
    && (c.option.Some? ==> Supports(c.option.value.protocol, w.desired))
    && (c.local.Some? && c.remote.Some? ==> EndpointFits(c.local.value, c.remote.value))
  }

  function Compatible(s: seq<Candidate>, w: Wanted): (r: seq<Candidate>) {
    if s == [] then [] else (if Fits(s[0], w) then [s[0]] else []) + Compatible(s[1..], w)
  }

  /** Every path with every option with every address, in that order. */
  function TriplesOfOption(l: Local, o: OptionPlan, k: nat): (s: seq<Candidate>)
    decreases |o.remotes| - k
  {
    if k >= |o.remotes| then [] else [EndpointData(l, o.option, o.remotes[k])] + TriplesOfOption(l, o, k + 1)
  }

  function TriplesOfPath(l: Local, options: seq<OptionPlan>, k: nat): (s: seq<Candidate>)
    decreases |options| - k
  {
    if k >= |options| then [] else TriplesOfOption(l, options[k], 0) + TriplesOfPath(l, options, k + 1)
  }

  function Triples(plan: seq<PathPlan>, k: nat): (s: seq<Candidate>)
    decreases |plan| - k
  {
    if k >= |plan| then [] else TriplesOfPath(plan[k].local, plan[k].options, 0) + Triples(plan, k + 1)
  }

  /** Every path with every option. */
  function PairsOfPath(l: Local, options: seq<OptionPlan>, k: nat): (s: seq<Candidate>)
    decreases |options| - k
  {
    if k >= |options| then [] else [ProtocolData(l, options[k].option)] + PairsOfPath(l, options, k + 1)
  }

  function Pairs(plan: seq<PathPlan>, k: nat): (s: seq<Candidate>)
    decreases |plan| - k
  {
    if k >= |plan| then [] else PairsOfPath(plan[k].local, plan[k].options, 0) + Pairs(plan, k + 1)
  }

  lemma {:induction false} CompatibleConcat(a: seq<Candidate>, b: seq<Candidate>, w: Wanted)
    ensures Compatible(a + b, w) == Compatible(a, w) + Compatible(b, w)
  {
    if a == [] {
      assert a + b == b;
    } else {
      assert (a + b)[1..] == a[1..] + b;
      CompatibleConcat(a[1..], b, w);
    }
  }

  lemma {:induction false} NoneCompatible(s: seq<Candidate>, w: Wanted)
    requires forall c | c in s :: !Fits(c, w)
    ensures Compatible(s, w) == []
  {
    if s != [] { NoneCompatible(s[1..], w); }
  }

  lemma {:induction false} TriplesOfOptionData(l: Local, o: OptionPlan, k: nat, c: Candidate)
    requires c in TriplesOfOption(l, o, k)
    ensures c.local == Some(l) && c.option == Some(o.option)
    decreases |o.remotes| - k
  {
    if c != EndpointData(l, o.option, o.remotes[k]) { TriplesOfOptionData(l, o, k + 1, c); }
  }

  lemma {:induction false} TriplesOfPathData(l: Local, options: seq<OptionPlan>, k: nat, c: Candidate)
    requires c in TriplesOfPath(l, options, k)
    ensures c.local == Some(l)
    decreases |options| - k
  {
    if c in TriplesOfOption(l, options[k], 0) { TriplesOfOptionData(l, options[k], 0, c); }
    else { TriplesOfPathData(l, options, k + 1, c); }
  }

  lemma {:induction false} PickedEndpoints(parent: Id, l: Local, o: OptionPlan, k: nat, w: Wanted)
    requires PathFits(l, w) && Supports(o.option.protocol, w.desired)
    ensures Picked(Prune(EndpointNodes(parent, l, o, k), w), EndpointNode) == Compatible(TriplesOfOption(l, o, k), w)
    decreases |o.remotes| - k
  {
    if k < |o.remotes| {
      PickedEndpoints(parent, l, o, k + 1, w);
      assert TriplesOfOption(l, o, k)[1..] == TriplesOfOption(l, o, k + 1);
    }
  }

  lemma UnsupportedTriples(l: Local, o: OptionPlan, w: Wanted)
    requires !Supports(o.option.protocol, w.desired)
    ensures Compatible(TriplesOfOption(l, o, 0), w) == []
  {
    forall c | c in TriplesOfOption(l, o, 0) ensures !Fits(c, w) { TriplesOfOptionData(l, o, 0, c); }
    NoneCompatible(TriplesOfOption(l, o, 0), w);
  }

  lemma {:induction false} PickedProtocols(parent: Id, l: Local, options: seq<OptionPlan>, k: nat, w: Wanted)
    requires PathFits(l, w)
    ensures Picked(Prune(ProtocolNodes(parent, l, options, k), w), EndpointNode)
            == Compatible(TriplesOfPath(l, options, k), w)
    decreases |options| - k
  {
    if k < |options| {
      PickedProtocols(parent, l, options, k + 1, w);
      CompatibleConcat(TriplesOfOption(l, options[k], 0), TriplesOfPath(l, options, k + 1), w);
      var f := ProtocolNodes(parent, l, options, k);
      if Supports(options[k].option.protocol, w.desired) {
        PickedEndpoints(parent + [k], l, options[k], 0, w);
        assert !Unfit(ToVisit(f), w);
      } else {
        UnsupportedTriples(l, options[k], w);
        assert Unfit(ToVisit(f), w);
      }
    }
  }

  predicate HasOptions(plan: seq<PathPlan>) { forall i | 0 <= i < |plan| :: plan[i].options != [] }

  lemma {:induction false} PickedPaths(plan: seq<PathPlan>, k: nat, w: Wanted)
    requires HasOptions(plan)
    ensures Picked(Prune(PathNodes(plan, k), w), EndpointNode) == Compatible(Triples(plan, k), w)
    decreases |plan| - k
  {
    if k < |plan| {
      var l, options := plan[k].local, plan[k].options;
      PickedPaths(plan, k + 1, w);
      CompatibleConcat(TriplesOfPath(l, options, 0), Triples(plan, k + 1), w);
      if PathFits(l, w) {
        PickedProtocols([0] + [k], l, options, 0, w);
      } else {
        forall c | c in TriplesOfPath(l, options, 0) ensures !Fits(c, w) { TriplesOfPathData(l, options, 0, c); }
        NoneCompatible(TriplesOfPath(l, options, 0), w);
      }
    }
  }

  /** The endpoints left in the pruned tree are the compatible triples of the product, in order. */
  lemma PickedAreTriples(plan: seq<PathPlan>, w: Wanted)
    requires HasOptions(plan)
    ensures Picked(Prune(TreeOf(plan), w), EndpointNode) == Compatible(Triples(plan, 0), w)
  {
    PickedPaths(plan, 0, w);
  }

  // ---------------------------------------------------------------- without remote endpoints

  predicate NoRemotes(plan: seq<PathPlan>) {
    forall i, j | 0 <= i < |plan| && 0 <= j < |plan[i].options| :: plan[i].options[j].remotes == []
  }

  lemma {:induction false} PickedLocalProtocols(parent: Id, l: Local, options: seq<OptionPlan>, k: nat, w: Wanted)
    requires PathFits(l, w) && forall j | 0 <= j < |options| :: options[j].remotes == []
    ensures Picked(Prune(ProtocolNodes(parent, l, options, k), w), ProtocolNode)
            == Compatible(PairsOfPath(l, options, k), w)
    decreases |options| - k
  {
    if k < |options| {
      PickedLocalProtocols(parent, l, options, k + 1, w);
      assert PairsOfPath(l, options, k)[1..] == PairsOfPath(l, options, k + 1);
      assert Prune(EndpointNodes(parent + [k], l, options[k], 0), w).End?;
    }
  }

  lemma {:induction false} PairsOfPathData(l: Local, options: seq<OptionPlan>, k: nat, c: Candidate)
    requires c in PairsOfPath(l, options, k)
    ensures c.local == Some(l)
    decreases |options| - k
  {
    if c != ProtocolData(l, options[k].option) { PairsOfPathData(l, options, k + 1, c); }
  }

  lemma {:induction false} PickedLocalPaths(plan: seq<PathPlan>, k: nat, w: Wanted)
    requires HasOptions(plan) && NoRemotes(plan)
    ensures Picked(Prune(PathNodes(plan, k), w), ProtocolNode) == Compatible(Pairs(plan, k), w)
    decreases |plan| - k
  {
    if k < |plan| {
      var l, options := plan[k].local, plan[k].options;
      PickedLocalPaths(plan, k + 1, w);
      CompatibleConcat(PairsOfPath(l, options, 0), Pairs(plan, k + 1), w);
      if PathFits(l, w) {
        PickedLocalProtocols([0] + [k], l, options, 0, w);
      } else {
        forall c | c in PairsOfPath(l, options, 0) ensures !Fits(c, w) { PairsOfPathData(l, options, 0, c); }
        NoneCompatible(PairsOfPath(l, options, 0), w);
      }
    }
  }

  lemma PickedArePairs(plan: seq<PathPlan>, w: Wanted)
    requires HasOptions(plan) && NoRemotes(plan)
    ensures Picked(Prune(TreeOf(plan), w), ProtocolNode) == Compatible(Pairs(plan, 0), w)
  {
    PickedLocalPaths(plan, 0, w);
  }
}
