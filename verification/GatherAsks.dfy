/** What gathering branches into before anything is resolved, and the resolutions it then asks for: one
    for every path, option and remote endpoint. */
module GatherAsks {
  import opened Selection
  import opened CandidateTree
  import opened GatherPlan
  import opened GatherModel

  // ---------------------------------------------------------------- what is branched into

  /** One option per ALPN for protocols that support it, otherwise a single one without. */
  function OptionsOf(p: Protocol, alpns: seq<string>): (s: seq<ProtocolOption>)
    ensures s != []
  {
    if p.supportsAlpn && alpns != [] then
      seq(|alpns|, k requires 0 <= k < |alpns| => ProtocolOption(p, Some(alpns[k])))
    else [ProtocolOption(p, None)]
  }

  function Options(protocols: seq<Protocol>, alpns: seq<string>): (s: seq<ProtocolOption>)
    ensures protocols != [] ==> s != []
  {
    if protocols == [] then []
    else Options(protocols[..|protocols| - 1], alpns) + OptionsOf(protocols[|protocols| - 1], alpns)
  }

  function Bare(found: seq<Local>): (plan: seq<PathPlan>) {
    seq(|found|, k requires 0 <= k < |found| => PathPlan(found[k], []))
  }

  function Unresolved(options: seq<ProtocolOption>): (s: seq<OptionPlan>) {
    seq(|options|, k requires 0 <= k < |options| => OptionPlan(options[k], []))
  }

  /** Every path with every option, nothing resolved. */
  function InitialPlan(found: seq<Local>, options: seq<ProtocolOption>): (plan: seq<PathPlan>) {
    seq(|found|, k requires 0 <= k < |found| => PathPlan(found[k], Unresolved(options)))
  }

  function LeafIds(f: Nodes): (s: seq<Id>) {
    if f.End? then [] else (if f.children.End? then [f.id] else LeafIds(f.children)) + LeafIds(f.next)
  }

  lemma {:induction false} PathLeavesFrom(found: seq<Local>, k: nat)
    requires k <= |found|
    ensures LeafIds(PathNodes(Bare(found), k)) == seq(|found| - k, i => [0] + [k + i])
    decreases |found| - k
  {
    if k < |found| {
      PathLeavesFrom(found, k + 1);
      assert ProtocolNodes([0] + [k], found[k], [], 0).End?;
      assert seq(|found| - k, i => [0] + [k + i]) == [[0] + [k]] + seq(|found| - k - 1, i => [0] + [k + 1 + i]);
    }
  }

  lemma {:induction false} ProtocolLeavesFrom(parent: Id, l: Local, options: seq<ProtocolOption>, k: nat)
    requires k <= |options|
    ensures LeafIds(ProtocolNodes(parent, l, Unresolved(options), k)) == seq(|options| - k, j => parent + [k + j])
    decreases |options| - k
  {
    if k < |options| {
      ProtocolLeavesFrom(parent, l, options, k + 1);
      assert seq(|options| - k, j => parent + [k + j])
          == [parent + [k]] + seq(|options| - k - 1, j => parent + [k + 1 + j]);
    }
  }

  lemma {:induction false} AllLeavesFrom(found: seq<Local>, options: seq<ProtocolOption>, k: nat, x: Id)
    requires options != [] && k <= |found| && x in LeafIds(PathNodes(InitialPlan(found, options), k))
    ensures |x| == 3 && x[1] < |found| && x[2] < |options|
    decreases |found| - k
  {
    var plan := InitialPlan(found, options);
    if k < |found| {
      var below := ProtocolNodes([0] + [k], found[k], Unresolved(options), 0);
      ProtocolLeavesFrom([0] + [k], found[k], options, 0);
      assert PathNodes(plan, k).children == below;
      if x !in LeafIds(below) { AllLeavesFrom(found, options, k + 1, x); }
    }
  }

  /** One resolution per leaf and remote endpoint. */
  function AsksFor(leaves: seq<Id>, remotes: nat): (s: seq<Ask>)
    ensures |s| == |leaves| * remotes
  {
    if leaves == [] then [] else
      AsksFor(leaves[..|leaves| - 1], remotes)
      + seq(remotes, (r: nat) => Ask(Coordinate(leaves[|leaves| - 1], 1), Coordinate(leaves[|leaves| - 1], 2), r))
  }

  function Coordinate(x: Id, d: nat): (n: nat) { if d < |x| then x[d] else 0 }

  lemma {:induction false} AsksForFit(plan: seq<PathPlan>, leaves: seq<Id>, remotes: nat)
    requires forall x | x in leaves :: |x| == 3 && x[1] < |plan| && x[2] < |plan[x[1]].options|
    ensures AsksFit(plan, AsksFor(leaves, remotes))
  {
    if leaves != [] { AsksForFit(plan, leaves[..|leaves| - 1], remotes); }
  }

  lemma LeavesFit(found: seq<Local>, options: seq<ProtocolOption>, remotes: nat)
    requires options != []
    ensures var plan := InitialPlan(found, options);
      AsksFit(plan, AsksFor(LeafIds(PathNodes(plan, 0)), remotes))
  {
    var plan := InitialPlan(found, options);
    forall x | x in LeafIds(PathNodes(plan, 0))
      ensures |x| == 3 && x[1] < |plan| && x[2] < |plan[x[1]].options|
    {
      AllLeavesFrom(found, options, 0, x);
      assert plan[x[1]].options == Unresolved(options);
    }
    AsksForFit(plan, LeafIds(PathNodes(plan, 0)), remotes);
  }

  // ---------------------------------------------------------------- what is asked

  /** How many of the leaves are option `j` of path `i`. */
  function CountLeaves(leaves: seq<Id>, i: nat, j: nat): (n: nat) {
    if leaves == [] then 0 else
      var m := |leaves| - 1;
      CountLeaves(leaves[..m], i, j) +
      if Coordinate(leaves[m], 1) == i && Coordinate(leaves[m], 2) == j then 1 else 0
  }

  lemma {:induction false} CountConcat(a: seq<Id>, b: seq<Id>, i: nat, j: nat)
    ensures CountLeaves(a + b, i, j) == CountLeaves(a, i, j) + CountLeaves(b, i, j)
    decreases |b|
  {
    if b == [] {
      assert a + b == a;
    } else {
      var m := |b| - 1;
      assert (a + b)[..|a| + m] == a + b[..m] && (a + b)[|a| + m] == b[m];
      CountConcat(a, b[..m], i, j);
    }
  }

  lemma {:induction false} CountOptions(p: nat, n: nat, i: nat, j: nat)
    ensures CountLeaves(seq(n, k => [0] + [p] + [k]), i, j) == if p == i && j < n then 1 else 0
  {
    if n > 0 {
      var s := seq(n, k => [0] + [p] + [k]);
      assert s[..n - 1] == seq(n - 1, k => [0] + [p] + [k]);
      CountOptions(p, n - 1, i, j);
    }
  }

  lemma OptionLeaves(p: nat, l: Local, options: seq<ProtocolOption>, i: nat, j: nat)
    ensures CountLeaves(LeafIds(ProtocolNodes([0] + [p], l, Unresolved(options), 0)), i, j)
            == if p == i && j < |options| then 1 else 0
  {
    ProtocolLeavesFrom([0] + [p], l, options, 0);
    assert seq(|options|, k => [0] + [p] + [0 + k]) == seq(|options|, k => [0] + [p] + [k]);
    CountOptions(p, |options|, i, j);
  }

  lemma {:induction false} CountPaths(found: seq<Local>, options: seq<ProtocolOption>, k: nat, i: nat, j: nat)
    requires options != [] && k <= |found|
    ensures CountLeaves(LeafIds(PathNodes(InitialPlan(found, options), k)), i, j)
            == if k <= i < |found| && j < |options| then 1 else 0
    decreases |found| - k
  {
    if k < |found| {
      var nodes := PathNodes(InitialPlan(found, options), k);
      var below := ProtocolNodes([0] + [k], found[k], Unresolved(options), 0);
      assert nodes.children == below;
      CountPaths(found, options, k + 1, i, j);
      OptionLeaves(k, found[k], options, i, j);
      CountConcat(LeafIds(below), LeafIds(nodes.next), i, j);
    }
  }

  function AsksAt(p: nat, o: nat, remotes: nat): (s: seq<Ask>) { seq(remotes, (r: nat) => Ask(p, o, r)) }

  lemma {:induction false} CountAsksAt(p: nat, o: nat, remotes: nat, a: Ask)
    ensures multiset(AsksAt(p, o, remotes))[a] == if a.path == p && a.option == o && a.remote < remotes then 1 else 0
  {
    if remotes > 0 {
      assert AsksAt(p, o, remotes) == AsksAt(p, o, remotes - 1) + [Ask(p, o, remotes - 1)];
      CountAsksAt(p, o, remotes - 1, a);
    }
  }

  lemma {:induction false} CountAsks(leaves: seq<Id>, remotes: nat, a: Ask)
    ensures multiset(AsksFor(leaves, remotes))[a]
            == if a.remote < remotes then CountLeaves(leaves, a.path, a.option) else 0
  {
    if leaves != [] {
      var m := |leaves| - 1;
      var p, o := Coordinate(leaves[m], 1), Coordinate(leaves[m], 2);
      CountAsks(leaves[..m], remotes, a);
      CountAsksAt(p, o, remotes, a);
      assert AsksFor(leaves, remotes) == AsksFor(leaves[..m], remotes) + AsksAt(p, o, remotes);
    }
  }

  /** The resolutions of a gathering. */
  function AllAsks(found: seq<Local>, options: seq<ProtocolOption>, remotes: nat): (s: seq<Ask>) {
    AsksFor(LeafIds(PathNodes(InitialPlan(found, options), 0)), remotes)
  }

  /** Every remote endpoint is asked for exactly once for every path and option, and nothing else is. */
  lemma AsksCover(found: seq<Local>, options: seq<ProtocolOption>, remotes: nat, a: Ask)
    requires options != []
    ensures multiset(AllAsks(found, options, remotes))[a]
            == if a.path < |found| && a.option < |options| && a.remote < remotes then 1 else 0
  {
    CountAsks(LeafIds(PathNodes(InitialPlan(found, options), 0)), remotes, a);
    CountPaths(found, options, 0, a.path, a.option);
  }
}
