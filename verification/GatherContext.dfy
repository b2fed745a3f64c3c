/** The gather context as the library keeps it: the tree grows node by node, counters go up and
    down, and the last answer prunes, collects, sorts and delivers.  Each operation is proved
    against GatherModel. */
module GatherContext {
  import opened Addresses
  import opened Selection
  import opened StableSort
  import opened CandidateTree
  import opened Pruning
  import opened GatherPlan
  import opened GatherModel
  import opened GatherAsks
  import opened GatherOrder
  import opened Sequences

  // ---------------------------------------------------------------- the context

  class Context {
    const wanted: Wanted
    const localOnly: bool
    var root: Nodes
    var pending: int
    var inFlight: int
    var failed: bool
    // What the environment has seen of this context.
    var calls: seq<Option<seq<Candidate>>>
    var frees: nat
    // What the tree was built from, and which resolutions are outstanding.
    ghost var plan: seq<PathPlan>
    ghost var queue: seq<Ask>
    ghost var outstanding: multiset<Ask>

    ghost function Model(): (g: Gather)
      reads this
    {
      Gather(plan, queue, outstanding, pending, inFlight, failed, calls, frees)
    }

    ghost predicate Valid()
      reads this
    {
      root == TreeOf(plan)
    }

    constructor (wanted: Wanted, localOnly: bool)
      ensures Valid() && this.wanted == wanted && this.localOnly == localOnly
      ensures Model() == Gather([], [], multiset{}, 0, 0, false, [], 0)
    {
      this.wanted, this.localOnly := wanted, localOnly;
      root := Node([0], Candidate(RootNode, None, None, None), End, End);
      pending, inFlight, failed, calls, frees := 0, 0, false, [], 0;
      plan, queue, outstanding := [], [], multiset{};
    }

    method BranchByPath(found: seq<Local>)
      requires Valid()
      modifies this`root, this`plan
      ensures Valid() && plan == old(plan) + Bare(found)
    {
      for i := 0 to |found|
        invariant Valid() && plan == old(plan) + Bare(found[..i])
      {
        AppendPath(plan, found[i]);
        root := AppendUnder(root, [0], PathData(found[i]));
        plan := AddPath(plan, found[i]);
        assert Bare(found[..i + 1]) == Bare(found[..i]) + [PathPlan(found[i], [])];
      }
      assert found[..|found|] == found;
    }

    method BranchByProtocol(i: nat, o: ProtocolOption)
      requires Valid() && i < |plan|
      modifies this`root, this`plan
      ensures Valid() && plan == AddOption(old(plan), i, o)
    {
      AppendOption(plan, i, o);
      root := AppendUnder(root, [0] + [i], ProtocolData(LocalOf(i), o));
      plan := AddOption(plan, i, o);
    }

    /** The local endpoint stored in a path node. */
    function LocalOf(i: nat): (l: Local)
      requires Valid() && i < |plan|
      reads this
      ensures l == plan[i].local
    {
      PathAt(plan, i, 0);
      NodeAt(root.children, i).data.local.value
    }

    /** One protocol node for each of the options. */
    method BranchByAlpns(i: nat, options: seq<ProtocolOption>, ghost before: seq<ProtocolOption>)
      requires Valid() && i < |plan| && plan[i].options == Unresolved(before)
      modifies this`root, this`plan
      ensures Valid() && plan == old(plan)[i := PathPlan(old(plan)[i].local, Unresolved(before + options))]
    {
      ghost var was := plan;
      assert before + options[..0] == before && was[i] == PathPlan(was[i].local, Unresolved(before));
      for m := 0 to |options|
        invariant Valid()
        invariant plan == was[i := PathPlan(was[i].local, Unresolved(before + options[..m]))]
      {
        BranchByProtocol(i, options[m]);
        assert Unresolved(before + options[..m + 1])
            == Unresolved(before + options[..m]) + [OptionPlan(options[m], [])];
      }
      assert options[..|options|] == options;
    }

    method BranchByProtocolOptions(i: nat, protocols: seq<Protocol>, alpns: seq<string>)
      requires Valid() && i < |plan| && plan[i].options == []
      modifies this`root, this`plan
      ensures Valid() && plan == old(plan)[i := PathPlan(old(plan)[i].local, Unresolved(Options(protocols, alpns)))]
    {
      ghost var was := plan;
      assert was[i] == PathPlan(was[i].local, Unresolved([]));
      for n := 0 to |protocols|
        invariant Valid()
        invariant plan == was[i := PathPlan(was[i].local, Unresolved(Options(protocols[..n], alpns)))]
      {
        assert protocols[..n + 1][..n] == protocols[..n];
        BranchByAlpns(i, OptionsOf(protocols[n], alpns), Options(protocols[..n], alpns));
      }
      assert protocols[..|protocols|] == protocols;
    }

    /** Paths for every resolved local endpoint, and under each of them every option. */
    method BuildPathsAndProtocols(found: seq<seq<Local>>, protocols: seq<Protocol>, alpns: seq<string>)
      requires Valid() && plan == [] && protocols != []
      modifies this`root, this`plan
      ensures Valid() && plan == InitialPlan(Joined(found), Options(protocols, alpns))
    {
      for i := 0 to |found|
        invariant Valid() && plan == Bare(Joined(found[..i]))
      {
        BranchByPath(found[i]);
        assert found[..i + 1] == found[..i] + [found[i]];
        JoinedMore(found[..i], found[i]);
      }
      assert found[..|found|] == found;
      ghost var locals, options := Joined(found), Options(protocols, alpns);
      PathLeavesFrom(locals, 0);
      var leaves := LeafIds(root.children);
      for i := 0 to |leaves|
        invariant Valid() && |plan| == |locals|
        invariant forall k | 0 <= k < |locals| ::
          plan[k] == PathPlan(locals[k], if k < i then Unresolved(options) else [])
      {
        BranchByProtocolOptions(leaves[i][1], protocols, alpns);
      }
      assert plan == InitialPlan(locals, options);
    }

    /** Prune, collect, sort. */
    method OrderedCandidates() returns (ordered: seq<Candidate>)
      requires Valid()
      ensures ordered == if localOnly then DeliveredLocally(plan, wanted) else Delivered(plan, wanted)
      ensures !localOnly && HasOptions(plan) ==> BestFirst(AllowedOnly(Joined(OfPlan(plan)), wanted), ordered, wanted)
      ensures localOnly && HasOptions(plan) && NoRemotes(plan) ==>
                BestFirst(AllowedOnly(Pairs(plan, 0), wanted), ordered, wanted)
    {
      if HasOptions(plan) {
        DeliveredTold(plan, wanted);
        if NoRemotes(plan) { DeliveredLocallyTold(plan, wanted); }
      }
      TreeOfIsTree(plan);
      var left, freed := PruneCandidateTree(root, wanted);
      var leaves := Picked(left, if localOnly then ProtocolNode else EndpointNode);
      ordered := Sort(leaves, RankBy(wanted));
    }

    /** The tree is complete: deliver, and free the context. */
    method TreeIsComplete()
      requires Valid()
      modifies this`calls, this`frees
      ensures !localOnly ==> Model() == Complete(old(Model()), wanted)
      ensures localOnly && !failed ==>
        Model() == old(Model()).(calls := old(calls) + [Some(DeliveredLocally(plan, wanted))], frees := old(frees) + 1)
    {
      frees := frees + 1;
      if failed {
        calls := calls + [None];
        return;
      }
      var ordered := OrderedCandidates();
      calls := calls + [Some(ordered)];
    }

    /** Gathering for a listener: nothing is resolved, and the tree is complete as soon as it is built. */
    method GatherLocally(found: seq<seq<Local>>, protocols: seq<Protocol>, alpns: seq<string>)
      requires Valid() && localOnly && plan == [] && protocols != [] && !failed
      modifies this
      ensures Valid() && plan == InitialPlan(Joined(found), Options(protocols, alpns))
      ensures calls == old(calls) + [Some(DeliveredLocally(plan, wanted))] && frees == old(frees) + 1
    {
      BuildPathsAndProtocols(found, protocols, alpns);
      TreeIsComplete();
    }

    method AppendEndpoint(a: Ask, address: Address)
      requires Valid() && InPlan(plan, a)
      modifies this`root, this`plan
      ensures Valid() && plan == AddRemote(old(plan), a.path, a.option, address)
    {
      AppendRemote(plan, a.path, a.option, address);
      var c := ParentOf(a).(nodeType := EndpointNode, remote := Some(address));
      root := AppendUnder(root, [0] + [a.path] + [a.option], c);
      plan := AddRemote(plan, a.path, a.option, address);
    }

    method AppendEndpoints(a: Ask, answer: seq<Address>)
      requires Valid() && InPlan(plan, a)
      modifies this`root, this`plan
      ensures Valid() && plan == AddRemotes(old(plan), a, answer)
    {
      ghost var was := plan;
      for n := 0 to |answer|
        invariant Valid() && InPlan(plan, a)
        invariant AddRemotes(plan, a, answer[n..]) == AddRemotes(was, a, answer)
      {
        assert answer[n..][1..] == answer[n + 1..];
        AppendEndpoint(a, answer[n]);
      }
    }

    /** The callback of one resolution: an endpoint node for every address, then the counters. */
    method Resolved(a: Ask, answer: seq<Address>)
      requires Valid() && !localOnly && InPlan(plan, a)
      modifies this
      ensures Valid() && Model() == OnAnswer(old(Model()), wanted, a, answer)
    {
      AppendEndpoints(a, answer);
      CountReported(a);
    }

    method Uncount(a: Ask)
      modifies this`outstanding, this`inFlight, this`pending
      ensures Model() == old(Model()).(outstanding := old(outstanding) - multiset{a},
                                       inFlight := old(inFlight) - 1, pending := old(pending) - 1)
    {
      outstanding := outstanding - multiset{a};
      inFlight := inFlight - 1;
      pending := pending - 1;
    }

    method CountReported(a: Ask)
      requires Valid() && !localOnly
      modifies this`outstanding, this`inFlight, this`pending, this`calls, this`frees
      ensures Model() == OneLess(old(Model()), wanted, a)
    {
      Uncount(a);
      ghost var g := Model();
      if pending == 0 {
        TreeIsComplete();
        assert Model() == Complete(g, wanted);
      }
    }

    /** The data of the protocol node a resolution hangs its answers under. */
    function ParentOf(a: Ask): (c: Candidate)
      requires Valid() && InPlan(plan, a)
      reads this
      ensures c == ProtocolData(plan[a.path].local, plan[a.path].options[a.option].option)
    {
      PathAt(plan, a.path, 0);
      ProtocolAt([0] + [a.path], plan[a.path].local, plan[a.path].options, a.option, 0);
      NodeAt(NodeAt(root.children, a.path).children, a.option).data
    }

    /** Everything up to the loop over leaves and remote endpoints: one resolution is pending for
        each pair, and without any pair gathering has failed. */
    method PrepareResolutions(remotes: nat, ghost found: seq<Local>, ghost options: seq<ProtocolOption>)
      requires Valid() && !localOnly && options != []
      requires Model() == Gather(InitialPlan(found, options), [], multiset{}, 0, 0, false, [], 0)
      modifies this
      ensures Valid() && AsksFit(plan, queue)
      ensures Model() == Begin(InitialPlan(found, options), AllAsks(found, options, remotes), wanted)
      ensures forall a :: multiset(queue)[a] ==
                if a.path < |found| && a.option < |options| && a.remote < remotes then 1 else 0
    {
      LeavesFit(found, options, remotes);
      forall a ensures multiset(AllAsks(found, options, remotes))[a] ==
                         if a.path < |found| && a.option < |options| && a.remote < remotes then 1 else 0
      {
        AsksCover(found, options, remotes, a);
      }
      var leaves := LeafIds(root.children);
      queue := AsksFor(leaves, remotes);
      pending := |leaves| * remotes;
      if pending == 0 {
        failed := true;
        TreeIsComplete();
      }
    }

    /** A resolution cannot be started: this loop gives up, and so does its caller, who frees the
        context once more. */
    method GiveUp()
      requires Valid() && !localOnly
      modifies this
      ensures Valid() && Model() == OnRefusal(old(Model()), wanted)
    {
      failed := true;
      pending := inFlight;
      queue := [];
      if pending == 0 { TreeIsComplete(); }
      frees := frees + 1;
    }

    method CountStarted()
      requires queue != []
      modifies this
      ensures root == old(root) && Model() == Start(old(Model()))
    {
      inFlight := inFlight + 1;
      outstanding := outstanding + multiset{queue[0]};
      queue := queue[1..];
    }

    /** One turn of the loop; `e` says how the start turns out. */
    method StartResolution(ask: Ask, e: Event) returns (rc: int)
      requires Valid() && !localOnly && queue != [] && ask == queue[0] && InPlan(plan, ask) && !e.Answered?
      modifies this
      ensures Valid() && Model() == Step(old(Model()), wanted, e)
      ensures rc != 0 <==> e.Refused?
    {
      if e.Refused? {
        GiveUp();
        return -1;
      }
      CountStarted();
      if e.AnsweredAtOnce? { Resolved(ask, e.answer); }
      rc := 0;
    }
  }

  /** The n-th sibling. */
  function NodeAt(f: Nodes, n: nat): (g: Nodes)
    requires n < Length(f)
    ensures g.Node?
  {
    if n == 0 then f else NodeAt(f.next, n - 1)
  }

  lemma {:induction false} PathAt(plan: seq<PathPlan>, i: nat, k: nat)
    requires k + i < |plan|
    ensures i < Length(PathNodes(plan, k))
    ensures NodeAt(PathNodes(plan, k), i).data == PathData(plan[k + i].local)
    ensures NodeAt(PathNodes(plan, k), i).children
            == ProtocolNodes([0] + [k + i], plan[k + i].local, plan[k + i].options, 0)
    decreases i
  {
    if i > 0 { PathAt(plan, i - 1, k + 1); }
  }

  lemma {:induction false} ProtocolAt(parent: Id, l: Local, options: seq<OptionPlan>, j: nat, k: nat)
    requires k + j < |options|
    ensures j < Length(ProtocolNodes(parent, l, options, k))
    ensures NodeAt(ProtocolNodes(parent, l, options, k), j).data == ProtocolData(l, options[k + j].option)
    decreases j
  {
    if j > 0 { ProtocolAt(parent, l, options, j - 1, k + 1); }
  }
}
