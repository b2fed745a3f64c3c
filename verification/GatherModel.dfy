/** Gathering as a run: resolutions are started one after the other, some answer at once and some
    later in any order, and the last answer delivers the ordered candidates. */
module GatherModel {
  import opened Addresses
  import opened Selection
  import opened StableSort
  import opened CandidateTree
  import opened Pruning
  import opened GatherPlan

  /** Resolve remote endpoint number `remote` for option `option` of path `path`. */
  datatype Ask = Ask(path: nat, option: nat, remote: nat)

  datatype Gather = Gather(
    plan: seq<PathPlan>,
    queue: seq<Ask>,              // resolutions not started yet
    outstanding: multiset<Ask>,   // started and not answered
    pending: int,
    inFlight: int,
    failed: bool,
    calls: seq<Option<seq<Candidate>>>,   // what the ready callback was given; None is NULL
    frees: nat)                   // how often the context was freed

  datatype Event =
    | Asked                                   // the next resolution is started
    | AnsweredAtOnce(answer: seq<Address>)    // ... and calls back before it returns
    | Refused                                 // ... and cannot be started
    | Answered(ask: Ask, answer: seq<Address>)

  // ---------------------------------------------------------------- ordering

  function RankBy(w: Wanted): (key: Candidate -> Rank) {
    (c: Candidate) => if c.option.Some? then RankOf(c.option.value.protocol, w.desired) else Rank(0, 0)
  }

  /** What racing is given: the endpoints of the pruned tree, sorted. */
  function Delivered(plan: seq<PathPlan>, w: Wanted): (s: seq<Candidate>) {
    Sort(Picked(Prune(TreeOf(plan), w), EndpointNode), RankBy(w))
  }

  /** The same without remote endpoints, for listeners. */
  function DeliveredLocally(plan: seq<PathPlan>, w: Wanted): (s: seq<Candidate>) {
    Sort(Picked(Prune(TreeOf(plan), w), ProtocolNode), RankBy(w))
  }

  /** The whole pipeline is: take the product, keep what is compatible, sort it stably. */
  lemma DeliveredIsSortedProduct(plan: seq<PathPlan>, w: Wanted)
    requires HasOptions(plan)
    ensures StablySorted(Compatible(Triples(plan, 0), w), Delivered(plan, w), RankBy(w))
    ensures multiset(Delivered(plan, w)) == multiset(Compatible(Triples(plan, 0), w))
    ensures forall t | StablySorted(Compatible(Triples(plan, 0), w), t, RankBy(w)) :: t == Delivered(plan, w)
  {
    PickedAreTriples(plan, w);
    SortIsStable(Compatible(Triples(plan, 0), w), RankBy(w));
    forall t | StablySorted(Compatible(Triples(plan, 0), w), t, RankBy(w)) ensures t == Delivered(plan, w) {
      SortIsTheStableSort(Compatible(Triples(plan, 0), w), t, RankBy(w));
    }
  }

  lemma DeliveredLocallyIsSortedProduct(plan: seq<PathPlan>, w: Wanted)
    requires HasOptions(plan) && NoRemotes(plan)
    ensures StablySorted(Compatible(Pairs(plan, 0), w), DeliveredLocally(plan, w), RankBy(w))
    ensures multiset(DeliveredLocally(plan, w)) == multiset(Compatible(Pairs(plan, 0), w))
    ensures forall t | StablySorted(Compatible(Pairs(plan, 0), w), t, RankBy(w)) :: t == DeliveredLocally(plan, w)
  {
    PickedArePairs(plan, w);
    SortIsStable(Compatible(Pairs(plan, 0), w), RankBy(w));
    forall t | StablySorted(Compatible(Pairs(plan, 0), w), t, RankBy(w)) ensures t == DeliveredLocally(plan, w) {
      SortIsTheStableSort(Compatible(Pairs(plan, 0), w), t, RankBy(w));
    }
  }

  // ---------------------------------------------------------------- steps

  predicate InPlan(plan: seq<PathPlan>, a: Ask) { a.path < |plan| && a.option < |plan[a.path].options| }

  function AddRemotes(plan: seq<PathPlan>, a: Ask, answer: seq<Address>): (p: seq<PathPlan>)
    requires InPlan(plan, a)
    decreases |answer|
  {
    if answer == [] then plan
    else AddRemotes(AddRemote(plan, a.path, a.option, answer[0]), a, answer[1..])
  }

  function AnswerAt(a: Ask, answer: seq<Address>, i: nat, j: nat): (s: seq<Address>) {
    if i == a.path && j == a.option then answer else []
  }

  /** The same options of path `i`; one of them may have more addresses. */
  predicate PathMore(p: PathPlan, q: PathPlan, a: Ask, answer: seq<Address>, i: nat) {
    && q.local == p.local && |q.options| == |p.options|
    && forall j | 0 <= j < |p.options| ::
         q.options[j] == OptionPlan(p.options[j].option, p.options[j].remotes + AnswerAt(a, answer, i, j))
  }

  /** The same paths and options; one option has more addresses. */
  predicate MoreRemotes(plan: seq<PathPlan>, p: seq<PathPlan>, a: Ask, answer: seq<Address>) {
    |p| == |plan| && forall i | 0 <= i < |plan| :: PathMore(plan[i], p[i], a, answer, i)
  }

  lemma PathMoreTwice(p: PathPlan, q: PathPlan, r: PathPlan, a: Ask, x: seq<Address>, y: seq<Address>, i: nat)
    requires PathMore(p, q, a, x, i) && PathMore(q, r, a, y, i)
    ensures PathMore(p, r, a, x + y, i)
  {
    forall j | 0 <= j < |p.options|
      ensures r.options[j] == OptionPlan(p.options[j].option, p.options[j].remotes + AnswerAt(a, x + y, i, j))
    {
      assert r.options[j].remotes == p.options[j].remotes + AnswerAt(a, x, i, j) + AnswerAt(a, y, i, j);
      assert AnswerAt(a, x, i, j) + AnswerAt(a, y, i, j) == AnswerAt(a, x + y, i, j);
    }
  }

  lemma AddRemoteAdds(plan: seq<PathPlan>, a: Ask, address: Address)
    requires InPlan(plan, a)
    ensures MoreRemotes(plan, AddRemote(plan, a.path, a.option, address), a, [address])
  {
    var p := AddRemote(plan, a.path, a.option, address);
    forall i | 0 <= i < |plan| ensures PathMore(plan[i], p[i], a, [address], i) {}
  }

  lemma {:induction false} AddRemotesAdds(plan: seq<PathPlan>, a: Ask, answer: seq<Address>)
    requires InPlan(plan, a)
    ensures MoreRemotes(plan, AddRemotes(plan, a, answer), a, answer)
    decreases |answer|
  {
    if answer == [] {
      forall i | 0 <= i < |plan| ensures PathMore(plan[i], plan[i], a, [], i) {}
    } else {
      var one := AddRemote(plan, a.path, a.option, answer[0]);
      AddRemoteAdds(plan, a, answer[0]);
      AddRemotesAdds(one, a, answer[1..]);
      var p := AddRemotes(one, a, answer[1..]);
      assert answer == [answer[0]] + answer[1..];
      forall i | 0 <= i < |plan| ensures PathMore(plan[i], p[i], a, answer, i) {
        PathMoreTwice(plan[i], one[i], p[i], a, [answer[0]], answer[1..], i);
      }
    }
  }

  function Complete(g: Gather, w: Wanted): (g': Gather) {
    g.(calls := g.calls + [if g.failed then None else Some(Delivered(g.plan, w))], frees := g.frees + 1)
  }

  /** One resolution less to wait for. */
  function OneLess(g: Gather, w: Wanted, a: Ask): (g': Gather) {
    var g1 := g.(outstanding := g.outstanding - multiset{a}, inFlight := g.inFlight - 1, pending := g.pending - 1);
    if g1.pending == 0 then Complete(g1, w) else g1
  }

  /** The callback of one resolution. */
  function OnAnswer(g: Gather, w: Wanted, a: Ask, answer: seq<Address>): (g': Gather)
    requires InPlan(g.plan, a)
  {
    OneLess(g.(plan := AddRemotes(g.plan, a, answer)), w, a)
  }

  function Start(g: Gather): (g': Gather)
    requires g.queue != []
  {
    g.(queue := g.queue[1..], outstanding := g.outstanding + multiset{g.queue[0]}, inFlight := g.inFlight + 1)
  }

  /** Starting failed: the build gives up, and so does its caller, who frees the context. */
  function OnRefusal(g: Gather, w: Wanted): (g': Gather) {
    var g1 := g.(failed := true, pending := g.inFlight, queue := []);
    var g2 := if g1.pending == 0 then Complete(g1, w) else g1;
    g2.(frees := g2.frees + 1)
  }

  predicate Enabled(g: Gather, e: Event) {
    match e
    case Answered(a, _) => a in g.outstanding && InPlan(g.plan, a)
    case _ => g.queue != [] && InPlan(g.plan, g.queue[0])
  }

  function Step(g: Gather, w: Wanted, e: Event): (g': Gather)
    requires Enabled(g, e)
  {
    match e
    case Asked => Start(g)
    case AnsweredAtOnce(answer) => OnAnswer(Start(g), w, g.queue[0], answer)
    case Refused => OnRefusal(g, w)
    case Answered(a, answer) => OnAnswer(g, w, a, answer)
  }

  /** With remote endpoints to resolve, everything is still to come; without, gathering fails. */
  function Begin(plan: seq<PathPlan>, asks: seq<Ask>, w: Wanted): (g: Gather) {
    var g := Gather(plan, asks, multiset{}, |asks|, 0, asks == [], [], 0);
    if asks == [] then Complete(g, w) else g
  }

  predicate ValidRun(g: Gather, w: Wanted, es: seq<Event>)
    decreases |es|, 0
  {
    es == [] || (ValidRun(g, w, es[..|es| - 1]) && Enabled(Run(g, w, es[..|es| - 1]), es[|es| - 1]))
  }

  function Run(g: Gather, w: Wanted, es: seq<Event>): (g': Gather)
    requires ValidRun(g, w, es)
    decreases |es|, 1
  {
    if es == [] then g else Step(Run(g, w, es[..|es| - 1]), w, es[|es| - 1])
  }

  lemma RunExtends(g: Gather, w: Wanted, es: seq<Event>, e: Event)
    requires ValidRun(g, w, es) && Enabled(Run(g, w, es), e)
    ensures ValidRun(g, w, es + [e]) && Run(g, w, es + [e]) == Step(Run(g, w, es), w, e)
    ensures HasRefusal(es + [e]) <==> HasRefusal(es) || e.Refused?
  {
    assert (es + [e])[..|es|] == es;
  }

  /** Some resolution could not be started. */
  predicate HasRefusal(es: seq<Event>) {
    es != [] && (HasRefusal(es[..|es| - 1]) || es[|es| - 1].Refused?)
  }

  function Started(es: seq<Event>): (n: nat) {
    if es == [] then 0
    else Started(es[..|es| - 1]) + if es[|es| - 1].Asked? || es[|es| - 1].AnsweredAtOnce? then 1 else 0
  }

  function Reported(es: seq<Event>): (n: nat) {
    if es == [] then 0
    else Reported(es[..|es| - 1]) + if es[|es| - 1].Answered? || es[|es| - 1].AnsweredAtOnce? then 1 else 0
  }

  // ---------------------------------------------------------------- invariant

  predicate AsksFit(plan: seq<PathPlan>, asks: seq<Ask>) { forall i | 0 <= i < |asks| :: InPlan(plan, asks[i]) }

  predicate Inv(g: Gather, refused: bool) {
    && g.inFlight == |g.outstanding|
    && g.failed == refused
    && g.pending == |g.queue| + |g.outstanding|
    && AsksFit(g.plan, g.queue)
    && (forall a | a in g.outstanding :: InPlan(g.plan, a))
    && |g.calls| == (if g.pending == 0 then 1 else 0)
    && g.frees == (if g.pending == 0 then 1 else 0) + (if refused then 1 else 0)
    && (refused ==> g.queue == [] && forall i | 0 <= i < |g.calls| :: g.calls[i].None?)
  }

  lemma AnswerKeeps(g: Gather, w: Wanted, a: Ask, answer: seq<Address>, refused: bool)
    requires Inv(g, refused) && a in g.outstanding
    ensures Inv(OnAnswer(g, w, a, answer), refused)
  {
    AddRemotesAdds(g.plan, a, answer);
    OneLessKeeps(g.(plan := AddRemotes(g.plan, a, answer)), w, a, refused);
  }

  lemma OneLessKeeps(g: Gather, w: Wanted, a: Ask, refused: bool)
    requires Inv(g, refused) && a in g.outstanding
    ensures Inv(OneLess(g, w, a), refused)
  {
    var rest := g.outstanding - multiset{a};
    assert |rest| == |g.outstanding| - 1;
    assert forall b | b in rest :: b in g.outstanding;
  }

  lemma StartKeeps(g: Gather, refused: bool)
    requires Inv(g, refused) && g.queue != []
    ensures Inv(Start(g), refused) && g.queue[0] in Start(g).outstanding
  {
    var more := g.outstanding + multiset{g.queue[0]};
    assert forall b | b in more :: b in g.outstanding || b == g.queue[0];
  }

  lemma StepKeeps(g: Gather, w: Wanted, e: Event, refused: bool)
    requires Inv(g, refused) && Enabled(g, e)
    ensures Inv(Step(g, w, e), refused || e.Refused?)
  {
    match e
    case Asked => StartKeeps(g, refused);
    case AnsweredAtOnce(answer) =>
      StartKeeps(g, refused);
      AnswerKeeps(Start(g), w, g.queue[0], answer, refused);
    case Refused =>
    case Answered(a, answer) => AnswerKeeps(g, w, a, answer, refused);
  }

  lemma {:induction false} RunInv(plan: seq<PathPlan>, asks: seq<Ask>, w: Wanted, es: seq<Event>)
    requires AsksFit(plan, asks) && asks != [] && ValidRun(Begin(plan, asks, w), w, es)
    ensures Inv(Run(Begin(plan, asks, w), w, es), HasRefusal(es))
  {
    if es != [] {
      var before, last := es[..|es| - 1], es[|es| - 1];
      RunInv(plan, asks, w, before);
      StepKeeps(Run(Begin(plan, asks, w), w, before), w, last, HasRefusal(before));
    }
  }

  lemma {:induction false} RunCounts(plan: seq<PathPlan>, asks: seq<Ask>, w: Wanted, es: seq<Event>)
    requires ValidRun(Begin(plan, asks, w), w, es) && !HasRefusal(es)
    ensures var g := Run(Begin(plan, asks, w), w, es);
      && g.pending == |asks| - Reported(es)
      && g.inFlight == Started(es) - Reported(es)
  {
    if es != [] { RunCounts(plan, asks, w, es[..|es| - 1]); }
  }

  /** As long as every resolution can be started: the counters are what their names say, never
      drop below zero, and the callback fires once, with the last report. */
  lemma CompletesOnce(plan: seq<PathPlan>, asks: seq<Ask>, w: Wanted, es: seq<Event>)
    requires AsksFit(plan, asks) && asks != [] && ValidRun(Begin(plan, asks, w), w, es) && !HasRefusal(es)
    ensures var g := Run(Begin(plan, asks, w), w, es);
      && g.pending == |asks| - Reported(es) >= 0
      && g.inFlight == Started(es) - Reported(es) >= 0
      && (Reported(es) == |asks| <==> |g.calls| == 1)
      && (Reported(es) < |asks| <==> g.calls == [])
  {
    RunInv(plan, asks, w, es);
    RunCounts(plan, asks, w, es);
  }

  lemma StepInFlight(g: Gather, w: Wanted, e: Event)
    requires Enabled(g, e)
    ensures Step(g, w, e).inFlight == g.inFlight + (if e.Asked? then 1 else if e.Answered? then -1 else 0)
  {}

  lemma {:induction false} InFlightCounts(g0: Gather, w: Wanted, es: seq<Event>)
    requires ValidRun(g0, w, es) && g0.inFlight == 0
    ensures Run(g0, w, es).inFlight == Started(es) - Reported(es)
  {
    if es != [] {
      var es0, e := es[..|es| - 1], es[|es| - 1];
      InFlightCounts(g0, w, es0);
      StepInFlight(Run(g0, w, es0), w, e);
    }
  }

  /** When a resolution could not be started: nothing is delivered, and failure is reported once, when
      all those that were started have reported. */
  lemma FailsOnce(plan: seq<PathPlan>, asks: seq<Ask>, w: Wanted, es: seq<Event>)
    requires AsksFit(plan, asks) && asks != [] && ValidRun(Begin(plan, asks, w), w, es) && HasRefusal(es)
    ensures var g := Run(Begin(plan, asks, w), w, es);
      g.calls == (if Started(es) == Reported(es) then [None] else []) && Started(es) >= Reported(es)
  {
    RunInv(plan, asks, w, es);
    InFlightCounts(Begin(plan, asks, w), w, es);
  }

  /** Freed at most once, and not while an answer is still to come. */
  predicate FreedSoundly(g: Gather) { g.frees == 0 || (g.frees == 1 && g.outstanding == multiset{}) }

  /** The context is freed soundly exactly on the runs in which every resolution starts. */
  lemma FreedSoundlyIff(plan: seq<PathPlan>, asks: seq<Ask>, w: Wanted, es: seq<Event>)
    requires AsksFit(plan, asks) && asks != [] && ValidRun(Begin(plan, asks, w), w, es)
    ensures FreedSoundly(Run(Begin(plan, asks, w), w, es)) <==> !HasRefusal(es)
  {
    RunInv(plan, asks, w, es);
    var g := Run(Begin(plan, asks, w), w, es);
    assert |g.outstanding| == 0 <==> g.outstanding == multiset{};
  }

  lemma FirstRefusalFreesTwice(plan: seq<PathPlan>, asks: seq<Ask>, w: Wanted)
    requires AsksFit(plan, asks) && asks != []
    ensures ValidRun(Begin(plan, asks, w), w, [Refused])
    ensures Run(Begin(plan, asks, w), w, [Refused]).frees == 2
    ensures Run(Begin(plan, asks, w), w, [Refused]).calls == [None]
  {
    var g := Begin(plan, asks, w);
    assert ValidRun(g, w, []) && [Refused][..0] == [];
    assert Run(g, w, [Refused]) == Step(g, w, Refused);
  }

  lemma NoRemoteEndpoints(plan: seq<PathPlan>, w: Wanted)
    ensures Begin(plan, [], w).calls == [None] && Begin(plan, [], w).frees == 1
  {}

  // ---------------------------------------------------------------- what is delivered

  /** All addresses reported for one option of one path, in the order of the reports. */
  function AnswersFor(asks: seq<Ask>, es: seq<Event>, i: nat, j: nat): (s: seq<Address>) {
    if es == [] then [] else
      var before, last := es[..|es| - 1], es[|es| - 1];
      AnswersFor(asks, before, i, j) +
      match last
      case AnsweredAtOnce(answer) =>
        var n := Started(before);
        if n < |asks| && asks[n].path == i && asks[n].option == j then answer else []
      case Answered(a, answer) => if a.path == i && a.option == j then answer else []
      case _ => []
  }

  /** Path `i` with the answers filled in. */
  predicate FilledPath(p: PathPlan, q: PathPlan, asks: seq<Ask>, es: seq<Event>, i: nat) {
    && q.local == p.local && |q.options| == |p.options|
    && forall j | 0 <= j < |p.options| ::
         q.options[j] == OptionPlan(p.options[j].option, p.options[j].remotes + AnswersFor(asks, es, i, j))
  }

  /** The plan with the answers filled in. */
  predicate FilledIn(plan: seq<PathPlan>, filled: seq<PathPlan>, asks: seq<Ask>, es: seq<Event>) {
    |filled| == |plan| && forall i | 0 <= i < |plan| :: FilledPath(plan[i], filled[i], asks, es, i)
  }

  lemma AnswersMore(asks: seq<Ask>, es: seq<Event>, last: Event, a: Ask, answer: seq<Address>, i: nat, j: nat)
    requires last == Answered(a, answer) ||
             (last == AnsweredAtOnce(answer) && Started(es) < |asks| && asks[Started(es)] == a)
    ensures AnswersFor(asks, es + [last], i, j) == AnswersFor(asks, es, i, j) + AnswerAt(a, answer, i, j)
  {
    assert (es + [last])[..|es|] == es;
  }

  lemma Regroup(x: seq<Address>, y: seq<Address>, z: seq<Address>)
    ensures x + y + z == x + (y + z)
  {}

  lemma PathFillsIn(p: PathPlan, q: PathPlan, r: PathPlan, asks: seq<Ask>, es: seq<Event>,
                    last: Event, a: Ask, answer: seq<Address>, i: nat)
    requires FilledPath(p, q, asks, es, i) && PathMore(q, r, a, answer, i)
    requires last == Answered(a, answer) ||
             (last == AnsweredAtOnce(answer) && Started(es) < |asks| && asks[Started(es)] == a)
    ensures FilledPath(p, r, asks, es + [last], i)
  {
    forall j | 0 <= j < |p.options|
      ensures r.options[j] == OptionPlan(p.options[j].option,
                                         p.options[j].remotes + AnswersFor(asks, es + [last], i, j))
    {
      AnswersMore(asks, es, last, a, answer, i, j);
      Regroup(p.options[j].remotes, AnswersFor(asks, es, i, j), AnswerAt(a, answer, i, j));
    }
  }

  lemma {:induction false} QueueIsSuffix(g0: Gather, w: Wanted, es: seq<Event>)
    requires ValidRun(g0, w, es) && !HasRefusal(es)
    ensures Started(es) <= |g0.queue| && Run(g0, w, es).queue == g0.queue[Started(es)..]
  {
    if es != [] { QueueIsSuffix(g0, w, es[..|es| - 1]); }
  }

  lemma AnswerFillsIn(plan: seq<PathPlan>, filled: seq<PathPlan>, asks: seq<Ask>, es: seq<Event>,
                      last: Event, a: Ask, answer: seq<Address>)
    requires FilledIn(plan, filled, asks, es) && InPlan(filled, a)
    requires last == Answered(a, answer) ||
             (last == AnsweredAtOnce(answer) && Started(es) < |asks| && asks[Started(es)] == a)
    ensures FilledIn(plan, AddRemotes(filled, a, answer), asks, es + [last])
  {
    AddRemotesAdds(filled, a, answer);
    var more := AddRemotes(filled, a, answer);
    forall i | 0 <= i < |plan| ensures FilledPath(plan[i], more[i], asks, es + [last], i) {
      PathFillsIn(plan[i], filled[i], more[i], asks, es, last, a, answer, i);
    }
  }

  lemma QuietFillsIn(plan: seq<PathPlan>, filled: seq<PathPlan>, asks: seq<Ask>, es: seq<Event>)
    requires FilledIn(plan, filled, asks, es)
    ensures FilledIn(plan, filled, asks, es + [Asked])
  {
    assert (es + [Asked])[..|es|] == es;
    forall i | 0 <= i < |plan| ensures FilledPath(plan[i], filled[i], asks, es + [Asked], i) {
      assert forall j :: AnswersFor(asks, es + [Asked], i, j) == AnswersFor(asks, es, i, j);
    }
  }

  lemma StepFillsIn(plan: seq<PathPlan>, g: Gather, asks: seq<Ask>, w: Wanted, es: seq<Event>, last: Event)
    requires FilledIn(plan, g.plan, asks, es) && Enabled(g, last) && !last.Refused?
    requires Started(es) <= |asks| && g.queue == asks[Started(es)..]
    ensures FilledIn(plan, Step(g, w, last).plan, asks, es + [last])
  {
    match last
    case Asked => QuietFillsIn(plan, g.plan, asks, es);
    case AnsweredAtOnce(answer) =>
      AnswerFillsIn(plan, g.plan, asks, es, last, g.queue[0], answer);
      assert Step(g, w, last).plan == AddRemotes(g.plan, g.queue[0], answer);
    case Answered(a, answer) =>
      AnswerFillsIn(plan, g.plan, asks, es, last, a, answer);
      assert Step(g, w, last).plan == AddRemotes(g.plan, a, answer);
  }

  lemma {:induction false} RunFillsIn(g0: Gather, w: Wanted, es: seq<Event>)
    requires ValidRun(g0, w, es) && !HasRefusal(es)
    ensures FilledIn(g0.plan, Run(g0, w, es).plan, g0.queue, es)
  {
    if es == [] {
      NothingFilledIn(g0.plan, g0.queue);
    } else {
      var before, last := es[..|es| - 1], es[|es| - 1];
      RunFillsIn(g0, w, before);
      QueueIsSuffix(g0, w, before);
      StepFillsIn(g0.plan, Run(g0, w, before), g0.queue, w, before, last);
      assert before + [last] == es;
    }
  }

  lemma NothingFilledIn(plan: seq<PathPlan>, asks: seq<Ask>)
    ensures FilledIn(plan, plan, asks, [])
  {
    forall i | 0 <= i < |plan| ensures FilledPath(plan[i], plan[i], asks, [], i) {}
  }

  lemma LastAnswerDelivers(g: Gather, w: Wanted, e: Event)
    requires Inv(g, false) && Enabled(g, e) && g.pending > 0 && Step(g, w, e).pending == 0 && !e.Refused?
    ensures Step(g, w, e).calls == [Some(Delivered(Step(g, w, e).plan, w))]
  {}

  lemma FilledInHasOptions(plan: seq<PathPlan>, filled: seq<PathPlan>, asks: seq<Ask>, es: seq<Event>)
    requires FilledIn(plan, filled, asks, es) && HasOptions(plan)
    ensures HasOptions(filled)
  {
    forall i | 0 <= i < |filled| ensures filled[i].options != [] {
      assert plan[i].options != [] && FilledPath(plan[i], filled[i], asks, es, i);
    }
  }

  /** When the last resolution reports, racing is given the stable sort of the compatible triples
      of path, option and reported address. */
  lemma GatherDelivers(plan: seq<PathPlan>, asks: seq<Ask>, w: Wanted, es: seq<Event>, last: Event)
    requires AsksFit(plan, asks) && asks != [] && HasOptions(plan)
    requires ValidRun(Begin(plan, asks, w), w, es) && Enabled(Run(Begin(plan, asks, w), w, es), last)
    requires !HasRefusal(es) && !last.Refused? && Reported(es) < |asks| == Reported(es + [last])
    ensures var g := Step(Run(Begin(plan, asks, w), w, es), w, last);
      && FilledIn(plan, g.plan, asks, es + [last])
      && g.calls == [Some(Delivered(g.plan, w))]
      && StablySorted(Compatible(Triples(g.plan, 0), w), Delivered(g.plan, w), RankBy(w))
  {
    var b := Begin(plan, asks, w);
    RunExtends(b, w, es, last);
    RunFillsIn(b, w, es + [last]);
    FilledInHasOptions(plan, Run(b, w, es + [last]).plan, asks, es + [last]);
    DeliveredIsSortedProduct(Run(b, w, es + [last]).plan, w);
    RunCounts(plan, asks, w, es);
    RunCounts(plan, asks, w, es + [last]);
    RunInv(plan, asks, w, es);
    LastAnswerDelivers(Run(b, w, es), w, last);
  }
}
