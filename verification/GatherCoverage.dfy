/** From what was found to what is delivered: every remote endpoint is resolved once for every path and
    every option, and each answer ends up where it was asked for. */
module GatherCoverage {
  import opened Addresses
  import opened Selection
  import opened StableSort
  import opened CandidateTree
  import opened GatherPlan
  import opened GatherModel
  import opened GatherAsks
  import opened GatherOrder
  import opened Sequences

  // ---------------------------------------------------------------- what is answered

  /** The resolutions that have reported, in the order of the reports. */
  function Reports(asks: seq<Ask>, es: seq<Event>): (s: seq<Ask>) {
    if es == [] then [] else
      var before, last := es[..|es| - 1], es[|es| - 1];
      Reports(asks, before) +
      match last
      case AnsweredAtOnce(_) => if Started(before) < |asks| then [asks[Started(before)]] else []
      case Answered(a, _) => [a]
      case _ => []
  }

  function Times(s: seq<Ask>, a: Ask): (n: nat) {
    if s == [] then 0 else Times(s[..|s| - 1], a) + if s[|s| - 1] == a then 1 else 0
  }

  lemma {:induction false} TimesIsCount(s: seq<Ask>, a: Ask)
    ensures Times(s, a) == multiset(s)[a]
  {
    if s != [] {
      TimesIsCount(s[..|s| - 1], a);
      assert s == s[..|s| - 1] + [s[|s| - 1]];
    }
  }

  lemma TimesFirst(s: seq<Ask>, a: Ask)
    requires s != []
    ensures Times(s, a) == Times(s[1..], a) + if s[0] == a then 1 else 0
  {
    TimesIsCount(s, a);
    TimesIsCount(s[1..], a);
    assert s == [s[0]] + s[1..];
  }

  lemma TimesLast(s: seq<Ask>, b: Ask, a: Ask)
    ensures Times(s + [b], a) == Times(s, a) + if b == a then 1 else 0
  {
    assert (s + [b])[..|s|] == s;
  }

  /** How often `a` has reported, is outstanding, or waits to be started. */
  ghost function Account(reports: seq<Ask>, g: Gather, a: Ask): (n: nat) {
    Times(reports, a) + g.outstanding[a] + Times(g.queue, a)
  }

  lemma StartAccounts(reports: seq<Ask>, g: Gather, a: Ask)
    requires g.queue != []
    ensures Account(reports, Start(g), a) == Account(reports, g, a)
  {
    TimesFirst(g.queue, a);
  }

  lemma AnswerAccounts(reports: seq<Ask>, g: Gather, w: Wanted, b: Ask, answer: seq<Address>, a: Ask)
    requires b in g.outstanding && InPlan(g.plan, b)
    ensures Account(reports + [b], OnAnswer(g, w, b, answer), a) == Account(reports, g, a)
  {
    TimesLast(reports, b, a);
    assert OnAnswer(g, w, b, answer).queue == g.queue;
    assert OnAnswer(g, w, b, answer).outstanding == g.outstanding - multiset{b};
  }

  /** The reports after one more event. */
  function MoreReports(reports: seq<Ask>, g: Gather, e: Event): (s: seq<Ask>)
    requires Enabled(g, e)
  {
    match e
    case AnsweredAtOnce(_) => reports + [g.queue[0]]
    case Answered(b, _) => reports + [b]
    case _ => reports
  }

  lemma StepAccounts(reports: seq<Ask>, g: Gather, w: Wanted, e: Event, a: Ask)
    requires Enabled(g, e) && !e.Refused?
    ensures Account(MoreReports(reports, g, e), Step(g, w, e), a) == Account(reports, g, a)
  {
    match e
    case Asked => StartAccounts(reports, g, a);
    case AnsweredAtOnce(answer) =>
      StartAccounts(reports, g, a);
      AnswerAccounts(reports, Start(g), w, g.queue[0], answer, a);
    case Answered(b, answer) => AnswerAccounts(reports, g, w, b, answer, a);
  }

  lemma ReportsAre(asks: seq<Ask>, g: Gather, before: seq<Event>, last: Event)
    requires Enabled(g, last) && Started(before) <= |asks| && g.queue == asks[Started(before)..]
    ensures Reports(asks, before + [last]) == MoreReports(Reports(asks, before), g, last)
  {
    assert (before + [last])[..|before|] == before;
  }

  /** No resolution is lost, or reported twice. */
  lemma {:induction false} NothingLost(g0: Gather, w: Wanted, es: seq<Event>, a: Ask)
    requires ValidRun(g0, w, es) && !HasRefusal(es)
    ensures Account(Reports(g0.queue, es), Run(g0, w, es), a) == Account([], g0, a)
  {
    if es != [] {
      var before, last := es[..|es| - 1], es[|es| - 1];
      NothingLost(g0, w, before, a);
      QueueIsSuffix(g0, w, before);
      assert before + [last] == es;
      ReportsAre(g0.queue, Run(g0, w, before), before, last);
      StepAccounts(Reports(g0.queue, before), Run(g0, w, before), w, last, a);
    }
  }

  /** The reports are those of a resolver that gives `f(a)` when asked `a`. */
  predicate AnsweredBy(asks: seq<Ask>, es: seq<Event>, f: Ask -> seq<Address>) {
    es == [] ||
    var before, last := es[..|es| - 1], es[|es| - 1];
    AnsweredBy(asks, before, f) &&
    match last
    case AnsweredAtOnce(answer) => Started(before) < |asks| ==> answer == f(asks[Started(before)])
    case Answered(a, answer) => answer == f(a)
    case _ => true
  }

  /** What is answered to the resolutions in `s`, for option `j` of path `i`. */
  function Collected(s: seq<Ask>, f: Ask -> seq<Address>, i: nat, j: nat): (r: seq<Address>) {
    if s == [] then [] else Collected(s[..|s| - 1], f, i, j) + AnswerAt(s[|s| - 1], f(s[|s| - 1]), i, j)
  }

  lemma {:induction false} AnswersAreCollected(asks: seq<Ask>, es: seq<Event>, f: Ask -> seq<Address>, i: nat, j: nat)
    requires AnsweredBy(asks, es, f)
    ensures AnswersFor(asks, es, i, j) == Collected(Reports(asks, es), f, i, j)
  {
    if es != [] {
      var before := es[..|es| - 1];
      AnswersAreCollected(asks, before, f, i, j);
      var s, t := Reports(asks, before), Reports(asks, es);
      if t != s { assert t[..|s|] == s && |t| == |s| + 1; }
    }
  }

  lemma {:induction false} CollectedConcat(s: seq<Ask>, t: seq<Ask>, f: Ask -> seq<Address>, i: nat, j: nat)
    ensures Collected(s + t, f, i, j) == Collected(s, f, i, j) + Collected(t, f, i, j)
    decreases |t|
  {
    if t == [] {
      assert s + t == s;
    } else {
      var m := |t| - 1;
      assert (s + t)[..|s| + m] == s + t[..m] && (s + t)[|s| + m] == t[m];
      CollectedConcat(s, t[..m], f, i, j);
      Regroup(Collected(s, f, i, j), Collected(t[..m], f, i, j), AnswerAt(t[m], f(t[m]), i, j));
    }
  }

  /** The order of the reports does not matter for which addresses there are. */
  lemma {:induction false} CollectedAnyOrder(s: seq<Ask>, t: seq<Ask>, f: Ask -> seq<Address>, i: nat, j: nat)
    requires multiset(s) == multiset(t)
    ensures multiset(Collected(s, f, i, j)) == multiset(Collected(t, f, i, j))
    decreases |s|
  {
    if s == [] {
      assert |t| == |multiset(t)| == 0;
    } else {
      var m := |s| - 1;
      var a := s[m];
      assert s == s[..m] + [a];
      assert a in multiset(t);
      var k :| 0 <= k < |t| && t[k] == a;
      Moved(t, k);
      Moved(s, m);
      assert s[..m] + s[m + 1..] == s[..m];
      SameRest(multiset(s[..m]), multiset(t[..k] + t[k + 1..]), a);
      CollectedAnyOrder(s[..m], t[..k] + t[k + 1..], f, i, j);
      CollectedConcat(t[..k], t[k + 1..], f, i, j);
      CollectedConcat(t[..k], [a], f, i, j);
      CollectedConcat(t[..k] + [a], t[k + 1..], f, i, j);
      CollectedOne(a, f, i, j);
    }
  }

  lemma SameRest(x: multiset<Ask>, y: multiset<Ask>, a: Ask)
    requires x + multiset{a} == y + multiset{a}
    ensures x == y
  {
    assert x == x + multiset{a} - multiset{a} && y == y + multiset{a} - multiset{a};
  }

  lemma CollectedOne(a: Ask, f: Ask -> seq<Address>, i: nat, j: nat)
    ensures Collected([a], f, i, j) == AnswerAt(a, f(a), i, j)
  {
    assert [a][..0] == [];
  }

  lemma Moved(t: seq<Ask>, k: nat)
    requires k < |t|
    ensures t == t[..k] + [t[k]] + t[k + 1..]
    ensures multiset(t) == multiset(t[..k] + t[k + 1..]) + multiset{t[k]}
  {
    assert t == t[..k] + [t[k]] + t[k + 1..];
  }

  // ---------------------------------------------------------------- what is delivered

  /** All answers for option `j` of path `i`. */
  function AllAnswers(f: Ask -> seq<Address>, i: nat, j: nat, remotes: nat): (m: multiset<Address>) {
    if remotes == 0 then multiset{} else AllAnswers(f, i, j, remotes - 1) + multiset(f(Ask(i, j, remotes - 1)))
  }

  lemma {:induction false} CollectedAt(f: Ask -> seq<Address>, p: nat, o: nat, remotes: nat, i: nat, j: nat)
    ensures multiset(Collected(AsksAt(p, o, remotes), f, i, j))
            == if p == i && o == j then AllAnswers(f, i, j, remotes) else multiset{}
  {
    if remotes > 0 {
      var s := AsksAt(p, o, remotes);
      assert s[..remotes - 1] == AsksAt(p, o, remotes - 1);
      CollectedAt(f, p, o, remotes - 1, i, j);
    }
  }

  lemma {:induction false} CollectedFrom(f: Ask -> seq<Address>, leaves: seq<Id>, remotes: nat, i: nat, j: nat)
    requires CountLeaves(leaves, i, j) <= 1
    ensures multiset(Collected(AsksFor(leaves, remotes), f, i, j))
            == if CountLeaves(leaves, i, j) == 1 then AllAnswers(f, i, j, remotes) else multiset{}
  {
    if leaves != [] {
      var m := |leaves| - 1;
      var p, o := Coordinate(leaves[m], 1), Coordinate(leaves[m], 2);
      CollectedFrom(f, leaves[..m], remotes, i, j);
      assert AsksFor(leaves, remotes) == AsksFor(leaves[..m], remotes) + AsksAt(p, o, remotes);
      CollectedConcat(AsksFor(leaves[..m], remotes), AsksAt(p, o, remotes), f, i, j);
      CollectedAt(f, p, o, remotes, i, j);
    }
  }

  /** When everything has been answered, each option of each path has all the answers to it. */
  lemma AnswersComplete(found: seq<Local>, options: seq<ProtocolOption>, remotes: nat, s: seq<Ask>,
                        f: Ask -> seq<Address>, i: nat, j: nat)
    requires options != [] && multiset(s) == multiset(AllAsks(found, options, remotes))
    requires i < |found| && j < |options|
    ensures multiset(Collected(s, f, i, j)) == AllAnswers(f, i, j, remotes)
  {
    var leaves := LeafIds(PathNodes(InitialPlan(found, options), 0));
    CollectedAnyOrder(s, AllAsks(found, options, remotes), f, i, j);
    CountPaths(found, options, 0, i, j);
    CollectedFrom(f, leaves, remotes, i, j);
  }

  /** A path with all options, each with all the addresses that were answered for it. */
  ghost predicate FullPath(p: PathPlan, options: seq<ProtocolOption>, remotes: nat, f: Ask -> seq<Address>, i: nat) {
    && |p.options| == |options|
    && forall j | 0 <= j < |options| ::
         p.options[j].option == options[j] && multiset(p.options[j].remotes) == AllAnswers(f, i, j, remotes)
  }

  ghost predicate FullPlan(plan: seq<PathPlan>, found: seq<Local>, options: seq<ProtocolOption>, remotes: nat,
                           f: Ask -> seq<Address>)
  {
    && |plan| == |found|
    && forall i | 0 <= i < |found| :: plan[i].local == found[i] && FullPath(plan[i], options, remotes, f, i)
  }

  lemma RunCompletes(plan: seq<PathPlan>, asks: seq<Ask>, w: Wanted, es: seq<Event>)
    requires AsksFit(plan, asks) && asks != [] && ValidRun(Begin(plan, asks, w), w, es) && !HasRefusal(es)
    requires Reported(es) == |asks|
    ensures multiset(Reports(asks, es)) == multiset(asks)
  {
    RunInv(plan, asks, w, es);
    RunCounts(plan, asks, w, es);
    var g := Run(Begin(plan, asks, w), w, es);
    assert g.outstanding == multiset{} && g.queue == [] by { assert |g.outstanding| == 0; }
    forall a ensures multiset(Reports(asks, es))[a] == multiset(asks)[a] {
      NothingLost(Begin(plan, asks, w), w, es, a);
      TimesIsCount(Reports(asks, es), a);
      TimesIsCount(asks, a);
    }
  }

  lemma FilledInIsFull(found: seq<Local>, options: seq<ProtocolOption>, remotes: nat, filled: seq<PathPlan>,
                       es: seq<Event>, f: Ask -> seq<Address>)
    requires options != [] && AnsweredBy(AllAsks(found, options, remotes), es, f)
    requires FilledIn(InitialPlan(found, options), filled, AllAsks(found, options, remotes), es)
    requires multiset(Reports(AllAsks(found, options, remotes), es)) == multiset(AllAsks(found, options, remotes))
    ensures FullPlan(filled, found, options, remotes, f)
  {
    forall i | 0 <= i < |found| ensures filled[i].local == found[i] && FullPath(filled[i], options, remotes, f, i) {
      FilledInIsFullAt(found, options, remotes, filled, es, f, i);
    }
  }

  lemma FilledInIsFullAt(found: seq<Local>, options: seq<ProtocolOption>, remotes: nat, filled: seq<PathPlan>,
                         es: seq<Event>, f: Ask -> seq<Address>, i: nat)
    requires options != [] && AnsweredBy(AllAsks(found, options, remotes), es, f) && i < |found|
    requires FilledIn(InitialPlan(found, options), filled, AllAsks(found, options, remotes), es)
    requires multiset(Reports(AllAsks(found, options, remotes), es)) == multiset(AllAsks(found, options, remotes))
    ensures filled[i].local == found[i] && FullPath(filled[i], options, remotes, f, i)
  {
    var plan, asks := InitialPlan(found, options), AllAsks(found, options, remotes);
    assert plan[i] == PathPlan(found[i], Unresolved(options));
    forall j | 0 <= j < |options|
      ensures filled[i].options[j].option == options[j]
      ensures multiset(filled[i].options[j].remotes) == AllAnswers(f, i, j, remotes)
    {
      assert plan[i].options[j] == OptionPlan(options[j], []);
      assert FilledPath(plan[i], filled[i], asks, es, i);
      assert filled[i].options[j].remotes == AnswersFor(asks, es, i, j);
      AnswersAreCollected(asks, es, f, i, j);
      AnswersComplete(found, options, remotes, Reports(asks, es), f, i, j);
    }
  }

  function StartOf(found: seq<Local>, options: seq<ProtocolOption>, remotes: nat, w: Wanted): (g: Gather) {
    Begin(InitialPlan(found, options), AllAsks(found, options, remotes), w)
  }

  /** After the events `es`, in which every resolution could be started, `last` is the last report. */
  ghost predicate LastReport(found: seq<Local>, options: seq<ProtocolOption>, remotes: nat, w: Wanted,
                             es: seq<Event>, last: Event)
  {
    var g := StartOf(found, options, remotes, w);
    && ValidRun(g, w, es) && Enabled(Run(g, w, es), last) && !HasRefusal(es) && !last.Refused?
    && Reported(es) < |AllAsks(found, options, remotes)| == Reported(es + [last])
  }

  lemma AllAnswered(found: seq<Local>, options: seq<ProtocolOption>, remotes: nat, w: Wanted,
                    f: Ask -> seq<Address>, es: seq<Event>, last: Event)
    requires options != [] && LastReport(found, options, remotes, w, es, last)
    requires AnsweredBy(AllAsks(found, options, remotes), es + [last], f)
    ensures FullPlan(Step(Run(StartOf(found, options, remotes, w), w, es), w, last).plan, found, options, remotes, f)
  {
    var plan, asks := InitialPlan(found, options), AllAsks(found, options, remotes);
    var b := Begin(plan, asks, w);
    LeavesFit(found, options, remotes);
    RunExtends(b, w, es, last);
    RunCompletes(plan, asks, w, es + [last]);
    RunFillsIn(b, w, es + [last]);
    FilledInIsFull(found, options, remotes, Run(b, w, es + [last]).plan, es + [last], f);
  }

  lemma PlanDelivered(found: seq<Local>, options: seq<ProtocolOption>, remotes: nat, w: Wanted,
                      es: seq<Event>, last: Event)
    requires options != [] && LastReport(found, options, remotes, w, es, last)
    ensures var g := Step(Run(StartOf(found, options, remotes, w), w, es), w, last);
      && g.calls == [Some(Delivered(g.plan, w))]
      && StablySorted(Compatible(Triples(g.plan, 0), w), Delivered(g.plan, w), RankBy(w))
  {
    LeavesFit(found, options, remotes);
    InitialHasOptions(found, options);
    GatherDelivers(InitialPlan(found, options), AllAsks(found, options, remotes), w, es, last);
  }

  /** Gathering as a whole: given the local endpoints that were found, the protocols, the ALPNs and a
      resolver, whatever the order of its answers, racing is given the stable sort of the compatible
      combinations of a path, an option and an address the resolver gave for that path, option and
      one of the remote endpoints. */
  lemma GatherDeliversProduct(found: seq<Local>, protocols: seq<Protocol>, alpns: seq<string>, remotes: nat,
                              w: Wanted, f: Ask -> seq<Address>, es: seq<Event>, last: Event)
    requires protocols != [] && LastReport(found, Options(protocols, alpns), remotes, w, es, last)
    requires AnsweredBy(AllAsks(found, Options(protocols, alpns), remotes), es + [last], f)
    ensures var g := Step(Run(StartOf(found, Options(protocols, alpns), remotes, w), w, es), w, last);
      && FullPlan(g.plan, found, Options(protocols, alpns), remotes, f)
      && g.calls == [Some(Delivered(g.plan, w))]
      && StablySorted(Compatible(Triples(g.plan, 0), w), Delivered(g.plan, w), RankBy(w))
      && BestFirst(AllowedOnly(Joined(OfPlan(g.plan)), w), Delivered(g.plan, w), w)
  {
    AllAnswered(found, Options(protocols, alpns), remotes, w, f, es, last);
    PlanDelivered(found, Options(protocols, alpns), remotes, w, es, last);
    PlanTold(found, Options(protocols, alpns), remotes, w, es, last);
  }

  lemma PlanTold(found: seq<Local>, options: seq<ProtocolOption>, remotes: nat, w: Wanted,
                 es: seq<Event>, last: Event)
    requires options != [] && LastReport(found, options, remotes, w, es, last)
    ensures var g := Step(Run(StartOf(found, options, remotes, w), w, es), w, last);
      BestFirst(AllowedOnly(Joined(OfPlan(g.plan)), w), Delivered(g.plan, w), w)
  {
    var b := StartOf(found, options, remotes, w);
    InitialHasOptions(found, options);
    RunExtends(b, w, es, last);
    RunFillsIn(b, w, es + [last]);
    var g := Step(Run(b, w, es), w, last);
    FilledInHasOptions(InitialPlan(found, options), g.plan, AllAsks(found, options, remotes), es + [last]);
    DeliveredTold(g.plan, w);
  }

  // ---------------------------------------------------------------- without remote endpoints

  /** Every path with every option, path by path. */
  function Product(found: seq<Local>, options: seq<ProtocolOption>): (s: seq<Candidate>) {
    if found == [] then []
    else
      seq(|options|, j requires 0 <= j < |options| => Candidate(ProtocolNode, Some(found[0]), Some(options[j]), None))
      + Product(found[1..], options)
  }

  lemma {:induction false} OptionPairs(l: Local, options: seq<ProtocolOption>, k: nat)
    requires k <= |options|
    ensures PairsOfPath(l, Unresolved(options), k)
            == seq(|options| - k, j requires 0 <= j < |options| - k => ProtocolData(l, options[k + j]))
    decreases |options| - k
  {
    if k < |options| {
      OptionPairs(l, options, k + 1);
      assert PairsOfPath(l, Unresolved(options), k)
          == [ProtocolData(l, options[k])] + PairsOfPath(l, Unresolved(options), k + 1);
    }
  }

  lemma {:induction false} PairsAreProduct(found: seq<Local>, options: seq<ProtocolOption>, k: nat)
    requires k <= |found|
    ensures Pairs(InitialPlan(found, options), k) == Product(found[k..], options)
    decreases |found| - k
  {
    if k < |found| {
      PairsAreProduct(found, options, k + 1);
      OptionPairs(found[k], options, 0);
      assert found[k..][0] == found[k] && found[k..][1..] == found[k + 1..];
      assert seq(|options|, j requires 0 <= j < |options| => ProtocolData(found[k], options[0 + j]))
          == seq(|options|, j requires 0 <= j < |options| => ProtocolData(found[k], options[j]));
    }
  }

  lemma InitialHasOptions(found: seq<Local>, options: seq<ProtocolOption>)
    requires options != []
    ensures HasOptions(InitialPlan(found, options)) && NoRemotes(InitialPlan(found, options))
  {
    var plan := InitialPlan(found, options);
    forall i | 0 <= i < |plan| ensures plan[i].options == Unresolved(options) {}
  }

  /** Local-only gathering as a whole: given the local endpoints that were found, the protocols and the
      ALPNs, the listener is given the one stable sort of the compatible pairs of path and option. */
  lemma LocalGatherDeliversProduct(found: seq<Local>, protocols: seq<Protocol>, alpns: seq<string>, w: Wanted)
    requires protocols != []
    ensures var all := Compatible(Product(found, Options(protocols, alpns)), w);
      var delivered := DeliveredLocally(InitialPlan(found, Options(protocols, alpns)), w);
      && StablySorted(all, delivered, RankBy(w)) && multiset(delivered) == multiset(all)
      && (forall t | StablySorted(all, t, RankBy(w)) :: t == delivered)
      && BestFirst(AllowedOnly(Product(found, Options(protocols, alpns)), w), delivered, w)
  {
    var options := Options(protocols, alpns);
    InitialHasOptions(found, options);
    DeliveredLocallyIsSortedProduct(InitialPlan(found, options), w);
    PairsAreProduct(found, options, 0);
    assert found[0..] == found;
    DeliveredLocallyTold(InitialPlan(found, options), w);
  }
}
