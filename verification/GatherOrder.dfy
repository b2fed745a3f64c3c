/** The candidates racing is given and their order, told from what the application asked for and what the
    protocols offer, without the ranks and predicates that gathering computes with. */
module GatherOrder {
  import opened Addresses
  import opened Sequences
  import opened Selection
  import opened StableSort
  import opened CandidateTree
  import opened GatherPlan
  import opened GatherModel
  import opened GatherAsks

  // ---------------------------------------------------------------- order

  /** The PREFERs the candidate's protocol does not rule out. */
  function PrefersOf(c: Candidate, w: Wanted): (s: set<nat>) {
    set k: nat | k < PROPERTY_COUNT && w.desired[k] == Simple(Prefer)
                 && c.option.Some? && c.option.value.protocol.offers[k] != Prohibit
  }

  /** The AVOIDs the candidate's protocol does not insist on. */
  function AvoidsOf(c: Candidate, w: Wanted): (s: set<nat>) {
    set k: nat | k < PROPERTY_COUNT && w.desired[k] == Simple(Avoid)
                 && c.option.Some? && c.option.value.protocol.offers[k] != Require
  }

  /** Those with given numbers of PREFERs and AVOIDs met, in order. */
  function Meeting(s: seq<Candidate>, w: Wanted, p: nat, a: nat): (r: seq<Candidate>) {
    if s == [] then []
    else (if |PrefersOf(s[0], w)| == p && |AvoidsOf(s[0], w)| == a then [s[0]] else []) + Meeting(s[1..], w, p, a)
  }

  /** More PREFERs first, then more AVOIDs, then as found; and nothing is lost or added. */
  ghost predicate BestFirst(found: seq<Candidate>, ordered: seq<Candidate>, w: Wanted) {
    && (forall i, j | 0 <= i < |ordered| && 0 <= j < |ordered|
                      && |PrefersOf(ordered[i], w)| > |PrefersOf(ordered[j], w)| :: i < j)
    && (forall i, j | 0 <= i < |ordered| && 0 <= j < |ordered|
                      && |PrefersOf(ordered[i], w)| == |PrefersOf(ordered[j], w)|
                      && |AvoidsOf(ordered[i], w)| > |AvoidsOf(ordered[j], w)| :: i < j)
    && (forall p, a :: Meeting(ordered, w, p, a) == Meeting(found, w, p, a))
    && multiset(ordered) == multiset(found)
  }

  function Below(s: set<nat>, n: nat): (t: set<nat>) { set k | k in s && k < n }

  lemma BelowNext(s: set<nat>, n: nat)
    ensures |Below(s, n + 1)| == |Below(s, n)| + if n in s then 1 else 0
  {
    assert Below(s, n + 1) == if n in s then Below(s, n) + {n} else Below(s, n);
  }

  lemma {:induction false} CountsUpTo(c: Candidate, w: Wanted, n: nat)
    requires c.option.Some? && n <= PROPERTY_COUNT
    ensures PrefersMet(c.option.value.protocol, w.desired, n) == |Below(PrefersOf(c, w), n)|
    ensures AvoidsMet(c.option.value.protocol, w.desired, n) == |Below(AvoidsOf(c, w), n)|
  {
    if n == 0 {
      assert Below(PrefersOf(c, w), 0) == {} && Below(AvoidsOf(c, w), 0) == {};
    } else {
      CountsUpTo(c, w, n - 1);
      BelowNext(PrefersOf(c, w), n - 1);
      BelowNext(AvoidsOf(c, w), n - 1);
    }
  }

  lemma RankCounts(c: Candidate, w: Wanted)
    ensures RankBy(w)(c) == Rank(|PrefersOf(c, w)|, |AvoidsOf(c, w)|)
  {
    if c.option.Some? {
      CountsUpTo(c, w, PROPERTY_COUNT);
      assert Below(PrefersOf(c, w), PROPERTY_COUNT) == PrefersOf(c, w);
      assert Below(AvoidsOf(c, w), PROPERTY_COUNT) == AvoidsOf(c, w);
    } else {
      assert PrefersOf(c, w) == {} && AvoidsOf(c, w) == {};
    }
  }

  lemma {:induction false} MeetingIsOfRank(s: seq<Candidate>, w: Wanted, p: nat, a: nat)
    ensures Meeting(s, w, p, a) == OfRank(s, RankBy(w), Rank(p, a))
  {
    if s != [] {
      RankCounts(s[0], w);
      MeetingIsOfRank(s[1..], w, p, a);
    }
  }

  lemma StablySortedIsBestFirst(found: seq<Candidate>, ordered: seq<Candidate>, w: Wanted)
    requires StablySorted(found, ordered, RankBy(w)) && multiset(ordered) == multiset(found)
    ensures BestFirst(found, ordered, w)
  {
    forall i | 0 <= i < |ordered|
      ensures RankBy(w)(ordered[i]) == Rank(|PrefersOf(ordered[i], w)|, |AvoidsOf(ordered[i], w)|)
    {
      RankCounts(ordered[i], w);
    }
    forall p, a ensures Meeting(ordered, w, p, a) == Meeting(found, w, p, a) {
      MeetingIsOfRank(ordered, w, p, a);
      MeetingIsOfRank(found, w, p, a);
    }
  }

  lemma DeliveredBestFirst(plan: seq<PathPlan>, w: Wanted)
    requires HasOptions(plan)
    ensures BestFirst(Compatible(Triples(plan, 0), w), Delivered(plan, w), w)
  {
    DeliveredIsSortedProduct(plan, w);
    StablySortedIsBestFirst(Compatible(Triples(plan, 0), w), Delivered(plan, w), w);
  }

  lemma DeliveredLocallyBestFirst(plan: seq<PathPlan>, w: Wanted)
    requires HasOptions(plan) && NoRemotes(plan)
    ensures BestFirst(Compatible(Pairs(plan, 0), w), DeliveredLocally(plan, w), w)
  {
    DeliveredLocallyIsSortedProduct(plan, w);
    StablySortedIsBestFirst(Compatible(Pairs(plan, 0), w), DeliveredLocally(plan, w), w);
  }

  /** A candidate that meets more PREFERs comes before any other, however many AVOIDs that one
      meets; and of two that meet equally many, the one that meets more AVOIDs comes first. */
  lemma MorePrefersFirst(plan: seq<PathPlan>, w: Wanted, i: nat, j: nat)
    requires HasOptions(plan) && i < |Delivered(plan, w)| && j < |Delivered(plan, w)|
    ensures var x, y := Delivered(plan, w)[i], Delivered(plan, w)[j];
      && (|PrefersOf(x, w)| > |PrefersOf(y, w)| ==> i < j)
      && (|PrefersOf(x, w)| == |PrefersOf(y, w)| && |AvoidsOf(x, w)| > |AvoidsOf(y, w)| ==> i < j)
  {
    DeliveredBestFirst(plan, w);
  }

  // ---------------------------------------------------------------- which candidates

  predicate OfType(name: string, kind: string) {
    || (|name| >= 2 && name[0] == 'w' && name[1] == 'l' && kind == "Wi-Fi")
    || (|name| >= 2 && name[0] == 'e' && name[1] == 'n' && kind == "Ethernet")
    || (|name| == 2 && name[0] == 'l' && name[1] == 'o' && kind == "Loopback")
  }

  /** The interface may be used: nobody has a say, or it is any interface, or its kind is known, not
      prohibited, and no other kind is required. */
  predicate InterfaceAllowed(local: Local, says: seq<Combination>) {
    || says == [] || local.interface == None || local.interface == Some("any")
    || exists kind | kind in {"Wi-Fi", "Ethernet", "Loopback"} ::
         && OfType(local.interface.value, kind)
         && forall i | 0 <= i < |says| ::
              !(says[i].value == kind && says[i].preference == Prohibit) &&
              !(says[i].value != kind && says[i].preference == Require)
  }

  predicate ProtocolAllowed(p: Protocol, desired: Wishes) {
    forall k: nat | k < PROPERTY_COUNT ::
      !(desired[k] == Simple(Require) && p.offers[k] == Prohibit) &&
      !(desired[k] == Simple(Prohibit) && p.offers[k] == Require)
  }

  /** 127.0.0.0 to 127.255.255.255, and ::1. */
  predicate IsLoopback(a: Address) {
    (a.V4? && 0x7F00_0000 <= a.ip <= 0x7FFF_FFFF) || (a.V6? && a.ip6 == 1)
  }

  /** 169.254.0.0 to 169.254.255.255, and fe80:: up to but not including fec0::. */
  predicate IsLinkLocal(a: Address) {
    || (a.V4? && 0xA9FE_0000 <= a.ip <= 0xA9FE_FFFF)
    || (a.V6? && 0xFE80_0000_0000_0000_0000_0000_0000_0000 <= a.ip6 < 0xFEC0_0000_0000_0000_0000_0000_0000_0000)
  }

  /** The local address can reach the remote one: of the same family, and either bound to nothing in
      particular or both loopback, both link-local or neither. */
  predicate CanReach(local: Address, remote: Address) {
    && (local.V4? <==> remote.V4?) && (local.V6? <==> remote.V6?)
    && (|| (local.V4? && local.ip == 0) || (local.V6? && local.ip6 == 0)
        || ((IsLoopback(local) <==> IsLoopback(remote)) && (IsLinkLocal(local) <==> IsLinkLocal(remote))))
  }

  predicate Allowed(c: Candidate, w: Wanted) {
    && (c.local.Some? ==> InterfaceAllowed(c.local.value, w.interfaces))
    && (c.option.Some? ==> ProtocolAllowed(c.option.value.protocol, w.desired))
    && (c.local.Some? && c.remote.Some? ==> CanReach(c.local.value.address, c.remote.value))
  }

  lemma InterfaceAllowedIff(local: Local, w: Wanted)
    ensures PathFits(local, w) <==> InterfaceAllowed(local, w.interfaces)
  {
    if local.interface.Some? {
      var name := local.interface.value;
      forall kind ensures OfType(name, kind) <==> InterfaceType(name) == Some(kind) { TypeIff(name, kind); }
      if PathFits(local, w) && w.interfaces != [] && name != "any" {
        var kind := InterfaceType(name).value;
        assert OfType(name, kind);
      }
    }
  }

  lemma TypeIff(name: string, kind: string)
    ensures OfType(name, kind) <==> InterfaceType(name) == Some(kind)
  {
    assert "wl" <= name <==> |name| >= 2 && name[0] == 'w' && name[1] == 'l';
    assert "en" <= name <==> |name| >= 2 && name[0] == 'e' && name[1] == 'n';
    assert name == "lo" <==> |name| == 2 && name[0] == 'l' && name[1] == 'o';
  }

  lemma ScopeIff(a: Address)
    ensures ScopeOf(a) == if IsLoopback(a) then Loopback else if IsLinkLocal(a) then LinkLocal else OtherScope
  {}

  lemma CanReachIff(local: Local, remote: Address)
    ensures EndpointFits(local, remote) <==> CanReach(local.address, remote)
  {
    ScopeIff(local.address);
    ScopeIff(remote);
  }

  lemma FitsIff(c: Candidate, w: Wanted)
    ensures Fits(c, w) <==> Allowed(c, w)
  {
    if c.local.Some? {
      InterfaceAllowedIff(c.local.value, w);
      if c.remote.Some? { CanReachIff(c.local.value, c.remote.value); }
    }
  }

  /** What is left when everything that is not allowed is left out. */
  function AllowedOnly(s: seq<Candidate>, w: Wanted): (r: seq<Candidate>) {
    if s == [] then [] else (if Allowed(s[0], w) then [s[0]] else []) + AllowedOnly(s[1..], w)
  }

  lemma {:induction false} CompatibleIs(s: seq<Candidate>, w: Wanted)
    ensures Compatible(s, w) == AllowedOnly(s, w)
  {
    if s != [] {
      FitsIff(s[0], w);
      CompatibleIs(s[1..], w);
    }
  }

  // ---------------------------------------------------------------- the product

  /** The candidates of one option of one path, one for each of its addresses. */
  function OfOption(l: Local, o: OptionPlan): (s: seq<Candidate>) {
    seq(|o.remotes|, k requires 0 <= k < |o.remotes| =>
      Candidate(EndpointNode, Some(l), Some(o.option), Some(o.remotes[k])))
  }

  function OfPath(p: PathPlan): (s: seq<seq<Candidate>>) {
    seq(|p.options|, j requires 0 <= j < |p.options| => OfOption(p.local, p.options[j]))
  }

  function OfPlan(plan: seq<PathPlan>): (s: seq<seq<Candidate>>) {
    seq(|plan|, i requires 0 <= i < |plan| => Joined(OfPath(plan[i])))
  }

  lemma {:induction false} OptionFrom(l: Local, o: OptionPlan, k: nat)
    requires k <= |o.remotes|
    ensures TriplesOfOption(l, o, k) == OfOption(l, o)[k..]
    decreases |o.remotes| - k
  {
    if k < |o.remotes| { OptionFrom(l, o, k + 1); }
  }

  lemma {:induction false} PathFrom(p: PathPlan, j: nat)
    requires j <= |p.options|
    ensures TriplesOfPath(p.local, p.options, j) == Joined(OfPath(p)[j..])
    decreases |p.options| - j
  {
    if j < |p.options| {
      PathFrom(p, j + 1);
      OptionFrom(p.local, p.options[j], 0);
      assert OfPath(p)[j..][0] == OfOption(p.local, p.options[j])[0..] && OfPath(p)[j..][1..] == OfPath(p)[j + 1..];
    }
  }

  lemma {:induction false} PlanFrom(plan: seq<PathPlan>, i: nat)
    requires i <= |plan|
    ensures Triples(plan, i) == Joined(OfPlan(plan)[i..])
    decreases |plan| - i
  {
    if i < |plan| {
      PlanFrom(plan, i + 1);
      PathFrom(plan[i], 0);
      assert OfPath(plan[i])[0..] == OfPath(plan[i]);
      assert OfPlan(plan)[i..][0] == Joined(OfPath(plan[i])) && OfPlan(plan)[i..][1..] == OfPlan(plan)[i + 1..];
    }
  }

  /** Path by path, option by option and address by address. */
  lemma TriplesAre(plan: seq<PathPlan>)
    ensures Triples(plan, 0) == Joined(OfPlan(plan))
  {
    PlanFrom(plan, 0);
    assert OfPlan(plan)[0..] == OfPlan(plan);
  }

  // ---------------------------------------------------------------- options

  lemma {:induction false} OptionsIff(protocols: seq<Protocol>, alpns: seq<string>, o: ProtocolOption)
    ensures o in Options(protocols, alpns) <==>
            && o.protocol in protocols
            && (if o.protocol.supportsAlpn && alpns != [] then o.alpn.Some? && o.alpn.value in alpns
                else o.alpn == None)
  {
    if protocols != [] {
      var init, p := protocols[..|protocols| - 1], protocols[|protocols| - 1];
      OptionsIff(init, alpns, o);
      assert protocols == init + [p];
      if o.protocol == p && p.supportsAlpn && alpns != [] && o.alpn.Some? && o.alpn.value in alpns {
        var k :| 0 <= k < |alpns| && alpns[k] == o.alpn.value;
        assert OptionsOf(p, alpns)[k] == o;
      }
    }
  }

  function OfProtocol(p: Protocol, alpns: seq<string>): (s: seq<ProtocolOption>) {
    if p.supportsAlpn && |alpns| > 0 then
      seq(|alpns|, k requires 0 <= k < |alpns| => ProtocolOption(p, Some(alpns[k])))
    else [ProtocolOption(p, None)]
  }

  function OfRegistry(protocols: seq<Protocol>, alpns: seq<string>): (s: seq<seq<ProtocolOption>>) {
    seq(|protocols|, n requires 0 <= n < |protocols| => OfProtocol(protocols[n], alpns))
  }

  /** Protocol by protocol in the order of the registry, and ALPN by ALPN in the application's. */
  lemma {:induction false} OptionsAre(protocols: seq<Protocol>, alpns: seq<string>)
    ensures Options(protocols, alpns) == Joined(OfRegistry(protocols, alpns))
  {
    if protocols != [] {
      var m := |protocols| - 1;
      OptionsAre(protocols[..m], alpns);
      assert OfRegistry(protocols, alpns) == OfRegistry(protocols[..m], alpns) + [OfProtocol(protocols[m], alpns)];
      JoinedMore(OfRegistry(protocols[..m], alpns), OfProtocol(protocols[m], alpns));
    }
  }

  // ---------------------------------------------------------------- all together

  /** What racing is given, told from the plan and the application's wishes alone. */
  lemma DeliveredTold(plan: seq<PathPlan>, w: Wanted)
    requires HasOptions(plan)
    ensures BestFirst(AllowedOnly(Joined(OfPlan(plan)), w), Delivered(plan, w), w)
  {
    DeliveredBestFirst(plan, w);
    CompatibleIs(Triples(plan, 0), w);
    TriplesAre(plan);
  }

  lemma DeliveredLocallyTold(plan: seq<PathPlan>, w: Wanted)
    requires HasOptions(plan) && NoRemotes(plan)
    ensures BestFirst(AllowedOnly(Pairs(plan, 0), w), DeliveredLocally(plan, w), w)
  {
    DeliveredLocallyBestFirst(plan, w);
    CompatibleIs(Pairs(plan, 0), w);
  }
}
