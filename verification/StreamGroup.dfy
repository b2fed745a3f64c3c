/** The connections of one group are the streams of one QUIC connection.  Which stream is whose, who
    may still send or receive, and when the QUIC connection as a whole is closed. */
module StreamGroup {

  datatype Stream = NoStream | On(id: nat)
  datatype Member = Member(stream: Stream, canSend: bool, canReceive: bool)

  /** Calls into the socket manager. */
  datatype Call = Ready(c: nat) | Ended(c: nat) | Aborted(c: nat)

  /** What came in on `stream` was handed to `c`. */
  datatype Heard = Heard(stream: nat, c: nat)

  datatype Group = Group(
    isClient: bool,
    members: map<nat, Member>,
    routes: map<nat, nat>,        // the connection set as context of a stream
    next: nat,
    closes: nat,                  // calls that close the QUIC connection
    fins: seq<nat>,               // streams on which a FIN was sent
    calls: seq<Call>,
    heard: seq<Heard>)

  datatype Event =
    | Sent(c: nat, id: nat, final: bool, established: bool)
    | PeerData(id: nat, first: nat, empty: bool)
    | PeerFin(id: nat, first: nat, empty: bool)
    | StopSending(id: nat)
    | StreamReset(id: nat)
    | LocalClose(c: nat)
    | Cloned(source: nat)
    | CameReady(c: nat)

  // ---------------------------------------------------------------- stream ids

  predicate ServerInitiated(id: nat) { id % 2 == 1 }
  predicate Unidirectional(id: nat) { id / 2 % 2 == 1 }

  predicate MayReceive(isClient: bool, id: nat) {
    if isClient then ServerInitiated(id) || !Unidirectional(id) else !ServerInitiated(id) || !Unidirectional(id)
  }

  predicate MaySend(isClient: bool, id: nat) {
    if isClient then !ServerInitiated(id) || !Unidirectional(id) else ServerInitiated(id) || !Unidirectional(id)
  }

  predicate OpenedByPeer(isClient: bool, id: nat) { ServerInitiated(id) == isClient }

  // ---------------------------------------------------------------- steps

  predicate Active(m: Member) { m.canSend || m.canReceive }

  function ActiveSet(g: Group): (s: set<nat>) { set c | c in g.members && Active(g.members[c]) }

  function WithStream(g: Group, c: nat, id: nat): (g': Group)
    requires c in g.members
  {
    g.(members := g.members[c := g.members[c].(stream := On(id))], routes := g.routes[id := c])
  }

  function WithSend(g: Group, c: nat, b: bool): (g': Group)
    requires c in g.members
  {
    g.(members := g.members[c := g.members[c].(canSend := b)])
  }

  function WithReceive(g: Group, c: nat, b: bool): (g': Group)
    requires c in g.members
  {
    g.(members := g.members[c := g.members[c].(canReceive := b)])
  }

  function OnReady(g: Group, c: nat): (g': Group)
    requires c in g.members
  {
    WithReceive(WithSend(g, c, true), c, true).(calls := g.calls + [Ready(c)])
  }

  function NewMember(g: Group): (g': Group) {
    g.(members := g.members[g.next := Member(NoStream, false, false)], next := g.next + 1)
  }

  /** A stream without a context is a clone's, unless the first member has no stream yet. */
  predicate NeedsClone(g: Group, id: nat, first: nat) {
    id !in g.routes && first in g.members && g.members[first].stream.On?
  }

  function Target(g: Group, id: nat, first: nat): (c: nat) {
    if id in g.routes then g.routes[id] else if NeedsClone(g, id, first) then g.next else first
  }

  function Resolve(g: Group, id: nat, first: nat): (g': Group)
    requires first in g.members && (id in g.routes ==> g.routes[id] in g.members)
    ensures Target(g, id, first) in g'.members
  {
    var c := Target(g, id, first);
    var g1 := if NeedsClone(g, id, first) then NewMember(g) else g;
    var g2 := if id in g.routes then g
              else
                var g3 := WithReceive(WithSend(g1, c, MaySend(g.isClient, id)), c, MayReceive(g.isClient, id));
                WithStream(g3, c, id);
    g2.(heard := g.heard + [Heard(id, c)])
  }

  /** Data that arrives when nothing more may be received is refused. */
  predicate Refused(g: Group, c: nat, empty: bool)
    requires c in g.members
  {
    !empty && !g.members[c].canReceive
  }

  function OnFin(g: Group, c: nat): (g': Group)
    requires c in g.members
  {
    var g1 := WithReceive(g, c, false);
    if ActiveSet(g1) == {} then g1.(closes := g.closes + 1)
    else if !g1.members[c].canSend then g1.(calls := g.calls + [Ended(c)])
    else g1
  }

  function OnClose(g: Group, c: nat): (g': Group)
    requires c in g.members
  {
    var g1 := WithSend(g, c, false);
    if ActiveSet(g1) == {} then g1.(closes := g.closes + 1)
    else if g.members[c].stream.On? then g1.(fins := g.fins + [g.members[c].stream.id])
    else g1
  }

  function OnSend(g: Group, c: nat, id: nat, final: bool, established: bool): (g': Group)
    requires c in g.members
  {
    if !g.members[c].canSend then g
    else
      var g1 := if final then WithSend(g, c, false) else g;
      if !established || g.members[c].stream.On? then g1 else WithStream(g1, c, id)
  }

  function AfterData(g: Group, c: nat, isNew: bool, empty: bool): (g': Group)
    requires c in g.members
  {
    if Refused(g, c, empty) then g else if isNew then OnReady(g, c) else g
  }

  function AfterFin(g: Group, c: nat, isNew: bool, empty: bool): (g': Group)
    requires c in g.members
  {
    if Refused(g, c, empty) then g
    else if isNew then OnReady(OnFin(g, c), c)
    else OnFin(g, c)
  }

  function OnStopSending(g: Group, id: nat): (g': Group)
    requires id in g.routes ==> g.routes[id] in g.members
  {
    if id in g.routes then WithSend(g, g.routes[id], false) else g
  }

  /** The connection is reported as aborted; what it may send or receive is not touched. */
  function OnReset(g: Group, id: nat): (g': Group) {
    if id in g.routes then g.(calls := g.calls + [Aborted(g.routes[id])]) else g
  }

  function OnCloned(g: Group): (g': Group) { OnReady(NewMember(g), g.next) }

  /** The contract of the QUIC implementation: the next local stream is a bidirectional one that is
      not in use, and a stream that has no context was opened by the peer. */
  predicate Enabled(g: Group, e: Event) {
    match e
    case Sent(c, id, _, _) =>
      c in g.members && id !in g.routes && !OpenedByPeer(g.isClient, id) && !Unidirectional(id)
    case PeerData(id, first, _) => first in g.members && (id in g.routes || OpenedByPeer(g.isClient, id))
    case PeerFin(id, first, _) => first in g.members && (id in g.routes || OpenedByPeer(g.isClient, id))
    case StopSending(id) => true
    case StreamReset(id) => true
    case LocalClose(c) => c in g.members
    case Cloned(source) => source in g.members
    case CameReady(c) => c in g.members
  }

  function Step(g: Group, e: Event): (g': Group)
    requires Inv(g) && Enabled(g, e)
  {
    match e
    case Sent(c, id, final, established) => OnSend(g, c, id, final, established)
    case PeerData(id, first, empty) =>
      AfterData(Resolve(g, id, first), Target(g, id, first), NeedsClone(g, id, first), empty)
    case PeerFin(id, first, empty) =>
      AfterFin(Resolve(g, id, first), Target(g, id, first), NeedsClone(g, id, first), empty)
    case StopSending(id) => OnStopSending(g, id)
    case StreamReset(id) => OnReset(g, id)
    case LocalClose(c) => OnClose(g, c)
    case Cloned(_) => OnCloned(g)
    case CameReady(c) => OnReady(g, c)
  }

  // ---------------------------------------------------------------- streams and connections

  /** A stream's context is the connection that has the stream, and the other way round. */
  ghost predicate Paired(g: Group) {
    && (forall c | c in g.members :: g.members[c].stream.On? ==>
          g.members[c].stream.id in g.routes && g.routes[g.members[c].stream.id] == c)
    && (forall id | id in g.routes :: g.routes[id] in g.members && g.members[g.routes[id]].stream == On(id))
  }

  ghost predicate HeardRight(g: Group) {
    forall i | 0 <= i < |g.heard| :: g.heard[i].stream in g.routes && g.routes[g.heard[i].stream] == g.heard[i].c
  }

  ghost predicate Inv(g: Group) {
    && Paired(g) && HeardRight(g) && (forall c | c in g.members :: c < g.next)
  }

  /** Streams stay where they are. */
  ghost predicate Extends(g: Group, g': Group) {
    && (forall c | c in g.members ::
          c in g'.members && (g.members[c].stream.On? ==> g'.members[c].stream == g.members[c].stream))
    && (forall id | id in g.routes :: id in g'.routes && g'.routes[id] == g.routes[id])
  }

  /** Nothing about streams differs. */
  ghost predicate SameStreams(g: Group, g': Group) {
    && g'.routes == g.routes && g'.heard == g.heard && g.next <= g'.next
    && (forall c | c in g.members :: c in g'.members && g'.members[c].stream == g.members[c].stream)
    && (forall c | c in g'.members && c !in g.members :: g'.members[c].stream.NoStream? && c < g'.next)
  }

  lemma SameStreamsKeeps(g: Group, g': Group)
    requires Inv(g) && SameStreams(g, g')
    ensures Inv(g') && Extends(g, g')
  {}

  lemma WithStreamKeeps(g: Group, c: nat, id: nat)
    requires Inv(g) && c in g.members && g.members[c].stream.NoStream? && id !in g.routes
    ensures Inv(WithStream(g, c, id)) && Extends(g, WithStream(g, c, id))
  {}

  lemma HeardKeeps(g: Group, id: nat)
    requires Inv(g) && id in g.routes
    ensures Inv(g.(heard := g.heard + [Heard(id, g.routes[id])]))
  {}

  lemma ResolveKeeps(g: Group, id: nat, first: nat)
    requires Inv(g) && first in g.members
    ensures var g' := Resolve(g, id, first); Inv(g') && Extends(g, g')
  {
    if id !in g.routes {
      var c := Target(g, id, first);
      var g1 := if NeedsClone(g, id, first) then NewMember(g) else g;
      SameStreamsKeeps(g, g1);
      var g2 := WithReceive(WithSend(g1, c, MaySend(g.isClient, id)), c, MayReceive(g.isClient, id));
      SameStreamsKeeps(g1, g2);
      WithStreamKeeps(g2, c, id);
      HeardKeeps(WithStream(g2, c, id), id);
    }
  }

  lemma ExtendsOn(g: Group, g1: Group, g2: Group)
    requires Extends(g, g1) && Extends(g1, g2)
    ensures Extends(g, g2)
  {}

  lemma FinSame(g: Group, c: nat)
    requires c in g.members
    ensures SameStreams(g, OnFin(g, c))
  {}

  lemma ReadySame(g: Group, c: nat)
    requires c in g.members
    ensures SameStreams(g, OnReady(g, c))
  {}

  lemma AfterKeeps(g: Group, c: nat, isNew: bool, empty: bool)
    requires Inv(g) && c in g.members
    ensures var g' := AfterFin(g, c, isNew, empty); Inv(g') && Extends(g, g')
    ensures var g' := AfterData(g, c, isNew, empty); Inv(g') && Extends(g, g')
  {
    FinSame(g, c);
    ReadySame(g, c);
    ReadySame(OnFin(g, c), c);
    SameStreamsKeeps(g, OnFin(g, c));
    SameStreamsKeeps(g, OnReady(g, c));
    SameStreamsKeeps(OnFin(g, c), OnReady(OnFin(g, c), c));
    ExtendsOn(g, OnFin(g, c), OnReady(OnFin(g, c), c));
  }

  lemma SendKeeps(g: Group, c: nat, id: nat, final: bool, established: bool)
    requires Inv(g) && c in g.members && id !in g.routes
    ensures var g' := OnSend(g, c, id, final, established); Inv(g') && Extends(g, g')
  {
    var g1 := if final then WithSend(g, c, false) else g;
    SameStreamsKeeps(g, g1);
    if g.members[c].stream.NoStream? {
      WithStreamKeeps(g1, c, id);
      ExtendsOn(g, g1, WithStream(g1, c, id));
    }
  }

  lemma QuietSame(g: Group, e: Event)
    requires Inv(g) && Enabled(g, e) && !e.Sent? && !e.PeerData? && !e.PeerFin?
    ensures SameStreams(g, Step(g, e))
  {}

  lemma StepKeeps(g: Group, e: Event)
    requires Inv(g) && Enabled(g, e)
    ensures Inv(Step(g, e)) && Extends(g, Step(g, e))
  {
    match e
    case Sent(c, id, final, established) => SendKeeps(g, c, id, final, established);
    case PeerData(id, first, empty) => ResolvedKeeps(g, id, first, empty);
    case PeerFin(id, first, empty) => ResolvedKeeps(g, id, first, empty);
    case _ =>
      QuietSame(g, e);
      SameStreamsKeeps(g, Step(g, e));
  }

  lemma ResolvedKeeps(g: Group, id: nat, first: nat, empty: bool)
    requires Inv(g) && first in g.members
    ensures var g1, c, isNew := Resolve(g, id, first), Target(g, id, first), NeedsClone(g, id, first);
      && Inv(AfterData(g1, c, isNew, empty)) && Extends(g, AfterData(g1, c, isNew, empty))
      && Inv(AfterFin(g1, c, isNew, empty)) && Extends(g, AfterFin(g1, c, isNew, empty))
  {
    var g1, c, isNew := Resolve(g, id, first), Target(g, id, first), NeedsClone(g, id, first);
    ResolveKeeps(g, id, first);
    AfterKeeps(g1, c, isNew, empty);
    ExtendsOn(g, g1, AfterData(g1, c, isNew, empty));
    ExtendsOn(g, g1, AfterFin(g1, c, isNew, empty));
  }

  // ---------------------------------------------------------------- runs

  /** A group is born with one connection, which has no stream. */
  function Fresh(isClient: bool): (g: Group) {
    Group(isClient, map[0 := Member(NoStream, false, false)], map[], 1, 0, [], [], [])
  }

  ghost predicate ValidRun(isClient: bool, es: seq<Event>)
    decreases |es|, 0
  {
    es == [] ||
    (ValidRun(isClient, es[..|es| - 1]) && Enabled(Run(isClient, es[..|es| - 1]), es[|es| - 1]))
  }

  ghost function Run(isClient: bool, es: seq<Event>): (g: Group)
    requires ValidRun(isClient, es)
    ensures Inv(g)
    decreases |es|, 1
  {
    if es == [] then Fresh(isClient)
    else
      StepKeeps(Run(isClient, es[..|es| - 1]), es[|es| - 1]);
      Step(Run(isClient, es[..|es| - 1]), es[|es| - 1])
  }

  /** Over every run, streams and the connections that have one correspond one to one, and what came
      in on a stream went to one connection that got nothing from any other stream. */
  lemma OneStreamEach(isClient: bool, es: seq<Event>)
    requires ValidRun(isClient, es)
    ensures var g := Run(isClient, es);
      && (forall c, d | c in g.members && d in g.members && c != d && g.members[c].stream.On? ::
            g.members[c].stream != g.members[d].stream)
      && (forall c | c in g.members && g.members[c].stream.On? ::
            g.members[c].stream.id in g.routes && g.routes[g.members[c].stream.id] == c)
      && (forall i, j | 0 <= i < |g.heard| && 0 <= j < |g.heard| ::
            g.heard[i].stream == g.heard[j].stream <==> g.heard[i].c == g.heard[j].c)
  {
    var g := Run(isClient, es);
    assert Paired(g) && HeardRight(g);
    forall i, j | 0 <= i < |g.heard| && 0 <= j < |g.heard|
      ensures g.heard[i].stream == g.heard[j].stream <==> g.heard[i].c == g.heard[j].c
    {
      assert g.members[g.routes[g.heard[i].stream]].stream == On(g.heard[i].stream);
      assert g.members[g.routes[g.heard[j].stream]].stream == On(g.heard[j].stream);
    }
  }

  lemma {:induction false} PrefixIsValid(isClient: bool, es: seq<Event>, k: nat)
    requires ValidRun(isClient, es) && k <= |es|
    ensures ValidRun(isClient, es[..k])
    decreases |es| - k
  {
    if k < |es| {
      PrefixIsValid(isClient, es, k + 1);
      assert es[..k + 1][..k] == es[..k];
    } else {
      assert es[..k] == es;
    }
  }

  /** No connection is given a second stream, and no stream another connection. */
  lemma {:induction false} StreamsStay(isClient: bool, es: seq<Event>, k: nat)
    requires ValidRun(isClient, es) && k <= |es|
    ensures ValidRun(isClient, es[..k]) && Extends(Run(isClient, es[..k]), Run(isClient, es))
  {
    PrefixIsValid(isClient, es, k);
    if k == |es| {
      assert es[..k] == es;
    } else {
      var init := es[..|es| - 1];
      StreamsStay(isClient, init, k);
      assert init[..k] == es[..k];
      StepKeeps(Run(isClient, init), es[|es| - 1]);
      ExtendsOn(Run(isClient, es[..k]), Run(isClient, init), Run(isClient, es));
    }
  }

  // ---------------------------------------------------------------- closing the QUIC connection

  predicate OthersSilent(g: Group, c: nat) { forall d | d in g.members && d != c :: !Active(g.members[d]) }

  /** The events that should close the QUIC connection, seen from before the event.  No connection but
      one is of use, and that one is closed locally when it cannot receive, or finished by the peer
      when it cannot send; or the peer opens a stream for reading only and at once finishes it, which
      takes both directions from the connection that gets the stream, whatever it could do before. */
  predicate Silences(g: Group, e: Event)
    requires Enabled(g, e)
  {
    match e
    case LocalClose(c) => OthersSilent(g, c) && !g.members[c].canReceive
    case PeerFin(id, first, empty) =>
      if id in g.routes then
        var c := g.routes[id];
        c in g.members && OthersSilent(g, c) && !g.members[c].canSend && (empty || g.members[c].canReceive)
      else OthersSilent(g, Target(g, id, first)) && Unidirectional(id)
    case _ => false
  }

  lemma SilentIff(g: Group, c: nat)
    requires c in g.members
    ensures ActiveSet(g) == {} <==> OthersSilent(g, c) && !Active(g.members[c])
  {
    if OthersSilent(g, c) && !Active(g.members[c]) {
      assert forall d | d in g.members :: !Active(g.members[d]);
    } else if !OthersSilent(g, c) {
      var d :| d in g.members && d != c && Active(g.members[d]);
      assert d in ActiveSet(g);
    } else {
      assert c in ActiveSet(g);
    }
  }

  lemma OthersAsBefore(g: Group, g': Group, c: nat)
    requires g'.members - {c} == g.members - {c}
    ensures OthersSilent(g', c) <==> OthersSilent(g, c)
  {
    forall d | d != c
      ensures d in g.members <==> d in g'.members
      ensures d in g.members ==> g.members[d] == g'.members[d]
    {
      assert d in g.members <==> d in g.members - {c};
      assert d in g'.members <==> d in g'.members - {c};
      if d in g.members { assert g.members[d] == (g.members - {c})[d] == (g'.members - {c})[d]; }
    }
  }

  lemma FinCloses(g: Group, c: nat)
    requires c in g.members
    ensures var g' := OnFin(g, c);
      && g'.closes == g.closes + (if OthersSilent(g, c) && !g.members[c].canSend then 1 else 0)
      && g'.calls == g.calls + (if !OthersSilent(g, c) && !g.members[c].canSend then [Ended(c)] else [])
      && c in g'.members && !g'.members[c].canReceive && g'.members[c].canSend == g.members[c].canSend
      && (OthersSilent(g', c) <==> OthersSilent(g, c))
  {
    var g1 := WithReceive(g, c, false);
    SilentIff(g1, c);
    OthersAsBefore(g, g1, c);
    OthersAsBefore(g1, OnFin(g, c), c);
  }

  lemma ResolveIs(g: Group, id: nat, first: nat)
    requires Inv(g) && first in g.members
    ensures var g', c := Resolve(g, id, first), Target(g, id, first);
      && g'.closes == g.closes && g'.calls == g.calls && (OthersSilent(g', c) <==> OthersSilent(g, c))
      && (if id in g.routes then c in g.members && g'.members[c] == g.members[c]
          else
            && g'.members[c].canSend == MaySend(g.isClient, id)
            && g'.members[c].canReceive == MayReceive(g.isClient, id))
  {
    OthersAsBefore(g, Resolve(g, id, first), Target(g, id, first));
  }

  lemma PeerStreams(isClient: bool, id: nat)
    requires OpenedByPeer(isClient, id)
    ensures MayReceive(isClient, id) && (MaySend(isClient, id) <==> !Unidirectional(id))
  {}

  /** The QUIC connection is closed at such an event and at no other. */
  lemma ClosesIff(g: Group, e: Event)
    requires Inv(g) && Enabled(g, e)
    ensures Step(g, e).closes == g.closes + if Silences(g, e) then 1 else 0
  {
    match e
    case PeerFin(id, first, empty) =>
      var c, g1 := Target(g, id, first), Resolve(g, id, first);
      ResolveIs(g, id, first);
      FinCloses(g1, c);
      if id !in g.routes { PeerStreams(g.isClient, id); }
    case PeerData(id, first, empty) => ResolveIs(g, id, first);
    case LocalClose(c) =>
      SilentIff(WithSend(g, c, false), c);
      OthersAsBefore(g, WithSend(g, c, false), c);
    case _ =>
  }

  /** Over every run: the QUIC connection has been closed exactly if there was such an event. */
  lemma {:induction false} ClosedAtTheFirst(isClient: bool, es: seq<Event>)
    requires ValidRun(isClient, es)
    ensures Run(isClient, es).closes > 0 <==> exists k :: SilencedAt(isClient, es, k)
  {
    if es != [] {
      var n := |es| - 1;
      ClosedAtTheFirst(isClient, es[..n]);
      ClosesIff(Run(isClient, es[..n]), es[n]);
      forall k | 0 <= k < n ensures SilencedAt(isClient, es, k) <==> SilencedAt(isClient, es[..n], k) {
        assert es[..n][..k] == es[..k];
      }
      assert SilencedAt(isClient, es, n) <==> Silences(Run(isClient, es[..n]), es[n]);
    }
  }

  ghost predicate SilencedAt(isClient: bool, es: seq<Event>, k: int) {
    0 <= k < |es| && ValidRun(isClient, es[..k]) && Enabled(Run(isClient, es[..k]), es[k])
    && Silences(Run(isClient, es[..k]), es[k])
  }

  /** After such an event nobody may send or receive, unless it made a connection: that one is told
      it is ready after all. */
  lemma SilentAfterwardsIff(g: Group, e: Event)
    requires Inv(g) && Enabled(g, e) && Silences(g, e)
    ensures ActiveSet(Step(g, e)) == {} <==> !(e.PeerFin? && NeedsClone(g, e.id, e.first))
  {
    match e
    case PeerFin(id, first, empty) =>
      var c, g1 := Target(g, id, first), Resolve(g, id, first);
      ResolveIs(g, id, first);
      FinCloses(g1, c);
      if id !in g.routes { PeerStreams(g.isClient, id); }
      SilentIff(OnFin(g1, c), c);
      SilentIff(Step(g, e), c);
    case LocalClose(c) =>
      SilentIff(WithSend(g, c, false), c);
      OthersAsBefore(g, WithSend(g, c, false), c);
      assert ActiveSet(Step(g, e)) == ActiveSet(WithSend(g, c, false));
  }

  /** A stream the peer opened leaves its connection able to do what the kind of stream allows
      (section 2.1 of RFC 9000), unless the stream is for reading only and got a connection of its
      own: being told it is ready, that connection may send as well. */
  lemma DirectionsKeptIff(g: Group, id: nat, first: nat, empty: bool)
    requires Inv(g) && Enabled(g, PeerData(id, first, empty)) && id !in g.routes
    ensures var m := Step(g, PeerData(id, first, empty)).members[Target(g, id, first)];
      && m.stream == On(id) && m.canReceive
      && (m.canSend == !Unidirectional(id) <==> !(NeedsClone(g, id, first) && Unidirectional(id)))
  {
    PeerStreams(g.isClient, id);
    ResolveIs(g, id, first);
    ResolveKeeps(g, id, first);
  }

  /** A FIN reports a connection as ended exactly when it can no longer send and others are still of
      use; a connection made for that very FIN is told it is ready after it was reported as ended. */
  lemma FinReports(g: Group, id: nat, first: nat, empty: bool)
    requires Inv(g) && Enabled(g, PeerFin(id, first, empty))
    ensures var c := Target(g, id, first);
      var known := id in g.routes;
      var stillSends := if known then g.members[c].canSend else !Unidirectional(id);
      var accepted := known && !empty ==> g.members[c].canReceive;
      Step(g, PeerFin(id, first, empty)).calls == g.calls
        + (if accepted && !stillSends && !OthersSilent(g, c) then [Ended(c)] else [])
        + (if NeedsClone(g, id, first) then [Ready(c)] else [])
  {
    if id !in g.routes { PeerStreams(g.isClient, id); }
    ResolveIs(g, id, first);
    FinCloses(Resolve(g, id, first), Target(g, id, first));
  }

  lemma RunExtends(isClient: bool, es: seq<Event>, e: Event)
    requires ValidRun(isClient, es) && Enabled(Run(isClient, es), e)
    ensures ValidRun(isClient, es + [e]) && Run(isClient, es + [e]) == Step(Run(isClient, es), e)
  {
    assert (es + [e])[..|es|] == es;
  }

  /** A group whose connection has been told it is ready and has not sent anything. */
  function Idle(isClient: bool): (g: Group) {
    Group(isClient, map[0 := Member(NoStream, true, true)], map[], 1, 0, [], [Ready(0)], [])
  }

  lemma CameReadyFirst(isClient: bool)
    ensures ValidRun(isClient, [CameReady(0)]) && Run(isClient, [CameReady(0)]) == Idle(isClient)
  {
    RunExtends(isClient, [], CameReady(0));
    assert [] + [CameReady(0)] == [CameReady(0)];
  }

  const ONE_SENT: seq<Event> := [CameReady(0)] + [Sent(0, 0, false, true)]
  const SENDING: Group := Group(true, map[0 := Member(On(0), true, true)], map[0 := 0], 1, 0, [], [Ready(0)], [])

  lemma OneSent()
    ensures ValidRun(true, ONE_SENT) && Run(true, ONE_SENT) == SENDING
  {
    CameReadyFirst(true);
    RunExtends(true, [CameReady(0)], Sent(0, 0, false, true));
  }

  lemma OneHeard()
    requires Inv(SENDING)
    ensures var g := Step(SENDING, PeerFin(3, 0, false));
      && g.calls == [Ready(0), Ended(1), Ready(1)]
      && 1 in g.members && g.members[1] == Member(On(3), true, true)
  {
    assert Active(SENDING.members[0]);
    FinReports(SENDING, 3, 0, false);
  }

  /** A server sends one short message on a stream of its own: the client's connection for it is
      reported as ended, then as ready, and may send although the stream is for reading only. */
  lemma EndedThenReady()
    ensures var es := ONE_SENT + [PeerFin(3, 0, false)];
      && ValidRun(true, es) && Run(true, es).calls == [Ready(0), Ended(1), Ready(1)]
      && 1 in Run(true, es).members && Run(true, es).members[1] == Member(On(3), true, true)
      && !MaySend(true, 3)
  {
    OneSent();
    RunExtends(true, ONE_SENT, PeerFin(3, 0, false));
    OneHeard();
  }

  /** The peer's first stream is for reading only and finished at once: the QUIC connection is closed
      although its only connection could send and receive. */
  lemma ClosedByFirstStream()
    ensures var es := [CameReady(0)] + [PeerFin(3, 0, false)];
      && ValidRun(true, [CameReady(0)]) && Run(true, [CameReady(0)]).members == map[0 := Member(NoStream, true, true)]
      && ValidRun(true, es) && Run(true, es).closes == 1
  {
    CameReadyFirst(true);
    RunExtends(true, [CameReady(0)], PeerFin(3, 0, false));
    assert OthersSilent(Idle(true), 0);
    ClosesIff(Idle(true), PeerFin(3, 0, false));
  }

  const SPENT: Group :=
    Group(true, map[0 := Member(On(0), false, false)], map[0 := 0], 1, 0, [], [Ready(0)], [Heard(0, 0)])

  /** The first stream is finished by the peer, which then refuses to hear more. */
  lemma NothingLeft()
    ensures var es := ONE_SENT + [PeerFin(0, 0, true)] + [StopSending(0)];
      ValidRun(true, es) && Run(true, es) == SPENT
  {
    OneSent();
    RunExtends(true, ONE_SENT, PeerFin(0, 0, true));
    FinCloses(Resolve(SENDING, 0, 0), 0);
    FinReports(SENDING, 0, 0, true);
    var g := Run(true, ONE_SENT + [PeerFin(0, 0, true)]);
    assert g.members == map[0 := Member(On(0), true, false)];
    RunExtends(true, ONE_SENT + [PeerFin(0, 0, true)], StopSending(0));
  }

  lemma OneMoreFin()
    requires Inv(SPENT)
    ensures var g := Step(SPENT, PeerFin(3, 0, true)); g.closes == 1 && 1 in ActiveSet(g)
  {
    var e := PeerFin(3, 0, true);
    assert OthersSilent(SPENT, 1);
    ClosesIff(SPENT, e);
    FinCloses(Resolve(SPENT, 3, 0), 1);
    assert Step(SPENT, e).members[1].canSend;
  }

  /** One more FIN, on a stream of the peer's own, closes the QUIC connection and leaves behind a
      connection that may send and receive. */
  lemma ReadyAfterClose()
    ensures var es := ONE_SENT + [PeerFin(0, 0, true)] + [StopSending(0)] + [PeerFin(3, 0, true)];
      ValidRun(true, es) && Run(true, es).closes == 1 && 1 in ActiveSet(Run(true, es))
  {
    NothingLeft();
    RunExtends(true, ONE_SENT + [PeerFin(0, 0, true)] + [StopSending(0)], PeerFin(3, 0, true));
    OneMoreFin();
  }

  // ---------------------------------------------------------------- connections that ended by a reset

  /** The event is about member `c`. */
  predicate Concerns(g: Group, e: Event, c: nat) {
    match e
    case Sent(d, _, _, _) => d == c
    case PeerData(id, first, _) => Target(g, id, first) == c
    case PeerFin(id, first, _) => Target(g, id, first) == c
    case StopSending(id) => id in g.routes && g.routes[id] == c
    case StreamReset(_) => false
    case LocalClose(d) => d == c
    case Cloned(_) => false
    case CameReady(d) => d == c
  }

  lemma OtherResolved(g: Group, id: nat, first: nat, empty: bool, d: nat)
    requires Inv(g) && first in g.members && d in g.members && d != Target(g, id, first)
    ensures var g1, c, isNew := Resolve(g, id, first), Target(g, id, first), NeedsClone(g, id, first);
      && d in AfterData(g1, c, isNew, empty).members && AfterData(g1, c, isNew, empty).members[d] == g.members[d]
      && d in AfterFin(g1, c, isNew, empty).members && AfterFin(g1, c, isNew, empty).members[d] == g.members[d]
  {}

  /** A member that can still send or receive keeps the QUIC connection open, whatever happens to the
      others, and whether or not it has been reported as ended. */
  lemma HoldsOpen(g: Group, e: Event, d: nat)
    requires Inv(g) && Enabled(g, e) && d in g.members && Active(g.members[d]) && !Concerns(g, e, d)
    ensures var g' := Step(g, e); g'.closes == g.closes && d in g'.members && g'.members[d] == g.members[d]
  {
    ClosesIff(g, e);
    match e
    case PeerData(id, first, empty) => OtherResolved(g, id, first, empty, d);
    case PeerFin(id, first, empty) => OtherResolved(g, id, first, empty, d);
    case _ =>
  }
}
