/** What each event does to the streams of a QUIC group, member by member, and what that comes to over a
    whole run: who may send and receive, which stream is whose, and on which streams a FIN was sent. */
module StreamEffects {
  import opened StreamGroup

  // ---------------------------------------------------------------- which event does what

  /** The peer opens a stream. */
  predicate Opens(g: Group, e: Event) { (e.PeerData? || e.PeerFin?) && e.id !in g.routes }

  /** ... and a connection is made for it, as the first one has a stream already. */
  predicate Adds(g: Group, e: Event) { Opens(g, e) && e.first in g.members && g.members[e.first].stream.On? }

  /** The connection that gets the stream. */
  function Taker(g: Group, e: Event): (c: nat)
    requires Opens(g, e)
  {
    if Adds(g, e) then g.next else e.first
  }

  predicate GivesSend(g: Group, e: Event, d: nat) {
    || e == CameReady(d) || (e.Cloned? && d == g.next)
    || (Opens(g, e) && d == Taker(g, e) && (Adds(g, e) || !Unidirectional(e.id)))
  }

  predicate TakesSend(g: Group, e: Event, d: nat) {
    || e == LocalClose(d) || (e.Sent? && e.c == d && e.final)
    || (e.StopSending? && e.id in g.routes && g.routes[e.id] == d)
    || (Opens(g, e) && d == Taker(g, e) && !Adds(g, e) && Unidirectional(e.id))
  }

  predicate GivesReceive(g: Group, e: Event, d: nat) {
    || e == CameReady(d) || (e.Cloned? && d == g.next)
    || (Opens(g, e) && d == Taker(g, e) && (Adds(g, e) || e.PeerData?))
  }

  predicate TakesReceive(g: Group, e: Event, d: nat) {
    e.PeerFin? &&
    if e.id in g.routes then g.routes[e.id] == d else d == Taker(g, e) && !Adds(g, e)
  }

  /** The stream `d` has after the event. */
  function StreamAfter(g: Group, e: Event, d: nat): (s: Stream) {
    if d in g.members && g.members[d].stream.On? then g.members[d].stream
    else if e.Sent? && e.c == d && e.established && d in g.members && g.members[d].canSend then On(e.id)
    else if Opens(g, e) && d == Taker(g, e) then On(e.id)
    else NoStream
  }

  function SendAfter(g: Group, e: Event, d: nat): (b: bool) {
    if GivesSend(g, e, d) then true else if TakesSend(g, e, d) then false else d in g.members && g.members[d].canSend
  }

  function ReceiveAfter(g: Group, e: Event, d: nat): (b: bool) {
    if GivesReceive(g, e, d) then true
    else if TakesReceive(g, e, d) then false
    else d in g.members && g.members[d].canReceive
  }

  function MemberAfter(g: Group, e: Event, d: nat): (m: Member) {
    Member(StreamAfter(g, e, d), SendAfter(g, e, d), ReceiveAfter(g, e, d))
  }

  predicate Joins(g: Group, e: Event, d: nat) { d == g.next && (e.Cloned? || Adds(g, e)) }

  // ---------------------------------------------------------------- one event

  /** A stream of the peer's own, with what its kind allows. */
  lemma ResolvedIs(g: Group, id: nat, first: nat)
    requires Inv(g) && first in g.members && (id in g.routes || OpenedByPeer(g.isClient, id))
    ensures var g' := Resolve(g, id, first);
      && g'.members == (if id in g.routes then g.members
                        else g.members[Target(g, id, first) := Member(On(id), !Unidirectional(id), true)])
      && g'.calls == g.calls && g'.fins == g.fins && g'.heard == g.heard + [Heard(id, Target(g, id, first))]
  {
    if id !in g.routes { PeerStreams(g.isClient, id); }
  }

  lemma AfterDataIs(g: Group, c: nat, isNew: bool, empty: bool)
    requires c in g.members && (isNew ==> g.members[c].canReceive)
    ensures var g' := AfterData(g, c, isNew, empty);
      && g'.members == (if isNew then g.members[c := Member(g.members[c].stream, true, true)] else g.members)
      && g'.calls == g.calls + (if isNew then [Ready(c)] else []) && g'.fins == g.fins && g'.heard == g.heard
  {
    assert g.members[c := g.members[c]] == g.members;
  }

  lemma AfterFinIs(g: Group, c: nat, isNew: bool, empty: bool)
    requires c in g.members && (isNew ==> g.members[c].canReceive)
    ensures var g' := AfterFin(g, c, isNew, empty);
      && g'.members == g.members[c := if isNew then Member(g.members[c].stream, true, true)
                                      else g.members[c].(canReceive := false)]
      && g'.fins == g.fins && g'.heard == g.heard
  {
    assert !g.members[c].canReceive ==> g.members[c := g.members[c].(canReceive := false)] == g.members;
  }

  lemma PeerDataEffect(g: Group, id: nat, first: nat, empty: bool, d: nat)
    requires Inv(g) && Enabled(g, PeerData(id, first, empty))
    ensures var e, g' := PeerData(id, first, empty), Step(g, PeerData(id, first, empty));
      && (d in g'.members <==> d in g.members || Joins(g, e, d))
      && (d in g'.members ==> g'.members[d] == MemberAfter(g, e, d))
  {
    ResolvedIs(g, id, first);
    AfterDataIs(Resolve(g, id, first), Target(g, id, first), NeedsClone(g, id, first), empty);
  }

  lemma KnownFinEffect(g: Group, id: nat, first: nat, empty: bool, d: nat)
    requires Inv(g) && first in g.members && id in g.routes
    ensures var e, g' := PeerFin(id, first, empty), Step(g, PeerFin(id, first, empty));
      && (d in g'.members <==> d in g.members) && (d in g.members ==> g'.members[d] == MemberAfter(g, e, d))
  {
    ResolvedIs(g, id, first);
    AfterFinIs(Resolve(g, id, first), g.routes[id], false, empty);
  }

  lemma NewFinEffect(g: Group, id: nat, first: nat, empty: bool, d: nat)
    requires Inv(g) && first in g.members && id !in g.routes && OpenedByPeer(g.isClient, id)
    ensures var e, g' := PeerFin(id, first, empty), Step(g, PeerFin(id, first, empty));
      && (d in g'.members <==> d in g.members || Joins(g, e, d))
      && (d in g'.members ==> g'.members[d] == MemberAfter(g, e, d))
  {
    ResolvedIs(g, id, first);
    AfterFinIs(Resolve(g, id, first), Target(g, id, first), NeedsClone(g, id, first), empty);
  }

  lemma PeerFinEffect(g: Group, id: nat, first: nat, empty: bool, d: nat)
    requires Inv(g) && Enabled(g, PeerFin(id, first, empty))
    ensures var e, g' := PeerFin(id, first, empty), Step(g, PeerFin(id, first, empty));
      && (d in g'.members <==> d in g.members || Joins(g, e, d))
      && (d in g'.members ==> g'.members[d] == MemberAfter(g, e, d))
  {
    if id in g.routes { KnownFinEffect(g, id, first, empty, d); } else { NewFinEffect(g, id, first, empty, d); }
  }

  lemma SentEffect(g: Group, e: Event, d: nat)
    requires Inv(g) && Enabled(g, e) && e.Sent?
    ensures var g' := Step(g, e);
      && (d in g'.members <==> d in g.members) && (d in g.members ==> g'.members[d] == MemberAfter(g, e, d))
  {}

  lemma OtherEffect(g: Group, e: Event, d: nat)
    requires Inv(g) && Enabled(g, e) && !e.Sent? && !e.PeerData? && !e.PeerFin?
    ensures var g' := Step(g, e);
      && (d in g'.members <==> d in g.members || Joins(g, e, d))
      && (d in g'.members ==> g'.members[d] == MemberAfter(g, e, d))
  {}

  /** Each member after the event is what it was, but for what the event gives it or takes from it. */
  lemma EventEffect(g: Group, e: Event, d: nat)
    requires Inv(g) && Enabled(g, e)
    ensures var g' := Step(g, e);
      && (d in g'.members <==> d in g.members || Joins(g, e, d))
      && (d in g'.members ==> g'.members[d] == MemberAfter(g, e, d))
  {
    match e
    case PeerData(id, first, empty) => PeerDataEffect(g, id, first, empty, d);
    case PeerFin(id, first, empty) => PeerFinEffect(g, id, first, empty, d);
    case Sent(_, _, _, _) => SentEffect(g, e, d);
    case _ => OtherEffect(g, e, d);
  }

  /** What the socket manager hears of an event that is not a FIN. */
  function CallsOf(g: Group, e: Event): (calls: seq<Call>) {
    match e
    case CameReady(c) => [Ready(c)]
    case Cloned(_) => [Ready(g.next)]
    case PeerData(_, _, _) => if Adds(g, e) then [Ready(g.next)] else []
    case StreamReset(id) => if id in g.routes then [Aborted(g.routes[id])] else []
    case _ => []
  }

  /** What the socket manager is told, and to whom data is handed; a FIN's reports are in FinReports. */
  lemma CallsEffect(g: Group, e: Event)
    requires Inv(g) && Enabled(g, e)
    ensures !e.PeerFin? ==> Step(g, e).calls == g.calls + CallsOf(g, e)
    ensures Step(g, e).heard == g.heard +
      if e.PeerData? || e.PeerFin? then
        [Heard(e.id, if e.id in g.routes then g.routes[e.id] else Taker(g, e))]
      else []
  {
    match e
    case PeerData(id, first, empty) =>
      ResolvedIs(g, id, first);
      AfterDataIs(Resolve(g, id, first), Target(g, id, first), NeedsClone(g, id, first), empty);
    case PeerFin(id, first, empty) =>
      ResolvedIs(g, id, first);
      AfterFinIs(Resolve(g, id, first), Target(g, id, first), NeedsClone(g, id, first), empty);
    case _ => QuietCalls(g, e);
  }

  lemma QuietCalls(g: Group, e: Event)
    requires Inv(g) && Enabled(g, e) && !e.PeerData? && !e.PeerFin?
    ensures Step(g, e).calls == g.calls + CallsOf(g, e) && Step(g, e).heard == g.heard
    ensures !e.LocalClose? ==> Step(g, e).fins == g.fins
  {}

  // ---------------------------------------------------------------- FINs

  predicate AnotherActive(g: Group, c: nat) {
    exists d | d in g.members :: d != c && (g.members[d].canSend || g.members[d].canReceive)
  }

  /** A local close sends a FIN exactly if the connection has a stream and something is still of use:
      its own receiving side, or another connection. */
  lemma CloseSendsFinIff(g: Group, c: nat)
    requires Inv(g) && c in g.members
    ensures Step(g, LocalClose(c)).fins == g.fins +
      if g.members[c].stream.On? && (g.members[c].canReceive || AnotherActive(g, c)) then [g.members[c].stream.id]
      else []
  {
    var g1 := WithSend(g, c, false);
    SilentIff(g1, c);
    OthersAsBefore(g, g1, c);
    assert AnotherActive(g, c) <==> !OthersSilent(g, c);
  }

  lemma OnlyCloseSendsFin(g: Group, e: Event)
    requires Inv(g) && Enabled(g, e) && !e.LocalClose?
    ensures Step(g, e).fins == g.fins
  {
    match e
    case PeerData(id, first, empty) =>
      ResolvedIs(g, id, first);
      AfterDataIs(Resolve(g, id, first), Target(g, id, first), NeedsClone(g, id, first), empty);
    case PeerFin(id, first, empty) =>
      ResolvedIs(g, id, first);
      AfterFinIs(Resolve(g, id, first), Target(g, id, first), NeedsClone(g, id, first), empty);
    case _ => QuietCalls(g, e);
  }

  /** A connection on stream `id` is closed, and something is left of use. */
  predicate SendsFin(g: Group, e: Event, id: nat) {
    e.LocalClose? && Enabled(g, e) && g.members[e.c].stream == On(id) && !Silences(g, e)
  }

  ghost predicate FinAt(isClient: bool, es: seq<Event>, m: int, id: nat) {
    0 <= m < |es| && ValidRun(isClient, es[..m]) && SendsFin(Run(isClient, es[..m]), es[m], id)
  }

  lemma FinOrSilence(g: Group, c: nat)
    requires Inv(g) && c in g.members
    ensures Silences(g, LocalClose(c)) <==> !g.members[c].canReceive && !AnotherActive(g, c)
  {
    assert AnotherActive(g, c) <==> !OthersSilent(g, c);
  }

  lemma FinStep(g: Group, e: Event, id: nat)
    requires Inv(g) && Enabled(g, e)
    ensures id in Step(g, e).fins <==> id in g.fins || SendsFin(g, e, id)
  {
    if e.LocalClose? {
      CloseSendsFinIff(g, e.c);
      FinOrSilence(g, e.c);
    } else {
      OnlyCloseSendsFin(g, e);
    }
  }

  ghost predicate FinIn(isClient: bool, es: seq<Event>, id: nat)
    requires ValidRun(isClient, es)
  {
    es != [] &&
    (FinIn(isClient, es[..|es| - 1], id) || SendsFin(Run(isClient, es[..|es| - 1]), es[|es| - 1], id))
  }

  lemma {:induction false} FinSent(isClient: bool, es: seq<Event>, id: nat)
    requires ValidRun(isClient, es)
    ensures id in Run(isClient, es).fins <==> FinIn(isClient, es, id)
  {
    if es != [] {
      FinSent(isClient, es[..|es| - 1], id);
      FinStep(Run(isClient, es[..|es| - 1]), es[|es| - 1], id);
    }
  }

  lemma FinAtPrefix(isClient: bool, es: seq<Event>, m: int, id: nat)
    requires es != [] && m < |es| - 1
    ensures FinAt(isClient, es, m, id) <==> FinAt(isClient, es[..|es| - 1], m, id)
  {
    if 0 <= m { assert es[..|es| - 1][..m] == es[..m]; }
  }

  lemma {:induction false} FinInAt(isClient: bool, es: seq<Event>, id: nat) returns (m: int)
    requires ValidRun(isClient, es) && FinIn(isClient, es, id)
    ensures FinAt(isClient, es, m, id)
  {
    if FinIn(isClient, es[..|es| - 1], id) {
      m := FinInAt(isClient, es[..|es| - 1], id);
      FinAtPrefix(isClient, es, m, id);
    } else {
      m := |es| - 1;
    }
  }

  lemma {:induction false} FinAtIn(isClient: bool, es: seq<Event>, m: int, id: nat)
    requires ValidRun(isClient, es) && FinAt(isClient, es, m, id)
    ensures FinIn(isClient, es, id)
  {
    if m < |es| - 1 {
      FinAtPrefix(isClient, es, m, id);
      FinAtIn(isClient, es[..|es| - 1], m, id);
    }
  }

  /** Over every run, a FIN was sent on a stream exactly if a local close of its connection did not
      silence the group. */
  lemma FinSentIff(isClient: bool, es: seq<Event>, id: nat)
    requires ValidRun(isClient, es)
    ensures id in Run(isClient, es).fins <==> exists m :: FinAt(isClient, es, m, id)
  {
    FinSent(isClient, es, id);
    if FinIn(isClient, es, id) { var m := FinInAt(isClient, es, id); }
    if m :| FinAt(isClient, es, m, id) { FinAtIn(isClient, es, m, id); }
  }

  // ---------------------------------------------------------------- directions over a run

  /** Given by the last event, or given before and not taken by the last event. */
  ghost predicate SendIn(isClient: bool, es: seq<Event>, d: nat)
    requires ValidRun(isClient, es)
  {
    es != [] &&
    var g, last := Run(isClient, es[..|es| - 1]), es[|es| - 1];
    GivesSend(g, last, d) || (SendIn(isClient, es[..|es| - 1], d) && !TakesSend(g, last, d))
  }

  ghost predicate ReceiveIn(isClient: bool, es: seq<Event>, d: nat)
    requires ValidRun(isClient, es)
  {
    es != [] &&
    var g, last := Run(isClient, es[..|es| - 1]), es[|es| - 1];
    GivesReceive(g, last, d) || (ReceiveIn(isClient, es[..|es| - 1], d) && !TakesReceive(g, last, d))
  }

  ghost predicate CanSend(g: Group, d: nat) { d in g.members && g.members[d].canSend }
  ghost predicate CanReceive(g: Group, d: nat) { d in g.members && g.members[d].canReceive }

  lemma SendStep(g: Group, e: Event, d: nat)
    requires Inv(g) && Enabled(g, e)
    ensures CanSend(Step(g, e), d) <==> GivesSend(g, e, d) || (CanSend(g, d) && !TakesSend(g, e, d))
    ensures CanReceive(Step(g, e), d) <==> GivesReceive(g, e, d) || (CanReceive(g, d) && !TakesReceive(g, e, d))
  {
    EventEffect(g, e, d);
  }

  /** Over every run, a connection may send exactly if the last event that had a say in that gave it the
      right, and likewise for receiving. */
  lemma {:induction false} DirectionsAsTold(isClient: bool, es: seq<Event>, d: nat)
    requires ValidRun(isClient, es)
    ensures CanSend(Run(isClient, es), d) <==> SendIn(isClient, es, d)
    ensures CanReceive(Run(isClient, es), d) <==> ReceiveIn(isClient, es, d)
  {
    if es != [] {
      DirectionsAsTold(isClient, es[..|es| - 1], d);
      SendStep(Run(isClient, es[..|es| - 1]), es[|es| - 1], d);
    }
  }
}
