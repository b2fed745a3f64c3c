/** When nobody in a QUIC group can send or receive although the QUIC connection was never closed. */
module StreamSilence {
  import opened StreamGroup

  /** Events that take the last direction of the group and close nothing: the end of sending for a
      connection that receives no more, by a final message or because the peer refuses to hear more,
      when no other connection is of use. */
  predicate Mutes(g: Group, e: Event) {
    match e
    case Sent(c, _, final, _) => final && c in g.members && SendsOnly(g, c)
    case StopSending(id) => id in g.routes && g.routes[id] in g.members && SendsOnly(g, g.routes[id])
    case _ => false
  }

  predicate SendsOnly(g: Group, c: nat)
    requires c in g.members
  {
    g.members[c].canSend && !g.members[c].canReceive && OthersSilent(g, c)
  }

  /** Events that give a direction to a member of a silent group. */
  predicate Wakes(g: Group, e: Event) {
    match e
    case PeerData(id, _, _) => id !in g.routes
    case PeerFin(id, first, _) => id !in g.routes && (!Unidirectional(id) || NeedsClone(g, id, first))
    case Cloned(_) => true
    case CameReady(_) => true
    case _ => false
  }

  predicate Silent(g: Group) { ActiveSet(g) == {} }

  lemma SilentOthers(g: Group, c: nat)
    requires Silent(g)
    ensures OthersSilent(g, c)
  {
    forall d | d in g.members && d != c ensures !Active(g.members[d]) { assert d !in ActiveSet(g); }
  }

  /** After an event about `c` alone, silence is a matter of `c` and of who was silent before. */
  lemma SilentAfter(g: Group, g': Group, c: nat)
    requires c in g'.members && g'.members - {c} == g.members - {c}
    ensures Silent(g') <==> OthersSilent(g, c) && !Active(g'.members[c])
  {
    SilentIff(g', c);
    OthersAsBefore(g, g', c);
  }

  // ---------------------------------------------------------------- one event

  lemma SentSilent(g: Group, c: nat, id: nat, final: bool, established: bool)
    requires c in g.members
    ensures var g' := OnSend(g, c, id, final, established);
      && g'.closes == g.closes
      && (Silent(g) ==> Silent(g'))
      && (!Silent(g) ==> (Silent(g') <==> final && SendsOnly(g, c)))
  {
    SilentAfter(g, OnSend(g, c, id, final, established), c);
    SilentIff(g, c);
  }

  lemma StopSilent(g: Group, id: nat)
    requires Inv(g)
    ensures var g' := OnStopSending(g, id);
      && g'.closes == g.closes
      && (Silent(g) ==> Silent(g'))
      && (!Silent(g) ==> (Silent(g') <==> id in g.routes && SendsOnly(g, g.routes[id])))
  {
    if id in g.routes {
      SilentAfter(g, OnStopSending(g, id), g.routes[id]);
      SilentIff(g, g.routes[id]);
    }
  }

  lemma CloseSilent(g: Group, c: nat)
    requires c in g.members
    ensures var g' := OnClose(g, c); (Silent(g) ==> Silent(g')) && (Silent(g') ==> g'.closes > g.closes)
  {
    var g1 := WithSend(g, c, false);
    SilentAfter(g, g1, c);
    SilentAfter(g1, OnClose(g, c), c);
    SilentIff(g, c);
    SilentIff(g1, c);
  }

  lemma FinSilent(g: Group, c: nat)
    requires c in g.members
    ensures var g' := OnFin(g, c);
      && (Silent(g') <==> OthersSilent(g, c) && !g.members[c].canSend)
      && (Silent(g') ==> g'.closes > g.closes)
  {
    FinCloses(g, c);
    SilentIff(OnFin(g, c), c);
  }

  lemma ReadyWakes(g: Group, c: nat)
    requires c in g.members
    ensures !Silent(OnReady(g, c))
  {
    SilentIff(OnReady(g, c), c);
  }

  lemma KnownFinSilent(g: Group, id: nat, first: nat, empty: bool)
    requires Inv(g) && id in g.routes && first in g.members
    ensures var g' := Step(g, PeerFin(id, first, empty));
      (Silent(g) ==> Silent(g')) && (!Silent(g) && Silent(g') ==> g'.closes > g.closes)
  {
    var c, g1 := g.routes[id], Resolve(g, id, first);
    ResolveIs(g, id, first);
    SilentAfter(g, g1, c);
    SilentIff(g, c);
    FinSilent(g1, c);
  }

  lemma NewFinSilent(g: Group, id: nat, first: nat, empty: bool)
    requires Inv(g) && id !in g.routes && first in g.members && OpenedByPeer(g.isClient, id)
    ensures var e := PeerFin(id, first, empty);
      && (Silent(g) ==> (Silent(Step(g, e)) <==> !Wakes(g, e)))
      && (Silent(Step(g, e)) ==> Step(g, e).closes > g.closes)
  {
    var c, g1 := Target(g, id, first), Resolve(g, id, first);
    PeerStreams(g.isClient, id);
    ResolveIs(g, id, first);
    FinSilent(g1, c);
    ReadyWakes(OnFin(g1, c), c);
    if Silent(g) { SilentOthers(g, c); }
  }

  lemma DataSilent(g: Group, id: nat, first: nat, empty: bool)
    requires Inv(g) && first in g.members && (id in g.routes || OpenedByPeer(g.isClient, id))
    ensures var g' := Step(g, PeerData(id, first, empty));
      Silent(g') <==> Silent(g) && id in g.routes
  {
    var c, g1 := Target(g, id, first), Resolve(g, id, first);
    ResolveIs(g, id, first);
    SilentAfter(g, g1, c);
    if id in g.routes {
      SilentIff(g, c);
    } else {
      PeerStreams(g.isClient, id);
      ReadyWakes(g1, c);
    }
  }

  /** A silent group stays silent exactly if the event does not wake it. */
  lemma StaysSilentIff(g: Group, e: Event)
    requires Inv(g) && Enabled(g, e) && Silent(g)
    ensures Silent(Step(g, e)) <==> !Wakes(g, e)
  {
    match e
    case Sent(c, id, final, established) => SentSilent(g, c, id, final, established);
    case PeerData(id, first, empty) => DataSilent(g, id, first, empty);
    case PeerFin(id, first, empty) =>
      if id in g.routes { KnownFinSilent(g, id, first, empty); } else { NewFinSilent(g, id, first, empty); }
    case StopSending(id) => StopSilent(g, id);
    case StreamReset(_) =>
    case LocalClose(c) => CloseSilent(g, c);
    case Cloned(_) => ReadyWakes(NewMember(g), g.next);
    case CameReady(c) => ReadyWakes(g, c);
  }

  /** A group falls silent without a close exactly at an event that mutes it. */
  lemma FallsSilentIff(g: Group, e: Event)
    requires Inv(g) && Enabled(g, e) && !Silent(g)
    ensures Silent(Step(g, e)) && Step(g, e).closes == g.closes <==> Mutes(g, e)
  {
    match e
    case Sent(c, id, final, established) => SentSilent(g, c, id, final, established);
    case PeerData(id, first, empty) => DataSilent(g, id, first, empty);
    case PeerFin(id, first, empty) =>
      if id in g.routes { KnownFinSilent(g, id, first, empty); } else { NewFinSilent(g, id, first, empty); }
    case StopSending(id) => StopSilent(g, id);
    case StreamReset(_) =>
    case LocalClose(c) => CloseSilent(g, c);
    case Cloned(_) => ReadyWakes(NewMember(g), g.next);
    case CameReady(c) => ReadyWakes(g, c);
  }

  // ---------------------------------------------------------------- whole runs

  /** The last event took the last direction and closed nothing, or this was so before, or there was no
      direction yet, and nothing has given one since. */
  ghost predicate Mute(isClient: bool, es: seq<Event>)
    requires ValidRun(isClient, es)
  {
    es == [] ||
    var g, last := Run(isClient, es[..|es| - 1]), es[|es| - 1];
    Mutes(g, last) || (Mute(isClient, es[..|es| - 1]) && !Wakes(g, last))
  }

  lemma MutesWhenActive(g: Group, e: Event)
    requires Silent(g)
    ensures !Mutes(g, e)
  {
    forall c | c in g.members ensures !g.members[c].canSend { assert c !in ActiveSet(g); }
  }

  lemma StepIsMute(g: Group, e: Event)
    requires Inv(g) && Enabled(g, e) && Step(g, e).closes == g.closes
    ensures Silent(Step(g, e)) <==> Mutes(g, e) || (Silent(g) && !Wakes(g, e))
  {
    if Silent(g) {
      MutesWhenActive(g, e);
      StaysSilentIff(g, e);
    } else {
      FallsSilentIff(g, e);
    }
  }

  lemma {:induction false} SilentIsMute(isClient: bool, es: seq<Event>)
    requires ValidRun(isClient, es) && Run(isClient, es).closes == 0
    ensures Silent(Run(isClient, es)) <==> Mute(isClient, es)
  {
    if es != [] {
      var before, last := es[..|es| - 1], es[|es| - 1];
      ClosesIff(Run(isClient, before), last);
      SilentIsMute(isClient, before);
      StepIsMute(Run(isClient, before), last);
    }
  }

  /** Over every run: nobody can send or receive and the QUIC connection was never closed, exactly if
      no event was one that closes it, and the last direction was taken by a final message or by the
      peer refusing to hear more, or there was none yet, with nothing giving one since. */
  lemma SilentUnclosedIff(isClient: bool, es: seq<Event>)
    requires ValidRun(isClient, es)
    ensures Silent(Run(isClient, es)) && Run(isClient, es).closes == 0 <==>
            (forall k :: !SilencedAt(isClient, es, k)) && Mute(isClient, es)
  {
    ClosedAtTheFirst(isClient, es);
    if Run(isClient, es).closes == 0 { SilentIsMute(isClient, es); }
  }

  const LISTENED: Group :=
    Group(true, map[0 := Member(On(0), true, false)], map[0 := 0], 1, 0, [], [Ready(0)], [Heard(0, 0)])

  lemma PeerDone()
    ensures var es := ONE_SENT + [PeerFin(0, 0, true)]; ValidRun(true, es) && Run(true, es) == LISTENED
  {
    OneSent();
    RunExtends(true, ONE_SENT, PeerFin(0, 0, true));
    FinCloses(Resolve(SENDING, 0, 0), 0);
    FinReports(SENDING, 0, 0, true);
  }

  /** Each side finishes the only stream, the peer first: the QUIC connection stays open although nobody
      can use it. */
  lemma FinalAfterFin()
    ensures var es := ONE_SENT + [PeerFin(0, 0, true)] + [Sent(0, 4, true, true)];
      && ValidRun(true, es) && Silent(Run(true, es)) && Run(true, es).closes == 0
  {
    PeerDone();
    RunExtends(true, ONE_SENT + [PeerFin(0, 0, true)], Sent(0, 4, true, true));
    assert OthersSilent(LISTENED, 0);
    SentSilent(LISTENED, 0, 4, true, true);
    SilentIff(LISTENED, 0);
  }
}
