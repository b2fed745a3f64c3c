/** Members of a QUIC group that have been reported as ended take part in nothing any more, but the
    library still asks whether they can send or receive before it closes the QUIC connection. */
module StreamEnds {
  import opened StreamGroup
  import StreamSilence

  /** The last call about `c` said that it ended. */
  predicate Finished(calls: seq<Call>, c: nat) {
    calls != [] &&
    var n := |calls| - 1;
    if calls[n].c == c then !calls[n].Ready? else Finished(calls[..n], c)
  }

  /** Events that bring something new: a stream opened by the peer, a clone, a connection told (again)
      that it is ready. */
  predicate BringsNew(g: Group, e: Event) {
    e.Cloned? || e.CameReady? || ((e.PeerData? || e.PeerFin?) && e.id !in g.routes)
  }

  /** What can happen to a group whose finished members are left alone; with `growing` also new
      streams and clones. */
  predicate Live(g: Group, e: Event, growing: bool) {
    && Enabled(g, e) && (growing || !BringsNew(g, e))
    && forall c | c in g.members && Finished(g.calls, c) :: !Concerns(g, e, c)
  }

  ghost predicate LiveRun(g: Group, es: seq<Event>, growing: bool)
    requires Inv(g)
    decreases |es|
  {
    es == [] ||
    (Live(g, es[0], growing) && (StepKeeps(g, es[0]); LiveRun(Step(g, es[0]), es[1..], growing)))
  }

  ghost function After(g: Group, es: seq<Event>, growing: bool): (g': Group)
    requires Inv(g) && LiveRun(g, es, growing)
    decreases |es|
  {
    if es == [] then g else
      StepKeeps(g, es[0]);
      After(Step(g, es[0]), es[1..], growing)
  }

  /** Some way of going on closes the QUIC connection. */
  ghost predicate CanClose(g: Group, growing: bool)
    requires Inv(g)
  {
    exists es :: LiveRun(g, es, growing) && After(g, es, growing).closes > g.closes
  }

  predicate FinishedAreSilent(g: Group) {
    forall c | c in g.members && Finished(g.calls, c) :: !Active(g.members[c])
  }

  // ---------------------------------------------------------------- a finished member that holds on

  lemma FinishedMore(calls: seq<Call>, x: Call, c: nat)
    ensures Finished(calls + [x], c) <==> if x.c == c then !x.Ready? else Finished(calls, c)
  {
    assert (calls + [x])[..|calls|] == calls;
  }

  /** The calls of an event are about the member it concerns. */
  lemma FinCalls(g: Group, c: nat, isNew: bool, empty: bool, d: nat)
    requires c in g.members && d != c
    ensures Finished(AfterFin(g, c, isNew, empty).calls, d) <==> Finished(g.calls, d)
    ensures Finished(AfterData(g, c, isNew, empty).calls, d) <==> Finished(g.calls, d)
  {
    FinishedMore(g.calls, Ended(c), d);
    FinishedMore(g.calls, Ready(c), d);
    FinishedMore(g.calls + [Ended(c)], Ready(c), d);
  }

  lemma StaysFinished(g: Group, e: Event, d: nat)
    requires Inv(g) && Live(g, e, true) && d in g.members && Finished(g.calls, d)
    ensures Finished(Step(g, e).calls, d)
  {
    match e
    case PeerData(id, first, empty) =>
      FinCalls(Resolve(g, id, first), Target(g, id, first), NeedsClone(g, id, first), empty, d);
    case PeerFin(id, first, empty) =>
      FinCalls(Resolve(g, id, first), Target(g, id, first), NeedsClone(g, id, first), empty, d);
    case StreamReset(id) => if id in g.routes { FinishedMore(g.calls, Aborted(g.routes[id]), d); }
    case Cloned(_) => FinishedMore(g.calls, Ready(g.next), d);
    case CameReady(c) => FinishedMore(g.calls, Ready(c), d);
    case _ =>
  }

  lemma {:induction false} HeldOpen(g: Group, es: seq<Event>, growing: bool, d: nat)
    requires Inv(g) && LiveRun(g, es, growing) && d in g.members && Finished(g.calls, d) && Active(g.members[d])
    ensures After(g, es, growing).closes == g.closes
    decreases |es|
  {
    if es != [] {
      StepKeeps(g, es[0]);
      HoldsOpen(g, es[0], d);
      StaysFinished(g, es[0], d);
      HeldOpen(Step(g, es[0]), es[1..], growing, d);
    }
  }

  // ---------------------------------------------------------------- closing a group that is not held

  lemma {:induction false} Above(s: set<nat>) returns (n: nat)
    ensures forall x | x in s :: x < n
    decreases |s|
  {
    if s == {} { return 0; }
    var x :| x in s;
    var m := Above(s - {x});
    n := if x < m then m else x + 1;
    forall y | y in s ensures y < n { assert y == x || y in s - {x}; }
  }

  /** The four kinds of streams (section 2.1 of RFC 9000). */
  lemma StreamKinds(n: nat)
    ensures !ServerInitiated(4 * n) && ServerInitiated(4 * n + 1) && !ServerInitiated(4 * n + 2)
    ensures ServerInitiated(4 * n + 3) && !Unidirectional(4 * n) && !Unidirectional(4 * n + 1)
    ensures Unidirectional(4 * n + 2) && Unidirectional(4 * n + 3)
  {
    assert 4 * n / 2 == 2 * n && (4 * n + 1) / 2 == 2 * n;
    assert (4 * n + 2) / 2 == 2 * n + 1 && (4 * n + 3) / 2 == 2 * n + 1;
  }

  /** There is always a stream the peer has not opened yet, for writing only. */
  lemma UnusedPeerStream(g: Group) returns (id: nat)
    ensures id !in g.routes && OpenedByPeer(g.isClient, id) && Unidirectional(id)
  {
    var n := Above(g.routes.Keys);
    StreamKinds(n);
    if g.isClient { id := 4 * n + 3; } else { id := 4 * n + 2; }
  }

  function Senders(g: Group): (s: set<nat>) { set c | c in g.members && g.members[c].canSend }
  function Receivers(g: Group): (s: set<nat>) { set c | c in g.members && g.members[c].canReceive }
  function Flags(g: Group): (n: nat) { |Senders(g)| + |Receivers(g)| }

  /** Between `g` and `g'` member `d` lost a direction and nobody gained one. */
  predicate Quieter(g: Group, g': Group, d: nat) {
    && d in g.members && g'.members.Keys == g.members.Keys
    && (forall c | c in g.members :: (g'.members[c].canSend ==> g.members[c].canSend)
                                  && (g'.members[c].canReceive ==> g.members[c].canReceive))
    && (|| (g.members[d].canSend && !g'.members[d].canSend)
        || (g.members[d].canReceive && !g'.members[d].canReceive))
  }

  lemma Smaller(a: set<nat>, b: set<nat>)
    requires a <= b
    ensures |a| <= |b| && (a != b ==> |a| < |b|)
  {
    assert b == a + (b - a);
    if a != b { var x :| x in b && x !in a; assert x in b - a; }
  }

  lemma FewerFlags(g: Group, g': Group, d: nat)
    requires Quieter(g, g', d)
    ensures Flags(g') < Flags(g)
  {
    assert Senders(g') <= Senders(g) && Receivers(g') <= Receivers(g);
    Smaller(Senders(g'), Senders(g));
    Smaller(Receivers(g'), Receivers(g));
    if g.members[d].canSend && !g'.members[d].canSend { assert d in Senders(g) && d !in Senders(g'); }
    if g.members[d].canReceive && !g'.members[d].canReceive { assert d in Receivers(g) && d !in Receivers(g'); }
  }

  /** What is needed to go on: the finished are silent still, and there is less left to silence or
      the QUIC connection has been closed. */
  ghost predicate Onward(g: Group, g': Group) {
    && Inv(g') && g'.members.Keys == g.members.Keys && FinishedAreSilent(g')
    && (g'.closes > g.closes || (g'.closes == g.closes && Flags(g') < Flags(g)))
  }

  /** The application closes a connection it can send on. */
  lemma CloseOnward(g: Group, d: nat)
    requires Inv(g) && FinishedAreSilent(g) && d in g.members && g.members[d].canSend
    ensures Live(g, LocalClose(d), false) && Onward(g, Step(g, LocalClose(d)))
  {
    var e := LocalClose(d);
    StepKeeps(g, e);
    ClosesIff(g, e);
    var g' := Step(g, e);
    assert g'.members == g.members[d := g.members[d].(canSend := false)] && g'.calls == g.calls;
    FewerFlags(g, g', d);
  }

  /** The peer finishes a stream on which it can be heard, of a connection that sends no more. */
  lemma FinOnward(g: Group, id: nat, d: nat)
    requires Inv(g) && FinishedAreSilent(g) && id in g.routes && g.routes[id] == d
    requires d in g.members && g.members[d].canReceive && !g.members[d].canSend
    ensures Live(g, PeerFin(id, d, true), false) && Onward(g, Step(g, PeerFin(id, d, true)))
  {
    var e := PeerFin(id, d, true);
    StepKeeps(g, e);
    ClosesIff(g, e);
    var g' := Step(g, e);
    FewerFlags(g, g', d);
    forall c | c in g'.members && Finished(g'.calls, c) ensures !Active(g'.members[c]) {
      FinCallsOf(g, id, d, c);
    }
  }

  lemma FinCallsOf(g: Group, id: nat, d: nat, c: nat)
    requires Inv(g) && d in g.members && (id in g.routes ==> g.routes[id] == d) && !NeedsClone(g, id, d)
    ensures c != d ==> (Finished(AfterFin(Resolve(g, id, d), d, false, true).calls, c) <==> Finished(g.calls, c))
  {
    if c != d { FinCalls(Resolve(g, id, d), d, false, true, c); }
  }

  lemma FirstFinSilences(g: Group, id: nat, d: nat)
    requires Inv(g) && d in g.members && g.members[d].stream.NoStream?
    requires id !in g.routes && OpenedByPeer(g.isClient, id) && Unidirectional(id)
    ensures Step(g, PeerFin(id, d, true)).members == g.members[d := Member(On(id), false, false)]
  {
    PeerStreams(g.isClient, id);
  }

  /** The peer opens and at once finishes a stream, which goes to a connection without one. */
  lemma FirstFinOnward(g: Group, id: nat, d: nat)
    requires Inv(g) && FinishedAreSilent(g) && d in g.members && Active(g.members[d]) && g.members[d].stream.NoStream?
    requires id !in g.routes && OpenedByPeer(g.isClient, id) && Unidirectional(id)
    ensures Live(g, PeerFin(id, d, true), true) && Onward(g, Step(g, PeerFin(id, d, true)))
    ensures OthersSilent(g, d) ==> Step(g, PeerFin(id, d, true)).closes > g.closes
  {
    var e := PeerFin(id, d, true);
    StepKeeps(g, e);
    ClosesIff(g, e);
    var g' := Step(g, e);
    FirstFinSilences(g, id, d);
    FewerFlags(g, g', d);
    forall c | c in g'.members && Finished(g'.calls, c) ensures !Active(g'.members[c]) {
      FinCallsOf(g, id, d, c);
    }
  }

  lemma OneOnward(g: Group, d: nat) returns (e: Event)
    requires Inv(g) && FinishedAreSilent(g) && d in g.members && Active(g.members[d])
    ensures Live(g, e, true) && Onward(g, Step(g, e))
  {
    if g.members[d].stream.NoStream? {
      var id := UnusedPeerStream(g);
      e := PeerFin(id, d, true);
      FirstFinOnward(g, id, d);
    } else if g.members[d].canSend {
      e := LocalClose(d);
      CloseOnward(g, d);
    } else {
      e := PeerFin(g.members[d].stream.id, d, true);
      FinOnward(g, g.members[d].stream.id, d);
    }
  }

  lemma RunPrepends(g: Group, e: Event, es: seq<Event>, growing: bool)
    requires Inv(g) && Live(g, e, growing) && Inv(Step(g, e)) && LiveRun(Step(g, e), es, growing)
    ensures LiveRun(g, [e] + es, growing) && After(g, [e] + es, growing) == After(Step(g, e), es, growing)
  {
    assert ([e] + es)[1..] == es;
  }

  lemma OneEvent(g: Group, e: Event, growing: bool)
    requires Inv(g) && Live(g, e, growing) && Inv(Step(g, e))
    ensures LiveRun(g, [e], growing) && After(g, [e], growing) == Step(g, e)
  {
    assert LiveRun(Step(g, e), [], growing) && After(Step(g, e), [], growing) == Step(g, e);
    RunPrepends(g, e, [], growing);
    assert [e] + [] == [e];
  }

  lemma {:induction false} CloseActive(g: Group, d: nat) returns (es: seq<Event>)
    requires Inv(g) && FinishedAreSilent(g) && d in g.members && Active(g.members[d])
    ensures LiveRun(g, es, true) && After(g, es, true).closes > g.closes
    decreases Flags(g)
  {
    var e := OneOnward(g, d);
    var g1 := Step(g, e);
    if g1.closes > g.closes {
      OneEvent(g, e, true);
      return [e];
    }
    var rest;
    if d' :| d' in g1.members && Active(g1.members[d']) {
      rest := CloseActive(g1, d');
    } else {
      rest := CloseSilent(g1, d);
    }
    RunPrepends(g, e, rest, true);
    es := [e] + rest;
  }

  /** When nobody is of use any more, one more clone that is finished at once closes the group. */
  lemma CloseSilent(g: Group, source: nat) returns (es: seq<Event>)
    requires Inv(g) && source in g.members && forall c | c in g.members :: !Active(g.members[c])
    ensures LiveRun(g, es, true) && After(g, es, true).closes > g.closes
  {
    var g1 := Step(g, Cloned(source));
    StepKeeps(g, Cloned(source));
    forall c | c in g1.members && Finished(g1.calls, c) ensures !Active(g1.members[c]) {
      FinishedMore(g.calls, Ready(g.next), c);
    }
    var id := UnusedPeerStream(g1);
    FirstFinOnward(g1, id, g.next);
    var e := PeerFin(id, g.next, true);
    OneEvent(g1, e, true);
    RunPrepends(g, Cloned(source), [e], true);
    es := [Cloned(source)] + [e];
  }

  /** With new streams and clones, the QUIC connection can still be closed exactly if no member that was
      reported as ended can send or receive. */
  lemma ClosableIff(g: Group)
    requires Inv(g) && g.members != map[]
    ensures CanClose(g, true) <==> FinishedAreSilent(g)
  {
    if !FinishedAreSilent(g) {
      var d :| d in g.members && Finished(g.calls, d) && Active(g.members[d]);
      forall es | LiveRun(g, es, true) ensures After(g, es, true).closes == g.closes { HeldOpen(g, es, true, d); }
    } else if d :| d in g.members && Active(g.members[d]) {
      var es := CloseActive(g, d);
    } else {
      var d :| d in g.members;
      var es := CloseSilent(g, d);
    }
  }

  // ---------------------------------------------------------------- with the streams there are

  /** The connection waits for a FIN that cannot come: it sends no more and has no stream. */
  predicate WaitsInVain(m: Member) { m.canReceive && !m.canSend && m.stream.NoStream? }

  predicate NoneWaitInVain(g: Group) { forall c | c in g.members :: !WaitsInVain(g.members[c]) }

  predicate SomeUnfinished(g: Group) { exists c | c in g.members :: !Finished(g.calls, c) }

  lemma VainStays(g: Group, e: Event, d: nat)
    requires Inv(g) && Live(g, e, false) && d in g.members && WaitsInVain(g.members[d])
    ensures var g' := Step(g, e); g'.closes == g.closes && d in g'.members && g'.members[d] == g.members[d]
  {
    if Concerns(g, e, d) {
      ClosesIff(g, e);
      assert e.Sent? || e.LocalClose?;
    } else {
      HoldsOpen(g, e, d);
    }
  }

  lemma {:induction false} VainHolds(g: Group, es: seq<Event>, d: nat)
    requires Inv(g) && LiveRun(g, es, false) && d in g.members && WaitsInVain(g.members[d])
    ensures After(g, es, false).closes == g.closes
    decreases |es|
  {
    if es != [] {
      StepKeeps(g, es[0]);
      VainStays(g, es[0], d);
      VainHolds(Step(g, es[0]), es[1..], d);
    }
  }

  lemma DoneStays(g: Group, e: Event)
    requires Inv(g) && Live(g, e, false) && !SomeUnfinished(g)
    ensures var g' := Step(g, e); g'.closes == g.closes && !SomeUnfinished(g') && g'.members == g.members
  {
    ClosesIff(g, e);
    forall c | c in g.members ensures Finished(g.calls, c) && !Concerns(g, e, c) && Finished(Step(g, e).calls, c) {
      StaysFinished(g, e, c);
    }
  }

  lemma {:induction false} DoneHolds(g: Group, es: seq<Event>)
    requires Inv(g) && LiveRun(g, es, false) && !SomeUnfinished(g)
    ensures After(g, es, false).closes == g.closes
    decreases |es|
  {
    if es != [] {
      StepKeeps(g, es[0]);
      DoneStays(g, es[0]);
      DoneHolds(Step(g, es[0]), es[1..]);
    }
  }

  /** There is always a stream of our own that is not in use yet, for both directions. */
  lemma UnusedLocalStream(g: Group) returns (id: nat)
    ensures id !in g.routes && !OpenedByPeer(g.isClient, id) && !Unidirectional(id)
  {
    var n := Above(g.routes.Keys);
    StreamKinds(n);
    if g.isClient { id := 4 * n; } else { id := 4 * n + 1; }
  }

  /** Everything is as it has to be for a close, and `d` keeps it open. */
  ghost predicate Closeable(g: Group, d: nat) {
    Inv(g) && FinishedAreSilent(g) && NoneWaitInVain(g) && d in g.members && Active(g.members[d])
  }

  /** A connection without a stream sends something first. */
  lemma SendFirst(g: Group, d: nat, id: nat)
    requires Closeable(g, d) && g.members[d] == Member(NoStream, true, true)
    requires id !in g.routes && !OpenedByPeer(g.isClient, id) && !Unidirectional(id)
    ensures var e := Sent(d, id, false, true);
      && Live(g, e, false) && Closeable(Step(g, e), d) && Step(g, e).closes == g.closes
      && Step(g, e).members[d].stream.On? && Flags(Step(g, e)) == Flags(g)
  {
    var e := Sent(d, id, false, true);
    var g' := Step(g, e);
    StepKeeps(g, e);
    assert g'.members == g.members[d := Member(On(id), true, true)];
    assert Senders(g') == Senders(g) && Receivers(g') == Receivers(g);
  }

  /** The next event towards a close that needs nothing new. */
  function NextAsIs(g: Group, d: nat): (e: Event)
    requires d in g.members && (g.members[d].canSend || g.members[d].stream.On?)
  {
    if g.members[d].canSend then LocalClose(d) else PeerFin(g.members[d].stream.id, d, true)
  }

  lemma NextOnward(g: Group, d: nat)
    requires Closeable(g, d) && g.members[d] != Member(NoStream, true, true)
    ensures g.members[d].canSend || g.members[d].stream.On?
    ensures var e := NextAsIs(g, d);
      && Live(g, e, false) && Onward(g, Step(g, e)) && NoneWaitInVain(Step(g, e))
      && (Step(g, e).closes == g.closes ==> !StreamSilence.Silent(Step(g, e)))
  {
    assert !WaitsInVain(g.members[d]);
    assert d in ActiveSet(g);
    if g.members[d].canSend {
      CloseOnward(g, d);
      CloseLeaves(g, d);
    } else {
      FinOnward(g, g.members[d].stream.id, d);
      FinLeaves(g, g.members[d].stream.id, d);
    }
    StreamSilence.FallsSilentIff(g, NextAsIs(g, d));
  }

  lemma CloseLeaves(g: Group, d: nat)
    requires Inv(g) && d in g.members && NoneWaitInVain(g) && (g.members[d].stream.On? || !g.members[d].canReceive)
    ensures NoneWaitInVain(Step(g, LocalClose(d)))
  {
    assert Step(g, LocalClose(d)).members == g.members[d := g.members[d].(canSend := false)];
  }

  lemma FinLeaves(g: Group, id: nat, d: nat)
    requires Inv(g) && d in g.members && NoneWaitInVain(g) && id in g.routes && g.routes[id] == d
    ensures NoneWaitInVain(Step(g, PeerFin(id, d, true)))
  {
    assert Step(g, PeerFin(id, d, true)).members == g.members[d := g.members[d].(canReceive := false)];
  }

  lemma {:induction false} CloseAsIs(g: Group, d: nat) returns (es: seq<Event>)
    requires Closeable(g, d)
    ensures LiveRun(g, es, false) && After(g, es, false).closes > g.closes
    decreases Flags(g), if g.members[d].stream.NoStream? then 1 else 0
  {
    if g.members[d] == Member(NoStream, true, true) {
      var id := UnusedLocalStream(g);
      SendFirst(g, d, id);
      var rest := CloseAsIs(Step(g, Sent(d, id, false, true)), d);
      RunPrepends(g, Sent(d, id, false, true), rest, false);
      return [Sent(d, id, false, true)] + rest;
    }
    NextOnward(g, d);
    var e := NextAsIs(g, d);
    if Step(g, e).closes > g.closes {
      OneEvent(g, e, false);
      return [e];
    }
    var d' :| d' in ActiveSet(Step(g, e));
    var rest := CloseAsIs(Step(g, e), d');
    RunPrepends(g, e, rest, false);
    es := [e] + rest;
  }

  /** Nobody is of use: a local close of any connection that has not ended closes the QUIC connection. */
  lemma CloseIdle(g: Group, c: nat)
    requires Inv(g) && c in g.members && !Finished(g.calls, c) && forall d | d in g.members :: !Active(g.members[d])
    ensures LiveRun(g, [LocalClose(c)], false) && After(g, [LocalClose(c)], false).closes > g.closes
  {
    StepKeeps(g, LocalClose(c));
    ClosesIff(g, LocalClose(c));
    OneEvent(g, LocalClose(c), false);
  }

  /** Without new streams, clones or ready callbacks, the QUIC connection can still be closed exactly if no
      member that was reported as ended can send or receive, none that sends no more waits for the
      peer without a stream, and there is one that has not ended. */
  lemma ClosableAsIsIff(g: Group)
    requires Inv(g)
    ensures CanClose(g, false) <==> FinishedAreSilent(g) && NoneWaitInVain(g) && SomeUnfinished(g)
  {
    if !FinishedAreSilent(g) {
      var d :| d in g.members && Finished(g.calls, d) && Active(g.members[d]);
      forall es | LiveRun(g, es, false) ensures After(g, es, false).closes == g.closes { HeldOpen(g, es, false, d); }
    } else if !NoneWaitInVain(g) {
      var d :| d in g.members && WaitsInVain(g.members[d]);
      forall es | LiveRun(g, es, false) ensures After(g, es, false).closes == g.closes { VainHolds(g, es, d); }
    } else if !SomeUnfinished(g) {
      forall es | LiveRun(g, es, false) ensures After(g, es, false).closes == g.closes { DoneHolds(g, es); }
    } else if d :| d in g.members && Active(g.members[d]) {
      var es := CloseAsIs(g, d);
    } else {
      var c :| c in g.members && !Finished(g.calls, c);
      CloseIdle(g, c);
    }
  }

  // ---------------------------------------------------------------- two runs

  /** The peer resets the only stream: its connection is told of the error, but the QUIC connection
      stays open for good. */
  lemma ResetHoldsOpen()
    ensures var es := ONE_SENT + [StreamReset(0)];
      && ValidRun(true, es) && Run(true, es).calls == [Ready(0), Aborted(0)]
      && !CanClose(Run(true, es), true)
  {
    OneSent();
    RunExtends(true, ONE_SENT, StreamReset(0));
    var g := Run(true, ONE_SENT + [StreamReset(0)]);
    FinishedMore([Ready(0)], Aborted(0), 0);
    assert Finished(g.calls, 0) && Active(g.members[0]);
    ClosableIff(g);
  }

  /** The application closes a connection on which nothing was sent: no FIN goes out and nothing is
      closed, and without something new nothing ever is. */
  lemma ClosedBeforeSending(isClient: bool)
    ensures var es := [CameReady(0)] + [LocalClose(0)];
      && ValidRun(isClient, es)
      && var g := Run(isClient, es);
      && g.members == map[0 := Member(NoStream, false, true)] && g.fins == [] && g.closes == 0
      && CanClose(g, true) && !CanClose(g, false)
  {
    CameReadyFirst(isClient);
    RunExtends(isClient, [CameReady(0)], LocalClose(0));
    var g := Run(isClient, [CameReady(0)] + [LocalClose(0)]);
    ClosesIff(Idle(isClient), LocalClose(0));
    assert g.members == map[0 := Member(NoStream, false, true)];
    assert WaitsInVain(g.members[0]);
    FinishedMore([], Ready(0), 0);
    assert [] + [Ready(0)] == [Ready(0)];
    ClosableIff(g);
    ClosableAsIsIff(g);
  }
}
