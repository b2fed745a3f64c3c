/** What the dependents of a socket are told, in which order and why, told from the events alone: who
    joined, who was ready or asked to close, and how each ended. */
module SocketHistory {
  import opened SocketModel
  import opened Sequences

  // ---------------------------------------------------------------- reading the events

  /** The connection has been ready, or was asked to close. */
  predicate Spoken(es: seq<Event>, c: nat) { Ready(c) in es || CloseAsked(c) in es }

  /** What a connection is told when it ends: aborted before anything came of it, it could not be
      established; aborted later, it failed. */
  function KindFor(how: End, spoken: bool): (k: Kind) {
    match how
    case ByClose => SaidClosed
    case ByEstablishmentError => SaidEstablishmentError
    case ByAbort => if spoken then SaidConnectionError else SaidEstablishmentError
  }

  predicate Ends(e: Event) { e.Ended? || e.ListenerEnded? }

  /** Who ends, and what it is to be told. */
  function NoticeOf(es: seq<Event>, e: Event): (n: Notice)
    requires Ends(e)
  {
    if e.Ended? then Notice(Connection(e.c), KindFor(e.how, Spoken(es, e.c)))
    else Notice(TheListener, SaidListenerClosed)
  }

  /** Those that have joined and not ended. */
  function LiveIn(listener: Listener, es: seq<Event>): (s: set<Dependent>) {
    if es == [] then if listener.Listening? then {TheListener} else {}
    else
      var s, last := LiveIn(listener, es[..|es| - 1]), es[|es| - 1];
      if last.Added? then s + {Connection(last.c)}
      else if Ends(last) then s - {NoticeOf(es[..|es| - 1], last).who}
      else s
  }

  /** Everybody that has ended, with what it is to be told, in order. */
  function EndsIn(es: seq<Event>): (s: seq<Notice>) {
    if es == [] then []
    else EndsIn(es[..|es| - 1]) + if Ends(es[|es| - 1]) then [NoticeOf(es[..|es| - 1], es[|es| - 1])] else []
  }

  /** The socket is closed when the last one ends. */
  function SocketIn(listener: Listener, es: seq<Event>): (s: Socket) {
    if es == [] then Open
    else
      var before, last := es[..|es| - 1], es[|es| - 1];
      if last.SocketClosed? then Gone
      else if Ends(last) && |LiveIn(listener, before)| == 1 then BeingClosed
      else SocketIn(listener, before)
  }

  /** Everybody that has ended has been told, in that order, but for the one the socket is being closed
      for. */
  function ToldIn(listener: Listener, es: seq<Event>): (s: seq<Notice>) {
    ToldOf(EndsIn(es), SocketIn(listener, es))
  }

  function StateIn(es: seq<Event>, c: nat): (s: State) {
    if es == [] then Establishing
    else if es[|es| - 1] == Ready(c) then Established
    else if es[|es| - 1] == CloseAsked(c) then Closing
    else StateIn(es[..|es| - 1], c)
  }

  /** The connections that have joined and were not freed, the latest first. */
  function ListIn(es: seq<Event>): (s: seq<nat>) {
    if es == [] then []
    else
      match es[|es| - 1]
      case Added(c) => [c] + ListIn(es[..|es| - 1])
      case Freed(c) => Remove(ListIn(es[..|es| - 1]), c)
      case _ => ListIn(es[..|es| - 1])
  }

  // ---------------------------------------------------------------- the state follows

  /** What each open connection is in. */
  ghost predicate StatesTold(m: Manager, es: seq<Event>) {
    && (forall c | IsOpen(m, c) :: m.states[c] == StateIn(es, c))
    && (forall c | Spoken(es, c) :: c in m.states || Connection(c) in m.due)
  }

  /** Those in `ends` are due what they are to be told, and nobody else is. */
  ghost predicate Dues(m: Manager, ends: seq<Notice>) {
    && (forall i | 0 <= i < |ends| :: ends[i].who in m.due && m.due[ends[i].who] == ends[i].kind)
    && (forall d | d in m.due :: exists i :: 0 <= i < |ends| && ends[i].who == d)
  }

  function ToldOf(ends: seq<Notice>, s: Socket): (told: seq<Notice>) {
    if s.BeingClosed? && ends != [] then ends[..|ends| - 1] else ends
  }

  ghost predicate Shows(m: Manager, live: set<Dependent>, ends: seq<Notice>, list: seq<nat>) {
    && m.told == ToldOf(ends, m.socket) && m.connections == list
    && (if m.socket.BeingClosed? then ends != [] && OpenSet(m) == {ends[|ends| - 1].who} && live == {}
        else OpenSet(m) == live)
  }

  ghost predicate AsTold(m: Manager, listener: Listener, es: seq<Event>) {
    StatesTold(m, es) && Dues(m, EndsIn(es)) && ShowsIn(m, listener, es)
  }

  lemma {:induction false} EstablishingIff(es: seq<Event>, c: nat)
    ensures StateIn(es, c) == Establishing <==> !Spoken(es, c)
    ensures StateIn(es, c) != Closed
  {
    if es != [] {
      EstablishingIff(es[..|es| - 1], c);
      assert es == es[..|es| - 1] + [es[|es| - 1]];
    }
  }

  /** The kind by the state is the kind by the events. */
  lemma KindIs(m: Manager, es: seq<Event>, c: nat, how: End)
    requires StatesTold(m, es) && IsOpen(m, c)
    ensures KindOf(how, m.states[c]) == KindFor(how, Spoken(es, c))
  {
    EstablishingIff(es, c);
  }

  lemma Unfold(listener: Listener, es: seq<Event>, e: Event)
    ensures (es + [e])[..|es|] == es && (es + [e])[|es|] == e
    ensures EndsIn(es + [e]) == EndsIn(es) + if Ends(e) then [NoticeOf(es, e)] else []
    ensures LiveIn(listener, es + [e]) ==
      if e.Added? then LiveIn(listener, es) + {Connection(e.c)}
      else if Ends(e) then LiveIn(listener, es) - {NoticeOf(es, e).who} else LiveIn(listener, es)
    ensures SocketIn(listener, es + [e]) ==
      if e.SocketClosed? then Gone
      else if Ends(e) && |LiveIn(listener, es)| == 1 then BeingClosed else SocketIn(listener, es)
    ensures ListIn(es + [e]) ==
      if e.Added? then [e.c] + ListIn(es) else if e.Freed? then Remove(ListIn(es), e.c) else ListIn(es)
  {
    assert (es + [e])[..|es|] == es;
  }

  lemma UnfoldEnd(listener: Listener, es: seq<Event>, e: Event)
    requires Ends(e)
    ensures var n := NoticeOf(es, e);
      && EndsIn(es + [e]) == EndsIn(es) + [n] && LiveIn(listener, es + [e]) == LiveIn(listener, es) - {n.who}
      && ListIn(es + [e]) == ListIn(es)
      && SocketIn(listener, es + [e]) == if |LiveIn(listener, es)| == 1 then BeingClosed else SocketIn(listener, es)
  {
    Unfold(listener, es, e);
  }

  lemma UnfoldOther(listener: Listener, es: seq<Event>, e: Event)
    requires !Ends(e)
    ensures EndsIn(es + [e]) == EndsIn(es)
    ensures !e.Added? ==> LiveIn(listener, es + [e]) == LiveIn(listener, es)
    ensures e.Added? ==> LiveIn(listener, es + [e]) == LiveIn(listener, es) + {Connection(e.c)}
    ensures SocketIn(listener, es + [e]) == if e.SocketClosed? then Gone else SocketIn(listener, es)
  {
    Unfold(listener, es, e);
    assert EndsIn(es) + [] == EndsIn(es);
  }

  // ---------------------------------------------------------------- states

  lemma StatesStep(m: Manager, es: seq<Event>, e: Event)
    requires Inv(m) && StatesTold(m, es) && Enabled(m, e) && InTime(m, e)
    ensures StatesTold(Step(m, e), es + [e])
  {
    var m' := Step(m, e);
    assert (es + [e])[..|es|] == es;
    forall c | Spoken(es + [e], c) ensures c in m'.states || Connection(c) in m'.due {
      assert Spoken(es, c) || e == Ready(c) || e == CloseAsked(c);
      SpokenStays(m, e, c);
    }
    forall c | IsOpen(m', c) ensures m'.states[c] == StateIn(es + [e], c) { StateStep(m, es, e, c); }
  }

  lemma SpokenStays(m: Manager, e: Event, c: nat)
    requires Inv(m) && Enabled(m, e) && (c in m.states || Connection(c) in m.due)
    ensures c in Step(m, e).states || Connection(c) in Step(m, e).due
  {
    if e == Freed(c) {
      assert m.states[c] == Closed;
    } else if e.Freed? {
      assert Step(m, e).states == m.states - {e.c};
    } else {
      StatesGrow(m, e);
    }
  }

  lemma StatesGrow(m: Manager, e: Event)
    requires Enabled(m, e) && !e.Freed?
    ensures m.states.Keys <= Step(m, e).states.Keys && m.due.Keys <= Step(m, e).due.Keys
  {}

  lemma StateStep(m: Manager, es: seq<Event>, e: Event, c: nat)
    requires Inv(m) && StatesTold(m, es) && Enabled(m, e) && InTime(m, e) && IsOpen(Step(m, e), c)
    ensures Step(m, e).states[c] == StateIn(es + [e], c)
  {
    assert StateIn(es + [e], c) == if e == Ready(c) then Established else if e == CloseAsked(c) then Closing
                                   else StateIn(es, c) by { assert (es + [e])[..|es|] == es; }
    EstablishingIff(es, c);
    if e == Added(c) {
      assert !Spoken(es, c);
    } else {
      StateStays(m, e, c);
    }
  }

  /** Nothing but a callback about `c` changes its state while it stays open. */
  lemma StateStays(m: Manager, e: Event, c: nat)
    requires Inv(m) && Enabled(m, e) && InTime(m, e) && IsOpen(Step(m, e), c) && e != Added(c)
    ensures IsOpen(m, c)
    ensures Step(m, e).states[c] == if e == Ready(c) then Established else if e == CloseAsked(c) then Closing
                                    else m.states[c]
  {
    match e
    case Ended(x, how) => assert |OpenSet(m)| != 1 ==> Step(m, e).states == m.states[x := Closed];
    case Freed(x) => RemoveIs(m.connections, x);
    case _ =>
  }

  // ---------------------------------------------------------------- who has ended

  lemma DuesMore(m: Manager, m': Manager, ends: seq<Notice>, n: Notice)
    requires Dues(m, ends) && n.who !in m.due && m'.due == m.due[n.who := n.kind]
    ensures Dues(m', ends + [n])
  {
    forall d | d in m'.due ensures exists i :: 0 <= i < |ends + [n]| && (ends + [n])[i].who == d {
      if d == n.who {
        assert (ends + [n])[|ends|].who == d;
      } else {
        var i :| 0 <= i < |ends| && ends[i].who == d;
        assert (ends + [n])[i].who == d;
      }
    }
  }

  lemma EndedDue(m: Manager, es: seq<Event>, c: nat, how: End)
    requires Inv(m) && StatesTold(m, es) && Enabled(m, Ended(c, how))
    ensures var n := NoticeOf(es, Ended(c, how)); n.who !in m.due && OnEnded(m, c, how).due == m.due[n.who := n.kind]
  {
    assert Connection(c) in OpenSet(m);
    KindIs(m, es, c, how);
  }

  lemma QuietDue(m: Manager, e: Event)
    requires Enabled(m, e) && !Ends(e)
    ensures Step(m, e).due == m.due
  {}

  lemma DueStep(m: Manager, es: seq<Event>, e: Event)
    requires Inv(m) && StatesTold(m, es) && Dues(m, EndsIn(es)) && Enabled(m, e)
    ensures Dues(Step(m, e), EndsIn(es + [e]))
  {
    Unfold(NoListener, es, e);
    if e.Ended? {
      EndedDue(m, es, e.c, e.how);
      DuesMore(m, Step(m, e), EndsIn(es), NoticeOf(es, e));
    } else if e.ListenerEnded? {
      ListenerOpens(m);
      DuesMore(m, Step(m, e), EndsIn(es), NoticeOf(es, e));
    } else {
      QuietDue(m, e);
      DuesSame(m, Step(m, e), EndsIn(es));
      assert EndsIn(es + [e]) == EndsIn(es);
    }
  }

  lemma DuesSame(m: Manager, m': Manager, ends: seq<Notice>)
    requires Dues(m, ends) && m'.due == m.due
    ensures Dues(m', ends)
  {}

  // ---------------------------------------------------------------- who is told

  lemma MarkShows(m: Manager, e: Event, live: set<Dependent>, ends: seq<Notice>, list: seq<nat>)
    requires Inv(m) && Shows(m, live, ends, list) && Enabled(m, e) && InTime(m, e) && (e.Ready? || e.CloseAsked?)
    ensures Shows(Step(m, e), live, ends, list) && Step(m, e).socket == m.socket
  {
    var m' := Step(m, e);
    forall d ensures d in OpenSet(m') <==> d in OpenSet(m) {
      if d.Connection? { assert IsOpen(m', d.id) <==> IsOpen(m, d.id); }
    }
    assert OpenSet(m') == OpenSet(m);
  }

  lemma FreedShows(m: Manager, c: nat, live: set<Dependent>, ends: seq<Notice>, list: seq<nat>)
    requires Inv(m) && Shows(m, live, ends, list) && Enabled(m, Freed(c))
    ensures Shows(Step(m, Freed(c)), live, ends, Remove(list, c)) && Step(m, Freed(c)).socket == m.socket
  {
    FreedOpens(m, c);
  }

  lemma AddedShows(m: Manager, c: nat, live: set<Dependent>, ends: seq<Notice>, list: seq<nat>)
    requires Inv(m) && Shows(m, live, ends, list) && Enabled(m, Added(c))
    ensures Shows(Step(m, Added(c)), live + {Connection(c)}, ends, [c] + list) && Step(m, Added(c)).socket == m.socket
  {
    var m' := Step(m, Added(c));
    forall d ensures d in OpenSet(m') <==> d in OpenSet(m) || d == Connection(c) {
      if d.Connection? { assert IsOpen(m', d.id) <==> IsOpen(m, d.id) || d.id == c; }
    }
    assert OpenSet(m') == OpenSet(m) + {Connection(c)};
  }

  /** The last one ends: its notice waits for the socket. */
  lemma LastShows(m: Manager, m': Manager, live: set<Dependent>, ends: seq<Notice>, list: seq<nat>, n: Notice)
    requires Shows(m, live, ends, list) && m.socket.Open? && |live| == 1 && n.who in live
    requires m'.socket.BeingClosed? && m'.told == m.told && m'.connections == m.connections && OpenSet(m') == OpenSet(m)
    ensures Shows(m', live - {n.who}, ends + [n], list)
  {
    OneOpen(live, n.who);
    assert (ends + [n])[..|ends|] == ends;
  }

  /** Any other is told at once. */
  lemma OtherShows(m: Manager, m': Manager, live: set<Dependent>, ends: seq<Notice>, list: seq<nat>, n: Notice)
    requires Shows(m, live, ends, list) && m.socket.Open?
    requires m'.socket.Open? && m'.told == m.told + [n] && m'.connections == m.connections
    requires OpenSet(m') == OpenSet(m) - {n.who}
    ensures Shows(m', live - {n.who}, ends + [n], list)
  {}

  lemma EndedShows(m: Manager, es: seq<Event>, c: nat, how: End,
                   live: set<Dependent>, ends: seq<Notice>, list: seq<nat>)
    requires Inv(m) && StatesTold(m, es) && Shows(m, live, ends, list) && Enabled(m, Ended(c, how))
    ensures var n, m' := NoticeOf(es, Ended(c, how)), OnEnded(m, c, how);
      && Shows(m', live - {n.who}, ends + [n], list)
      && m'.socket == if |live| == 1 then BeingClosed else m.socket
  {
    var n, m' := NoticeOf(es, Ended(c, how)), OnEnded(m, c, how);
    KindIs(m, es, c, how);
    assert Connection(c) in OpenSet(m);
    if |OpenSet(m)| == 1 {
      assert OpenSet(m') == OpenSet(m);
      LastShows(m, m', live, ends, list, n);
    } else {
      EndOneOpen(m, c, KindOf(how, m.states[c]));
      OtherShows(m, m', live, ends, list, n);
    }
  }

  lemma ListenerEndedShows(m: Manager, live: set<Dependent>, ends: seq<Notice>, list: seq<nat>)
    requires Inv(m) && Shows(m, live, ends, list) && Enabled(m, ListenerEnded)
    ensures var n, m' := Notice(TheListener, SaidListenerClosed), OnListenerEnded(m);
      && Shows(m', live - {TheListener}, ends + [n], list)
      && m'.socket == if |live| == 1 then BeingClosed else m.socket
  {
    var n, m' := Notice(TheListener, SaidListenerClosed), OnListenerEnded(m);
    ListenerOpens(m);
    if |OpenSet(m)| == 1 { LastShows(m, m', live, ends, list, n); } else { OtherShows(m, m', live, ends, list, n); }
  }

  lemma ListenerIsOpen(m: Manager)
    requires Inv(m) && Enabled(m, ListenerEnded)
    ensures TheListener in OpenSet(m) && TheListener !in m.due && m.socket.Open? && m.reason == Graceful
  {}

  lemma SameOpens(m: Manager, m': Manager)
    requires m'.connections == m.connections && m'.states == m.states && m'.listener == m.listener
    ensures OpenSet(m') == OpenSet(m)
  {
    assert forall c :: IsOpen(m', c) <==> IsOpen(m, c);
  }

  lemma StoppedOpens(m: Manager, m': Manager)
    requires m'.connections == m.connections && m'.states == m.states && !m'.listener.Listening?
    ensures OpenSet(m') == OpenSet(m) - {TheListener}
  {
    assert forall c :: IsOpen(m', c) <==> IsOpen(m, c);
  }

  /** What the end of the listener leaves open, and what it is told. */
  lemma ListenerOpens(m: Manager)
    requires Inv(m) && Enabled(m, ListenerEnded)
    ensures var m' := OnListenerEnded(m);
      && TheListener in OpenSet(m) && TheListener !in m.due && m'.due == m.due[TheListener := SaidListenerClosed]
      && (if |OpenSet(m)| == 1 then OpenSet(m') == OpenSet(m) && m'.told == m.told && m'.socket.BeingClosed?
          else OpenSet(m') == OpenSet(m) - {TheListener} && m'.socket == m.socket
               && m'.told == m.told + [Notice(TheListener, SaidListenerClosed)])
  {
    var m' := OnListenerEnded(m);
    ListenerIsOpen(m);
    if |OpenSet(m)| == 1 {
      SameOpens(m, m');
    } else {
      StoppedOpens(m, m');
    }
  }

  lemma WaitsLast(m: Manager, d: Dependent)
    requires Inv(m) && m.socket.BeingClosed? && OpenSet(m) == {d}
    ensures LastOneWaits(m, d)
  {
    var x :| LastOneWaits(m, x);
    assert x in OpenSet(m);
  }

  lemma OneGone(s: set<Dependent>, d: Dependent)
    requires s == {d}
    ensures s - {d} == {}
  {}

  lemma LastBack(ends: seq<Notice>)
    requires ends != []
    ensures ends[..|ends| - 1] + [ends[|ends| - 1]] == ends
  {}

  lemma SocketClosedShows(m: Manager, live: set<Dependent>, ends: seq<Notice>, list: seq<nat>)
    requires Inv(m) && Dues(m, ends) && Shows(m, live, ends, list) && m.socket.BeingClosed?
    ensures Shows(OnSocketClosed(m), live, ends, list) && OnSocketClosed(m).socket.Gone?
  {
    var last := ends[|ends| - 1];
    WaitsLast(m, last.who);
    assert m.due[last.who] == last.kind;
    LastToldOpens(m, last.who);
    SocketClosedLeaves(m);
    GoneShows(m, OnSocketClosed(m), live, ends, list);
  }

  lemma SocketClosedLeaves(m: Manager)
    ensures OnSocketClosed(m).connections == m.connections && OnSocketClosed(m).socket.Gone?
  {}

  lemma GoneShows(m: Manager, m': Manager, live: set<Dependent>, ends: seq<Notice>, list: seq<nat>)
    requires Shows(m, live, ends, list) && m.socket.BeingClosed? && m'.socket.Gone? && m'.connections == m.connections
    requires m'.told == m.told + [ends[|ends| - 1]] && OpenSet(m') == OpenSet(m) - {ends[|ends| - 1].who}
    ensures Shows(m', live, ends, list)
  {
    OneGone(OpenSet(m), ends[|ends| - 1].who);
    LastBack(ends);
  }

  ghost predicate ShowsIn(m: Manager, listener: Listener, es: seq<Event>) {
    m.socket == SocketIn(listener, es) && Shows(m, LiveIn(listener, es), EndsIn(es), ListIn(es))
  }

  lemma EndShows(m: Manager, listener: Listener, es: seq<Event>, e: Event)
    requires Inv(m) && StatesTold(m, es) && ShowsIn(m, listener, es) && Enabled(m, e) && Ends(e)
    ensures ShowsIn(Step(m, e), listener, es + [e])
  {
    var live, ends, list := LiveIn(listener, es), EndsIn(es), ListIn(es);
    UnfoldEnd(listener, es, e);
    if e.Ended? { EndedShows(m, es, e.c, e.how, live, ends, list); } else { ListenerEndedShows(m, live, ends, list); }
  }

  lemma QuietShows(m: Manager, listener: Listener, es: seq<Event>, e: Event)
    requires Inv(m) && Dues(m, EndsIn(es)) && ShowsIn(m, listener, es) && Enabled(m, e) && InTime(m, e) && !Ends(e)
    ensures ShowsIn(Step(m, e), listener, es + [e])
  {
    var live, ends, list := LiveIn(listener, es), EndsIn(es), ListIn(es);
    Unfold(listener, es, e);
    UnfoldOther(listener, es, e);
    match e
    case Added(c) => AddedShows(m, c, live, ends, list);
    case Ready(_) => MarkShows(m, e, live, ends, list);
    case CloseAsked(_) => MarkShows(m, e, live, ends, list);
    case SocketClosed => SocketClosedShows(m, live, ends, list);
    case Freed(c) => FreedShows(m, c, live, ends, list);
  }

  lemma StepTold(m: Manager, m': Manager, listener: Listener, es: seq<Event>, es': seq<Event>, e: Event)
    requires Inv(m) && AsTold(m, listener, es) && Enabled(m, e) && InTime(m, e)
    requires m' == Step(m, e) && es' == es + [e]
    ensures AsTold(m', listener, es')
  {
    StatesStep(m, es, e);
    DueStep(m, es, e);
    if Ends(e) { EndShows(m, listener, es, e); } else { QuietShows(m, listener, es, e); }
  }

  // ---------------------------------------------------------------- every run

  lemma FreshTold(listener: Listener)
    ensures AsTold(Fresh(listener), listener, [])
  {
    assert OpenSet(Fresh(listener)) == LiveIn(listener, []);
  }

  lemma LastIs(m0: Manager, es: seq<Event>)
    requires ValidRun(m0, es) && AllInTime(m0, es) && es != []
    ensures es == es[..|es| - 1] + [es[|es| - 1]] && ValidRun(m0, es[..|es| - 1]) && AllInTime(m0, es[..|es| - 1])
    ensures var m, e := Run(m0, es[..|es| - 1]), es[|es| - 1];
      Enabled(m, e) && InTime(m, e) && Run(m0, es) == Step(m, e)
  {}

  lemma {:induction false} RunToldFrom(m0: Manager, listener: Listener, es: seq<Event>)
    requires Inv(m0) && AsTold(m0, listener, []) && ValidRun(m0, es) && AllInTime(m0, es)
    ensures AsTold(Run(m0, es), listener, es)
  {
    if es != [] {
      var before := es[..|es| - 1];
      LastIs(m0, es);
      RunToldFrom(m0, listener, before);
      RunKeepsIff(m0, before);
      StepTold(Run(m0, before), Run(m0, es), listener, before, es, es[|es| - 1]);
    }
  }

  /** Over every run in time, the socket is open, being closed or gone, dependents have been told, and
      connections are listed and in the states, exactly as the events say. */
  lemma RunAsTold(listener: Listener, es: seq<Event>)
    requires ValidRun(Fresh(listener), es) && AllInTime(Fresh(listener), es)
    ensures AsTold(Run(Fresh(listener), es), listener, es)
  {
    FreshInv(listener);
    FreshTold(listener);
    RunToldFrom(Fresh(listener), listener, es);
  }

  /** Notice `n` is what the end at position `k` means. */
  predicate EndOf(es: seq<Event>, k: int, n: Notice) {
    0 <= k < |es| && Ends(es[k]) && NoticeOf(es[..k], es[k]) == n
  }

  lemma EndOfPrefix(es: seq<Event>, k: int, n: Notice)
    requires es != [] && k < |es| - 1
    ensures EndOf(es, k, n) <==> EndOf(es[..|es| - 1], k, n)
  {
    if 0 <= k { assert es[..|es| - 1][..k] == es[..k]; }
  }

  lemma {:induction false} EndsInIff(es: seq<Event>, n: Notice)
    ensures n in EndsIn(es) <==> exists k :: EndOf(es, k, n)
  {
    if es != [] {
      var last := |es| - 1;
      EndsInIff(es[..last], n);
      if n in EndsIn(es[..last]) {
        var k :| EndOf(es[..last], k, n);
        EndOfPrefix(es, k, n);
      } else if n in EndsIn(es) {
        assert EndOf(es, last, n);
      } else if k :| EndOf(es, k, n) {
        if k < last { EndOfPrefix(es, k, n); }
      }
    }
  }

  lemma ToldOrWaiting(m: Manager, live: set<Dependent>, ends: seq<Notice>, list: seq<nat>, n: Notice)
    requires Shows(m, live, ends, list)
    ensures n in ends ==> n in m.told || (m.socket.BeingClosed? && OpenSet(m) == {n.who})
    ensures n in m.told ==> n in ends
  {
    if ends != [] { assert ends == ends[..|ends| - 1] + [ends[|ends| - 1]]; }
  }

  /** Over every run in time, whoever was told something ended, and was told what its end means: closed
      if it was closed, an establishment error if it could not be established or was aborted before it
      was ready or asked to close, a connection error if it was aborted later.  This is so whether it
      was told at once or after the socket had closed; and all that have ended have been told, in that
      order, but for the one the socket is being closed for. */
  lemma ToldWhatHappened(listener: Listener, es: seq<Event>)
    requires ValidRun(Fresh(listener), es) && AllInTime(Fresh(listener), es)
    ensures var m := Run(Fresh(listener), es);
      && m.told == ToldIn(listener, es) && m.socket == SocketIn(listener, es)
      && (forall n | n in m.told :: exists k :: EndOf(es, k, n))
      && (forall k, n | EndOf(es, k, n) :: n in m.told || (m.socket.BeingClosed? && OpenSet(m) == {n.who}))
  {
    var m := Run(Fresh(listener), es);
    RunAsTold(listener, es);
    forall n ensures n in m.told ==> exists k :: EndOf(es, k, n) {
      ToldOrWaiting(m, LiveIn(listener, es), EndsIn(es), ListIn(es), n);
      EndsInIff(es, n);
    }
    forall k, n | EndOf(es, k, n) ensures n in m.told || (m.socket.BeingClosed? && OpenSet(m) == {n.who}) {
      ToldOrWaiting(m, LiveIn(listener, es), EndsIn(es), ListIn(es), n);
      EndsInIff(es, n);
    }
  }
}
