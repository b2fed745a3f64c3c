/** Connections and at most one listener share a socket.  The last of them to end is told only
    after the socket has closed; all others are told at once.  This module states what that means
    for every dependent, over every run of callbacks. */
module SocketModel {
  import opened Sequences

  datatype State = Establishing | Established | Closing | Closed
  datatype Listener = NoListener | Listening | StoppedListening
  datatype Socket = Open | BeingClosed | Gone
  datatype Reason = Graceful | EstablishmentFailure | ConnectionFailure

  datatype Dependent = Connection(id: nat) | TheListener

  /** The callback a dependent gets at its end. */
  datatype Kind = SaidClosed | SaidConnectionError | SaidEstablishmentError | SaidListenerClosed
  datatype Notice = Notice(who: Dependent, kind: Kind)

  /** The terminal callbacks of a protocol. */
  datatype End = ByClose | ByAbort | ByEstablishmentError

  datatype Manager = Manager(
    connections: seq<nat>,
    states: map<nat, State>,
    listener: Listener,
    reason: Reason,
    socket: Socket,
    closeCalls: nat,              // calls of the protocol's close_socket
    told: seq<Notice>,
    due: map<Dependent, Kind>)    // the dependents that ended, and what each is owed

  datatype Event =
    | Added(c: nat)
    | Ready(c: nat)
    | CloseAsked(c: nat)
    | Ended(c: nat, how: End)
    | ListenerEnded
    | SocketClosed
    | Freed(c: nat)

  function Fresh(listener: Listener): (m: Manager) {
    Manager([], map[], listener, Graceful, Open, 0, [], map[])
  }

  predicate IsOpen(m: Manager, c: nat) { c in m.connections && c in m.states && m.states[c] != Closed }

  function OpenSet(m: Manager): (s: set<Dependent>) {
    (set c | c in m.connections && IsOpen(m, c) :: Connection(c))
    + (if m.listener.Listening? then {TheListener} else {})
  }

  /** What a connection is owed, given how and in which state it ends - and nothing else. */
  function KindOf(how: End, s: State): (k: Kind) {
    match how
    case ByClose => SaidClosed
    case ByEstablishmentError => SaidEstablishmentError
    case ByAbort => if s.Establishing? then SaidEstablishmentError else SaidConnectionError
  }

  function ReasonOf(how: End, s: State): (r: Reason) {
    match how
    case ByClose => Graceful
    case ByEstablishmentError => EstablishmentFailure
    case ByAbort => if s.Establishing? then EstablishmentFailure else ConnectionFailure
  }

  function KindBy(r: Reason): (k: Kind) {
    match r
    case Graceful => SaidClosed
    case ConnectionFailure => SaidConnectionError
    case EstablishmentFailure => SaidEstablishmentError
  }

  function ListenerKindBy(r: Reason): (k: Kind) {
    if r.EstablishmentFailure? then SaidEstablishmentError else SaidListenerClosed
  }

  /** The first connection in the list that is not closed. */
  function FirstOpen(cs: seq<nat>, states: map<nat, State>): (i: nat)
    ensures i <= |cs|
    ensures forall k | 0 <= k < i :: cs[k] !in states || states[cs[k]] == Closed
    ensures i < |cs| ==> cs[i] in states && states[cs[i]] != Closed
  {
    if cs == [] || (cs[0] in states && states[cs[0]] != Closed) then 0 else 1 + FirstOpen(cs[1..], states)
  }

  // ---------------------------------------------------------------- steps

  function CloseSocket(m: Manager, r: Reason): (m': Manager) {
    m.(reason := r, socket := BeingClosed, closeCalls := m.closeCalls + 1)
  }

  function TellConnection(m: Manager, c: nat, k: Kind): (m': Manager) {
    m.(states := m.states[c := Closed], told := m.told + [Notice(Connection(c), k)])
  }

  function TellListener(m: Manager): (m': Manager) {
    m.(listener := if m.listener.NoListener? then NoListener else StoppedListening,
       told := if m.listener.NoListener? then m.told else m.told + [Notice(TheListener, ListenerKindBy(m.reason))])
  }

  function OnEnded(m: Manager, c: nat, how: End): (m': Manager)
    requires c in m.states
  {
    var m1 := m.(due := m.due[Connection(c) := KindOf(how, m.states[c])]);
    if |OpenSet(m)| == 1 then CloseSocket(m1, ReasonOf(how, m.states[c]))
    else TellConnection(m1, c, KindOf(how, m.states[c]))
  }

  function OnListenerEnded(m: Manager): (m': Manager) {
    var m1 := m.(due := m.due[TheListener := SaidListenerClosed]);
    if |OpenSet(m)| == 1 then CloseSocket(m1, Graceful) else TellListener(m1)
  }

  function OnSocketClosed(m: Manager): (m': Manager) {
    var i := FirstOpen(m.connections, m.states);
    var m1 := m.(socket := Gone);
    if i < |m.connections| then TellConnection(m1, m.connections[i], KindBy(m.reason)) else TellListener(m1)
  }

  function MarkReady(m: Manager, c: nat): (m': Manager) { m.(states := m.states[c := Established]) }

  /** The contract of the environment: a dependent ends while it and the socket are open, nothing
      joins a socket that is being closed, the socket reports once, and a connection is freed after
      it was told.  Ready may come at any time. */
  predicate Enabled(m: Manager, e: Event) {
    match e
    case Added(c) => m.socket.Open? && c !in m.connections && Connection(c) !in m.due
    case Ready(c) => c in m.states
    case CloseAsked(c) => c in m.connections && c in m.states
    case Ended(c, _) => m.socket.Open? && IsOpen(m, c)
    case ListenerEnded => m.socket.Open? && m.listener.Listening?
    case SocketClosed => m.socket.BeingClosed?
    case Freed(c) => c in m.connections && !IsOpen(m, c)
  }

  function Step(m: Manager, e: Event): (m': Manager)
    requires Enabled(m, e)
  {
    match e
    case Added(c) => m.(connections := [c] + m.connections, states := m.states[c := Establishing])
    case Ready(c) => MarkReady(m, c)
    case CloseAsked(c) =>
      if m.states[c].Closed? || m.states[c].Closing? then m else m.(states := m.states[c := Closing])
    case Ended(c, how) => OnEnded(m, c, how)
    case ListenerEnded => OnListenerEnded(m)
    case SocketClosed => OnSocketClosed(m)
    case Freed(c) => m.(connections := Remove(m.connections, c), states := m.states - {c})
  }

  predicate ValidRun(m: Manager, es: seq<Event>)
    decreases |es|, 0
  {
    es == [] || (ValidRun(m, es[..|es| - 1]) && Enabled(Run(m, es[..|es| - 1]), es[|es| - 1]))
  }

  function Run(m: Manager, es: seq<Event>): (m': Manager)
    requires ValidRun(m, es)
    decreases |es|, 1
  {
    if es == [] then m else Step(Run(m, es[..|es| - 1]), es[|es| - 1])
  }

  // ---------------------------------------------------------------- invariant

  ghost predicate Listed(m: Manager) {
    && Distinct(m.connections)
    && (forall c :: c in m.connections <==> c in m.states)
  }

  /** Told once, and told what was due. */
  predicate ToldRight(m: Manager) {
    && (forall i | 0 <= i < |m.told| :: m.told[i].who in m.due && m.told[i].kind == m.due[m.told[i].who])
    && (forall i, j | 0 <= i < j < |m.told| :: m.told[i].who != m.told[j].who)
  }

  predicate IsTold(m: Manager, d: Dependent) { exists i :: 0 <= i < |m.told| && m.told[i].who == d }

  /** Who ended and is no longer open has been told, and the other way round. */
  ghost predicate Settled(m: Manager) {
    forall d :: d in m.due && d !in OpenSet(m) <==> IsTold(m, d)
  }

  /** While the socket is being closed there is one open dependent: the one that ended last. */
  predicate LastOneWaits(m: Manager, d: Dependent) {
    && OpenSet(m) == {d} && d in m.due
    && m.due[d] == (if d.TheListener? then ListenerKindBy(m.reason) else KindBy(m.reason))
  }

  /** Only what has ended is closed. */
  predicate ClosedEnded(m: Manager) { forall c | c in m.states && m.states[c] == Closed :: Connection(c) in m.due }

  ghost predicate Inv(m: Manager) {
    && Listed(m) && ToldRight(m) && Settled(m) && ClosedEnded(m)
    && match m.socket
       case Open => m.reason == Graceful && m.closeCalls == 0 && forall d | d in OpenSet(m) :: d !in m.due
       case BeingClosed => m.closeCalls == 1 && exists d :: LastOneWaits(m, d)
       case Gone => m.closeCalls == 1 && OpenSet(m) == {}
  }

  // ---------------------------------------------------------------- each event keeps it

  lemma OneOpen(s: set<Dependent>, d: Dependent)
    requires |s| == 1 && d in s
    ensures s == {d}
  {
    var rest := s - {d};
    assert |rest| == 0;
  }

  /** Telling one open dependent what it is due. */
  lemma TellKeeps(m: Manager, m': Manager, d: Dependent, k: Kind)
    requires ToldRight(m) && Settled(m) && d in OpenSet(m)
    requires m'.due == m.due[d := k] && m'.told == m.told + [Notice(d, k)]
    requires OpenSet(m') == OpenSet(m) - {d}
    ensures ToldRight(m') && Settled(m')
  {
    assert !IsTold(m, d);
    forall i | 0 <= i < |m.told| ensures m.told[i].who != d { assert m.told[i].who == d ==> IsTold(m, d); }
    forall e ensures IsTold(m', e) <==> IsTold(m, e) || e == d {
      if IsTold(m, e) { var i :| 0 <= i < |m.told| && m.told[i].who == e; assert m'.told[i].who == e; }
      if e == d { assert m'.told[|m.told|].who == d; }
    }
  }

  lemma TellConnectionOpens(m: Manager, c: nat, k: Kind)
    requires Listed(m) && IsOpen(m, c)
    ensures OpenSet(TellConnection(m, c, k)) == OpenSet(m) - {Connection(c)}
    ensures Listed(TellConnection(m, c, k))
  {
    var m' := TellConnection(m, c, k);
    forall d ensures d in OpenSet(m') <==> d in OpenSet(m) && d != Connection(c) {
      if d.Connection? { assert IsOpen(m', d.id) <==> IsOpen(m, d.id) && d.id != c; }
    }
  }

  /** The last dependent ends: nobody is told, the socket is closed. */
  lemma DeferKeeps(m: Manager, d: Dependent, k: Kind, r: Reason)
    requires Inv(m) && m.socket.Open? && d in OpenSet(m) && |OpenSet(m)| == 1
    requires k == if d.TheListener? then ListenerKindBy(r) else KindBy(r)
    ensures Inv(CloseSocket(m.(due := m.due[d := k]), r))
  {
    var m' := CloseSocket(m.(due := m.due[d := k]), r);
    OneOpen(OpenSet(m), d);
    assert OpenSet(m') == OpenSet(m);
    assert LastOneWaits(m', d);
    OwedKeeps(m, m', d, k);
  }

  /** An open dependent becomes due. */
  lemma OwedKeeps(m: Manager, m': Manager, d: Dependent, k: Kind)
    requires ToldRight(m) && Settled(m) && d in OpenSet(m) && OpenSet(m') == OpenSet(m)
    requires m'.due == m.due[d := k] && m'.told == m.told
    ensures ToldRight(m') && Settled(m')
  {
    assert !IsTold(m, d);
    assert forall e :: IsTold(m', e) <==> IsTold(m, e);
  }

  /** Any other dependent ends: it is told at once. */
  lemma TellAtOnceKeeps(m: Manager, m': Manager, d: Dependent, k: Kind)
    requires Inv(m) && m.socket.Open? && d in OpenSet(m) && Listed(m') && ClosedEnded(m')
    requires m'.due == m.due[d := k] && m'.told == m.told + [Notice(d, k)]
    requires OpenSet(m') == OpenSet(m) - {d}
    requires m'.socket == m.socket && m'.reason == m.reason && m'.closeCalls == m.closeCalls
    ensures Inv(m')
  {
    TellKeeps(m, m', d, k);
  }

  /** A connection ends while others keep the socket open. */
  function EndOne(m: Manager, c: nat, k: Kind): (m': Manager) {
    TellConnection(m.(due := m.due[Connection(c) := k]), c, k)
  }

  lemma EndOneOpen(m: Manager, c: nat, k: Kind)
    requires Listed(m) && IsOpen(m, c)
    ensures Listed(EndOne(m, c, k)) && OpenSet(EndOne(m, c, k)) == OpenSet(m) - {Connection(c)}
    ensures |OpenSet(EndOne(m, c, k))| == |OpenSet(m)| - 1
  {
    var m1 := m.(due := m.due[Connection(c) := k]);
    assert OpenSet(m1) == OpenSet(m) by {
      forall d ensures d in OpenSet(m1) <==> d in OpenSet(m) {
        if d.Connection? { assert IsOpen(m1, d.id) <==> IsOpen(m, d.id); }
      }
    }
    assert Listed(m1) && IsOpen(m1, c);
    TellConnectionOpens(m1, c, k);
    OneFewer(OpenSet(m), Connection(c));
  }

  lemma OneFewer(s: set<Dependent>, d: Dependent)
    requires d in s
    ensures |s - {d}| == |s| - 1
  {}

  lemma EndOneClosed(m: Manager, c: nat, k: Kind)
    requires ClosedEnded(m)
    ensures ClosedEnded(EndOne(m, c, k))
  {}

  lemma EndOneKeeps(m: Manager, c: nat, k: Kind)
    requires Inv(m) && m.socket.Open? && IsOpen(m, c)
    ensures Inv(EndOne(m, c, k))
  {
    assert Connection(c) in OpenSet(m);
    EndOneOpen(m, c, k);
    EndOneClosed(m, c, k);
    TellAtOnceKeeps(m, EndOne(m, c, k), Connection(c), k);
  }

  lemma EndedKeeps(m: Manager, c: nat, how: End)
    requires Inv(m) && Enabled(m, Ended(c, how))
    ensures Inv(OnEnded(m, c, how))
  {
    var d, k := Connection(c), KindOf(how, m.states[c]);
    assert d in OpenSet(m);
    if |OpenSet(m)| == 1 { DeferKeeps(m, d, k, ReasonOf(how, m.states[c])); } else { EndOneKeeps(m, c, k); }
  }

  lemma ListenerEndedKeeps(m: Manager)
    requires Inv(m) && Enabled(m, ListenerEnded)
    ensures Inv(OnListenerEnded(m))
  {
    var d, k := TheListener, SaidListenerClosed;
    assert d in OpenSet(m);
    if |OpenSet(m)| == 1 {
      DeferKeeps(m, d, k, Graceful);
    } else {
      var m' := TellListener(m.(due := m.due[d := k]));
      assert OpenSet(m') == OpenSet(m) - {d};
      TellAtOnceKeeps(m, m', d, k);
    }
  }

  /** The search after the socket has closed finds exactly the dependent that is waiting. */
  lemma SearchFindsTheLast(m: Manager, d: Dependent)
    requires Listed(m) && LastOneWaits(m, d)
    ensures var i := FirstOpen(m.connections, m.states);
      if d.Connection? then i < |m.connections| && m.connections[i] == d.id else i == |m.connections|
  {
    var i := FirstOpen(m.connections, m.states);
    if d.Connection? { assert d in OpenSet(m) && IsOpen(m, d.id); }
    if i < |m.connections| {
      assert IsOpen(m, m.connections[i]);
      assert Connection(m.connections[i]) in OpenSet(m);
    }
  }

  lemma LastToldOpens(m: Manager, d: Dependent)
    requires Inv(m) && m.socket.BeingClosed? && LastOneWaits(m, d)
    ensures var m' := OnSocketClosed(m);
      && OpenSet(m') == OpenSet(m) - {d} && Listed(m') && ClosedEnded(m')
      && m'.told == m.told + [Notice(d, m.due[d])]
  {
    var m1 := m.(socket := Gone);
    SearchFindsTheLast(m, d);
    assert OpenSet(m1) == OpenSet(m);
    if d.Connection? {
      assert IsOpen(m1, d.id);
      TellConnectionOpens(m1, d.id, KindBy(m.reason));
    } else {
      assert OpenSet(OnSocketClosed(m)) == OpenSet(m) - {d};
    }
  }

  lemma SocketClosedTellsTheLast(m: Manager, d: Dependent)
    requires Inv(m) && m.socket.BeingClosed? && LastOneWaits(m, d)
    ensures Inv(OnSocketClosed(m)) && OnSocketClosed(m).told == m.told + [Notice(d, m.due[d])]
  {
    LastToldOpens(m, d);
    assert m.due == m.due[d := m.due[d]];
    TellKeeps(m, OnSocketClosed(m), d, m.due[d]);
  }

  /** Events that tell nobody: the open dependents may grow by one that has not ended. */
  lemma QuietKeeps(m: Manager, m': Manager)
    requires Inv(m) && Listed(m') && ClosedEnded(m')
    requires m'.told == m.told && m'.due == m.due && m'.reason == m.reason
    requires m'.socket == m.socket && m'.closeCalls == m.closeCalls
    requires OpenSet(m') == OpenSet(m) ||
             (m.socket.Open? && exists d :: d !in m.due && OpenSet(m') == OpenSet(m) + {d})
    ensures Inv(m')
  {
    assert forall e :: IsTold(m', e) <==> IsTold(m, e);
    if m.socket.BeingClosed? {
      var d :| LastOneWaits(m, d);
      assert LastOneWaits(m', d);
    }
  }

  lemma AddedKeeps(m: Manager, c: nat)
    requires Inv(m) && Enabled(m, Added(c))
    ensures Inv(Step(m, Added(c)))
  {
    var m' := Step(m, Added(c));
    forall d ensures d in OpenSet(m') <==> d in OpenSet(m) || d == Connection(c) {
      if d.Connection? { assert IsOpen(m', d.id) <==> IsOpen(m, d.id) || d.id == c; }
    }
    assert OpenSet(m') == OpenSet(m) + {Connection(c)};
    QuietKeeps(m, m');
  }

  lemma FreedKeeps(m: Manager, c: nat)
    requires Inv(m) && Enabled(m, Freed(c))
    ensures Inv(Step(m, Freed(c)))
  {
    FreedOpens(m, c);
    QuietKeeps(m, Step(m, Freed(c)));
  }

  lemma FreedOpens(m: Manager, c: nat)
    requires Listed(m) && Enabled(m, Freed(c))
    ensures Listed(Step(m, Freed(c))) && OpenSet(Step(m, Freed(c))) == OpenSet(m)
  {
    var m' := Step(m, Freed(c));
    RemoveIs(m.connections, c);
    forall d ensures d in OpenSet(m') <==> d in OpenSet(m) {
      if d.Connection? { assert IsOpen(m', d.id) <==> IsOpen(m, d.id); }
    }
  }

  lemma MarkKeeps(m: Manager, c: nat, s: State)
    requires Inv(m) && IsOpen(m, c) && s != Closed
    ensures Inv(m.(states := m.states[c := s]))
  {
    var m' := m.(states := m.states[c := s]);
    forall d ensures d in OpenSet(m') <==> d in OpenSet(m) {
      if d.Connection? { assert IsOpen(m', d.id) <==> IsOpen(m, d.id); }
    }
    QuietKeeps(m, m');
  }

  /** Ready has not come too late. */
  predicate InTime(m: Manager, e: Event) { e.Ready? ==> IsOpen(m, e.c) }

  lemma StepKeeps(m: Manager, e: Event)
    requires Inv(m) && Enabled(m, e) && InTime(m, e)
    ensures Inv(Step(m, e))
  {
    match e
    case Added(c) => AddedKeeps(m, c);
    case Ready(c) => MarkKeeps(m, c, Established);
    case CloseAsked(c) => if !m.states[c].Closed? && !m.states[c].Closing? { MarkKeeps(m, c, Closing); }
    case Ended(c, how) => EndedKeeps(m, c, how);
    case ListenerEnded => ListenerEndedKeeps(m);
    case SocketClosed => var d :| LastOneWaits(m, d); SocketClosedTellsTheLast(m, d);
    case Freed(c) => FreedKeeps(m, c);
  }

  // ---------------------------------------------------------------- ready after the end

  predicate ToldTwice(m: Manager) { exists i, j :: 0 <= i < j < |m.told| && m.told[i].who == m.told[j].who }

  /** Somebody was told twice, or is open again after being told. */
  ghost predicate Broken(m: Manager) { ToldTwice(m) || exists c :: IsOpen(m, c) && IsTold(m, Connection(c)) }

  lemma ListedKeeps(m: Manager, e: Event)
    requires Listed(m) && Enabled(m, e)
    ensures Listed(Step(m, e))
  {
    if e.Freed? { RemoveIs(m.connections, e.c); }
  }

  lemma ToldStays(m: Manager, m': Manager, d: Dependent)
    requires m.told <= m'.told
    ensures IsTold(m, d) ==> IsTold(m', d)
    ensures ToldTwice(m) ==> ToldTwice(m')
  {
    if IsTold(m, d) { var i :| 0 <= i < |m.told| && m.told[i].who == d; assert m'.told[i].who == d; }
    if ToldTwice(m) {
      var i, j :| 0 <= i < j < |m.told| && m.told[i].who == m.told[j].who;
      assert m'.told[i].who == m'.told[j].who;
    }
  }

  lemma ToldAgain(m: Manager, c: nat, k: Kind)
    requires IsTold(m, Connection(c))
    ensures ToldTwice(TellConnection(m, c, k))
  {
    var m' := TellConnection(m, c, k);
    var i :| 0 <= i < |m.told| && m.told[i].who == Connection(c);
    assert m'.told[i].who == m'.told[|m.told|].who;
  }

  /** A connection that is open again stays open until it is told again. */
  lemma RevivedStays(m: Manager, e: Event, c: nat)
    requires Listed(m) && Enabled(m, e) && IsOpen(m, c) && IsTold(m, Connection(c))
    ensures IsOpen(Step(m, e), c) || ToldTwice(Step(m, e))
  {
    match e
    case Ended(x, how) => EndedRevived(m, x, how, c);
    case SocketClosed => SocketClosedRevived(m, c);
    case Freed(x) => RemoveIs(m.connections, x);
    case _ =>
  }

  lemma EndedRevived(m: Manager, x: nat, how: End, c: nat)
    requires x in m.states && IsOpen(m, c) && IsTold(m, Connection(c))
    ensures IsOpen(OnEnded(m, x, how), c) || ToldTwice(OnEnded(m, x, how))
  {
    if x == c && |OpenSet(m)| != 1 {
      ToldAgain(m.(due := m.due[Connection(c) := KindOf(how, m.states[c])]), c, KindOf(how, m.states[c]));
    }
  }

  lemma SocketClosedRevived(m: Manager, c: nat)
    requires IsOpen(m, c) && IsTold(m, Connection(c))
    ensures IsOpen(OnSocketClosed(m), c) || ToldTwice(OnSocketClosed(m))
  {
    var i := FirstOpen(m.connections, m.states);
    if i < |m.connections| && m.connections[i] == c { ToldAgain(m.(socket := Gone), c, KindBy(m.reason)); }
  }

  lemma BrokenStays(m: Manager, e: Event)
    requires Listed(m) && Enabled(m, e) && Broken(m)
    ensures Broken(Step(m, e))
  {
    ToldStays(m, Step(m, e), TheListener);
    if !ToldTwice(m) {
      var c :| IsOpen(m, c) && IsTold(m, Connection(c));
      RevivedStays(m, e, c);
      ToldStays(m, Step(m, e), Connection(c));
    }
  }

  lemma BrokenIsNotInv(m: Manager)
    requires Broken(m)
    ensures !Inv(m)
  {
    if !ToldTwice(m) {
      var c :| IsOpen(m, c) && IsTold(m, Connection(c));
      assert Connection(c) in OpenSet(m);
    }
  }

  lemma LateReadyBreaks(m: Manager, c: nat)
    requires Inv(m) && c in m.states && !IsOpen(m, c)
    ensures Broken(MarkReady(m, c))
  {
    assert m.states[c] == Closed && Connection(c) !in OpenSet(m) && IsTold(m, Connection(c));
    ToldStays(m, MarkReady(m, c), Connection(c));
    assert IsOpen(MarkReady(m, c), c);
  }

  /** Marking a connection established keeps the promise exactly if it was open. */
  lemma ReadyKeepsIff(m: Manager, c: nat)
    requires Inv(m) && c in m.states
    ensures Inv(MarkReady(m, c)) <==> IsOpen(m, c)
  {
    if IsOpen(m, c) {
      MarkKeeps(m, c, Established);
    } else {
      LateReadyBreaks(m, c);
      BrokenIsNotInv(MarkReady(m, c));
    }
  }

  predicate AllInTime(m: Manager, es: seq<Event>)
    requires ValidRun(m, es)
  {
    es == [] || (AllInTime(m, es[..|es| - 1]) && InTime(Run(m, es[..|es| - 1]), es[|es| - 1]))
  }

  lemma {:induction false} RunKeepsOrBreaks(m: Manager, es: seq<Event>)
    requires Inv(m) && ValidRun(m, es)
    ensures if AllInTime(m, es) then Inv(Run(m, es)) else Broken(Run(m, es)) && Listed(Run(m, es))
  {
    if es != [] {
      var before, last := es[..|es| - 1], es[|es| - 1];
      RunKeepsOrBreaks(m, before);
      ListedKeeps(Run(m, before), last);
      if !AllInTime(m, before) {
        BrokenStays(Run(m, before), last);
      } else if InTime(Run(m, before), last) {
        StepKeeps(Run(m, before), last);
      } else {
        LateReadyBreaks(Run(m, before), last.c);
      }
    }
  }

  /** Over every run: the promise holds at the end exactly if no connection was said to be ready after
      its end. */
  lemma RunKeepsIff(m: Manager, es: seq<Event>)
    requires Inv(m) && ValidRun(m, es)
    ensures Inv(Run(m, es)) <==> AllInTime(m, es)
  {
    RunKeepsOrBreaks(m, es);
    if !AllInTime(m, es) { BrokenIsNotInv(Run(m, es)); }
  }

  lemma FreshInv(listener: Listener)
    ensures Inv(Fresh(listener))
  {
    var m := Fresh(listener);
    assert forall d :: !IsTold(m, d);
  }

  /** On every run without a late ready each dependent is told at most once, and told what it is due whether it was the
      last one or not; and whoever ended has been told, except the one the socket is being closed
      for. */
  lemma ToldExactlyOnce(listener: Listener, es: seq<Event>)
    requires ValidRun(Fresh(listener), es) && AllInTime(Fresh(listener), es)
    ensures var m := Run(Fresh(listener), es);
      && (forall i, j | 0 <= i < j < |m.told| :: m.told[i].who != m.told[j].who)
      && (forall i | 0 <= i < |m.told| :: m.told[i].who in m.due && m.told[i].kind == m.due[m.told[i].who])
      && (forall d | d in m.due :: IsTold(m, d) || (m.socket.BeingClosed? && OpenSet(m) == {d}))
      && m.closeCalls <= 1
      && (m.socket.Gone? ==> forall d | d in m.due :: IsTold(m, d))
  {
    FreshInv(listener);
    RunKeepsIff(Fresh(listener), es);
    var m := Run(Fresh(listener), es);
    if m.socket.BeingClosed? { var x :| LastOneWaits(m, x); }
  }

  // ---------------------------------------------------------------- a whole group ends

  function Ends(cs: seq<nat>, how: End): (es: seq<Event>) { seq(|cs|, i requires 0 <= i < |cs| => Ended(cs[i], how)) }

  function KindIn(m: Manager, c: nat, how: End): (k: Kind) {
    if c in m.states then KindOf(how, m.states[c]) else SaidClosed
  }

  function Owed(m: Manager, cs: seq<nat>, how: End): (s: seq<Notice>) {
    seq(|cs|, i requires 0 <= i < |cs| => Notice(Connection(cs[i]), KindIn(m, cs[i], how)))
  }

  /** One terminal callback after the other. */
  function EndAll(m: Manager, cs: seq<nat>, how: End): (m': Manager)
    requires forall c | c in cs :: c in m.states
    ensures m'.states.Keys == m.states.Keys
  {
    if cs == [] then m else OnEnded(EndAll(m, cs[..|cs| - 1], how), cs[|cs| - 1], how)
  }

  lemma {:induction false} EndAllIsRun(m: Manager, cs: seq<nat>, how: End)
    requires ValidRun(m, Ends(cs, how)) && forall c | c in cs :: c in m.states
    ensures EndAll(m, cs, how) == Run(m, Ends(cs, how))
  {
    if cs != [] {
      assert Ends(cs, how)[..|cs| - 1] == Ends(cs[..|cs| - 1], how);
      EndAllIsRun(m, cs[..|cs| - 1], how);
    }
  }

  lemma {:induction false} EndAllListed(m: Manager, cs: seq<nat>, how: End)
    requires Listed(m) && forall c | c in cs :: c in m.states
    ensures Listed(EndAll(m, cs, how))
  {
    if cs != [] { EndAllListed(m, cs[..|cs| - 1], how); }
  }

  lemma EndAllNext(m: Manager, cs: seq<nat>, how: End, i: nat)
    requires Listed(m) && i < |cs| && forall c | c in cs :: c in m.states
    ensures var m1 := EndAll(m, cs[..i], how);
      Listed(m1) && cs[i] in m1.states && EndAll(m, cs[..i + 1], how) == OnEnded(m1, cs[i], how)
  {
    EndAllListed(m, cs[..i], how);
    assert cs[..i + 1][..i] == cs[..i] && cs[i] in cs;
  }

  /** Different connections, each of which may end now. */
  predicate CanEnd(m: Manager, cs: seq<nat>) {
    cs == [] ||
    var init, c := cs[..|cs| - 1], cs[|cs| - 1];
    CanEnd(m, init) && c !in init && IsOpen(m, c)
  }

  /** The state when the connections `cs` have ended one after the other. */
  function AfterEnds(m: Manager, cs: seq<nat>, how: End): (m': Manager) {
    if cs == [] then m
    else EndOne(AfterEnds(m, cs[..|cs| - 1], how), cs[|cs| - 1], KindIn(m, cs[|cs| - 1], how))
  }

  predicate Untouched(m: Manager, m': Manager, c: nat) {
    IsOpen(m, c) ==> IsOpen(m', c) && m'.states[c] == m.states[c]
  }

  /** Between `m` and `m'` only connections in `cs` have ended. */
  ghost predicate OnlyEnded(m: Manager, m': Manager, cs: seq<nat>) {
    && Listed(m') && m'.socket == m.socket && m'.closeCalls == m.closeCalls
    && |OpenSet(m')| == |OpenSet(m)| - |cs|
    && forall c | c !in cs :: Untouched(m, m', c)
  }

  lemma OnlyOneMore(m: Manager, m1: Manager, cs: seq<nat>, k: Kind)
    requires CanEnd(m, cs) && cs != [] && OnlyEnded(m, m1, cs[..|cs| - 1])
    ensures OnlyEnded(m, EndOne(m1, cs[|cs| - 1], k), cs)
  {
    var c := cs[|cs| - 1];
    assert Untouched(m, m1, c);
    EndOneOpen(m1, c, k);
    OthersUntouched(m, m1, cs, k);
  }

  lemma OthersUntouched(m: Manager, m1: Manager, cs: seq<nat>, k: Kind)
    requires cs != [] && forall c | c !in cs[..|cs| - 1] :: Untouched(m, m1, c)
    ensures forall x | x !in cs :: Untouched(m, EndOne(m1, cs[|cs| - 1], k), x)
  {
    var c := cs[|cs| - 1];
    forall x | x !in cs ensures Untouched(m, EndOne(m1, c, k), x) {
      assert Untouched(m, m1, x);
      EndOneUntouched(m1, c, k, x);
    }
  }

  lemma EndOneUntouched(m: Manager, c: nat, k: Kind, x: nat)
    requires x != c
    ensures Untouched(m, EndOne(m, c, k), x)
  {}

  lemma {:induction false} AfterEndsAre(m: Manager, cs: seq<nat>, how: End)
    requires Listed(m) && CanEnd(m, cs)
    ensures OnlyEnded(m, AfterEnds(m, cs, how), cs)
  {
    if cs == [] {
      assert AfterEnds(m, cs, how) == m;
    } else {
      AfterEndsAre(m, cs[..|cs| - 1], how);
      OnlyOneMore(m, AfterEnds(m, cs[..|cs| - 1], how), cs, KindIn(m, cs[|cs| - 1], how));
    }
  }

  lemma {:induction false} AfterEndsTold(m: Manager, cs: seq<nat>, how: End)
    ensures AfterEnds(m, cs, how).told == m.told + Owed(m, cs, how)
  {
    if cs != [] {
      var init, c := cs[..|cs| - 1], cs[|cs| - 1];
      AfterEndsTold(m, init, how);
      assert Owed(m, cs, how) == Owed(m, init, how) + [Notice(Connection(c), KindIn(m, c, how))];
    }
  }

  /** A connection that is not the last ends in `m1`, where it stands as it did in `m`. */
  lemma NotLastEnds(m: Manager, m1: Manager, c: nat, how: End)
    requires m1.socket.Open? && Untouched(m, m1, c) && IsOpen(m, c) && |OpenSet(m1)| != 1
    ensures Enabled(m1, Ended(c, how)) && OnEnded(m1, c, how) == EndOne(m1, c, KindIn(m, c, how))
  {}

  /** The members of a group end one after the other while another dependent keeps the socket open:
      each is told at once, and the socket is left alone. */
  lemma {:induction false} PartEndsRun(m: Manager, cs: seq<nat>, how: End)
    requires m.socket.Open? && Listed(m) && CanEnd(m, cs) && |cs| < |OpenSet(m)|
    ensures ValidRun(m, Ends(cs, how)) && Run(m, Ends(cs, how)) == AfterEnds(m, cs, how)
  {
    if cs != [] {
      var n := |cs| - 1;
      assert Ends(cs, how)[..n] == Ends(cs[..n], how);
      assert Ends(cs, how)[n] == Ended(cs[n], how);
      PartEndsRun(m, cs[..n], how);
      AfterEndsAre(m, cs[..n], how);
      NotLastEnds(m, AfterEnds(m, cs[..n], how), cs[n], how);
    }
  }

  lemma PartEnds(m: Manager, cs: seq<nat>, how: End)
    requires m.socket.Open? && Listed(m) && CanEnd(m, cs) && |cs| < |OpenSet(m)|
    ensures ValidRun(m, Ends(cs, how))
    ensures Run(m, Ends(cs, how)).told == m.told + Owed(m, cs, how)
    ensures OnlyEnded(m, Run(m, Ends(cs, how)), cs)
  {
    PartEndsRun(m, cs, how);
    AfterEndsTold(m, cs, how);
    AfterEndsAre(m, cs, how);
  }

  /** The last one: nobody is told, the socket is closed for its sake. */
  lemma LastEnds(m: Manager, c: nat, how: End)
    requires Inv(m) && Enabled(m, Ended(c, how)) && |OpenSet(m)| == 1
    ensures var m' := OnEnded(m, c, how);
      && m'.socket.BeingClosed? && m'.closeCalls == m.closeCalls + 1 && m'.told == m.told
      && Inv(m') && LastOneWaits(m', Connection(c))
      && OnSocketClosed(m').told == m.told + [Notice(Connection(c), KindOf(how, m.states[c]))]
      && OnSocketClosed(m').socket.Gone?
  {
    var m' := OnEnded(m, c, how);
    assert Connection(c) in OpenSet(m);
    OneOpen(OpenSet(m), Connection(c));
    assert OpenSet(m') == OpenSet(m);
    EndedKeeps(m, c, how);
    SocketClosedTellsTheLast(m', Connection(c));
  }

  lemma RunExtends(m: Manager, es: seq<Event>, e: Event)
    requires ValidRun(m, es) && Enabled(Run(m, es), e)
    ensures ValidRun(m, es + [e]) && Run(m, es + [e]) == Step(Run(m, es), e)
  {
    assert (es + [e])[..|es|] == es;
  }

  lemma {:induction false} EndsInTime(m: Manager, cs: seq<nat>, how: End)
    requires ValidRun(m, Ends(cs, how))
    ensures AllInTime(m, Ends(cs, how))
  {
    if cs != [] {
      assert Ends(cs, how)[..|cs| - 1] == Ends(cs[..|cs| - 1], how);
      EndsInTime(m, cs[..|cs| - 1], how);
    }
  }

  /** The run closes the socket once, and when it has closed all that was due has been told. */
  ghost predicate ClosesTelling(m: Manager, es: seq<Event>, told: seq<Notice>) {
    && ValidRun(m, es) && Run(m, es).socket.BeingClosed? && Run(m, es).closeCalls == 1
    && ValidRun(m, es + [SocketClosed]) && Run(m, es + [SocketClosed]).socket.Gone?
    && Run(m, es + [SocketClosed]).told == told
  }

  /** When they are all there is, the last one waits for the socket; once it has closed, each has
      been told exactly what it would have been told otherwise. */
  lemma WholeEnds(m: Manager, init: seq<nat>, last: nat, how: End)
    requires Inv(m) && m.socket.Open? && |OpenSet(m)| == |init| + 1
    requires CanEnd(m, init) && last !in init && IsOpen(m, last)
    ensures var es := Ends(init, how) + [Ended(last, how)];
      && ClosesTelling(m, es, m.told + Owed(m, init, how) + [Notice(Connection(last), KindIn(m, last, how))])
      && Run(m, es).told == m.told + Owed(m, init, how)
  {
    PartEnds(m, init, how);
    EndsInTime(m, init, how);
    RunKeepsIff(m, Ends(init, how));
    assert Untouched(m, Run(m, Ends(init, how)), last);
    LastEnds(Run(m, Ends(init, how)), last, how);
    RunExtends(m, Ends(init, how), Ended(last, how));
    RunExtends(m, Ends(init, how) + [Ended(last, how)], SocketClosed);
  }

  // ---------------------------------------------------------------- outside the contract

  /** A second callback while the socket is being closed closes it again. */
  lemma EndedWhileClosing(m: Manager, c: nat, how: End)
    requires Inv(m) && m.socket.BeingClosed? && c in m.states
    ensures OnEnded(m, c, how).closeCalls == 2 && !Inv(OnEnded(m, c, how))
  {
    var d :| LastOneWaits(m, d);
    assert |OpenSet(m)| == 1;
  }

  lemma EndedAgain(m: Manager, c: nat, how: End)
    requires Inv(m) && !m.socket.BeingClosed? && c in m.states && !IsOpen(m, c)
    ensures !Inv(OnEnded(m, c, how))
  {
    var d, m' := Connection(c), OnEnded(m, c, how);
    assert m.states[c] == Closed && d !in OpenSet(m) && IsTold(m, d);
    if |OpenSet(m)| == 1 {
      assert OpenSet(m') == OpenSet(m);
      forall x ensures !LastOneWaits(m', x) {}
    } else {
      ToldAgain(m.(due := m.due[d := KindOf(how, m.states[c])]), c, KindOf(how, m.states[c]));
    }
  }

  /** A terminal callback keeps the promise exactly if the connection is not closed and neither is
      the socket, or about to be: otherwise it tells the connection again, closes the socket under
      somebody else, or closes it twice. */
  lemma EndKeepsIff(m: Manager, c: nat, how: End)
    requires Inv(m) && c in m.states
    ensures Inv(OnEnded(m, c, how)) <==> m.socket.Open? && IsOpen(m, c)
  {
    if m.socket.Open? && IsOpen(m, c) {
      EndedKeeps(m, c, how);
    } else if m.socket.BeingClosed? {
      EndedWhileClosing(m, c, how);
    } else {
      assert m.socket.Gone? ==> Connection(c) !in OpenSet(m);
      EndedAgain(m, c, how);
    }
  }

  lemma OpenAfterEnd(m: Manager, c: nat, how: End)
    requires IsOpen(m, c)
    ensures IsOpen(OnEnded(m, c, how), c) <==> |OpenSet(m)| == 1
  {}

  /** Ready right after the end keeps the promise exactly if the connection still waits for the
      socket. */
  lemma EndThenReadyIff(m: Manager, c: nat, how: End)
    requires Inv(m) && m.socket.Open? && IsOpen(m, c)
    ensures Inv(MarkReady(OnEnded(m, c, how), c)) <==> |OpenSet(m)| == 1
  {
    EndedKeeps(m, c, how);
    OpenAfterEnd(m, c, how);
    ReadyKeepsIff(OnEnded(m, c, how), c);
  }

  const ONLY_ONE: Manager := Manager([1], map[1 := Establishing], NoListener, Graceful, Open, 0, [], map[])

  lemma OneAdded()
    ensures ValidRun(Fresh(NoListener), [Added(1)]) && Run(Fresh(NoListener), [Added(1)]) == ONLY_ONE
  {
    RunExtends(Fresh(NoListener), [], Added(1));
    assert [] + [Added(1)] == [Added(1)];
  }

  lemma OnlyOneEnds()
    ensures Enabled(ONLY_ONE, Ended(1, ByClose))
    ensures var m := OnEnded(ONLY_ONE, 1, ByClose); m.socket.BeingClosed? && IsOpen(m, 1)
    ensures OnEnded(OnEnded(ONLY_ONE, 1, ByClose), 1, ByAbort).closeCalls == 2
  {
    var m := OnEnded(ONLY_ONE, 1, ByClose);
    assert IsOpen(ONLY_ONE, 1) && OpenSet(ONLY_ONE) == {Connection(1)};
    assert OpenSet(m) == OpenSet(ONLY_ONE);
  }

  /** The application closes its only connection and aborts it while the socket is being closed. */
  lemma ClosedThenAborted()
    ensures var m, es := Fresh(NoListener), [Added(1)] + [Ended(1, ByClose)];
      && ValidRun(m, es) && Run(m, es).socket.BeingClosed?
      && IsOpen(Run(m, es), 1) && OnEnded(Run(m, es), 1, ByAbort).closeCalls == 2
  {
    OneAdded();
    OnlyOneEnds();
    RunExtends(Fresh(NoListener), [Added(1)], Ended(1, ByClose));
  }

  const ONE_ENDED: Manager :=
    Manager([2, 1], map[1 := Closed, 2 := Establishing], NoListener, Graceful, Open, 0,
            [Notice(Connection(1), SaidClosed)], map[Connection(1) := SaidClosed])

  const TWO_ADDED: Manager :=
    Manager([2, 1], map[1 := Establishing, 2 := Establishing], NoListener, Graceful, Open, 0, [], map[])

  lemma TwoAdded()
    ensures var es := [Added(1)] + [Added(2)];
      ValidRun(Fresh(NoListener), es) && Run(Fresh(NoListener), es) == TWO_ADDED
  {
    RunExtends(Fresh(NoListener), [], Added(1));
    assert [] + [Added(1)] == [Added(1)];
    RunExtends(Fresh(NoListener), [Added(1)], Added(2));
  }

  lemma FirstEnds()
    ensures Enabled(TWO_ADDED, Ended(1, ByClose)) && OnEnded(TWO_ADDED, 1, ByClose) == ONE_ENDED
  {
    assert IsOpen(TWO_ADDED, 1) && IsOpen(TWO_ADDED, 2);
    assert Connection(1) in OpenSet(TWO_ADDED) && Connection(2) in OpenSet(TWO_ADDED);
    if |OpenSet(TWO_ADDED)| == 1 { OneOpen(OpenSet(TWO_ADDED), Connection(1)); }
  }

  lemma OneEnded()
    ensures var es := [Added(1)] + [Added(2)] + [Ended(1, ByClose)];
      ValidRun(Fresh(NoListener), es) && Run(Fresh(NoListener), es) == ONE_ENDED
  {
    TwoAdded();
    FirstEnds();
    RunExtends(Fresh(NoListener), [Added(1)] + [Added(2)], Ended(1, ByClose));
  }

  /** Two connections, the first of which ends twice: the second is told that it was closed although
      it never ended. */
  lemma EndedTwiceClosesAnother()
    ensures var es := [Added(1)] + [Added(2)] + [Ended(1, ByClose)];
      && ValidRun(Fresh(NoListener), es)
      && var m := Run(Fresh(NoListener), es);
      && 1 in m.states
      && var m' := OnSocketClosed(OnEnded(m, 1, ByClose));
      && m'.told == [Notice(Connection(1), SaidClosed), Notice(Connection(2), SaidClosed)]
      && Connection(2) !in m'.due
  {
    OneEnded();
    AnotherClosed();
  }

  lemma AnotherClosed()
    ensures var m := OnSocketClosed(OnEnded(ONE_ENDED, 1, ByClose));
      && m.told == [Notice(Connection(1), SaidClosed), Notice(Connection(2), SaidClosed)]
      && Connection(2) !in m.due
  {
    assert OpenSet(ONE_ENDED) == {Connection(2)} by {
      assert IsOpen(ONE_ENDED, 2) && !IsOpen(ONE_ENDED, 1);
    }
  }
}
