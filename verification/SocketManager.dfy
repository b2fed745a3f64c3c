/** The socket manager as the library keeps it.  Every callback counts the open dependents afresh,
    and the one for the closed socket searches for whom it was closed. */
module SocketManager {
  import opened SocketModel
  import opened Sequences

  class SharedSocket {
    var connections: seq<nat>
    var states: map<nat, State>
    var listener: Listener
    var reason: Reason
    var socket: Socket
    var closeCalls: nat
    var told: seq<Notice>
    ghost var due: map<Dependent, Kind>

    ghost function Model(): (m: Manager)
      reads this
    {
      Manager(connections, states, listener, reason, socket, closeCalls, told, due)
    }

    constructor (listener: Listener)
      ensures Model() == Fresh(listener)
    {
      this.listener := listener;
      connections, states, reason, socket := [], map[], Graceful, Open;
      closeCalls, told, due := 0, [], map[];
    }

    method NumOpenDependents() returns (n: nat)
      requires Listed(Model())
      ensures n == |OpenSet(Model())|
    {
      n := if listener.Listening? then 1 else 0;
      for i := 0 to |connections|
        invariant n == |Met(Model(), i)|
      {
        MetNext(Model(), i);
        if connections[i] in states && states[connections[i]] != Closed { n := n + 1; }
      }
      MetAll(Model());
    }

    method LastOpenConnection() returns (i: nat)
      ensures i == FirstOpen(connections, states)
    {
      for k := 0 to |connections|
        invariant k <= FirstOpen(connections, states)
      {
        if connections[k] in states && states[connections[k]] != Closed { return k; }
      }
      return |connections|;
    }

    method AddConnection(c: nat)
      requires Enabled(Model(), Added(c))
      modifies this
      ensures Model() == Step(old(Model()), Added(c))
    {
      connections := [c] + connections;
      states := states[c := Establishing];
    }

    method ConnectionReady(c: nat)
      requires c in states
      modifies this`states
      ensures Model() == Step(old(Model()), Ready(c))
    {
      states := states[c := Established];
    }

    /** The application asks to close; the protocol will report the end later. */
    method Close(c: nat)
      requires Enabled(Model(), CloseAsked(c))
      modifies this`states
      ensures Model() == Step(old(Model()), CloseAsked(c))
    {
      if states[c].Closed? || states[c].Closing? { return; }
      states := states[c := Closing];
    }

    /** The connection is freed. */
    method RemoveConnection(c: nat)
      requires Enabled(Model(), Freed(c))
      modifies this`connections, this`states
      ensures Model() == Step(old(Model()), Freed(c))
    {
      connections := Remove(connections, c);
      states := states - {c};
    }

    method ClosedSocket()
      modifies this
      ensures Model() == OnSocketClosed(old(Model()))
    {
      socket := Gone;
      var i := LastOpenConnection();
      if i < |connections| {
        var c := connections[i];
        states := states[c := Closed];
        told := told + [Notice(Connection(c), KindBy(reason))];
      } else {
        NotifyListener();
      }
    }

    method NotifyListener()
      modifies this`listener, this`told
      ensures Model() == TellListener(old(Model()))
    {
      if listener.NoListener? { return; }
      listener := StoppedListening;
      told := told + [Notice(TheListener, ListenerKindBy(reason))];
    }

    method CloseSocketFor(r: Reason)
      modifies this`reason, this`socket, this`closeCalls
      ensures Model() == CloseSocket(old(Model()), r)
    {
      reason := r;
      socket := BeingClosed;
      closeCalls := closeCalls + 1;
    }

    method MarkAndTell(c: nat, k: Kind)
      modifies this`states, this`told
      ensures Model() == TellConnection(old(Model()), c, k)
    {
      states := states[c := Closed];
      told := told + [Notice(Connection(c), k)];
    }

    method ClosedConnection(c: nat)
      requires Listed(Model()) && c in states
      modifies this
      ensures Model() == OnEnded(old(Model()), c, ByClose)
    {
      var n := NumOpenDependents();
      due := due[Connection(c) := SaidClosed];
      if n == 1 {
        CloseSocketFor(Graceful);
        return;
      }
      MarkAndTell(c, SaidClosed);
    }

    method EstablishmentError(c: nat)
      requires Listed(Model()) && c in states
      modifies this
      ensures Model() == OnEnded(old(Model()), c, ByEstablishmentError)
    {
      var n := NumOpenDependents();
      due := due[Connection(c) := SaidEstablishmentError];
      if n == 1 {
        CloseSocketFor(EstablishmentFailure);
        return;
      }
      MarkAndTell(c, SaidEstablishmentError);
    }

    method AbortedConnection(c: nat)
      requires Listed(Model()) && c in states
      modifies this
      ensures Model() == OnEnded(old(Model()), c, ByAbort)
    {
      var incoming := states[c];
      var n := NumOpenDependents();
      due := due[Connection(c) := if incoming == Establishing then SaidEstablishmentError else SaidConnectionError];
      if n == 1 {
        CloseSocketFor(if incoming == Establishing then EstablishmentFailure else ConnectionFailure);
        return;
      }
      MarkAndTell(c, if incoming == Establishing then SaidEstablishmentError else SaidConnectionError);
    }

    method ListenerClosed()
      requires Listed(Model())
      modifies this
      ensures Model() == OnListenerEnded(old(Model()))
    {
      var n := NumOpenDependents();
      due := due[TheListener := SaidListenerClosed];
      if n == 1 {
        CloseSocketFor(Graceful);
        return;
      }
      NotifyListener();
    }
  }

  predicate StandsOpen(m: Manager, c: nat) { c in m.states && m.states[c] != Closed }

  /** The open dependents met when the first `i` connections have been looked at. */
  ghost function Met(m: Manager, i: nat): (s: set<Dependent>)
    requires i <= |m.connections|
  {
    if i == 0 then if m.listener.Listening? then {TheListener} else {}
    else Met(m, i - 1) + if StandsOpen(m, m.connections[i - 1]) then {Connection(m.connections[i - 1])} else {}
  }

  lemma {:induction false} MetAre(m: Manager, i: nat, d: Dependent)
    requires i <= |m.connections|
    ensures d in Met(m, i) <==>
            if d.TheListener? then m.listener.Listening? else d.id in m.connections[..i] && StandsOpen(m, d.id)
  {
    if i > 0 {
      MetAre(m, i - 1, d);
      assert m.connections[..i] == m.connections[..i - 1] + [m.connections[i - 1]];
    }
  }

  lemma MetNext(m: Manager, i: nat)
    requires Listed(m) && i < |m.connections|
    ensures |Met(m, i + 1)| == |Met(m, i)| + if StandsOpen(m, m.connections[i]) then 1 else 0
  {
    MetAre(m, i, Connection(m.connections[i]));
    assert m.connections[i] !in m.connections[..i];
  }

  lemma MetAll(m: Manager)
    ensures Met(m, |m.connections|) == OpenSet(m)
  {
    forall d ensures d in Met(m, |m.connections|) <==> d in OpenSet(m) {
      MetAre(m, |m.connections|, d);
      assert m.connections[..|m.connections|] == m.connections;
      if d.Connection? { assert IsOpen(m, d.id) <==> d.id in m.connections && StandsOpen(m, d.id); }
    }
  }
}
