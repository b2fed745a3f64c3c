/** The state the library keeps for a group of QUIC streams, changed by calls of the application and
    of the QUIC implementation. */
module QuicGroup {
  import opened StreamGroup
  import SocketModel
  import opened SocketManager
  import opened Sequences

  class Streams {
    const isClient: bool
    var members: map<nat, Member>
    var routes: map<nat, nat>
    var next: nat
    var closes: nat
    var fins: seq<nat>
    var calls: seq<Call>
    var heard: seq<Heard>

    ghost function Model(): (g: Group)
      reads this
    {
      Group(isClient, members, routes, next, closes, fins, calls, heard)
    }

    constructor (isClient: bool)
      ensures Model() == Fresh(isClient)
    {
      this.isClient := isClient;
      members, routes, next := map[0 := Member(NoStream, false, false)], map[], 1;
      closes, fins, calls, heard := 0, [], [], [];
    }

    method SetStream(c: nat, id: nat)
      requires c in members
      modifies this`members, this`routes
      ensures Model() == WithStream(old(Model()), c, id)
    {
      members := members[c := members[c].(stream := On(id))];
      routes := routes[id := c];
    }

    /** How many members can still send or receive. */
    method NumActive() returns (n: nat)
      ensures n == |ActiveSet(Model())|
    {
      n := 0;
      var todo := members.Keys;
      ghost var done: set<nat> := {};
      while todo != {}
        invariant todo <= members.Keys && done <= ActiveSet(Model()) && done !! todo
        invariant ActiveSet(Model()) <= done + todo && n == |done|
        decreases todo
      {
        var c :| c in todo;
        todo := todo - {c};
        if members[c].canSend || members[c].canReceive {
          n := n + 1;
          done := done + {c};
        }
      }
      assert done == ActiveSet(Model());
    }

    method ConnectionReady(c: nat)
      requires c in members
      modifies this`members, this`calls
      ensures Model() == OnReady(old(Model()), c)
    {
      members := members[c := members[c].(canSend := true)];
      members := members[c := members[c].(canReceive := true)];
      calls := calls + [Ready(c)];
    }

    method CreateMember() returns (c: nat)
      modifies this`members, this`next
      ensures c == old(next) && Model() == NewMember(old(Model()))
    {
      c := next;
      members := members[c := Member(NoStream, false, false)];
      next := next + 1;
    }

    /** `first` is whichever member the table yields first. */
    method ResolveOrCreate(id: nat, first: nat) returns (c: nat, isNew: bool)
      requires first in members && (id in routes ==> routes[id] in members)
      modifies this
      ensures Model() == Resolve(old(Model()), id, first)
      ensures c == Target(old(Model()), id, first) && isNew == NeedsClone(old(Model()), id, first)
    {
      isNew := false;
      if id in routes {
        c := routes[id];
      } else {
        c := first;
        if members[c].stream.On? {
          isNew := true;
          c := CreateMember();
        }
        var serverInitiated, unidirectional := id % 2 == 1, id / 2 % 2 == 1;
        var send, receive;
        if isClient {
          receive := serverInitiated || !unidirectional;
          send := !serverInitiated || !unidirectional;
        } else {
          receive := !serverInitiated || !unidirectional;
          send := serverInitiated || !unidirectional;
        }
        members := members[c := members[c].(canSend := send)];
        members := members[c := members[c].(canReceive := receive)];
        SetStream(c, id);
      }
      heard := heard + [Heard(id, c)];
    }

    method HandleStreamFin(c: nat)
      requires c in members
      modifies this`members, this`closes, this`calls
      ensures Model() == OnFin(old(Model()), c)
    {
      members := members[c := members[c].(canReceive := false)];
      var canSend := members[c].canSend;
      var n := NumActive();
      if n == 0 {
        closes := closes + 1;
      } else if !canSend {
        calls := calls + [Ended(c)];
      }
    }

    method StreamData(id: nat, first: nat, empty: bool)
      requires Inv(Model()) && Enabled(Model(), PeerData(id, first, empty))
      modifies this
      ensures Inv(Model()) && Model() == Step(old(Model()), PeerData(id, first, empty))
    {
      StepKeeps(Model(), PeerData(id, first, empty));
      var c, isNew := ResolveOrCreate(id, first);
      if !empty && !members[c].canReceive { return; }
      if isNew { ConnectionReady(c); }
    }

    method StreamFin(id: nat, first: nat, empty: bool)
      requires Inv(Model()) && Enabled(Model(), PeerFin(id, first, empty))
      modifies this
      ensures Inv(Model()) && Model() == Step(old(Model()), PeerFin(id, first, empty))
    {
      StepKeeps(Model(), PeerFin(id, first, empty));
      var c, isNew := ResolveOrCreate(id, first);
      if !empty && !members[c].canReceive { return; }
      HandleStreamFin(c);
      if isNew { ConnectionReady(c); }
    }

    method StopSendingReceived(id: nat)
      requires Inv(Model())
      modifies this`members
      ensures Inv(Model()) && Model() == Step(old(Model()), StopSending(id))
    {
      StepKeeps(Model(), StopSending(id));
      if id in routes { members := members[routes[id] := members[routes[id]].(canSend := false)]; }
    }

    method StreamResetReceived(id: nat)
      requires Inv(Model())
      modifies this`calls
      ensures Inv(Model()) && Model() == Step(old(Model()), StreamReset(id))
    {
      StepKeeps(Model(), StreamReset(id));
      if id in routes { calls := calls + [Aborted(routes[id])]; }
    }

    method CloseConnection(c: nat)
      requires Inv(Model()) && c in members
      modifies this`members, this`closes, this`fins
      ensures Inv(Model()) && Model() == Step(old(Model()), LocalClose(c))
    {
      StepKeeps(Model(), LocalClose(c));
      members := members[c := members[c].(canSend := false)];
      var n := NumActive();
      if n > 0 {
        if members[c].stream.On? { fins := fins + [members[c].stream.id]; }
      } else {
        closes := closes + 1;
      }
    }

    /** `id` is the next free stream of the QUIC connection. */
    method Send(c: nat, id: nat, final: bool, established: bool) returns (sent: bool)
      requires Inv(Model()) && Enabled(Model(), Sent(c, id, final, established))
      modifies this`members, this`routes
      ensures Inv(Model()) && Model() == Step(old(Model()), Sent(c, id, final, established))
      ensures sent <==> old(members[c].canSend) && established
    {
      StepKeeps(Model(), Sent(c, id, final, established));
      if !members[c].canSend { return false; }
      if final { members := members[c := members[c].(canSend := false)]; }
      if !established { return false; }
      if members[c].stream.NoStream? { SetStream(c, id); }
      return true;
    }

    method Clone(source: nat)
      requires Inv(Model()) && source in members
      modifies this
      ensures Inv(Model()) && Model() == Step(old(Model()), Cloned(source))
    {
      StepKeeps(Model(), Cloned(source));
      var c := CreateMember();
      ConnectionReady(c);
    }
  }

  // ---------------------------------------------------------------- the QUIC connection has closed

  /** The members of the group that are not closed, in the order they are met. */
  function StillOpen(m: SocketModel.Manager, cs: seq<nat>): (s: seq<nat>) {
    if cs == [] then []
    else
      var n := |cs| - 1;
      if SocketModel.IsOpen(m, cs[n]) then StillOpen(m, cs[..n]) + [cs[n]] else StillOpen(m, cs[..n])
  }

  lemma {:induction false} StillOpenIs(m: SocketModel.Manager, cs: seq<nat>)
    ensures forall c :: c in StillOpen(m, cs) <==> c in cs && SocketModel.IsOpen(m, c)
  {
    if cs != [] {
      StillOpenIs(m, cs[..|cs| - 1]);
      assert cs == cs[..|cs| - 1] + [cs[|cs| - 1]];
    }
  }

  lemma OneMoreCanEnd(m: SocketModel.Manager, s: seq<nat>, c: nat)
    requires SocketModel.CanEnd(m, s) && c !in s && SocketModel.IsOpen(m, c)
    ensures SocketModel.CanEnd(m, s + [c])
  {
    assert (s + [c])[..|s|] == s;
  }

  lemma {:induction false} StillOpenCanEnd(m: SocketModel.Manager, cs: seq<nat>)
    requires Distinct(cs)
    ensures SocketModel.CanEnd(m, StillOpen(m, cs))
  {
    if cs != [] {
      var n := |cs| - 1;
      StillOpenCanEnd(m, cs[..n]);
      StillOpenIs(m, cs[..n]);
      if SocketModel.IsOpen(m, cs[n]) { OneMoreCanEnd(m, StillOpen(m, cs[..n]), cs[n]); }
    }
  }

  ghost function Dependents(cs: seq<nat>): (s: set<SocketModel.Dependent>) {
    if cs == [] then {} else Dependents(cs[..|cs| - 1]) + {SocketModel.Connection(cs[|cs| - 1])}
  }

  lemma {:induction false} DependentsAre(m: SocketModel.Manager, cs: seq<nat>)
    requires SocketModel.CanEnd(m, cs)
    ensures |Dependents(cs)| == |cs| && Dependents(cs) <= SocketModel.OpenSet(m)
    ensures forall d :: d in Dependents(cs) <==> d.Connection? && d.id in cs
  {
    if cs != [] {
      var n := |cs| - 1;
      var d := SocketModel.Connection(cs[n]);
      DependentsAre(m, cs[..n]);
      assert cs == cs[..n] + [cs[n]];
      assert d !in Dependents(cs[..n]) && d in SocketModel.OpenSet(m);
      assert Dependents(cs) == Dependents(cs[..n]) + {d};
    }
  }

  /** Somebody who is not in `cs` depends on the socket. */
  predicate OthersDepend(m: SocketModel.Manager, cs: seq<nat>) {
    exists d | d in SocketModel.OpenSet(m) :: d.TheListener? || d.id !in cs
  }

  lemma OthersDependIff(m: SocketModel.Manager, cs: seq<nat>)
    requires SocketModel.CanEnd(m, cs)
    ensures |cs| <= |SocketModel.OpenSet(m)|
    ensures OthersDepend(m, cs) <==> |cs| < |SocketModel.OpenSet(m)|
  {
    var o, s := SocketModel.OpenSet(m), Dependents(cs);
    DependentsAre(m, cs);
    assert |o| == |s| + |o - s| by { assert o == s + (o - s); }
    if OthersDepend(m, cs) {
      var d :| d in o && (d.TheListener? || d.id !in cs);
      assert d in o - s;
    } else {
      assert o - s == {};
    }
  }

  /** When the QUIC connection has closed on an open socket, every member that is still open is
      reported once, as what it is due; and the socket is closed only if nobody else depends on it. */
  lemma OpenGroupEnds(m: SocketModel.Manager, members: seq<nat>, how: SocketModel.End)
    requires SocketModel.Inv(m) && m.socket.Open? && Distinct(members) && StillOpen(m, members) != []
    ensures var cs := StillOpen(m, members);
      var es := SocketModel.Ends(cs, how);
      && SocketModel.ValidRun(m, es)
      && if OthersDepend(m, cs) then
           && SocketModel.Run(m, es).socket.Open?
           && SocketModel.Run(m, es).told == m.told + SocketModel.Owed(m, cs, how)
         else
           && SocketModel.Run(m, es).socket.BeingClosed? && SocketModel.Run(m, es).closeCalls == 1
           && SocketModel.ValidRun(m, es + [SocketModel.SocketClosed])
           && SocketModel.Run(m, es + [SocketModel.SocketClosed]).told == m.told + SocketModel.Owed(m, cs, how)
    ensures (forall c | c in StillOpen(m, members) :: c in m.states)
    ensures var cs := StillOpen(m, members);
      SocketModel.EndAll(m, cs, how) == SocketModel.Run(m, SocketModel.Ends(cs, how))
  {
    var cs := StillOpen(m, members);
    StillOpenIs(m, members);
    StillOpenCanEnd(m, members);
    OthersDependIff(m, cs);
    if OthersDepend(m, cs) { SocketModel.PartEnds(m, cs, how); } else { AllEnd(m, cs, how); }
    SocketModel.EndAllIsRun(m, cs, how);
  }

  /** On a socket that is being closed only the connection that waits for it can still be open. */
  lemma OneStillOpen(m: SocketModel.Manager, members: seq<nat>)
    requires SocketModel.Inv(m) && !m.socket.Open? && Distinct(members) && StillOpen(m, members) != []
    ensures m.socket.BeingClosed? && |StillOpen(m, members)| == 1 && StillOpen(m, members)[0] in m.states
  {
    var cs := StillOpen(m, members);
    StillOpenCanEnd(m, members);
    StillOpenIs(m, members);
    OthersDependIff(m, cs);
    assert cs[0] in cs;
  }

  /** The reports keep the socket manager's promise exactly if the socket is open or no member is;
      otherwise the socket is closed a second time. */
  lemma GroupEndsKeepsIff(m: SocketModel.Manager, members: seq<nat>, how: SocketModel.End)
    requires SocketModel.Inv(m) && Distinct(members)
    ensures forall c | c in StillOpen(m, members) :: c in m.states
    ensures var m' := SocketModel.EndAll(m, StillOpen(m, members), how);
      && (SocketModel.Inv(m') <==> m.socket.Open? || StillOpen(m, members) == [])
      && (!SocketModel.Inv(m') ==> m'.closeCalls == 2)
  {
    var cs := StillOpen(m, members);
    StillOpenIs(m, members);
    if cs == [] {
    } else if m.socket.Open? {
      OpenGroupEnds(m, members, how);
      SocketModel.EndsInTime(m, cs, how);
      SocketModel.RunKeepsIff(m, SocketModel.Ends(cs, how));
    } else {
      OneStillOpen(m, members);
      assert cs[..0] == [];
      SocketModel.EndedWhileClosing(m, cs[0], how);
    }
  }

  lemma EndsLast(cs: seq<nat>, how: SocketModel.End)
    requires cs != []
    ensures SocketModel.Ends(cs, how)
            == SocketModel.Ends(cs[..|cs| - 1], how) + [SocketModel.Ended(cs[|cs| - 1], how)]
  {}

  lemma OwedLast(m: SocketModel.Manager, cs: seq<nat>, how: SocketModel.End)
    requires cs != []
    ensures var init, c := cs[..|cs| - 1], cs[|cs| - 1];
      m.told + SocketModel.Owed(m, cs, how) == m.told + SocketModel.Owed(m, init, how)
        + [SocketModel.Notice(SocketModel.Connection(c), SocketModel.KindIn(m, c, how))]
  {}

  lemma AllEnd(m: SocketModel.Manager, cs: seq<nat>, how: SocketModel.End)
    requires SocketModel.Inv(m) && m.socket.Open? && cs != [] && SocketModel.CanEnd(m, cs)
    requires |cs| == |SocketModel.OpenSet(m)|
    ensures SocketModel.ClosesTelling(m, SocketModel.Ends(cs, how), m.told + SocketModel.Owed(m, cs, how))
  {
    EndsLast(cs, how);
    OwedLast(m, cs, how);
    SocketModel.WholeEnds(m, cs[..|cs| - 1], cs[|cs| - 1], how);
  }

  /** The same for any socket: with no member open nothing happens, and on a socket that is being
      closed the one member still open closes it again. */
  lemma GroupEnds(m: SocketModel.Manager, members: seq<nat>, how: SocketModel.End)
    requires SocketModel.Inv(m) && Distinct(members)
    ensures forall c | c in StillOpen(m, members) :: c in m.states
    ensures var cs := StillOpen(m, members);
      var m' := SocketModel.EndAll(m, cs, how);
      if cs == [] then m' == m
      else if !m.socket.Open? then m.socket.BeingClosed? && |cs| == 1 && m'.closeCalls == 2 && m'.told == m.told
      else if OthersDepend(m, cs) then m'.socket.Open? && m'.told == m.told + SocketModel.Owed(m, cs, how)
      else
        && m'.socket.BeingClosed? && m'.closeCalls == 1
        && SocketModel.OnSocketClosed(m').told == m.told + SocketModel.Owed(m, cs, how)
  {
    var cs := StillOpen(m, members);
    StillOpenIs(m, members);
    if cs == [] {
    } else if m.socket.Open? {
      OpenGroupEnds(m, members, how);
      var es := SocketModel.Ends(cs, how);
      if !OthersDepend(m, cs) { SocketModel.RunExtends(m, es, SocketModel.SocketClosed); }
    } else {
      OneStillOpen(m, members);
      assert cs[..0] == [];
      SocketModel.EndedWhileClosing(m, cs[0], how);
    }
  }

  method MembersToNotify(socket: SharedSocket, members: seq<nat>) returns (cs: seq<nat>)
    requires SocketModel.Listed(socket.Model()) && forall c | c in members :: c in socket.connections
    ensures cs == StillOpen(socket.Model(), members)
  {
    cs := [];
    for i := 0 to |members|
      invariant cs == StillOpen(socket.Model(), members[..i])
    {
      var c := members[i];
      assert members[..i + 1][..i] == members[..i];
      if socket.states[c] != SocketModel.Closed { cs := cs + [c]; }
    }
    assert members[..|members|] == members;
  }

  method HandleClosedConnection(socket: SharedSocket, members: seq<nat>)
    requires SocketModel.Listed(socket.Model()) && forall c | c in members :: c in socket.connections
    modifies socket
    ensures var m, cs := old(socket.Model()), StillOpen(old(socket.Model()), members);
      (forall c | c in cs :: c in m.states) && socket.Model() == SocketModel.EndAll(m, cs, SocketModel.ByClose)
  {
    ghost var m := socket.Model();
    StillOpenIs(m, members);
    var cs := MembersToNotify(socket, members);
    for i := 0 to |cs|
      invariant socket.Model() == SocketModel.EndAll(m, cs[..i], SocketModel.ByClose)
    {
      SocketModel.EndAllNext(m, cs, SocketModel.ByClose, i);
      socket.ClosedConnection(cs[i]);
    }
    assert cs[..|cs|] == cs;
  }

  method HandleAbortedConnection(socket: SharedSocket, members: seq<nat>)
    requires SocketModel.Listed(socket.Model()) && forall c | c in members :: c in socket.connections
    modifies socket
    ensures var m, cs := old(socket.Model()), StillOpen(old(socket.Model()), members);
      (forall c | c in cs :: c in m.states) && socket.Model() == SocketModel.EndAll(m, cs, SocketModel.ByAbort)
  {
    ghost var m := socket.Model();
    StillOpenIs(m, members);
    var cs := MembersToNotify(socket, members);
    for i := 0 to |cs|
      invariant socket.Model() == SocketModel.EndAll(m, cs[..i], SocketModel.ByAbort)
    {
      SocketModel.EndAllNext(m, cs, SocketModel.ByAbort, i);
      socket.AbortedConnection(cs[i]);
    }
    assert cs[..|cs|] == cs;
  }
}
