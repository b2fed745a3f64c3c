/** The connections, connection groups and socket managers of the library, with the calls that make,
    move and free them.  Every call keeps all counts right and says what it frees. */
module Lifetimes {
  import opened RefCounts
  import opened Sequences

  class Library {
    var connections: map<nat, Connection>
    var managers: map<nat, Manager>
    var groups: map<nat, Group>
    var listeners: map<nat, nat>
    var nextConnection: nat
    var nextManager: nat
    var nextGroup: nat
    var nextListener: nat
    var freedManagers: seq<nat>
    var freedGroups: seq<nat>

    ghost function Model(): (h: Heap)
      reads this
    {
      Heap(connections, managers, groups, listeners, nextConnection, nextManager, nextGroup, nextListener,
           freedManagers, freedGroups)
    }

    constructor ()
      ensures Model() == EMPTY && Inv(Model())
    {
      connections, managers, groups, listeners := map[], map[], map[], map[];
      nextConnection, nextManager, nextGroup, nextListener := 0, 0, 0, 0;
      freedManagers, freedGroups := [], [];
    }

    // ---------------------------------------------------------------- socket managers

    method SocketManagerNew(listener: Pointer) returns (m: nat)
      modifies this`managers, this`nextManager
      ensures m == old(nextManager) && Model() == NewManager(old(Model()), listener)
    {
      m := nextManager;
      managers := managers[m := Manager(0, [], listener)];
      nextManager := nextManager + 1;
    }

    method SocketManagerRef(m: nat)
      requires m in managers
      modifies this`managers
      ensures Model() == RefManager(old(Model()), m)
    {
      managers := managers[m := managers[m].(refCount := managers[m].refCount + 1)];
    }

    method SocketManagerUnref(m: nat)
      requires m in managers && managers[m].refCount > 0
      modifies this`managers, this`freedManagers
      ensures Model() == UnrefManager(old(Model()), m)
    {
      var count := managers[m].refCount - 1;
      if count == 0 {
        managers := managers - {m};
        freedManagers := freedManagers + [m];
      } else {
        managers := managers[m := managers[m].(refCount := count)];
      }
    }

    method AddConnection(m: nat, c: nat)
      requires m in managers && c in connections
      modifies this`managers, this`connections
      ensures Model() == AddToManager(old(Model()), m, c)
    {
      managers := managers[m := managers[m].(connections := [c] + managers[m].connections)];
      SocketManagerRef(m);
      connections := connections[c := connections[c].(manager := At(m))];
    }

    /** Takes the connection off the manager's list. */
    method Unlist(m: nat, c: nat)
      requires m in managers
      modifies this`managers
      ensures Model() == Unlisted(old(Model()), m, c)
    {
      managers := managers[m := managers[m].(connections := Remove(managers[m].connections, c))];
    }

    // ---------------------------------------------------------------- connection groups

    method GroupNew() returns (g: nat)
      modifies this`groups, this`nextGroup
      ensures g == old(nextGroup) && Model() == NewGroup(old(Model()))
    {
      g := nextGroup;
      groups := groups[g := Group(0, {})];
      nextGroup := nextGroup + 1;
    }

    method GroupAddConnection(g: nat, c: nat)
      requires g in groups && c in connections
      modifies this`groups, this`connections
      ensures Model() == AddToGroup(old(Model()), g, c)
    {
      if connections[c].group.At? || c in groups[g].members { return; }
      groups := groups[g := groups[g].(members := groups[g].members + {c})];
      groups := groups[g := groups[g].(refCount := groups[g].refCount + 1)];
      connections := connections[c := connections[c].(group := At(g))];
    }

    method GroupUnref(c: nat)
      requires CanUnrefGroup(Model(), c)
      modifies this`groups, this`freedGroups
      ensures Model() == UnrefGroup(old(Model()), c)
    {
      var g := connections[c].group.id;
      groups := groups[g := groups[g].(members := groups[g].members - {c})];
      groups := groups[g := groups[g].(refCount := groups[g].refCount - 1)];
      if groups[g].refCount == 0 {
        groups := groups - {g};
        freedGroups := freedGroups + [g];
      }
    }

    // ---------------------------------------------------------------- connections and listeners

    method ConnectionNew() returns (c: nat)
      modifies this`connections, this`nextConnection
      ensures c == old(nextConnection) && Model() == NewConnection(old(Model()))
    {
      c := nextConnection;
      connections := connections[c := Connection(Null, Null)];
      nextConnection := nextConnection + 1;
    }

    method ListenerNew() returns (l: nat)
      requires Inv(Model())
      modifies this
      ensures Inv(Model()) && l == old(nextListener) && Model() == NewListener(old(Model()))
      ensures connections == old(connections) && listeners == old(listeners)[l := old(nextManager)]
    {
      ghost var h := Model();
      l := nextListener;
      var m := SocketManagerNew(At(l));
      SocketManagerRef(m);
      listeners, nextListener := listeners[l := m], l + 1;
      assert Model() == NewListener(h);
      NewListenerKeeps(h);
    }

    method ListenerFree(l: nat)
      requires Inv(Model()) && l in listeners
      modifies this
      ensures Inv(Model()) && Model() == FreeListener(old(Model()), l)
      ensures connections == old(connections) && listeners == old(listeners) - {l}
      ensures freedGroups == old(freedGroups)
      ensures var m := old(listeners)[l];
        freedManagers == old(freedManagers) + if forall c :: !Uses(old(Model()), c, m) then [m] else []
    {
      FreeListenerKeeps(Model(), l);
      var m := listeners[l];
      assert ListenerOf(Model(), m) == At(l) && Counted(Model(), m);
      managers := managers[m := managers[m].(listener := Null)];
      SocketManagerUnref(m);
      listeners := listeners - {l};
    }

    method ClientConnectionNew(familyKnown: bool) returns (c: Pointer)
      modifies this
      ensures Model() == CreateClient(old(Model()), familyKnown)
      ensures c == if familyKnown then At(old(nextConnection)) else Null
    {
      var x := ConnectionNew();
      if !familyKnown {
        connections := connections - {x};
        return Null;
      }
      var m := SocketManagerNew(Null);
      var g := GroupNew();
      GroupAddConnection(g, x);
      AddConnection(m, x);
      return At(x);
    }

    method CreateClientConnection(familyKnown: bool) returns (c: Pointer)
      requires Inv(Model())
      modifies this
      ensures Inv(Model()) && Model() == CreateClient(old(Model()), familyKnown)
      ensures c == if familyKnown then At(old(nextConnection)) else Null
      ensures connections == if familyKnown
        then old(connections)[c.id := Connection(At(old(nextManager)), At(old(nextGroup)))] else old(connections)
      ensures freedManagers == old(freedManagers) && freedGroups == old(freedGroups)
    {
      StepKeeps(Model(), ClientMade(familyKnown));
      CreateClientIs(Model());
      assert nextConnection !in connections;
      c := ClientConnectionNew(familyKnown);
    }

    method CreateServerConnection(m: nat) returns (c: nat)
      requires CanServe(Model(), m)
      modifies this
      ensures Inv(Model()) && c == old(nextConnection) && Model() == CreateServer(old(Model()), m)
      ensures connections == old(connections)[c := Connection(At(m), At(old(nextGroup)))]
      ensures freedManagers == old(freedManagers) && freedGroups == old(freedGroups)
    {
      CreateServerKeeps(Model(), m);
      CreateServerIs(Model(), m);
      c := ConnectionNew();
      var g := GroupNew();
      GroupAddConnection(g, c);
      AddConnection(m, c);
    }

    /** A TCP listener makes a manager, which nobody holds, and puts the connection on it. */
    method AcceptConnection() returns (c: nat)
      requires Inv(Model())
      modifies this
      ensures Inv(Model()) && c == old(nextConnection) && Model() == Accept(old(Model()))
      ensures connections == old(connections)[c := Connection(At(old(nextManager)), At(old(nextGroup)))]
      ensures freedManagers == old(freedManagers) && freedGroups == old(freedGroups)
    {
      AcceptKeeps(Model());
      var m := SocketManagerNew(Null);
      c := CreateServerConnection(m);
    }

    method CreateCloneOf(source: nat) returns (c: nat)
      requires Inv(Model()) && source in connections
      modifies this
      ensures c == old(nextConnection) && Model() == CreateClone(old(Model()), source)
    {
      assert Uses(Model(), source, connections[source].manager.id);
      assert BelongsTo(Model(), source, connections[source].group.id);
      var s := connections[source];
      c := ConnectionNew();
      AddConnection(s.manager.id, c);
      GroupAddConnection(s.group.id, c);
    }

    method TcpCloneConnection(c: nat)
      requires Inv(Model()) && c in connections
      modifies this
      ensures Model() == MoveByTcp(old(Model()), c)
    {
      var former := connections[c].manager.id;
      assert Uses(Model(), c, former) && Counted(Model(), former);
      var m := SocketManagerNew(Null);
      Unlist(former, c);
      SocketManagerUnref(former);
      connections := connections[c := connections[c].(manager := Null)];
      AddConnection(m, c);
    }

    method UdpCloneConnection(c: nat)
      requires Inv(Model()) && c in connections && UdpCanMove(Model(), c)
      modifies this
      ensures Model() == MoveByUdp(old(Model()), c)
    {
      var former := connections[c].manager.id;
      assert Uses(Model(), c, former) && Counted(Model(), former);
      SocketManagerUnref(former);
      Unlist(former, c);
      var m := SocketManagerNew(Null);
      AddConnection(m, c);
    }

    method LetGroupGo(c: nat)
      requires Inv(Model()) && c in connections
      modifies this
      ensures Model() == LeaveGroup(old(Model()), c)
    {
      GroupFirstIff(Model(), c);
      GroupUnref(c);
      connections := connections[c := connections[c].(group := Null)];
    }

    method LetManagerGo(c: nat)
      requires ManagersRight(Model()) && c in connections && connections[c].manager.At?
      modifies this
      ensures Model() == Detach(old(Model()), c)
    {
      var m := connections[c].manager.id;
      assert Uses(Model(), c, m) && Counted(Model(), m);
      Unlist(m, c);
      SocketManagerUnref(m);
      connections := connections[c := connections[c].(manager := Null)];
    }

    method Free(c: nat)
      requires Inv(Model()) && c in connections
      modifies this
      ensures Inv(Model()) && Model() == FreeConnection(old(Model()), c) && connections == old(connections) - {c}
      ensures var h, m := old(Model()), old(connections)[c].manager.id;
        freedManagers == h.freedManagers + if HeldBy(h, m, c) then [m] else []
      ensures var h, g := old(Model()), old(connections)[c].group.id;
        freedGroups == h.freedGroups + if LastMember(h, g, c) then [g] else []
    {
      FreeConnectionKeeps(Model(), c);
      FreeConnectionFrees(Model(), c);
      LeaveGroupKeeps(Model(), c);
      LetGroupGo(c);
      LetManagerGo(c);
      connections := connections - {c};
    }

    /** The clone, where its protocol wants it. */
    method CloneAndMove(source: nat, move: Move) returns (c: nat)
      requires Inv(Model()) && source in connections
      modifies this
      ensures c == old(nextConnection) && Model() == CloneFull(old(Model()), source, move, true)
    {
      ghost var h := Model();
      CloneCanMove(h, source);
      c := CreateCloneOf(source);
      match move {
        case Stays =>
        case ByTcp => TcpCloneConnection(c);
        case ByUdp => UdpCloneConnection(c);
      }
    }

    method Clone(source: nat, move: Move, ok: bool)
      requires Inv(Model()) && source in connections
      modifies this
      ensures Inv(Model()) && Model() == CloneFull(old(Model()), source, move, ok)
      ensures connections == if ok
        then old(connections)[old(nextConnection) := ClonePlace(old(Model()), source, move)] else old(connections)
      ensures freedGroups == old(freedGroups)
      ensures freedManagers == old(freedManagers) + if ok || move.Stays? then [] else [old(nextManager)]
    {
      CloneFullKeeps(Model(), source, move, ok);
      CloneOutcome(Model(), source, move, ok);
      var c := CloneAndMove(source, move);
      if !ok { Free(c); }
    }
  }
}
