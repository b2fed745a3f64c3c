/** Who holds whom: a socket manager is counted by its connections and its listener, a connection
    group by its members.  The precondition of every small operation is that what it touches has not
    been freed, so that the definitions below make sense only because nothing is used after it was. */
module RefCounts {
  import opened Sequences

  datatype Pointer = Null | At(id: nat)
  datatype Connection = Connection(manager: Pointer, group: Pointer)
  datatype Manager = Manager(refCount: nat, connections: seq<nat>, listener: Pointer)
  datatype Group = Group(refCount: nat, members: set<nat>)

  datatype Heap = Heap(
    connections: map<nat, Connection>,
    managers: map<nat, Manager>,
    groups: map<nat, Group>,
    listeners: map<nat, nat>,     // the manager of each listener
    nextConnection: nat, nextManager: nat, nextGroup: nat, nextListener: nat,
    freedManagers: seq<nat>, freedGroups: seq<nat>)

  const EMPTY := Heap(map[], map[], map[], map[], 0, 0, 0, 0, [], [])

  // ---------------------------------------------------------------- counting

  function NewManager(h: Heap, listener: Pointer): (h': Heap) {
    h.(managers := h.managers[h.nextManager := Manager(0, [], listener)], nextManager := h.nextManager + 1)
  }

  function RefManager(h: Heap, m: nat): (h': Heap)
    requires m in h.managers
  {
    h.(managers := h.managers[m := h.managers[m].(refCount := h.managers[m].refCount + 1)])
  }

  function UnrefManager(h: Heap, m: nat): (h': Heap)
    requires m in h.managers && h.managers[m].refCount > 0
  {
    if h.managers[m].refCount == 1 then h.(managers := h.managers - {m}, freedManagers := h.freedManagers + [m])
    else h.(managers := h.managers[m := h.managers[m].(refCount := h.managers[m].refCount - 1)])
  }

  function Listed(h: Heap, m: nat, c: nat): (h': Heap)
    requires m in h.managers
  {
    h.(managers := h.managers[m := h.managers[m].(connections := [c] + h.managers[m].connections)])
  }

  function Unlisted(h: Heap, m: nat, c: nat): (h': Heap)
    requires m in h.managers
  {
    h.(managers := h.managers[m := h.managers[m].(connections := Remove(h.managers[m].connections, c))])
  }

  function WithManager(h: Heap, c: nat, p: Pointer): (h': Heap)
    requires c in h.connections
  {
    h.(connections := h.connections[c := h.connections[c].(manager := p)])
  }

  function WithGroup(h: Heap, c: nat, p: Pointer): (h': Heap)
    requires c in h.connections
  {
    h.(connections := h.connections[c := h.connections[c].(group := p)])
  }

  function AddToManager(h: Heap, m: nat, c: nat): (h': Heap)
    requires m in h.managers && c in h.connections
  {
    WithManager(RefManager(Listed(h, m, c), m), c, At(m))
  }

  function NewGroup(h: Heap): (h': Heap) {
    h.(groups := h.groups[h.nextGroup := Group(0, {})], nextGroup := h.nextGroup + 1)
  }

  function AddToGroup(h: Heap, g: nat, c: nat): (h': Heap)
    requires g in h.groups && c in h.connections
  {
    if h.connections[c].group.At? || c in h.groups[g].members then h
    else WithGroup(h.(groups := h.groups[g := Group(h.groups[g].refCount + 1, h.groups[g].members + {c})]), c, At(g))
  }

  /** The connection may let go of its group: the group is there, and if it is the last member so is
      the manager through which the group's protocol state is released. */
  predicate CanUnrefGroup(h: Heap, c: nat) {
    && c in h.connections && h.connections[c].group.At? && h.connections[c].group.id in h.groups
    && h.groups[h.connections[c].group.id].refCount > 0
    && (h.groups[h.connections[c].group.id].refCount == 1 ==>
          h.connections[c].manager.At? && h.connections[c].manager.id in h.managers)
  }

  function UnrefGroup(h: Heap, c: nat): (h': Heap)
    requires CanUnrefGroup(h, c)
  {
    var g := h.connections[c].group.id;
    var count, members := h.groups[g].refCount - 1, h.groups[g].members - {c};
    if count == 0 then h.(groups := h.groups - {g}, freedGroups := h.freedGroups + [g])
    else h.(groups := h.groups[g := Group(count, members)])
  }

  function NewConnection(h: Heap): (h': Heap) {
    h.(connections := h.connections[h.nextConnection := Connection(Null, Null)],
       nextConnection := h.nextConnection + 1)
  }

  // ---------------------------------------------------------------- the promise

  predicate Uses(h: Heap, c: nat, m: nat) { c in h.connections && h.connections[c].manager == At(m) }
  predicate BelongsTo(h: Heap, c: nat, g: nat) { c in h.connections && h.connections[c].group == At(g) }

  /** The count is the number of connections listed, plus one for the listener; and exactly the
      connections that point to the manager are listed, each once. */
  ghost predicate Counted(h: Heap, m: nat) {
    m in h.managers &&
    var x := h.managers[m];
    && x.refCount == |x.connections| + (if x.listener.At? then 1 else 0)
    && Distinct(x.connections)
    && forall c :: c in x.connections <==> Uses(h, c, m)
  }

  ghost predicate GroupCounted(h: Heap, g: nat) {
    && g in h.groups && h.groups[g].refCount == |h.groups[g].members|
    && forall c :: c in h.groups[g].members <==> BelongsTo(h, c, g)
  }

  /** Every manager ever made is either live, and then somebody holds it, or was freed once. */
  ghost predicate ManagersFreed(h: Heap) {
    && Distinct(h.freedManagers)
    && (forall m | m in h.managers :: h.managers[m].refCount > 0 && m !in h.freedManagers)
    && (forall m: nat :: m < h.nextManager <==> m in h.managers || m in h.freedManagers)
  }

  ghost predicate GroupsFreed(h: Heap) {
    && Distinct(h.freedGroups)
    && (forall g | g in h.groups :: h.groups[g].refCount > 0 && g !in h.freedGroups)
    && (forall g: nat :: g < h.nextGroup <==> g in h.groups || g in h.freedGroups)
  }

  ghost predicate ManagersRight(h: Heap) {
    && (forall m | m in h.managers :: Counted(h, m))
    && ManagersFreed(h)
    && (forall c, m | Uses(h, c, m) :: m in h.managers)
  }

  ghost predicate GroupsRight(h: Heap) {
    && (forall g | g in h.groups :: GroupCounted(h, g))
    && GroupsFreed(h)
    && (forall c, g | BelongsTo(h, c, g) :: g in h.groups)
  }

  /** Between calls every connection has a manager and a group. */
  predicate Placed(h: Heap) {
    forall c | c in h.connections :: c < h.nextConnection && h.connections[c].manager.At? && h.connections[c].group.At?
  }

  ghost predicate Right(h: Heap) { ManagersRight(h) && GroupsRight(h) }

  /** Who listens on the manager. */
  function ListenerOf(h: Heap, m: nat): (l: Pointer) { if m in h.managers then h.managers[m].listener else Null }

  /** A listener and its manager know each other. */
  predicate ListenersRight(h: Heap) {
    && (forall l | l in h.listeners :: l < h.nextListener && ListenerOf(h, h.listeners[l]) == At(l))
    && (forall m | m in h.managers && ListenerOf(h, m).At? ::
          ListenerOf(h, m).id in h.listeners && h.listeners[ListenerOf(h, m).id] == m)
  }

  /** Nothing about listeners differs. */
  ghost predicate SameListeners(h: Heap, h': Heap) {
    && h'.listeners == h.listeners && h'.nextListener == h.nextListener
    && forall m :: ListenerOf(h', m) == ListenerOf(h, m)
  }

  lemma SameListenersKeeps(h: Heap, h': Heap)
    requires ListenersRight(h) && SameListeners(h, h')
    ensures ListenersRight(h')
  {
    forall m | m in h'.managers && ListenerOf(h', m).At?
      ensures ListenerOf(h', m).id in h'.listeners && h'.listeners[ListenerOf(h', m).id] == m
    {
      assert ListenerOf(h, m).At?;
    }
  }

  ghost predicate Inv(h: Heap) { Right(h) && Placed(h) && ListenersRight(h) }

  /** The two halves of the promise do not depend on each other's fields. */
  lemma SameManagers(h: Heap, h': Heap)
    requires ManagersRight(h)
    requires h'.managers == h.managers && h'.nextManager == h.nextManager && h'.freedManagers == h.freedManagers
    requires forall c, m :: Uses(h', c, m) <==> Uses(h, c, m)
    ensures ManagersRight(h')
  {
    forall m | m in h'.managers ensures Counted(h', m) { assert Counted(h, m); }
  }

  lemma SameGroups(h: Heap, h': Heap)
    requires GroupsRight(h) && h'.groups == h.groups && h'.nextGroup == h.nextGroup && h'.freedGroups == h.freedGroups
    requires forall c, g :: BelongsTo(h', c, g) <==> BelongsTo(h, c, g)
    ensures GroupsRight(h')
  {
    forall g | g in h'.groups ensures GroupCounted(h', g) { assert GroupCounted(h, g); }
  }

  // ---------------------------------------------------------------- managers

  /** What a manager's users see is the same in both heaps. */
  ghost predicate SameUses(h: Heap, h': Heap, m: nat) { forall c :: Uses(h, c, m) <==> Uses(h', c, m) }

  /** Only manager `m` differs between the two heaps. */
  ghost predicate OnlyManager(h: Heap, h': Heap, m: nat) {
    && (forall x | x != m :: (x in h.managers <==> x in h'.managers) && SameUses(h, h', x))
    && (forall x | x != m && x in h.managers :: h.managers[x] == h'.managers[x])
    && (forall c | Uses(h', c, m) :: m in h'.managers)
  }

  lemma OthersCounted(h: Heap, h': Heap, m: nat)
    requires ManagersRight(h) && OnlyManager(h, h', m)
    ensures forall x | x in h'.managers && x != m :: Counted(h', x)
    ensures forall c, x | Uses(h', c, x) :: x in h'.managers
  {
    forall x | x in h'.managers && x != m ensures Counted(h', x) {
      assert Counted(h, x) && SameUses(h, h', x);
    }
    forall c, x | Uses(h', c, x) ensures x in h'.managers {
      if x != m { assert SameUses(h, h', x); assert Uses(h, c, x); }
    }
  }

  /** A manager that stays is counted right. */
  lemma StayKeeps(h: Heap, h': Heap, m: nat)
    requires ManagersRight(h) && OnlyManager(h, h', m) && m in h.managers
    requires Counted(h', m) && h'.managers[m].refCount > 0
    requires h'.nextManager == h.nextManager && h'.freedManagers == h.freedManagers
    ensures ManagersRight(h')
  {
    OthersCounted(h, h', m);
  }

  lemma FreedKeeps(h: Heap, h': Heap, m: nat)
    requires ManagersRight(h) && OnlyManager(h, h', m) && m in h.managers && m !in h'.managers
    requires h'.nextManager == h.nextManager && h'.freedManagers == h.freedManagers + [m]
    ensures ManagersRight(h')
  {
    OthersCounted(h, h', m);
    assert m !in h.freedManagers;
  }

  lemma MadeKeeps(h: Heap, h': Heap, m: nat)
    requires ManagersRight(h) && OnlyManager(h, h', m)
    requires m == h.nextManager && Counted(h', m) && h'.managers[m].refCount > 0
    requires h'.nextManager == m + 1 && h'.freedManagers == h.freedManagers
    ensures ManagersRight(h')
  {
    OthersCounted(h, h', m);
  }

  lemma AddToManagerKeeps(h: Heap, m: nat, c: nat)
    requires Right(h) && m in h.managers && c in h.connections && h.connections[c].manager == Null
    ensures Right(AddToManager(h, m, c))
    ensures AddToManager(h, m, c).connections == h.connections[c := h.connections[c].(manager := At(m))]
  {
    var h' := AddToManager(h, m, c);
    assert Counted(h, m) && c !in h.managers[m].connections by { assert !Uses(h, c, m); }
    assert forall x :: Uses(h', x, m) <==> Uses(h, x, m) || x == c;
    StayKeeps(h, h', m);
    SameGroups(h, h');
  }

  function OwnManager(h: Heap, c: nat): (h': Heap)
    requires c in h.connections
  {
    AddToManager(NewManager(h, Null), h.nextManager, c)
  }

  lemma OwnManagerIs(h: Heap, c: nat)
    requires c in h.connections
    ensures var h' := OwnManager(h, c);
      && h'.connections == h.connections[c := h.connections[c].(manager := At(h.nextManager))]
      && h'.nextConnection == h.nextConnection && h'.freedManagers == h.freedManagers
  {}

  lemma OwnManagerListens(h: Heap, c: nat)
    requires c in h.connections && h.nextManager !in h.managers
    ensures SameListeners(h, OwnManager(h, c))
  {}

  /** A manager made for a connection that has none. */
  lemma NewManagerKeeps(h: Heap, c: nat)
    requires Right(h) && c in h.connections && h.connections[c].manager == Null
    ensures Right(OwnManager(h, c))
  {
    var m, h' := h.nextManager, OwnManager(h, c);
    assert forall x :: !Uses(h, x, m);
    assert forall x :: Uses(h', x, m) <==> Uses(h, x, m) || x == c;
    MadeKeeps(h, h', m);
    SameGroups(h, h');
  }

  /** The connection leaves its manager: off the list first, then the count. */
  function Detach(h: Heap, c: nat): (h': Heap)
    requires ManagersRight(h) && c in h.connections && h.connections[c].manager.At?
    ensures h'.connections == h.connections[c := h.connections[c].(manager := Null)]
    ensures h'.groups == h.groups && h'.nextGroup == h.nextGroup && h'.freedGroups == h.freedGroups
    ensures h'.nextConnection == h.nextConnection
  {
    var m := h.connections[c].manager.id;
    assert Uses(h, c, m) && Counted(h, m);
    WithManager(UnrefManager(Unlisted(h, m, c), m), c, Null)
  }

  /** Nobody but `c` keeps its manager alive. */
  ghost predicate HeldBy(h: Heap, m: nat, c: nat) {
    m in h.managers && h.managers[m].listener.Null? && forall x | Uses(h, x, m) :: x == c
  }

  lemma LastOnList(cs: seq<nat>, c: nat)
    requires Distinct(cs) && c in cs
    ensures |cs| == 1 <==> forall x | x in cs :: x == c
  {
    if |cs| > 1 { assert cs[0] in cs && cs[1] in cs && cs[0] != cs[1]; } else { assert cs == [c]; }
  }

  /** A manager is freed when the last that holds it lets go, and not before. */
  lemma DetachFrees(h: Heap, c: nat)
    requires ManagersRight(h) && c in h.connections && h.connections[c].manager.At?
    ensures var m := h.connections[c].manager.id;
      Detach(h, c).freedManagers == h.freedManagers + if HeldBy(h, m, c) then [m] else []
  {
    var m := h.connections[c].manager.id;
    assert Uses(h, c, m) && Counted(h, m);
    LastOnList(h.managers[m].connections, c);
  }

  lemma DetachCounts(h: Heap, c: nat, m: nat)
    requires ManagersRight(h) && Uses(h, c, m) && m in Detach(h, c).managers
    ensures Counted(Detach(h, c), m)
  {
    assert Counted(h, m);
    RemoveIs(h.managers[m].connections, c);
    assert forall x :: Uses(Detach(h, c), x, m) <==> Uses(h, x, m) && x != c;
  }

  lemma DetachEmpties(h: Heap, c: nat, m: nat)
    requires ManagersRight(h) && Uses(h, c, m) && m !in Detach(h, c).managers
    ensures forall x :: !Uses(Detach(h, c), x, m)
  {
    assert Counted(h, m);
    LastOnList(h.managers[m].connections, c);
    assert forall x :: Uses(Detach(h, c), x, m) <==> Uses(h, x, m) && x != c;
  }

  lemma DetachListens(h: Heap, c: nat)
    requires ManagersRight(h) && c in h.connections && h.connections[c].manager.At?
    ensures SameListeners(h, Detach(h, c)) && Detach(h, c).nextManager == h.nextManager
  {
    var m := h.connections[c].manager.id;
    assert Uses(h, c, m) && Counted(h, m);
    assert h.managers[m].connections != [];
  }

  lemma DetachKeeps(h: Heap, c: nat)
    requires Right(h) && c in h.connections && h.connections[c].manager.At?
    ensures Right(Detach(h, c))
  {
    var m, h' := h.connections[c].manager.id, Detach(h, c);
    assert Uses(h, c, m) && m in h.managers;
    if m in h'.managers {
      DetachCounts(h, c, m);
      StayKeeps(h, h', m);
    } else {
      DetachEmpties(h, c, m);
      FreedKeeps(h, h', m);
    }
    SameGroups(h, h');
  }

  // ---------------------------------------------------------------- groups

  ghost predicate SameMembers(h: Heap, h': Heap, g: nat) { forall c :: BelongsTo(h, c, g) <==> BelongsTo(h', c, g) }

  ghost predicate OnlyGroup(h: Heap, h': Heap, g: nat) {
    && (forall x | x != g :: (x in h.groups <==> x in h'.groups) && SameMembers(h, h', x))
    && (forall x | x != g && x in h.groups :: h.groups[x] == h'.groups[x])
    && (forall c | BelongsTo(h', c, g) :: g in h'.groups)
  }

  lemma OtherGroupsCounted(h: Heap, h': Heap, g: nat)
    requires GroupsRight(h) && OnlyGroup(h, h', g)
    ensures forall x | x in h'.groups && x != g :: GroupCounted(h', x)
    ensures forall c, x | BelongsTo(h', c, x) :: x in h'.groups
  {
    forall x | x in h'.groups && x != g ensures GroupCounted(h', x) {
      assert GroupCounted(h, x) && SameMembers(h, h', x);
    }
    forall c, x | BelongsTo(h', c, x) ensures x in h'.groups {
      if x != g { assert SameMembers(h, h', x); assert BelongsTo(h, c, x); }
    }
  }

  lemma AddToGroupKeeps(h: Heap, g: nat, c: nat)
    requires Right(h) && g in h.groups && c in h.connections && h.connections[c].group == Null
    ensures Right(AddToGroup(h, g, c))
    ensures AddToGroup(h, g, c).connections == h.connections[c := h.connections[c].(group := At(g))]
  {
    var h' := AddToGroup(h, g, c);
    assert GroupCounted(h, g) && c !in h.groups[g].members by { assert !BelongsTo(h, c, g); }
    assert forall x :: BelongsTo(h', x, g) <==> BelongsTo(h, x, g) || x == c;
    OtherGroupsCounted(h, h', g);
    SameManagers(h, h');
  }

  lemma NewGroupKeeps(h: Heap, c: nat)
    requires Right(h) && c in h.connections && h.connections[c].group == Null
    ensures var h' := AddToGroup(NewGroup(h), h.nextGroup, c);
      Right(h') && h'.connections == h.connections[c := h.connections[c].(group := At(h.nextGroup))]
  {
    var g, h' := h.nextGroup, AddToGroup(NewGroup(h), h.nextGroup, c);
    assert forall x :: !BelongsTo(h, x, g);
    assert forall x :: BelongsTo(h', x, g) <==> BelongsTo(h, x, g) || x == c;
    OtherGroupsCounted(h, h', g);
    SameManagers(h, h');
  }

  ghost predicate LastMember(h: Heap, g: nat, c: nat) { forall x | BelongsTo(h, x, g) :: x == c }

  /** The connection leaves its group, with its manager still held: the last one to leave reaches
      through that manager. */
  function LeaveGroup(h: Heap, c: nat): (h': Heap)
    requires Inv(h) && c in h.connections
    ensures h'.connections == h.connections[c := h.connections[c].(group := Null)]
    ensures h'.managers == h.managers && h'.nextManager == h.nextManager && h'.freedManagers == h.freedManagers
    ensures h'.nextConnection == h.nextConnection
  {
    assert BelongsTo(h, c, h.connections[c].group.id);
    assert Uses(h, c, h.connections[c].manager.id);
    assert GroupCounted(h, h.connections[c].group.id);
    WithGroup(UnrefGroup(h, c), c, Null)
  }

  lemma LastInSet(s: set<nat>, c: nat)
    requires c in s
    ensures |s| == 1 <==> forall x | x in s :: x == c
  {
    var rest := s - {c};
    assert |s| == |rest| + 1;
    if x :| x in rest { assert |rest| > 0; } else { assert rest == {}; }
  }

  lemma LeaveGroupFrees(h: Heap, c: nat)
    requires Inv(h) && c in h.connections
    ensures var g := h.connections[c].group.id;
      LeaveGroup(h, c).freedGroups == h.freedGroups + if LastMember(h, g, c) then [g] else []
  {
    var g := h.connections[c].group.id;
    assert BelongsTo(h, c, g) && GroupCounted(h, g);
    LastInSet(h.groups[g].members, c);
  }

  lemma LeaveGroupCounts(h: Heap, c: nat)
    requires Inv(h) && c in h.connections
    ensures var g, h' := h.connections[c].group.id, LeaveGroup(h, c);
      && g in h.groups && OnlyGroup(h, h', g)
      && (if g in h'.groups then GroupCounted(h', g) && h'.groups[g].refCount > 0 && h'.freedGroups == h.freedGroups
          else h'.freedGroups == h.freedGroups + [g])
  {
    var g, h' := h.connections[c].group.id, LeaveGroup(h, c);
    assert BelongsTo(h, c, g) && GroupCounted(h, g);
    LastInSet(h.groups[g].members, c);
    assert forall x :: BelongsTo(h', x, g) <==> BelongsTo(h, x, g) && x != c;
  }

  lemma LeaveGroupKeeps(h: Heap, c: nat)
    requires Inv(h) && c in h.connections
    ensures Right(LeaveGroup(h, c))
  {
    var g, h' := h.connections[c].group.id, LeaveGroup(h, c);
    LeaveGroupCounts(h, c);
    OtherGroupsCounted(h, h', g);
    assert g !in h.freedGroups;
    SameManagers(h, h');
  }

  lemma LeaveGroupListens(h: Heap, c: nat)
    requires Inv(h) && c in h.connections
    ensures SameListeners(h, LeaveGroup(h, c))
  {
    assert BelongsTo(h, c, h.connections[c].group.id);
  }

  // ---------------------------------------------------------------- operations

  function NewListener(h: Heap): (h': Heap) {
    var l, m := h.nextListener, h.nextManager;
    RefManager(NewManager(h, At(l)), m).(listeners := h.listeners[l := m], nextListener := l + 1)
  }

  function FreeListener(h: Heap, l: nat): (h': Heap)
    requires Inv(h) && l in h.listeners
  {
    var m := h.listeners[l];
    assert ListenerOf(h, m) == At(l) && Counted(h, m);
    UnrefManager(h.(managers := h.managers[m := h.managers[m].(listener := Null)]), m).(listeners := h.listeners - {l})
  }

  /** A client connection to an address of a known family has a manager and a group of its own;
      to any other address there is none. */
  function CreateClient(h: Heap, familyKnown: bool): (h': Heap) {
    var c, h1 := h.nextConnection, NewConnection(h);
    if !familyKnown then h1.(connections := h1.connections - {c})
    else AddToManager(AddToGroup(NewGroup(NewManager(h1, Null)), h.nextGroup, c), h.nextManager, c)
  }

  function CreateServer(h: Heap, m: nat): (h': Heap)
    requires m in h.managers
  {
    var c := h.nextConnection;
    AddToManager(AddToGroup(NewGroup(NewConnection(h)), h.nextGroup, c), m, c)
  }

  /** The manager was made a moment ago and nobody holds it; everything else is right. */
  ghost predicate JustMade(h: Heap, m: nat) {
    && m in h.managers && h.managers[m] == Manager(0, [], Null) && h.nextManager == m + 1
    && Inv(h.(managers := h.managers - {m}, nextManager := m))
  }

  /** A server connection can be put on a manager that somebody holds, or on one just made for it. */
  ghost predicate CanServe(h: Heap, m: nat) { m in h.managers && (Inv(h) || JustMade(h, m)) }

  /** TCP gives an accepted connection its own manager. */
  function Accept(h: Heap): (h': Heap) { CreateServer(NewManager(h, Null), h.nextManager) }

  function CreateClone(h: Heap, source: nat): (h': Heap)
    requires Inv(h) && source in h.connections
  {
    var c, s := h.nextConnection, h.connections[source];
    assert Uses(h, source, s.manager.id) && BelongsTo(h, source, s.group.id);
    AddToGroup(AddToManager(NewConnection(h), s.manager.id, c), s.group.id, c)
  }

  /** TCP gives a clone its own manager: the new manager is there before the old one is left. */
  function MoveByTcp(h: Heap, c: nat): (h': Heap)
    requires Inv(h) && c in h.connections
  {
    var m, h1 := h.connections[c].manager.id, NewManager(h, Null);
    assert Uses(h, c, m) && Counted(h, m);
    AddToManager(WithManager(UnrefManager(Unlisted(h1, m, c), m), c, Null), h.nextManager, c)
  }

  /** UDP lets go of the old manager before it takes the connection off its list. */
  predicate UdpCanMove(h: Heap, c: nat)
    requires Inv(h) && c in h.connections
  {
    var m := h.connections[c].manager.id;
    assert Uses(h, c, m) && Counted(h, m);
    m in UnrefManager(h, m).managers
  }

  function MoveByUdp(h: Heap, c: nat): (h': Heap)
    requires Inv(h) && c in h.connections && UdpCanMove(h, c)
  {
    var m := h.connections[c].manager.id;
    assert Uses(h, c, m) && Counted(h, m);
    AddToManager(NewManager(Unlisted(UnrefManager(h, m), m, c), Null), h.nextManager, c)
  }

  function FreeConnection(h: Heap, c: nat): (h': Heap)
    requires Inv(h) && c in h.connections
  {
    LeaveGroupKeeps(h, c);
    var h1 := Detach(LeaveGroup(h, c), c);
    h1.(connections := h1.connections - {c})
  }

  // ---------------------------------------------------------------- each operation keeps the promise

  lemma NewConnectionKeeps(h: Heap)
    requires Inv(h)
    ensures Right(NewConnection(h))
    ensures h.nextConnection !in h.connections
  {
    var h' := NewConnection(h);
    SameManagers(h, h');
    SameGroups(h, h');
  }

  lemma NewListenerKeeps(h: Heap)
    requires Inv(h)
    ensures Inv(NewListener(h)) && NewListener(h).connections == h.connections
  {
    var m, h' := h.nextManager, NewListener(h);
    assert forall c :: !Uses(h, c, m);
    assert forall c, x :: Uses(h', c, x) <==> Uses(h, c, x);
    MadeKeeps(h, h', m);
    SameGroups(h, h');
    NewListenerListens(h);
  }

  lemma NewListenerListens(h: Heap)
    requires Inv(h)
    ensures ListenersRight(NewListener(h))
  {
    var h', m := NewListener(h), h.nextManager;
    assert m !in h.managers && h.nextListener !in h.listeners;
    assert forall x | x != m :: ListenerOf(h', x) == ListenerOf(h, x);
  }

  lemma FreeListenerListens(h: Heap, l: nat)
    requires Inv(h) && l in h.listeners
    ensures ListenersRight(FreeListener(h, l))
  {
    var h', m := FreeListener(h, l), h.listeners[l];
    assert ListenerOf(h', m) == Null && forall x | x != m :: ListenerOf(h', x) == ListenerOf(h, x);
  }

  lemma FreeListenerCounts(h: Heap, l: nat)
    requires Inv(h) && l in h.listeners
    ensures var h', m := FreeListener(h, l), h.listeners[l];
      && ManagersRight(h')
      && h'.freedManagers == h.freedManagers + if forall c :: !Uses(h, c, m) then [m] else []
  {
    var h', m := FreeListener(h, l), h.listeners[l];
    assert ListenerOf(h, m) == At(l) && Counted(h, m);
    assert forall c, x :: Uses(h', c, x) <==> Uses(h, c, x);
    if m in h'.managers {
      assert h.managers[m].connections[0] in h.managers[m].connections;
      StayKeeps(h, h', m);
    } else {
      assert h.managers[m].connections == [];
      FreedKeeps(h, h', m);
    }
  }

  lemma FreeListenerKeeps(h: Heap, l: nat)
    requires Inv(h) && l in h.listeners
    ensures var h', m := FreeListener(h, l), h.listeners[l];
      && Inv(h') && h'.connections == h.connections && h'.freedGroups == h.freedGroups
      && h'.freedManagers == h.freedManagers + if forall c :: !Uses(h, c, m) then [m] else []
  {
    FreeListenerCounts(h, l);
    FreeListenerListens(h, l);
    SameGroups(h, FreeListener(h, l));
  }

  /** A connection was put in place, and that is all that happened to connections. */
  lemma PlaceKeeps(h: Heap, h': Heap, c: nat, m: nat, g: nat)
    requires Placed(h) && Right(h') && c < h'.nextConnection && h.nextConnection <= h'.nextConnection
    requires h'.connections == h.connections[c := Connection(At(m), At(g))]
    requires ListenersRight(h) && SameListeners(h, h')
    ensures Inv(h')
  {
    SameListenersKeeps(h, h');
  }

  lemma CreateServerIs(h: Heap, m: nat)
    requires m in h.managers
    ensures var h' := CreateServer(h, m);
      && h'.connections == h.connections[h.nextConnection := Connection(At(m), At(h.nextGroup))]
      && h'.nextConnection == h.nextConnection + 1 && SameListeners(h, h')
  {}

  lemma CreateHeldKeeps(h: Heap, m: nat)
    requires Inv(h) && m in h.managers
    ensures Inv(CreateServer(h, m))
  {
    var c, h1 := h.nextConnection, NewConnection(h);
    NewConnectionKeeps(h);
    NewGroupKeeps(h1, c);
    AddToManagerKeeps(AddToGroup(NewGroup(h1), h.nextGroup, c), m, c);
    CreateServerIs(h, m);
    PlaceKeeps(h, CreateServer(h, m), c, m, h.nextGroup);
  }

  /** Accepting a connection leaves the heap as connecting one does. */
  lemma AcceptIsCreateClient(h: Heap)
    ensures Accept(h) == CreateClient(h, true)
  {}

  lemma CreateServerKeeps(h: Heap, m: nat)
    requires CanServe(h, m)
    ensures Inv(CreateServer(h, m))
  {
    if Inv(h) {
      CreateHeldKeeps(h, m);
    } else {
      var h0 := h.(managers := h.managers - {m}, nextManager := m);
      assert h0.managers[m := h.managers[m]] == h.managers;
      assert NewManager(h0, Null) == h;
      AcceptIsCreateClient(h0);
      CreateClientKeeps(h0);
    }
  }

  lemma AcceptKeeps(h: Heap)
    requires Inv(h)
    ensures Inv(Accept(h)) && CanServe(NewManager(h, Null), h.nextManager)
    ensures Accept(h).connections
            == h.connections[h.nextConnection := Connection(At(h.nextManager), At(h.nextGroup))]
    ensures Accept(h).freedManagers == h.freedManagers && Accept(h).freedGroups == h.freedGroups
  {
    var h1, m := NewManager(h, Null), h.nextManager;
    assert m !in h.managers;
    assert h1.managers - {m} == h.managers;
    assert h1.(managers := h1.managers - {m}, nextManager := m) == h;
    CreateServerKeeps(h1, m);
    AcceptIsCreateClient(h);
    CreateClientIs(h);
  }

  lemma CreateClientIs(h: Heap)
    ensures var h', c := CreateClient(h, true), h.nextConnection;
      && h' == OwnManager(AddToGroup(NewGroup(NewConnection(h)), h.nextGroup, c), c)
      && h'.connections == h.connections[c := Connection(At(h.nextManager), At(h.nextGroup))]
      && h'.nextConnection == c + 1 && h'.freedManagers == h.freedManagers && h'.freedGroups == h.freedGroups
      && (h.nextManager !in h.managers ==> SameListeners(h, h'))
  {}

  lemma CreateClientKeeps(h: Heap)
    requires Inv(h)
    ensures Inv(CreateClient(h, true))
  {
    var c, h1 := h.nextConnection, NewConnection(h);
    NewConnectionKeeps(h);
    NewGroupKeeps(h1, c);
    NewManagerKeeps(AddToGroup(NewGroup(h1), h.nextGroup, c), c);
    CreateClientIs(h);
    PlaceKeeps(h, CreateClient(h, true), c, h.nextManager, h.nextGroup);
  }

  lemma CreateCloneIs(h: Heap, source: nat)
    requires Inv(h) && source in h.connections
    ensures var h' := CreateClone(h, source);
      && h'.connections == h.connections[h.nextConnection := h.connections[source]]
      && h'.nextConnection == h.nextConnection + 1 && SameListeners(h, h')
  {
    var g := h.connections[source].group.id;
    assert Uses(h, source, h.connections[source].manager.id);
    assert h.nextConnection !in h.groups[g].members by { assert BelongsTo(h, source, g) && GroupCounted(h, g); }
  }

  lemma CreateCloneKeeps(h: Heap, source: nat)
    requires Inv(h) && source in h.connections
    ensures Inv(CreateClone(h, source))
  {
    var c, s, h1 := h.nextConnection, h.connections[source], NewConnection(h);
    assert Uses(h, source, s.manager.id) && BelongsTo(h, source, s.group.id);
    NewConnectionKeeps(h);
    AddToManagerKeeps(h1, s.manager.id, c);
    AddToGroupKeeps(AddToManager(h1, s.manager.id, c), s.group.id, c);
    CreateCloneIs(h, source);
    PlaceKeeps(h, CreateClone(h, source), c, s.manager.id, s.group.id);
  }

  lemma NewManagerAnyTime(h: Heap, m: nat, c: nat)
    requires m in h.managers && m != h.nextManager && h.managers[m].refCount > 0 && c in h.connections
    ensures WithManager(UnrefManager(Unlisted(NewManager(h, Null), m, c), m), c, Null)
         == NewManager(WithManager(UnrefManager(Unlisted(h, m, c), m), c, Null), Null)
  {}

  lemma MoveByTcpSteps(h: Heap, c: nat)
    requires Inv(h) && c in h.connections
    ensures MoveByTcp(h, c) == OwnManager(Detach(h, c), c)
  {
    var m := h.connections[c].manager.id;
    assert Uses(h, c, m) && Counted(h, m) && m < h.nextManager;
    NewManagerAnyTime(h, m, c);
  }

  lemma MoveByTcpIs(h: Heap, c: nat)
    requires Inv(h) && c in h.connections
    ensures var h' := MoveByTcp(h, c);
      && h' == OwnManager(Detach(h, c), c) && h'.nextConnection == h.nextConnection
      && h'.connections == h.connections[c := h.connections[c].(manager := At(h.nextManager))]
      && h'.freedManagers == Detach(h, c).freedManagers
  {
    MoveByTcpSteps(h, c);
    DetachListens(h, c);
    OwnManagerIs(Detach(h, c), c);
  }

  lemma MoveByTcpListens(h: Heap, c: nat)
    requires Inv(h) && c in h.connections
    ensures SameListeners(h, MoveByTcp(h, c))
  {
    MoveByTcpIs(h, c);
    DetachKeeps(h, c);
    DetachListens(h, c);
    OwnManagerListens(Detach(h, c), c);
  }

  lemma MoveByTcpKeeps(h: Heap, c: nat)
    requires Inv(h) && c in h.connections
    ensures Inv(MoveByTcp(h, c))
  {
    DetachKeeps(h, c);
    NewManagerKeeps(Detach(h, c), c);
    MoveByTcpIs(h, c);
    MoveByTcpListens(h, c);
    PlaceKeeps(h, MoveByTcp(h, c), c, h.nextManager, h.connections[c].group.id);
  }

  lemma EitherOrder(h: Heap, m: nat, c: nat)
    requires m in h.managers && m != h.nextManager && h.managers[m].refCount > 1 && c in h.connections
    ensures AddToManager(NewManager(Unlisted(UnrefManager(h, m), m, c), Null), h.nextManager, c)
         == AddToManager(WithManager(UnrefManager(Unlisted(NewManager(h, Null), m, c), m), c, Null), h.nextManager, c)
  {
    NewManagerAnyTime(h, m, c);
    assert Unlisted(UnrefManager(h, m), m, c) == UnrefManager(Unlisted(h, m, c), m);
  }

  /** The order UDP chose is safe exactly when something else holds the old manager, and then it
      makes no difference. */
  lemma UdpMovesIff(h: Heap, c: nat)
    requires Inv(h) && c in h.connections
    ensures UdpCanMove(h, c) <==> !HeldBy(h, h.connections[c].manager.id, c)
    ensures UdpCanMove(h, c) ==> MoveByUdp(h, c) == MoveByTcp(h, c)
  {
    var m := h.connections[c].manager.id;
    assert Uses(h, c, m) && Counted(h, m) && m < h.nextManager;
    LastOnList(h.managers[m].connections, c);
    if h.managers[m].refCount > 1 { EitherOrder(h, m, c); }
  }

  lemma GoneKeeps(h: Heap, c: nat)
    requires Right(h) && c in h.connections && h.connections[c] == Connection(Null, Null)
    ensures Right(h.(connections := h.connections - {c}))
  {
    var h' := h.(connections := h.connections - {c});
    SameManagers(h, h');
    SameGroups(h, h');
  }

  lemma FreeConnectionKeeps(h: Heap, c: nat)
    requires Inv(h) && c in h.connections
    ensures Inv(FreeConnection(h, c)) && FreeConnection(h, c).connections == h.connections - {c}
  {
    LeaveGroupKeeps(h, c);
    DetachKeeps(LeaveGroup(h, c), c);
    GoneKeeps(Detach(LeaveGroup(h, c), c), c);
    FreeConnectionListens(h, c);
    SameListenersKeeps(h, FreeConnection(h, c));
  }

  lemma FreeConnectionListens(h: Heap, c: nat)
    requires Inv(h) && c in h.connections
    ensures SameListeners(h, FreeConnection(h, c))
  {
    var h1 := LeaveGroup(h, c);
    LeaveGroupKeeps(h, c);
    LeaveGroupListens(h, c);
    DetachListens(h1, c);
    assert SameListeners(Detach(h1, c), FreeConnection(h, c));
  }

  /** Freeing a connection frees its group and its manager exactly when it was their last holder. */
  lemma FreeConnectionFrees(h: Heap, c: nat)
    requires Inv(h) && c in h.connections
    ensures var h', m, g := FreeConnection(h, c), h.connections[c].manager.id, h.connections[c].group.id;
      && h'.freedManagers == h.freedManagers + (if HeldBy(h, m, c) then [m] else [])
      && h'.freedGroups == h.freedGroups + (if LastMember(h, g, c) then [g] else [])
  {
    var h1 := LeaveGroup(h, c);
    LeaveGroupKeeps(h, c);
    LeaveGroupFrees(h, c);
    DetachFrees(h1, c);
    assert forall x, m :: Uses(h1, x, m) <==> Uses(h, x, m);
  }

  /** The manager is let go only after the group: in the other order the last member of a group
      could no longer reach the protocol that releases the group's state. */
  lemma GroupFirstIff(h: Heap, c: nat)
    requires Inv(h) && c in h.connections
    ensures CanUnrefGroup(h, c)
    ensures CanUnrefGroup(Detach(h, c), c) <==> !LastMember(h, h.connections[c].group.id, c)
  {
    var m, g := h.connections[c].manager.id, h.connections[c].group.id;
    assert Uses(h, c, m) && BelongsTo(h, c, g) && GroupCounted(h, g);
    LastInSet(h.groups[g].members, c);
  }

  // ---------------------------------------------------------------- clones

  /** What the protocol does with a clone: QUIC leaves it on the socket of its source. */
  datatype Move = Stays | ByTcp | ByUdp

  function Moved(h: Heap, c: nat, move: Move): (h': Heap)
    requires Inv(h) && c in h.connections && (move.ByUdp? ==> UdpCanMove(h, c))
  {
    match move
    case Stays => h
    case ByTcp => MoveByTcp(h, c)
    case ByUdp => MoveByUdp(h, c)
  }

  /** The source still holds the manager it shares with its clone. */
  lemma CloneCanMove(h: Heap, source: nat)
    requires Inv(h) && source in h.connections
    ensures Inv(CreateClone(h, source)) && h.nextConnection in CreateClone(h, source).connections
    ensures UdpCanMove(CreateClone(h, source), h.nextConnection)
    ensures var h1 := CreateClone(h, source); !HeldBy(h1, h1.connections[h.nextConnection].manager.id, h.nextConnection)
  {
    CreateCloneKeeps(h, source);
    CreateCloneIs(h, source);
    var h1 := CreateClone(h, source);
    assert Uses(h1, source, h.connections[source].manager.id);
    UdpMovesIff(h1, h.nextConnection);
  }

  lemma MovedKeeps(h: Heap, c: nat, move: Move)
    requires Inv(h) && c in h.connections && (move.ByUdp? ==> UdpCanMove(h, c))
    ensures Inv(Moved(h, c, move)) && Moved(h, c, move).connections.Keys == h.connections.Keys
  {
    if !move.Stays? {
      MoveByTcpKeeps(h, c);
      MoveByTcpIs(h, c);
      UdpMovesIff(h, c);
    }
  }

  function CloneFull(h: Heap, source: nat, move: Move, ok: bool): (h': Heap)
    requires Inv(h) && source in h.connections
  {
    CloneCanMove(h, source);
    var h1 := CreateClone(h, source);
    MovedKeeps(h1, h.nextConnection, move);
    var h2 := Moved(h1, h.nextConnection, move);
    if ok then h2 else FreeConnection(h2, h.nextConnection)
  }

  lemma CloneFullKeeps(h: Heap, source: nat, move: Move, ok: bool)
    requires Inv(h) && source in h.connections
    ensures Inv(CloneFull(h, source, move, ok))
  {
    CloneCanMove(h, source);
    var h1 := CreateClone(h, source);
    MovedKeeps(h1, h.nextConnection, move);
    if !ok { FreeConnectionKeeps(Moved(h1, h.nextConnection, move), h.nextConnection); }
  }

  /** Where the clone of `source` is to be found. */
  function ClonePlace(h: Heap, source: nat, move: Move): (c: Connection)
    requires source in h.connections
  {
    Connection(if move.Stays? then h.connections[source].manager else At(h.nextManager), h.connections[source].group)
  }

  lemma CloneFrees(h: Heap, source: nat)
    requires Inv(h) && source in h.connections
    ensures var h1 := CreateClone(h, source);
      h1.freedManagers == h.freedManagers && h1.freedGroups == h.freedGroups && h1.nextManager == h.nextManager
  {}

  /** A clone that worked shares the group of its source, and its manager unless it was moved; it
      frees nothing. */
  lemma CloneIsPlaced(h: Heap, source: nat, move: Move)
    requires Inv(h) && source in h.connections
    ensures var h' := CloneFull(h, source, move, true);
      && h'.connections == h.connections[h.nextConnection := ClonePlace(h, source, move)]
      && h'.freedManagers == h.freedManagers && h'.freedGroups == h.freedGroups
      && (!move.Stays? ==> h.nextManager in h'.managers && h'.managers[h.nextManager].listener.Null?)
  {
    CloneCanMove(h, source);
    CreateCloneIs(h, source);
    CloneFrees(h, source);
    assert h.nextConnection !in h.connections;
    MovedClone(h, CreateClone(h, source), source, move);
  }

  lemma MovedClone(h: Heap, h1: Heap, source: nat, move: Move)
    requires source in h.connections && h.nextConnection !in h.connections && h1.nextManager == h.nextManager
    requires Inv(h1) && h1.connections == h.connections[h.nextConnection := h.connections[source]]
    requires !HeldBy(h1, h1.connections[h.nextConnection].manager.id, h.nextConnection)
    ensures move.ByUdp? ==> UdpCanMove(h1, h.nextConnection)
    ensures var h' := Moved(h1, h.nextConnection, move);
      && h'.connections == h.connections[h.nextConnection := ClonePlace(h, source, move)]
      && h'.freedManagers == h1.freedManagers && h'.freedGroups == h1.freedGroups
      && (!move.Stays? ==> h.nextManager in h'.managers && h'.managers[h.nextManager].listener.Null?)
  {
    MovedIs(h1, h.nextConnection, move);
  }

  lemma MovedIs(h: Heap, c: nat, move: Move)
    requires Inv(h) && c in h.connections && !HeldBy(h, h.connections[c].manager.id, c)
    ensures move.ByUdp? ==> UdpCanMove(h, c)
    ensures var h' := Moved(h, c, move);
      && h'.connections == h.connections[c := if move.Stays? then h.connections[c]
                                              else h.connections[c].(manager := At(h.nextManager))]
      && h'.freedManagers == h.freedManagers && h'.freedGroups == h.freedGroups
      && (!move.Stays? ==> h.nextManager in h'.managers && h'.managers[h.nextManager].listener.Null?)
  {
    if !move.Stays? { MoveOfShared(h, c); }
  }

  lemma MoveOfShared(h: Heap, c: nat)
    requires Inv(h) && c in h.connections && !HeldBy(h, h.connections[c].manager.id, c)
    ensures UdpCanMove(h, c) && MoveByUdp(h, c) == MoveByTcp(h, c)
    ensures var h' := MoveByTcp(h, c);
      && h'.connections == h.connections[c := h.connections[c].(manager := At(h.nextManager))]
      && h'.freedManagers == h.freedManagers && h'.freedGroups == h.freedGroups
      && h.nextManager in h'.managers && h'.managers[h.nextManager].listener.Null?
  {
    UdpMovesIff(h, c);
    MoveByTcpIs(h, c);
    DetachFrees(h, c);
  }

  lemma CloneHolds(h: Heap, h2: Heap, source: nat, move: Move)
    requires Inv(h) && Inv(h2) && source in h.connections
    requires h2.connections == h.connections[h.nextConnection := ClonePlace(h, source, move)]
    requires !move.Stays? ==> h.nextManager in h2.managers && h2.managers[h.nextManager].listener.Null?
    ensures var c, p := h.nextConnection, ClonePlace(h, source, move);
      && (HeldBy(h2, p.manager.id, c) <==> !move.Stays?) && !LastMember(h2, p.group.id, c)
  {
    var c, p := h.nextConnection, ClonePlace(h, source, move);
    assert source != c && BelongsTo(h2, source, p.group.id);
    if move.Stays? {
      assert Uses(h2, source, p.manager.id);
    } else {
      assert forall x :: !Uses(h, x, h.nextManager);
      assert forall x :: Uses(h2, x, h.nextManager) <==> Uses(h, x, h.nextManager) || x == c;
    }
  }

  lemma CloneUndone(h: Heap, h2: Heap, source: nat, move: Move)
    requires Inv(h) && Inv(h2) && source in h.connections
    requires h2.connections == h.connections[h.nextConnection := ClonePlace(h, source, move)]
    requires !move.Stays? ==> h.nextManager in h2.managers && h2.managers[h.nextManager].listener.Null?
    ensures var h' := FreeConnection(h2, h.nextConnection);
      && h'.connections == h.connections && h'.freedGroups == h2.freedGroups
      && h'.freedManagers == h2.freedManagers + if move.Stays? then [] else [h.nextManager]
  {
    CloneHolds(h, h2, source, move);
    TakenBack(h.connections, h.nextConnection, ClonePlace(h, source, move));
    FreeConnectionKeeps(h2, h.nextConnection);
    FreeConnectionFrees(h2, h.nextConnection);
  }

  lemma TakenBack(m: map<nat, Connection>, c: nat, x: Connection)
    requires c !in m
    ensures m[c := x] - {c} == m
  {}

  /** A clone that failed leaves every connection as it was, and frees the manager it was moved to. */
  lemma FailedCloneIsUndone(h: Heap, source: nat, move: Move)
    requires Inv(h) && source in h.connections
    ensures var h' := CloneFull(h, source, move, false);
      && h'.connections == h.connections && h'.freedGroups == h.freedGroups
      && h'.freedManagers == h.freedManagers + if move.Stays? then [] else [h.nextManager]
  {
    CloneIsPlaced(h, source, move);
    CloneFullKeeps(h, source, move, true);
    CloneUndone(h, CloneFull(h, source, move, true), source, move);
  }

  lemma CloneOutcome(h: Heap, source: nat, move: Move, ok: bool)
    requires Inv(h) && source in h.connections
    ensures var h' := CloneFull(h, source, move, ok);
      && h'.connections == (if ok then h.connections[h.nextConnection := ClonePlace(h, source, move)]
                            else h.connections)
      && h'.freedGroups == h.freedGroups
      && h'.freedManagers == h.freedManagers + if ok || move.Stays? then [] else [h.nextManager]
    ensures Inv(CloneFull(h, source, move, true)) && h.nextConnection in CloneFull(h, source, move, true).connections
    ensures CloneFull(h, source, move, false) == FreeConnection(CloneFull(h, source, move, true), h.nextConnection)
  {
    CloneFullKeeps(h, source, move, true);
    CloneIsPlaced(h, source, move);
    FailedCloneIsUndone(h, source, move);
  }

  // ---------------------------------------------------------------- runs

  datatype Event =
    | ListenerMade
    | ListenerFreed(l: nat)
    | ClientMade(familyKnown: bool)
    | ServerMade(m: nat)
    | Accepted
    | Cloned(source: nat, move: Move, ok: bool)
    | ConnectionFreed(c: nat)

  predicate Enabled(h: Heap, e: Event) {
    match e
    case ListenerMade => true
    case ListenerFreed(l) => l in h.listeners
    case ClientMade(_) => true
    case ServerMade(m) => m in h.managers
    case Accepted => true
    case Cloned(source, _, _) => source in h.connections
    case ConnectionFreed(c) => c in h.connections
  }

  function Step(h: Heap, e: Event): (h': Heap)
    requires Inv(h) && Enabled(h, e)
  {
    match e
    case ListenerMade => NewListener(h)
    case ListenerFreed(l) => FreeListener(h, l)
    case ClientMade(familyKnown) => CreateClient(h, familyKnown)
    case ServerMade(m) => CreateServer(h, m)
    case Accepted => Accept(h)
    case Cloned(source, move, ok) => CloneFull(h, source, move, ok)
    case ConnectionFreed(c) => FreeConnection(h, c)
  }

  lemma StepKeeps(h: Heap, e: Event)
    requires Inv(h) && Enabled(h, e)
    ensures Inv(Step(h, e))
  {
    match e
    case ListenerMade => NewListenerKeeps(h);
    case ListenerFreed(l) => FreeListenerKeeps(h, l);
    case ClientMade(familyKnown) =>
      if familyKnown {
        CreateClientKeeps(h);
      } else {
        assert Step(h, e).connections == h.connections;
        SameManagers(h, Step(h, e));
        SameGroups(h, Step(h, e));
        SameListenersKeeps(h, Step(h, e));
      }
    case ServerMade(m) => CreateServerKeeps(h, m);
    case Accepted => AcceptKeeps(h);
    case Cloned(source, move, ok) => CloneFullKeeps(h, source, move, ok);
    case ConnectionFreed(c) => FreeConnectionKeeps(h, c);
  }

  ghost predicate ValidRun(es: seq<Event>)
    decreases |es|, 0
  {
    es == [] || (ValidRun(es[..|es| - 1]) && Enabled(Run(es[..|es| - 1]), es[|es| - 1]))
  }

  /** The heap after the events, from nothing; the promise holds of it. */
  ghost function Run(es: seq<Event>): (h: Heap)
    requires ValidRun(es)
    ensures Inv(h)
    decreases |es|, 1
  {
    if es == [] then EMPTY
    else
      StepKeeps(Run(es[..|es| - 1]), es[|es| - 1]);
      Step(Run(es[..|es| - 1]), es[|es| - 1])
  }

  lemma DistinctIsCounted(s: seq<nat>, t: set<nat>)
    requires Distinct(s) && forall x :: x in s <==> x in t
    ensures |s| == |t|
  {
    if s == [] {
      assert t == {};
    } else {
      var n := |s| - 1;
      assert s == s[..n] + [s[n]] && s[n] !in s[..n];
      DistinctIsCounted(s[..n], t - {s[n]});
    }
  }

  function Users(h: Heap, m: nat): (s: set<nat>) { set c | c in h.connections && Uses(h, c, m) }
  function Members(h: Heap, g: nat): (s: set<nat>) { set c | c in h.connections && BelongsTo(h, c, g) }

  predicate ListensOn(h: Heap, l: nat, m: nat) { l in h.listeners && h.listeners[l] == m }
  function Listeners(h: Heap, m: nat): (s: set<nat>) { set l | l in h.listeners && ListensOn(h, l, m) }

  lemma ListenersAre(h: Heap, m: nat)
    requires Inv(h)
    ensures Listeners(h, m) == if ListenerOf(h, m).At? then {ListenerOf(h, m).id} else {}
    ensures |Listeners(h, m)| == if ListenerOf(h, m).At? then 1 else 0
  {
    forall l ensures l in Listeners(h, m) <==> ListenerOf(h, m) == At(l) {
      if ListenerOf(h, m) == At(l) { assert m in h.managers; }
    }
  }

  /** Over every run: a manager's count is the number of connections that use it and of listeners on
      it, of which there is at most one; and it is gone, and was freed once, exactly when there are
      none of either. */
  lemma ManagersFollowUse(es: seq<Event>, m: nat)
    requires ValidRun(es) && m < Run(es).nextManager
    ensures var h := Run(es);
      && (m in h.managers ==> h.managers[m].refCount == |Users(h, m)| + |Listeners(h, m)|)
      && |Listeners(h, m)| <= 1
      && (m in h.managers <==> (exists c :: Uses(h, c, m)) || (exists l :: ListensOn(h, l, m)))
      && (m in h.managers <==> m !in h.freedManagers)
      && Distinct(h.freedManagers)
  {
    var h := Run(es);
    ListenersAre(h, m);
    assert forall l :: ListensOn(h, l, m) <==> l in Listeners(h, m);
    if m in h.managers {
      assert Counted(h, m);
      DistinctIsCounted(h.managers[m].connections, Users(h, m));
      if ListenerOf(h, m).At? {
        assert ListensOn(h, ListenerOf(h, m).id, m);
      } else {
        assert Uses(h, h.managers[m].connections[0], m);
      }
    }
  }

  lemma GroupsFollowMembership(es: seq<Event>, g: nat)
    requires ValidRun(es) && g < Run(es).nextGroup
    ensures var h := Run(es);
      && (g in h.groups ==> h.groups[g].refCount == |Members(h, g)|)
      && (g in h.groups <==> exists c :: BelongsTo(h, c, g))
      && (g in h.groups <==> g !in h.freedGroups)
      && Distinct(h.freedGroups)
  {
    var h := Run(es);
    if g in h.groups {
      assert GroupCounted(h, g);
      assert h.groups[g].members == Members(h, g);
      var c :| c in h.groups[g].members;
      assert BelongsTo(h, c, g);
    }
  }
}
