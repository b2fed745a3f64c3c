/** One UDP socket serves many peers: datagrams are told apart by where they come from. */
module Demux {
  import opened Addresses
  import opened AttemptEndpoints

  datatype Delivery = Delivery(from: Address, to: nat)

  /** Connections are numbered as they are made; `made[c]` is the address connection `c` is for. */
  datatype State = State(
    table: map<Address, nat>,
    made: seq<Address>,
    listening: bool,
    delivered: seq<Delivery>)

  datatype Event =
    | Datagram(from: Address)
    | ConnectedTo(remote: Address)     // a client connection is made and enters the table
    | ListenerClosed

  function Fresh(listening: bool): (s: State) { State(map[], [], listening, []) }

  function Insert(s: State, a: Address, c: nat): (s': State) {
    if a.Unspecified? || a in s.table then s else s.(table := s.table[a := c])
  }

  predicate Known(s: State, a: Address) { !a.Unspecified? && a in s.table }

  function Make(s: State, a: Address): (s': State) { Insert(s.(made := s.made + [a]), a, |s.made|) }

  function Receive(s: State, a: Address): (s': State) {
    if Known(s, a) then s.(delivered := s.delivered + [Delivery(a, s.table[a])])
    else if !s.listening then s
    else Make(s, a).(delivered := s.delivered + [Delivery(a, |s.made|)])
  }

  /** A client connects once, before its socket has received anything. */
  predicate Enabled(s: State, e: Event) {
    match e
    case Datagram(_) => true
    case ConnectedTo(a) => !a.Unspecified? && a !in s.table
    case ListenerClosed => true
  }

  function Step(s: State, e: Event): (s': State) {
    match e
    case Datagram(a) => Receive(s, a)
    case ConnectedTo(a) => Make(s, a)
    case ListenerClosed => s.(listening := false)
  }

  predicate ValidRun(s: State, es: seq<Event>)
  {
    es == [] || (ValidRun(s, es[..|es| - 1]) && Enabled(Run(s, es[..|es| - 1]), es[|es| - 1]))
  }

  function Run(s: State, es: seq<Event>): (s': State) {
    if es == [] then s else Step(Run(s, es[..|es| - 1]), es[|es| - 1])
  }

  // ---------------------------------------------------------------- invariant

  /** The table has exactly the connections for addresses of a known family, each under its own. */
  ghost predicate TableRight(s: State) {
    && (forall a | a in s.table :: !a.Unspecified? && s.table[a] < |s.made| && s.made[s.table[a]] == a)
    && (forall c | 0 <= c < |s.made| :: s.made[c].Unspecified? || (s.made[c] in s.table && s.table[s.made[c]] == c))
  }

  /** What arrived went to a connection for its address; an address of no known family got a
      connection every time. */
  ghost predicate DeliveredRight(s: State) {
    && (forall i | 0 <= i < |s.delivered| ::
          s.delivered[i].to < |s.made| && s.made[s.delivered[i].to] == s.delivered[i].from)
    && (forall i, j | 0 <= i < j < |s.delivered| && s.delivered[i].from.Unspecified?
                      && s.delivered[j].from.Unspecified? ::
          s.delivered[i].to != s.delivered[j].to)
  }

  ghost predicate Inv(s: State) { TableRight(s) && DeliveredRight(s) }

  lemma MakeKeeps(s: State, a: Address)
    requires Inv(s) && !Known(s, a)
    ensures Inv(Make(s, a)) && Make(s, a).made == s.made + [a]
  {
    var s' := Make(s, a);
    forall c | 0 <= c < |s'.made|
      ensures s'.made[c].Unspecified? || (s'.made[c] in s'.table && s'.table[s'.made[c]] == c)
    {
      if c < |s.made| { assert s'.made[c] == s.made[c]; }
    }
  }

  lemma ReceiveKeeps(s: State, a: Address)
    requires Inv(s)
    ensures Inv(Receive(s, a))
  {
    if !Known(s, a) { MakeKeeps(s, a); }
  }

  lemma {:induction false} RunKeeps(s: State, es: seq<Event>)
    requires Inv(s) && ValidRun(s, es)
    ensures Inv(Run(s, es))
  {
    if es != [] {
      var n := |es| - 1;
      RunKeeps(s, es[..n]);
      match es[n]
      case Datagram(a) => ReceiveKeeps(Run(s, es[..n]), a);
      case ConnectedTo(a) => MakeKeeps(Run(s, es[..n]), a);
      case ListenerClosed =>
    }
  }

  // ---------------------------------------------------------------- what peers see

  /** Over every run, the datagrams from one address go to one connection exactly if its family is
      known, and different addresses never share a connection. */
  lemma OneConnectionEach(listening: bool, es: seq<Event>, i: nat, j: nat)
    requires ValidRun(Fresh(listening), es) && i < j < |Run(Fresh(listening), es).delivered|
    ensures var d := Run(Fresh(listening), es).delivered;
      d[i].to == d[j].to <==> d[i].from == d[j].from && !d[i].from.Unspecified?
  {
    RunKeeps(Fresh(listening), es);
    var s := Run(Fresh(listening), es);
    var a, b := s.delivered[i], s.delivered[j];
    assert s.made[a.to] == a.from && s.made[b.to] == b.from;
  }

  /** Two datagrams from an address of no known family: two connections. */
  lemma NoFamilyNoRoute()
    ensures var s := Receive(Receive(Fresh(true), Unspecified), Unspecified);
      s.delivered == [Delivery(Unspecified, 0), Delivery(Unspecified, 1)]
  {}

  /** One connection per address: no two entries of the table share a connection, and no two
      connections an address of a known family. */
  lemma TableIsOneToOne(listening: bool, es: seq<Event>)
    requires ValidRun(Fresh(listening), es)
    ensures var s := Run(Fresh(listening), es);
      && (forall a, b | a in s.table && b in s.table && a != b :: s.table[a] != s.table[b])
      && (forall c, d | 0 <= c < d < |s.made| && !s.made[c].Unspecified? :: s.made[c] != s.made[d])
  {
    RunKeeps(Fresh(listening), es);
    var s := Run(Fresh(listening), es);
    forall a, b | a in s.table && b in s.table && a != b ensures s.table[a] != s.table[b] {
      assert s.made[s.table[a]] == a && s.made[s.table[b]] == b;
    }
  }

  function Datagrams(from: seq<Address>): (es: seq<Event>) {
    seq(|from|, i requires 0 <= i < |from| => Datagram(from[i]))
  }

  ghost predicate AllServed(s: State, from: seq<Address>) {
    && FirstOccurrences(from, s.made) && s.listening && |s.delivered| == |from|
    && forall i | 0 <= i < |from| :: s.delivered[i].from == from[i]
  }

  lemma OneMoreServed(s: State, from: seq<Address>, a: Address)
    requires Inv(s) && AllServed(s, from) && !a.Unspecified?
    ensures AllServed(Receive(s, a), from + [a])
  {
    OneMore(from, s.made, a);
    assert Known(s, a) <==> a in s.made by {
      if a in s.made { var c :| 0 <= c < |s.made| && s.made[c] == a; }
      if a in s.table { assert s.made[s.table[a]] == a; }
    }
  }

  /** Whatever arrives at an open listener is delivered, and the connections made are for the
      different senders in the order they were first heard of. */
  lemma {:induction false} EverySenderIsServed(from: seq<Address>)
    requires forall a | a in from :: !a.Unspecified?
    ensures ValidRun(Fresh(true), Datagrams(from)) && AllServed(Run(Fresh(true), Datagrams(from)), from)
  {
    if from != [] {
      var n := |from| - 1;
      assert Datagrams(from)[..n] == Datagrams(from[..n]) && from == from[..n] + [from[n]];
      EverySenderIsServed(from[..n]);
      RunKeeps(Fresh(true), Datagrams(from[..n]));
      OneMoreServed(Run(Fresh(true), Datagrams(from[..n])), from[..n], from[n]);
    }
  }

  // ---------------------------------------------------------------- told from the events

  predicate StillListening(listening: bool, es: seq<Event>) { listening && ListenerClosed !in es }

  /** The addresses connections were made for: each client's, and each sender's that came to an open
      listener without having one, or without being of a family that can have one. */
  function MadeFor(listening: bool, es: seq<Event>): (s: seq<Address>) {
    if es == [] then [] else
      var before, last := es[..|es| - 1], es[|es| - 1];
      var s := MadeFor(listening, before);
      match last
      case ConnectedTo(a) => s + [a]
      case Datagram(a) => if StillListening(listening, before) && (a.Unspecified? || a !in s) then s + [a] else s
      case ListenerClosed => s
  }

  /** Where each datagram goes: to the connection its sender has, whoever listens, or to the new one an
      open listener makes for it. */
  function Served(listening: bool, es: seq<Event>): (s: seq<Delivery>) {
    if es == [] then [] else
      var before, last := es[..|es| - 1], es[|es| - 1];
      var s, made := Served(listening, before), MadeFor(listening, before);
      match last
      case Datagram(a) =>
        if !a.Unspecified? && a in made then s + [Delivery(a, FirstIndex(made, a))]
        else if StillListening(listening, before) then s + [Delivery(a, |made|)]
        else s
      case _ => s
  }

  /** The event gives `a` a connection. */
  predicate GivesConnection(listening: bool, es: seq<Event>, j: int, a: Address) {
    0 <= j < |es| && (es[j] == ConnectedTo(a) || (es[j] == Datagram(a) && StillListening(listening, es[..j])))
  }

  lemma GivesMore(listening: bool, es: seq<Event>, j: int, a: Address)
    requires es != [] && j < |es| - 1
    ensures GivesConnection(listening, es, j, a) <==> GivesConnection(listening, es[..|es| - 1], j, a)
  {
    if 0 <= j { assert es[..|es| - 1][..j] == es[..j]; }
  }

  /** An address has a connection exactly if a client connected to it, or it sent something to a
      listener that was still open. */
  lemma {:induction false} HasConnectionIff(listening: bool, es: seq<Event>, a: Address)
    ensures a in MadeFor(listening, es) <==> exists j :: GivesConnection(listening, es, j, a)
  {
    if es != [] {
      var n := |es| - 1;
      HasConnectionIff(listening, es[..n], a);
      forall j | j < n
        ensures GivesConnection(listening, es, j, a) <==> GivesConnection(listening, es[..n], j, a)
      {
        GivesMore(listening, es, j, a);
      }
      if a in MadeFor(listening, es) && a !in MadeFor(listening, es[..n]) {
        assert GivesConnection(listening, es, n, a);
      }
      if j :| GivesConnection(listening, es[..n], j, a) { assert GivesConnection(listening, es, j, a); }
    }
  }

  lemma KnownIff(s: State, a: Address)
    requires TableRight(s)
    ensures Known(s, a) <==> !a.Unspecified? && a in s.made
    ensures Known(s, a) ==> s.table[a] == FirstIndex(s.made, a)
  {
    if a in s.made && !a.Unspecified? {
      var c := FirstIndex(s.made, a);
      assert s.made[c] in s.table && s.table[s.made[c]] == c;
    }
    if Known(s, a) { assert s.made[s.table[a]] == a; }
  }

  ghost predicate AsTold(s: State, listening: bool, es: seq<Event>) {
    && s.delivered == Served(listening, es) && s.made == MadeFor(listening, es)
    && s.listening == StillListening(listening, es)
  }

  lemma StepAsTold(s: State, listening: bool, before: seq<Event>, last: Event)
    requires AsTold(s, listening, before) && TableRight(s)
    ensures AsTold(Step(s, last), listening, before + [last])
  {
    assert (before + [last])[..|before|] == before;
    match last
    case Datagram(a) => KnownIff(s, a);
    case ConnectedTo(_) =>
    case ListenerClosed =>
  }

  /** Over every run, whatever connects, closes and arrives in whatever order: the connections made,
      the datagrams delivered and where they went are what the events say. */
  lemma {:induction false} DeliveredAsTold(listening: bool, es: seq<Event>)
    requires ValidRun(Fresh(listening), es)
    ensures AsTold(Run(Fresh(listening), es), listening, es)
  {
    if es != [] {
      var before := es[..|es| - 1];
      DeliveredAsTold(listening, before);
      RunKeeps(Fresh(listening), before);
      StepAsTold(Run(Fresh(listening), before), listening, before, es[|es| - 1]);
      assert before + [es[|es| - 1]] == es;
    }
  }

  /** A client hears its server although nobody listens. */
  lemma ClientHears(a: Address)
    requires !a.Unspecified?
    ensures var es := [ConnectedTo(a)] + [Datagram(a)];
      ValidRun(Fresh(false), es) && Run(Fresh(false), es).delivered == [Delivery(a, 0)]
  {
    var es := [ConnectedTo(a)] + [Datagram(a)];
    assert es[..1] == [ConnectedTo(a)] && es[..1][..0] == [];
    assert ValidRun(Fresh(false), []) && ValidRun(Fresh(false), es[..1]);
    DeliveredAsTold(false, es);
    assert MadeFor(false, es[..1]) == [a];
  }

  // ---------------------------------------------------------------- the socket

  class Socket {
    var table: map<Address, nat>
    var made: seq<Address>
    var listening: bool
    var delivered: seq<Delivery>

    ghost function Model(): (s: State)
      reads this
    {
      State(table, made, listening, delivered)
    }

    constructor (listening: bool)
      ensures Model() == Fresh(listening)
    {
      this.listening := listening;
      table, made, delivered := map[], [], [];
    }

    method GetFromDemuxTable(a: Address) returns (found: bool, c: nat)
      ensures found == Known(Model(), a) && (found ==> c == table[a])
    {
      if a.Unspecified? || a !in table { return false, 0; }
      return true, table[a];
    }

    method InsertDemuxedConnection(a: Address, c: nat) returns (ok: bool)
      modifies this`table
      ensures Model() == Insert(old(Model()), a, c)
      ensures ok <==> !a.Unspecified? && a !in old(table)
    {
      if a.Unspecified? { return false; }
      if a in table { return false; }
      table := table[a := c];
      return true;
    }

    method MultiplexReceivedMessage(a: Address)
      requires Inv(Model())
      modifies this
      ensures Inv(Model()) && Model() == Step(old(Model()), Datagram(a))
      ensures |made| == |old(made)| + if !Known(old(Model()), a) && listening then 1 else 0
      ensures if listening || (!a.Unspecified? && a in old(made)) then
                exists c :: 0 <= c < |made| && made[c] == a && delivered == old(delivered) + [Delivery(a, c)]
              else delivered == old(delivered)
    {
      ReceiveKeeps(Model(), a);
      KnownIff(Model(), a);
      var found, c := GetFromDemuxTable(a);
      if !found {
        if !listening { return; }
        c := |made|;
        made := made + [a];
        var _ := InsertDemuxedConnection(a, c);
      }
      delivered := delivered + [Delivery(a, c)];
    }
  }
}
