/** The calls that the streams of a QUIC group make, as the socket manager hears them. */
module StreamReports {
  import opened StreamGroup
  import SocketModel

  function Hears(m: SocketModel.Manager, x: Call): (m': SocketModel.Manager)
    requires x.c in m.states
    ensures m'.states.Keys == m.states.Keys
  {
    match x
    case Ready(c) => SocketModel.MarkReady(m, c)
    case Ended(c) => SocketModel.OnEnded(m, c, SocketModel.ByClose)
    case Aborted(c) => SocketModel.OnEnded(m, c, SocketModel.ByAbort)
  }

  function HearsAll(m: SocketModel.Manager, calls: seq<Call>): (m': SocketModel.Manager)
    requires forall i | 0 <= i < |calls| :: calls[i].c in m.states
    decreases |calls|
  {
    if calls == [] then m else HearsAll(Hears(m, calls[0]), calls[1..])
  }

  /** What a FIN on a new stream calls. */
  function FinCalls(g: Group, id: nat, first: nat): (calls: seq<Call>) {
    var c := Target(g, id, first);
    if Unidirectional(id) && !OthersSilent(g, c) then
      if NeedsClone(g, id, first) then [Ended(c), Ready(c)] else [Ended(c)]
    else
      if NeedsClone(g, id, first) then [Ready(c)] else []
  }

  lemma FinMakes(g: Group, id: nat, first: nat, empty: bool)
    requires Inv(g) && Enabled(g, PeerFin(id, first, empty)) && id !in g.routes
    ensures Step(g, PeerFin(id, first, empty)).calls == g.calls + FinCalls(g, id, first)
  {
    FinReports(g, id, first, empty);
  }

  lemma OneHeardIs(m: SocketModel.Manager, x: Call)
    requires x.c in m.states
    ensures HearsAll(m, [x]) == Hears(m, x)
  {
    assert [x][1..] == [];
  }

  lemma TwoHeardAre(m: SocketModel.Manager, x: Call, y: Call)
    requires x.c in m.states && y.c in m.states
    ensures HearsAll(m, [x, y]) == Hears(Hears(m, x), y)
  {
    assert [x, y][1..] == [y];
    OneHeardIs(Hears(m, x), y);
  }

  /** A FIN on a new stream keeps the socket manager's promise exactly if the stream is not for reading
      only, or has a connection waiting for it, or nobody else in the group is of use, or nobody else
      depends on the socket. */
  lemma FinKeepsPromiseIff(g: Group, m: SocketModel.Manager, id: nat, first: nat, empty: bool)
    requires Inv(g) && Enabled(g, PeerFin(id, first, empty)) && id !in g.routes
    requires SocketModel.Inv(m) && m.socket.Open? && SocketModel.IsOpen(m, Target(g, id, first))
    ensures Step(g, PeerFin(id, first, empty)).calls == g.calls + FinCalls(g, id, first)
    ensures SocketModel.Inv(HearsAll(m, FinCalls(g, id, first))) <==>
            || !Unidirectional(id) || !NeedsClone(g, id, first)
            || OthersSilent(g, Target(g, id, first)) || |SocketModel.OpenSet(m)| == 1
  {
    FinMakes(g, id, first, empty);
    FinHeard(g, m, id, first);
  }

  lemma FinHeard(g: Group, m: SocketModel.Manager, id: nat, first: nat)
    requires SocketModel.Inv(m) && m.socket.Open? && SocketModel.IsOpen(m, Target(g, id, first))
    ensures SocketModel.Inv(HearsAll(m, FinCalls(g, id, first))) <==>
            || !Unidirectional(id) || !NeedsClone(g, id, first)
            || OthersSilent(g, Target(g, id, first)) || |SocketModel.OpenSet(m)| == 1
  {
    var c := Target(g, id, first);
    OneHeardIs(m, Ready(c));
    OneHeardIs(m, Ended(c));
    TwoHeardAre(m, Ended(c), Ready(c));
    SocketModel.ReadyKeepsIff(m, c);
    SocketModel.EndKeepsIff(m, c, SocketModel.ByClose);
    SocketModel.EndThenReadyIff(m, c, SocketModel.ByClose);
  }

  // ---------------------------------------------------------------- told twice

  /** What the socket manager sees of a call. */
  function EventOf(x: Call): (e: SocketModel.Event) {
    match x
    case Ready(c) => SocketModel.Ready(c)
    case Ended(c) => SocketModel.Ended(c, SocketModel.ByClose)
    case Aborted(c) => SocketModel.Ended(c, SocketModel.ByAbort)
  }

  const FIRST: seq<SocketModel.Event> := [SocketModel.Added(0)] + [EventOf(Ready(0))]
  const BOTH: seq<SocketModel.Event> := FIRST + [SocketModel.Added(1)]

  const TOGETHER: SocketModel.Manager :=
    SocketModel.Manager([1, 0], map[0 := SocketModel.Established, 1 := SocketModel.Establishing],
                        SocketModel.NoListener, SocketModel.Graceful, SocketModel.Open, 0, [], map[])

  const AFTERWARDS: SocketModel.Manager :=
    SocketModel.Manager([1, 0], map[0 := SocketModel.Established, 1 := SocketModel.Established],
                        SocketModel.NoListener, SocketModel.Graceful, SocketModel.Open, 0,
                        [SocketModel.Notice(SocketModel.Connection(1), SocketModel.SaidClosed)],
                        map[SocketModel.Connection(1) := SocketModel.SaidClosed])

  lemma BothOpen(m: SocketModel.Manager)
    requires SocketModel.IsOpen(m, 0) && SocketModel.IsOpen(m, 1)
    ensures |SocketModel.OpenSet(m)| != 1
  {
    var open, d := SocketModel.OpenSet(m), SocketModel.Connection(0);
    assert d in open && SocketModel.Connection(1) in open;
    if |open| == 1 { SocketModel.OneOpen(open, d); }
  }

  lemma BothAdded()
    ensures var m := SocketModel.Fresh(SocketModel.NoListener);
      SocketModel.ValidRun(m, BOTH) && SocketModel.Run(m, BOTH) == TOGETHER
  {
    var m := SocketModel.Fresh(SocketModel.NoListener);
    SocketModel.RunExtends(m, [], SocketModel.Added(0));
    assert [] + [SocketModel.Added(0)] == [SocketModel.Added(0)];
    SocketModel.RunExtends(m, [SocketModel.Added(0)], EventOf(Ready(0)));
    SocketModel.RunExtends(m, FIRST, SocketModel.Added(1));
  }

  lemma EndedAndReady()
    ensures SocketModel.Enabled(TOGETHER, EventOf(Ended(1)))
    ensures var m := SocketModel.Step(TOGETHER, EventOf(Ended(1)));
      SocketModel.Enabled(m, EventOf(Ready(1))) && SocketModel.Step(m, EventOf(Ready(1))) == AFTERWARDS
  {
    assert SocketModel.IsOpen(TOGETHER, 0) && SocketModel.IsOpen(TOGETHER, 1);
    BothOpen(TOGETHER);
  }

  lemma HeardAfterwards()
    ensures var m, es := SocketModel.Fresh(SocketModel.NoListener), BOTH + [EventOf(Ended(1))] + [EventOf(Ready(1))];
      SocketModel.ValidRun(m, es) && SocketModel.Run(m, es) == AFTERWARDS
  {
    var m := SocketModel.Fresh(SocketModel.NoListener);
    BothAdded();
    EndedAndReady();
    SocketModel.RunExtends(m, BOTH, EventOf(Ended(1)));
    SocketModel.RunExtends(m, BOTH + [EventOf(Ended(1))], EventOf(Ready(1)));
  }

  lemma EndsAgain()
    ensures SocketModel.ToldTwice(SocketModel.EndAll(AFTERWARDS, [1, 0], SocketModel.ByClose))
  {
    assert SocketModel.IsOpen(AFTERWARDS, 0) && SocketModel.IsOpen(AFTERWARDS, 1);
    BothOpen(AFTERWARDS);
    assert [1, 0][..1] == [1] && [1][..0] == [];
    var m1 := SocketModel.OnEnded(AFTERWARDS, 1, SocketModel.ByClose);
    assert m1.told[0].who == m1.told[1].who == SocketModel.Connection(1);
    SocketModel.ToldStays(m1, SocketModel.OnEnded(m1, 0, SocketModel.ByClose), SocketModel.TheListener);
  }

  /** The short message of `EndedThenReady`, with the connection made for it joining the socket when the
      message comes, and then the end of the QUIC connection: that connection is told twice that it was
      closed. */
  lemma ToldTwiceByStreams()
    ensures var es := ONE_SENT + [PeerFin(3, 0, false)];
      ValidRun(true, es) && Run(true, es).calls == [Ready(0), Ended(1), Ready(1)]
    ensures var m := SocketModel.Fresh(SocketModel.NoListener);
      var es := [SocketModel.Added(0)] + [EventOf(Ready(0))] + [SocketModel.Added(1)]
                + [EventOf(Ended(1))] + [EventOf(Ready(1))];
      && SocketModel.ValidRun(m, es) && (forall c | c in [1, 0] :: c in SocketModel.Run(m, es).states)
      && SocketModel.ToldTwice(SocketModel.EndAll(SocketModel.Run(m, es), [1, 0], SocketModel.ByClose))
  {
    EndedThenReady();
    HeardAfterwards();
    EndsAgain();
  }
}
