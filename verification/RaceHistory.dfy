/** What becomes of every attempt of a race, told from the events alone: which were started and when,
    which reported what, and whether somebody had won by then. */
module RaceHistory {
  import opened RaceModel

  /** An attempt was started, and how that turned out. */
  datatype Start = Start(at: nat, outcome: Outcome)

  predicate Wins(e: Event) { e.Ready? || (e.TimerFires? && e.outcome.ReadyInside?) }

  /** Somebody has won. */
  predicate WonIn(first: Start, es: seq<Event>) {
    if es == [] then first.outcome.ReadyInside? else WonIn(first, es[..|es| - 1]) || Wins(es[|es| - 1])
  }

  /** The attempts that were started: one at the beginning, and one whenever the timer fires before
      somebody has won. */
  function StartsIn(first: Start, es: seq<Event>): (s: seq<Start>)
    ensures s != []
  {
    if es == [] then [first] else
      var before, last := es[..|es| - 1], es[|es| - 1];
      StartsIn(first, before)
      + if last.TimerFires? && !WonIn(first, before) then [Start(last.now, last.outcome)] else []
  }

  /** The attempt that was the first to be ready, or -1. */
  function WinnerIn(first: Start, es: seq<Event>): (w: int) {
    if es == [] then if first.outcome.ReadyInside? then 0 else -1
    else
      var before, last := es[..|es| - 1], es[|es| - 1];
      if WonIn(first, before) then WinnerIn(first, before)
      else if last.Ready? then last.attempt
      else if Wins(last) then |StartsIn(first, before)|
      else -1
  }

  /** The attempt reported an error when nobody had won yet. */
  predicate ErrorIn(first: Start, es: seq<Event>, k: nat) {
    es != [] &&
    (ErrorIn(first, es[..|es| - 1], k) || (es[|es| - 1] == Error(k) && !WonIn(first, es[..|es| - 1])))
  }

  /** The attempt's connection was closed after somebody had won. */
  predicate ClosedIn(first: Start, es: seq<Event>, k: nat) {
    es != [] &&
    (ClosedIn(first, es[..|es| - 1], k) || (es[|es| - 1] == Closed(k) && WonIn(first, es[..|es| - 1])))
  }

  predicate StartFails(o: Outcome) { o.ErrorInside? || o.Refused? || o.RefusedAndReported? }

  predicate FailedIn(first: Start, es: seq<Event>, k: nat) {
    ErrorIn(first, es, k) || (k < |StartsIn(first, es)| && StartFails(StartsIn(first, es)[k].outcome))
  }

  function Fate(first: Start, es: seq<Event>, k: nat): (a: Attempt) {
    if FailedIn(first, es, k) then Failed
    else if k == WinnerIn(first, es) then Succeeded
    else if k >= |StartsIn(first, es)| then if WonIn(first, es) then Canceled else Pending
    else if !WonIn(first, es) then Connecting
    else if ClosedIn(first, es, k) then Canceled
    else Closing
  }

  /** The attempt has made its terminal report. */
  predicate EndedIn(first: Start, es: seq<Event>, k: nat) {
    || Error(k) in es || Closed(k) in es
    || (k < |StartsIn(first, es)| &&
        var o := StartsIn(first, es)[k].outcome; o.ErrorInside? || o.RefusedAndReported?)
  }

  ghost predicate AsTold(r: Race, first: Start, es: seq<Event>) {
    && (forall k | 0 <= k < |r.attempts| :: r.attempts[k] == Fate(first, es, k))
    && r.winner == WinnerIn(first, es)
    && |r.started| == |StartsIn(first, es)|
    && (forall k | 0 <= k < |r.started| :: r.started[k] == StartsIn(first, es)[k].at)
    && (forall k: nat :: k in r.ended <==> EndedIn(first, es, k))
    && (forall k: nat :: k in r.connected <==>
          k < |StartsIn(first, es)| && StartsIn(first, es)[k].outcome != Refused(false))
  }

  // ---------------------------------------------------------------- one event

  lemma {:induction false} WinnerIff(first: Start, es: seq<Event>)
    ensures WinnerIn(first, es) >= 0 <==> WonIn(first, es)
  {
    if es != [] { WinnerIff(first, es[..|es| - 1]); }
  }

  lemma Unfold(first: Start, es: seq<Event>, e: Event)
    ensures (es + [e])[..|es|] == es && (es + [e])[|es|] == e
    ensures WonIn(first, es + [e]) <==> WonIn(first, es) || Wins(e)
    ensures StartsIn(first, es + [e]) == StartsIn(first, es)
            + if e.TimerFires? && !WonIn(first, es) then [Start(e.now, e.outcome)] else []
  {
    assert (es + [e])[..|es|] == es;
  }

  lemma UnfoldAt(first: Start, es: seq<Event>, e: Event, k: nat)
    ensures ErrorIn(first, es + [e], k) <==> ErrorIn(first, es, k) || (e == Error(k) && !WonIn(first, es))
    ensures ClosedIn(first, es + [e], k) <==> ClosedIn(first, es, k) || (e == Closed(k) && WonIn(first, es))
  {
    assert (es + [e])[..|es|] == es;
  }

  /** The phase of the race, as the state and as the events have it. */
  lemma PhaseIs(r: Race, first: Start, es: seq<Event>, twice: nat, again: nat)
    requires Inv(r, twice, again) && AsTold(r, first, es)
    ensures WonIn(first, es) <==> Won(r)
    ensures !WonIn(first, es) ==> Racing(r) || Lost(r, 1 + again)
  {
    WinnerIff(first, es);
  }

  lemma ReadyFate(r: Race, first: Start, es: seq<Event>, i: nat, k: nat)
    requires AsTold(r, first, es) && !WonIn(first, es) && Racing(r) && i < |r.started| && r.attempts[i].Connecting?
    requires k < |r.attempts|
    ensures OnReady(r, i).attempts[k] == Fate(first, es + [Ready(i)], k)
  {
    WinnerIff(first, es);
    Unfold(first, es, Ready(i));
    UnfoldAt(first, es, Ready(i), k);
    assert r.attempts[i] == Fate(first, es, i) && r.attempts[k] == Fate(first, es, k);
    NotClosedYet(first, es, k);
  }

  lemma {:induction false} NotClosedYet(first: Start, es: seq<Event>, k: nat)
    requires !WonIn(first, es)
    ensures !ClosedIn(first, es, k)
  {
    if es != [] { NotClosedYet(first, es[..|es| - 1], k); }
  }

  lemma ErrorFate(r: Race, first: Start, es: seq<Event>, i: nat, k: nat)
    requires AsTold(r, first, es) && Enabled(r, Error(i)) && k < |r.attempts|
    requires r.complete <==> WonIn(first, es)
    ensures Step(r, Error(i)).attempts[k] == Fate(first, es + [Error(i)], k)
  {
    WinnerIff(first, es);
    Unfold(first, es, Error(i));
    UnfoldAt(first, es, Error(i), k);
    WinnerUnfold(first, es, Error(i));
    assert r.attempts[k] == Fate(first, es, k);
  }

  lemma CloseFate(r: Race, first: Start, es: seq<Event>, i: nat, k: nat)
    requires AsTold(r, first, es) && Enabled(r, Closed(i)) && k < |r.attempts|
    requires WonIn(first, es) ==> r.attempts[i].Closing?
    requires !WonIn(first, es) ==> r.attempts[i].Connecting?
    ensures Step(r, Closed(i)).attempts[k] == Fate(first, es + [Closed(i)], k)
  {
    WinnerIff(first, es);
    Unfold(first, es, Closed(i));
    UnfoldAt(first, es, Closed(i), k);
    WinnerUnfold(first, es, Closed(i));
    assert r.attempts[k] == Fate(first, es, k);
  }

  /** Somebody else is ready when the race is decided. */
  lemma LateReadyFate(first: Start, es: seq<Event>, i: nat, k: nat)
    requires WonIn(first, es)
    ensures Fate(first, es + [Ready(i)], k) == Fate(first, es, k)
  {
    Unfold(first, es, Ready(i));
    UnfoldAt(first, es, Ready(i), k);
    WinnerUnfold(first, es, Ready(i));
  }

  lemma WinnerUnfold(first: Start, es: seq<Event>, e: Event)
    ensures WinnerIn(first, es + [e]) ==
      if WonIn(first, es) then WinnerIn(first, es)
      else if e.Ready? then e.attempt
      else if Wins(e) then |StartsIn(first, es)|
      else -1
  {
    assert (es + [e])[..|es|] == es;
  }

  lemma ReportFate(r: Race, first: Start, es: seq<Event>, e: Event, k: nat, twice: nat, again: nat)
    requires Inv(r, twice, again) && AsTold(r, first, es) && Enabled(r, e) && !e.TimerFires? && k < |r.attempts|
    ensures Step(r, e).attempts[k] == Fate(first, es + [e], k)
  {
    PhaseIs(r, first, es, twice, again);
    match e
    case Ready(i) => if WonIn(first, es) { LateReadyFate(first, es, i, k); } else { ReadyFate(r, first, es, i, k); }
    case Error(i) => ErrorFate(r, first, es, i, k);
    case Closed(i) => CloseFate(r, first, es, i, k);
  }

  /** Starting an attempt, before the race looks at how that turned out. */
  lemma StartedFate(r: Race, first: Start, es: seq<Event>, e: Event, k: nat)
    requires AsTold(r, first, es) && !WonIn(first, es) && e.TimerFires? && k < |r.attempts|
    requires r.next == |r.started| < |r.attempts| && r.attempts[r.next].Pending?
    ensures var o := e.outcome;
      Fate(first, es + [e], k) ==
        if o.ReadyInside? then Settle(r.attempts[r.next := Connecting], r.next)[k]
        else if k == r.next then if StartFails(o) then Failed else Connecting
        else r.attempts[k]
  {
    WinnerIff(first, es);
    Unfold(first, es, e);
    UnfoldAt(first, es, e, k);
    UnfoldAt(first, es, e, r.next);
    NotClosedYet(first, es, k);
    assert r.attempts[k] == Fate(first, es, k) && r.attempts[r.next] == Fate(first, es, r.next);
  }

  lemma LaunchAttempts(r: Race, now: nat, o: Outcome)
    requires r.next < |r.attempts| && !r.complete
    ensures Launch(r, now, o).attempts ==
      if o.ReadyInside? then Settle(r.attempts[r.next := Connecting], r.next)
      else r.attempts[r.next := if StartFails(o) then Failed else Connecting]
  {
    assert r.attempts[r.next := Connecting][r.next := Failed] == r.attempts[r.next := Failed];
    assert r.attempts[r.next := Failed][r.next := Failed] == r.attempts[r.next := Failed];
  }

  lemma LaunchRecords(r: Race, now: nat, o: Outcome)
    requires r.next < |r.attempts| && !r.complete
    ensures var r' := Launch(r, now, o);
      && r'.started == r.started + [now]
      && r'.winner == (if o.ReadyInside? then r.next else r.winner)
      && r'.ended == r.ended + (if o.ErrorInside? || o.RefusedAndReported? then {r.next} else {})
      && r'.connected == r.connected + (if o == Refused(false) then {} else {r.next})
  {}

  /** The terminal reports and connections after one more start. */
  lemma StartTold(r: Race, r': Race, first: Start, es: seq<Event>, e: Event)
    requires AsTold(r, first, es) && !WonIn(first, es) && e.TimerFires? && r.next == |r.started|
    requires r'.started == r.started + [e.now]
    requires r'.ended == r.ended + if e.outcome.ErrorInside? || e.outcome.RefusedAndReported? then {r.next} else {}
    requires r'.connected == r.connected + if e.outcome == Refused(false) then {} else {r.next}
    requires r.next !in r.ended
    ensures |r'.started| == |StartsIn(first, es + [e])|
    ensures forall k | 0 <= k < |r'.started| :: r'.started[k] == StartsIn(first, es + [e])[k].at
    ensures forall k: nat :: k in r'.ended <==> EndedIn(first, es + [e], k)
    ensures forall k: nat :: k in r'.connected <==>
              k < |StartsIn(first, es + [e])| && StartsIn(first, es + [e])[k].outcome != Refused(false)
  {
    Unfold(first, es, e);
    forall k: nat ensures k in r'.ended <==> EndedIn(first, es + [e], k) { StartEnds(r, first, es, e, k); }
  }

  lemma StartEnds(r: Race, first: Start, es: seq<Event>, e: Event, k: nat)
    requires AsTold(r, first, es) && !WonIn(first, es) && e.TimerFires? && r.next == |r.started|
    ensures EndedIn(first, es + [e], k) <==>
            || k in r.ended
            || (k == r.next && (e.outcome.ErrorInside? || e.outcome.RefusedAndReported?))
  {
    Unfold(first, es, e);
    assert Error(k) in es + [e] <==> Error(k) in es;
    assert Closed(k) in es + [e] <==> Closed(k) in es;
    assert k in r.ended <==> EndedIn(first, es, k);
  }

  lemma ReportEnds(r: Race, first: Start, es: seq<Event>, e: Event, k: nat)
    requires AsTold(r, first, es) && Enabled(r, e) && !e.TimerFires?
    ensures k in Step(r, e).ended <==> EndedIn(first, es + [e], k)
  {
    Unfold(first, es, e);
    assert Error(k) in es + [e] <==> Error(k) in es || e == Error(k);
    assert Closed(k) in es + [e] <==> Closed(k) in es || e == Closed(k);
    assert k in r.ended <==> EndedIn(first, es, k);
  }

  lemma ReportLeaves(r: Race, e: Event)
    requires Enabled(r, e) && !e.TimerFires?
    ensures Step(r, e).started == r.started && Step(r, e).connected == r.connected
    ensures Step(r, e).winner == if e.Ready? && !r.complete then e.attempt else r.winner
  {}

  lemma ReportTold(r: Race, first: Start, es: seq<Event>, e: Event, twice: nat, again: nat)
    requires Inv(r, twice, again) && AsTold(r, first, es) && Enabled(r, e) && !e.TimerFires?
    ensures AsTold(Step(r, e), first, es + [e])
  {
    var r' := Step(r, e);
    PhaseIs(r, first, es, twice, again);
    WinnerIff(first, es);
    Unfold(first, es, e);
    WinnerUnfold(first, es, e);
    ReportLeaves(r, e);
    forall k | 0 <= k < |r'.attempts| ensures r'.attempts[k] == Fate(first, es + [e], k) {
      ReportFate(r, first, es, e, k, twice, again);
    }
    forall k: nat ensures k in r'.ended <==> EndedIn(first, es + [e], k) { ReportEnds(r, first, es, e, k); }
  }

  lemma TimerTold(r: Race, first: Start, es: seq<Event>, e: Event, twice: nat, again: nat)
    requires Inv(r, twice, again) && Held(r) && AsTold(r, first, es) && Enabled(r, e) && e.TimerFires?
    ensures AsTold(Step(r, e), first, es + [e])
  {
    var r', idle := Step(r, e), r.(timer := Idle);
    PhaseIs(r, first, es, twice, again);
    WinnerIff(first, es);
    Unfold(first, es, e);
    if WonIn(first, es) {
      LateTimerTold(r, first, es, e);
    } else {
      LaunchAttempts(idle, e.now, e.outcome);
      LaunchRecords(idle, e.now, e.outcome);
      StartTold(r, r', first, es, e);
      forall k | 0 <= k < |r'.attempts| ensures r'.attempts[k] == Fate(first, es + [e], k) {
        StartedFate(r, first, es, e, k);
      }
    }
  }

  /** The timer may still fire when somebody has won; nothing is started any more. */
  lemma LateTimerTold(r: Race, first: Start, es: seq<Event>, e: Event)
    requires AsTold(r, first, es) && WonIn(first, es) && e.TimerFires?
    ensures AsTold(r, first, es + [e]) && AsTold(r.(timer := Idle), first, es + [e])
  {
    Unfold(first, es, e);
    WinnerIff(first, es);
    forall k: nat ensures Fate(first, es + [e], k) == Fate(first, es, k) { UnfoldAt(first, es, e, k); }
    forall k: nat ensures k in r.ended <==> EndedIn(first, es + [e], k) {
      assert Error(k) in es + [e] <==> Error(k) in es;
      assert Closed(k) in es + [e] <==> Closed(k) in es;
      assert k in r.ended <==> EndedIn(first, es, k);
    }
  }

  lemma BeginTold(n: nat, now: nat, o: Outcome)
    requires n > 0
    ensures AsTold(Begin(n, now, o), Start(now, o), [])
  {
    var r, first := Fresh(n), Start(now, o);
    LaunchAttempts(r, now, o);
    LaunchRecords(r, now, o);
  }

  lemma StepTold(r: Race, first: Start, es: seq<Event>, e: Event, twice: nat, again: nat)
    requires Inv(r, twice, again) && Held(r) && AsTold(r, first, es) && Enabled(r, e)
    ensures AsTold(Step(r, e), first, es + [e])
  {
    if e.TimerFires? {
      TimerTold(r, first, es, e, twice, again);
    } else {
      ReportTold(r, first, es, e, twice, again);
    }
  }

  // ---------------------------------------------------------------- every run

  lemma NextTold(n: nat, now: nat, o: Outcome, before: seq<Event>, last: Event)
    requires n > 0 && ValidRun(Begin(n, now, o), before) && Enabled(Run(Begin(n, now, o), before), last)
    requires AsTold(Run(Begin(n, now, o), before), Start(now, o), before)
    ensures AsTold(Step(Run(Begin(n, now, o), before), last), Start(now, o), before + [last])
  {
    var b := Begin(n, now, o);
    RunInv(n, now, o, before);
    RunHeld(n, now, o, before);
    StepTold(Run(b, before), Start(now, o), before, last,
             TwiceAt(Fresh(n), o) + TwiceIn(b, before), AgainAt(Fresh(n), o) + AgainIn(b, before));
  }

  /** Over every run, each attempt is where the events put it, the winner is the first that was ready,
      attempts were started in order when the timer fired, and those that hold a connection or have
      made their terminal report are those the events say. */
  lemma {:induction false} RunAsTold(n: nat, now: nat, o: Outcome, es: seq<Event>)
    requires n > 0 && ValidRun(Begin(n, now, o), es)
    ensures AsTold(Run(Begin(n, now, o), es), Start(now, o), es)
  {
    if es == [] {
      BeginTold(n, now, o);
    } else {
      var before, last := es[..|es| - 1], es[|es| - 1];
      RunAsTold(n, now, o, before);
      NextTold(n, now, o, before, last);
      assert before + [last] == es;
    }
  }

  /** Only attempts that were started report errors. */
  lemma {:induction false} ErrorStarted(n: nat, now: nat, o: Outcome, es: seq<Event>, k: nat)
    requires n > 0 && ValidRun(Begin(n, now, o), es) && ErrorIn(Start(now, o), es, k)
    ensures k < |StartsIn(Start(now, o), es)|
  {
    var before := es[..|es| - 1];
    if ErrorIn(Start(now, o), before, k) {
      ErrorStarted(n, now, o, before, k);
    } else {
      RunAsTold(n, now, o, before);
      RunHeld(n, now, o, before);
    }
  }

  ghost predicate ErrorAt(first: Start, es: seq<Event>, k: nat, m: int) {
    0 <= m < |es| && es[m] == Error(k) && !WonIn(first, es[..m])
  }

  lemma {:induction false} ErrorInIff(first: Start, es: seq<Event>, k: nat)
    ensures ErrorIn(first, es, k) <==> exists m :: ErrorAt(first, es, k, m)
  {
    if es != [] {
      var n := |es| - 1;
      ErrorInIff(first, es[..n], k);
      forall m | 0 <= m < n ensures ErrorAt(first, es, k, m) <==> ErrorAt(first, es[..n], k, m) {
        assert es[..n][..m] == es[..m];
      }
      if ErrorIn(first, es[..n], k) {
        var m :| ErrorAt(first, es[..n], k, m);
        assert ErrorAt(first, es, k, m);
      } else if ErrorIn(first, es, k) {
        assert ErrorAt(first, es, k, n);
      }
    }
  }

  /** An attempt has failed exactly if it reported an error before somebody had won, or its start was
      refused or reported an error. */
  lemma FailedIff(n: nat, now: nat, o: Outcome, es: seq<Event>, k: nat)
    requires n > 0 && ValidRun(Begin(n, now, o), es) && k < n
    ensures var starts := StartsIn(Start(now, o), es);
      Run(Begin(n, now, o), es).attempts[k].Failed? <==>
        || (exists m :: ErrorAt(Start(now, o), es, k, m))
        || (k < |starts| && StartFails(starts[k].outcome))
  {
    RunAsTold(n, now, o, es);
    ErrorInIff(Start(now, o), es, k);
  }

  /** While the race is open an error fails the attempt that reported it and touches no other; when it
      is decided it touches none.  Either way that one has made its terminal report, and only it. */
  lemma ErrorTouchesOne(r: Race, k: nat)
    requires Enabled(r, Error(k))
    ensures var r' := Step(r, Error(k));
      && r'.ended == r.ended + {k} && r'.connected == r.connected && r'.started == r.started && r'.winner == r.winner
      && r'.attempts[k] == (if r.complete then r.attempts[k] else Failed)
      && forall j | 0 <= j < |r.attempts| && j != k :: r'.attempts[j] == r.attempts[j]
  {}

  /** The close of an attempt that is being cancelled concludes it, and touches no other. */
  lemma CloseTouchesOne(r: Race, k: nat)
    requires Enabled(r, Closed(k))
    ensures var r' := Step(r, Closed(k));
      && r'.ended == r.ended + {k} && r'.connected == r.connected && r'.started == r.started && r'.winner == r.winner
      && r'.attempts[k] == (if r.attempts[k] == Closing then Canceled else r.attempts[k])
      && forall j | 0 <= j < |r.attempts| && j != k :: r'.attempts[j] == r.attempts[j]
  {}

  ghost predicate ClosedAt(first: Start, es: seq<Event>, k: nat, m: int) {
    0 <= m < |es| && es[m] == Closed(k) && WonIn(first, es[..m])
  }

  lemma {:induction false} ClosedInIff(first: Start, es: seq<Event>, k: nat)
    ensures ClosedIn(first, es, k) <==> exists m :: ClosedAt(first, es, k, m)
  {
    if es != [] {
      var n := |es| - 1;
      ClosedInIff(first, es[..n], k);
      forall m | 0 <= m < n ensures ClosedAt(first, es, k, m) <==> ClosedAt(first, es[..n], k, m) {
        assert es[..n][..m] == es[..m];
      }
      if ClosedIn(first, es[..n], k) {
        var m :| ClosedAt(first, es[..n], k, m);
        assert ClosedAt(first, es, k, m);
      } else if ClosedIn(first, es, k) {
        assert ClosedAt(first, es, k, n);
      }
    }
  }

  /** An attempt has been cancelled exactly if somebody has won and it had not been started by then, or
      its connection was closed afterwards. */
  lemma CanceledIff(n: nat, now: nat, o: Outcome, es: seq<Event>, k: nat)
    requires n > 0 && ValidRun(Begin(n, now, o), es) && k < n
    ensures Run(Begin(n, now, o), es).attempts[k].Canceled? <==>
            || (WonIn(Start(now, o), es) && k >= |StartsIn(Start(now, o), es)|)
            || exists m :: ClosedAt(Start(now, o), es, k, m)
  {
    RunAsTold(n, now, o, es);
    ClosedInIff(Start(now, o), es, k);
    if ClosedIn(Start(now, o), es, k) {
      ClosedIsCanceled(n, now, o, es, k);
    } else if WonIn(Start(now, o), es) && k >= |StartsIn(Start(now, o), es)| {
      UnstartedIsCanceled(n, now, o, es, k);
    }
  }

  lemma UnstartedIsCanceled(n: nat, now: nat, o: Outcome, es: seq<Event>, k: nat)
    requires n > 0 && ValidRun(Begin(n, now, o), es) && k < n
    requires WonIn(Start(now, o), es) && k >= |StartsIn(Start(now, o), es)|
    ensures Run(Begin(n, now, o), es).attempts[k].Canceled?
  {
    RunAsTold(n, now, o, es);
    RunInv(n, now, o, es);
    WinnerIff(Start(now, o), es);
    if ErrorIn(Start(now, o), es, k) { ErrorStarted(n, now, o, es, k); }
  }

  /** Only an attempt that is being cancelled is closed after somebody has won. */
  lemma {:induction false} ClosedIsCanceled(n: nat, now: nat, o: Outcome, es: seq<Event>, k: nat)
    requires n > 0 && ValidRun(Begin(n, now, o), es) && k < n && ClosedIn(Start(now, o), es, k)
    ensures Run(Begin(n, now, o), es).attempts[k].Canceled?
  {
    var before, last := es[..|es| - 1], es[|es| - 1];
    RunAsTold(n, now, o, es);
    RunAsTold(n, now, o, before);
    if ClosedIn(Start(now, o), before, k) { ClosedIsCanceled(n, now, o, before, k); }
  }
}
