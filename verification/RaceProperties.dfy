/** What every run of the race guarantees, from the moment the candidates are known and under
    any interleaving of timer, ready, error and closed events. */
module RaceProperties {
  import opened RaceModel

  // ---------------------------------------------------------------- one winner, heard once

  /** At most one attempt ever succeeds, it is the recorded winner, and once there is one nothing
      is waiting or connecting any more. */
  lemma SingleWinner(n: nat, now: nat, outcome: Outcome, es: seq<Event>)
    requires n > 0 && ValidRun(Begin(n, now, outcome), es)
    ensures var r := Run(Begin(n, now, outcome), es);
      && (forall k | 0 <= k < |r.attempts| :: r.attempts[k].Succeeded? <==> r.winner == k)
      && (r.winner >= 0 ==>
            && r.heard == [ReadyOf(r.winner)]
            && forall k | 0 <= k < |r.attempts| :: !r.attempts[k].Pending? && !r.attempts[k].Connecting?)
      && (r.winner < 0 ==> forall k | 0 <= k < |r.heard| :: r.heard[k] == EstablishmentError)
      && (r.complete <==> r.heard != [])
  {
    RunInv(n, now, outcome, es);
  }

  /** Nothing that happens after the race is decided changes the verdict, starts an attempt or
      reaches the application. */
  lemma {:induction false} DecidedIsFinal(r: Race, es: seq<Event>, twice: nat, again: nat)
    requires Inv(r, twice, again) && r.complete && ValidRun(r, es)
    ensures var r' := Run(r, es);
      && r'.complete && r'.winner == r.winner && r'.heard == r.heard && r'.started == r.started
      && Inv(r', twice, again)
  {
    if es != [] {
      var before := es[..|es| - 1];
      DecidedIsFinal(r, before, twice, again);
      StepKeeps(Run(r, before), es[|es| - 1], twice, again);
    }
  }

  /** The refusal that makes the all-failed handler run again: the last attempt cannot even be
      started and all the others have failed. */
  predicate RefusesLast(r: Race, outcome: Outcome) {
    && !r.complete && r.next + 1 == |r.attempts|
    && (forall k | 0 <= k < r.next :: r.attempts[k].Failed?)
    && (outcome.Refused? || outcome.RefusedAndReported?)
  }

  predicate RefusalFree(r: Race, es: seq<Event>)
    requires ValidRun(r, es)
  {
    es == [] ||
    (RefusalFree(r, es[..|es| - 1]) &&
     (es[|es| - 1].TimerFires? ==> !RefusesLast(Run(r, es[..|es| - 1]), es[|es| - 1].outcome)))
  }

  lemma {:induction false} AgainFree(r: Race, es: seq<Event>)
    requires ValidRun(r, es)
    ensures AgainIn(r, es) == 0 <==> RefusalFree(r, es)
  {
    if es != [] { AgainFree(r, es[..|es| - 1]); }
  }

  /** The application is told the result once and the context is closed at most once exactly on
      the runs in which no last attempt is refused after all the others failed. */
  lemma ToldOnceIff(n: nat, now: nat, outcome: Outcome, es: seq<Event>)
    requires n > 0 && ValidRun(Begin(n, now, outcome), es)
    ensures var b := Begin(n, now, outcome);
      && (|Run(b, es).heard| <= 1 <==> !RefusesLast(Fresh(n), outcome) && RefusalFree(b, es))
      && (Run(b, es).closes <= 1 <==> !RefusesLast(Fresh(n), outcome) && RefusalFree(b, es))
  {
    RunInv(n, now, outcome, es);
    AgainFree(Begin(n, now, outcome), es);
  }

  /** A single candidate whose start is refused: the application hears the error twice and the
      timer is closed twice. */
  lemma RefusedAloneToldTwice(now: nat, hasConnection: bool)
    ensures var r := Begin(1, now, Refused(hasConnection));
      r.heard == [EstablishmentError, EstablishmentError] && r.closes == 2
  {
    var r2 := Fail(Starting(Fresh(1), now, Refused(hasConnection)), 0);
    assert r2.attempts == [Failed];
    assert AllFailed(r2.attempts);
  }

  lemma NoCandidates(now: nat, outcome: Outcome, es: seq<Event>)
    requires ValidRun(Begin(0, now, outcome), es)
    ensures es == [] && Begin(0, now, outcome).heard == [EstablishmentError]
            && Begin(0, now, outcome).closes == 1 && Begin(0, now, outcome).started == []
    decreases |es|
  {
    if es != [] { NoCandidates(now, outcome, es[..|es| - 1]); }
  }

  // ---------------------------------------------------------------- the context

  /** The counter is the number of finished attempts, plus one for every attempt whose protocol
      both reported and returned an error. */
  lemma CompletedCounts(n: nat, now: nat, outcome: Outcome, es: seq<Event>)
    requires n > 0 && ValidRun(Begin(n, now, outcome), es)
    ensures var b := Begin(n, now, outcome);
      Run(b, es).completed == CountConcluded(Run(b, es).attempts)
                              + (if outcome.RefusedAndReported? then 1 else 0) + TwiceIn(b, es)
  {
    RunInv(n, now, outcome, es);
  }

  /** The context is closed when the last attempt is finished, and not before. */
  lemma ClosedWhenConcluded(n: nat, now: nat, outcome: Outcome, es: seq<Event>)
    requires n > 0 && ValidRun(Begin(n, now, outcome), es)
    ensures var r := Run(Begin(n, now, outcome), es);
      && (r.closes > 0 <==> AllConcluded(r.attempts))
      && (r.closes > 0 ==> r.timer.Idle? && r.complete)
  {
    RunInv(n, now, outcome, es);
    var r := Run(Begin(n, now, outcome), es);
    if Racing(r) {
      var k :| 0 <= k < |r.attempts| && !(r.attempts[k].Failed? || r.attempts[k].Canceled?);
      assert !Concluded(r.attempts[k]);
    }
  }

  /** There is something to wait for: the timer, or an attempt that has not made its last report. */
  predicate Awaits(r: Race) {
    r.timer.Armed? || exists k :: 0 <= k < |r.attempts| && r.attempts[k].Connecting? && k !in r.ended
  }

  /** While the race is open, started attempts are connecting or failed, the rest wait, and there
      is something to wait for unless every attempt was started and each that has not failed was
      closed instead of reporting an error. */
  lemma NeverStalls(n: nat, now: nat, outcome: Outcome, es: seq<Event>)
    requires n > 0 && ValidRun(Begin(n, now, outcome), es)
    requires !Run(Begin(n, now, outcome), es).complete
    ensures var r := Run(Begin(n, now, outcome), es);
      && r.next <= |r.attempts| && r.heard == []
      && (forall k | 0 <= k < r.next :: r.attempts[k].Connecting? || r.attempts[k].Failed?)
      && (forall k | r.next <= k < |r.attempts| :: r.attempts[k].Pending?)
      && (r.timer.Armed? <==> r.next < |r.attempts|)
      && (r.timer.Armed? ==> 0 < r.next == |r.started| && r.timer.due == r.started[r.next - 1] + 250)
      && (!Awaits(r) <==> r.next == |r.attempts| && forall k | 0 <= k < r.next :: r.attempts[k].Failed? || k in r.ended)
      && (exists k :: 0 <= k < |r.attempts| && !r.attempts[k].Failed?)
  {
    RunInv(n, now, outcome, es);
    var r := Run(Begin(n, now, outcome), es);
    var k :| 0 <= k < |r.attempts| && !(r.attempts[k].Failed? || r.attempts[k].Canceled?);
    assert !r.attempts[k].Failed?;
  }

  // ---------------------------------------------------------------- the race ends

  function Weight(a: Attempt): (w: nat) {
    match a case Pending => 3 case Connecting => 2 case Closing => 1 case _ => 0
  }

  function Weights(attempts: seq<Attempt>): (w: nat) {
    if attempts == [] then 0 else Weights(attempts[..|attempts| - 1]) + Weight(attempts[|attempts| - 1])
  }

  /** The measure that every effective event lowers. */
  function Measure(r: Race): (m: nat) { 2 * Weights(r.attempts) + if r.timer.Armed? then 1 else 0 }

  lemma {:induction false} WeightsUpdate(s: seq<Attempt>, i: nat, a: Attempt)
    requires i < |s|
    ensures Weights(s[i := a]) == Weights(s) + Weight(a) - Weight(s[i])
  {
    var m := |s| - 1;
    if i == m {
      assert s[i := a][..m] == s[..m];
    } else {
      assert s[i := a][..m] == s[..m][i := a];
      WeightsUpdate(s[..m], i, a);
    }
  }

  lemma {:induction false} WeightsSettle(s: seq<Attempt>, w: nat)
    ensures Weights(Settle(s, w)) <= Weights(s)
    ensures w < |s| ==> Weights(Settle(s, w)) + Weight(s[w]) <= Weights(s)
  {
    if s != [] {
      var m := |s| - 1;
      assert Settle(s, w)[..m] == Settle(s[..m], w);
      WeightsSettle(s[..m], w);
    }
  }

  lemma LaunchLowers(r: Race, now: nat, outcome: Outcome, twice: nat)
    requires Poised(r, now, twice)
    ensures Measure(Launch(r, now, outcome)) < Measure(r)
  {
    var r1 := Starting(r, now, outcome);
    WeightsUpdate(r.attempts, r.next, Connecting);
    match outcome
    case InProgress =>
    case ReadyInside =>
      WeightsSettle(r1.attempts, r.next);
    case ErrorInside =>
      WeightsUpdate(r1.attempts, r.next, Failed);
    case Refused(_) =>
      WeightsUpdate(r1.attempts, r.next, Failed);
    case RefusedAndReported => ReportedLowers(r, now, twice);
  }

  lemma ReportedLowers(r: Race, now: nat, twice: nat)
    requires Poised(r, now, twice)
    ensures Measure(Launch(r, now, RefusedAndReported)) < Measure(r)
  {
    var r1 := Starting(r, now, RefusedAndReported);
    WeightsUpdate(r.attempts, r.next, Connecting);
    WeightsUpdate(r1.attempts, r.next, Failed);
    assert r1.attempts[r.next := Failed][r.next := Failed] == r1.attempts[r.next := Failed];
  }

  /** Nothing but the record of terminal reports differs. */
  predicate Same(r: Race, r': Race) { r' == r.(ended := r'.ended) }

  /** Each event either changes nothing or lowers the measure. */
  lemma EventLowers(r: Race, e: Event, twice: nat, again: nat)
    requires Inv(r, twice, again) && Enabled(r, e)
    ensures Same(r, Step(r, e)) || Measure(Step(r, e)) < Measure(r)
  {
    match e
    case TimerFires(now, outcome) =>
      if !r.complete { LaunchLowers(r.(timer := Idle), now, outcome, twice); }
    case Ready(i) =>
      if !r.complete { WeightsSettle(r.attempts, i); }
    case Error(i) =>
      if !r.complete { WeightsUpdate(r.attempts, i, Failed); }
    case Closed(i) =>
      if r.attempts[i].Closing? { WeightsUpdate(r.attempts, i, Canceled); }
  }

  function Effective(r: Race, es: seq<Event>): (c: nat)
    requires ValidRun(r, es)
  {
    if es == [] then 0
    else Effective(r, es[..|es| - 1]) + if Same(Run(r, es[..|es| - 1]), Run(r, es)) then 0 else 1
  }

  lemma {:induction false} WeightsBound(s: seq<Attempt>)
    ensures Weights(s) <= 3 * |s|
  {
    if s != [] { WeightsBound(s[..|s| - 1]); }
  }

  lemma {:induction false} EffectiveBelowMeasure(n: nat, now: nat, outcome: Outcome, es: seq<Event>)
    requires n > 0 && ValidRun(Begin(n, now, outcome), es)
    ensures var b := Begin(n, now, outcome); Effective(b, es) + Measure(Run(b, es)) <= Measure(b)
  {
    if es != [] {
      var b, before := Begin(n, now, outcome), es[..|es| - 1];
      EffectiveBelowMeasure(n, now, outcome, before);
      RunInv(n, now, outcome, before);
      EventLowers(Run(b, before), es[|es| - 1],
                  TwiceAt(Fresh(n), outcome) + TwiceIn(b, before),
                  AgainAt(Fresh(n), outcome) + AgainIn(b, before));
    }
  }

  /** No run, however long, has more than 6n + 1 events that change anything. */
  lemma RunsAreBounded(n: nat, now: nat, outcome: Outcome, es: seq<Event>)
    requires n > 0 && ValidRun(Begin(n, now, outcome), es)
    ensures Effective(Begin(n, now, outcome), es) <= 6 * n + 1
  {
    var b := Begin(n, now, outcome);
    EffectiveBelowMeasure(n, now, outcome, es);
    WeightsBound(b.attempts);
  }

  // ---------------------------------------------------------------- reports that are dropped

  /** A terminal report that the race does not act on: an error of an attempt that is being
      cancelled, or the close of one that is still connecting. */
  predicate Drops(r: Race, e: Event) {
    (e.Error? && r.complete) || (e.Closed? && e.attempt < |r.attempts| && r.attempts[e.attempt].Connecting?)
  }

  predicate NothingDropped(r: Race, es: seq<Event>)
    requires ValidRun(r, es)
  {
    es == [] || (NothingDropped(r, es[..|es| - 1]) && !Drops(Run(r, es[..|es| - 1]), es[|es| - 1]))
  }

  /** An attempt that is under way will never report again. */
  predicate Stranded(r: Race) { exists k :: 0 <= k < |r.attempts| && UnderWay(r, k) && k in r.ended }

  lemma StrandedStays(r: Race, e: Event, twice: nat, again: nat)
    requires Inv(r, twice, again) && Held(r) && Enabled(r, e) && Stranded(r)
    ensures Stranded(Step(r, e))
  {
    var k :| 0 <= k < |r.attempts| && UnderWay(r, k) && k in r.ended;
    if e.TimerFires? && !r.complete { LaunchLeaves(r.(timer := Idle), e.now, e.outcome, k); }
    assert UnderWay(Step(r, e), k) && k in Step(r, e).ended;
  }

  /** Starting an attempt leaves it free to report, and every other one as it was. */
  lemma LaunchLeaves(r: Race, now: nat, outcome: Outcome, k: nat)
    requires r.next < |r.attempts| && k < |r.attempts| && r.next !in r.ended
    ensures var r' := Launch(r, now, outcome);
      if k == r.next then UnderWay(r', k) ==> k !in r'.ended
      else (UnderWay(r', k) <==> UnderWay(r, k)) && (k in r'.ended <==> k in r.ended)
  {}

  lemma LaunchStrandsNone(r: Race, now: nat, outcome: Outcome, twice: nat)
    requires Poised(r, now, twice) && Held(r) && !Stranded(r)
    ensures !Stranded(Launch(r, now, outcome))
  {
    var r' := Launch(r, now, outcome);
    forall k | 0 <= k < |r'.attempts| && UnderWay(r', k) ensures k !in r'.ended {
      LaunchLeaves(r, now, outcome, k);
    }
  }

  lemma DropStrands(r: Race, e: Event, twice: nat, again: nat)
    requires Inv(r, twice, again) && Enabled(r, e) && !e.TimerFires? && !Stranded(r)
    ensures Stranded(Step(r, e)) <==> Drops(r, e)
  {
    var r' := Step(r, e);
    if Drops(r, e) {
      assert UnderWay(r', e.attempt) && e.attempt in r'.ended;
    } else {
      forall k | 0 <= k < |r'.attempts| && UnderWay(r', k) ensures k !in r'.ended {
        assert UnderWay(r, k);
      }
    }
  }

  lemma StepStrands(r: Race, e: Event, twice: nat, again: nat)
    requires Inv(r, twice, again) && Held(r) && Enabled(r, e)
    ensures Stranded(Step(r, e)) <==> Stranded(r) || Drops(r, e)
  {
    if Stranded(r) {
      StrandedStays(r, e, twice, again);
    } else if !e.TimerFires? {
      DropStrands(r, e, twice, again);
    } else if !r.complete {
      LaunchStrandsNone(r.(timer := Idle), e.now, e.outcome, twice);
    }
  }

  lemma {:induction false} StrandedIff(n: nat, now: nat, outcome: Outcome, es: seq<Event>)
    requires n > 0 && ValidRun(Begin(n, now, outcome), es)
    ensures Stranded(Run(Begin(n, now, outcome), es)) <==> !NothingDropped(Begin(n, now, outcome), es)
  {
    var b := Begin(n, now, outcome);
    if es == [] {
      assert Fresh(n).attempts[0].Pending?;
      CountNone(Fresh(n).attempts);
      LaunchStrandsNone(Fresh(n), now, outcome, 0);
    } else {
      var before := es[..|es| - 1];
      StrandedIff(n, now, outcome, before);
      RunInv(n, now, outcome, before);
      RunHeld(n, now, outcome, before);
      StepStrands(Run(b, before), es[|es| - 1],
                  TwiceAt(Fresh(n), outcome) + TwiceIn(b, before),
                  AgainAt(Fresh(n), outcome) + AgainIn(b, before));
    }
  }

  lemma StrandedIsOpen(r: Race, twice: nat, again: nat)
    requires Inv(r, twice, again) && Stranded(r)
    ensures r.closes == 0
  {
    var k :| 0 <= k < |r.attempts| && UnderWay(r, k) && k in r.ended;
    assert !Concluded(r.attempts[k]);
  }

  lemma {:induction false} NeverCloses(r: Race, es: seq<Event>, twice: nat, again: nat)
    requires Inv(r, twice, again) && Held(r) && Stranded(r) && ValidRun(r, es)
    ensures Run(r, es).closes == 0 && Stranded(Run(r, es)) && Held(Run(r, es))
    ensures Inv(Run(r, es), twice + TwiceIn(r, es), again + AgainIn(r, es))
  {
    if es == [] {
      StrandedIsOpen(r, twice, again);
    } else {
      var before, last := es[..|es| - 1], es[|es| - 1];
      NeverCloses(r, before, twice, again);
      var t, a := twice + TwiceIn(r, before), again + AgainIn(r, before);
      StepKeeps(Run(r, before), last, t, a);
      StepHeld(Run(r, before), last, t, a);
      StrandedStays(Run(r, before), last, t, a);
      StrandedIsOpen(Run(r, es), twice + TwiceIn(r, es), again + AgainIn(r, es));
    }
  }

  // ---------------------------------------------------------------- the race can be brought to its end

  lemma OpenMoves(r: Race, twice: nat, again: nat) returns (e: Event)
    requires Inv(r, twice, again) && Held(r) && r.closes == 0 && !Stranded(r)
    ensures Enabled(r, e) && !Same(r, Step(r, e)) && !Drops(r, e)
  {
    if r.complete {
      var k :| 0 <= k < |r.attempts| && !Concluded(r.attempts[k]);
      assert UnderWay(r, k);
      e := Closed(k);
      assert Step(r, e).attempts[k].Canceled?;
    } else if r.timer.Armed? {
      e := TimerFires(r.timer.due, InProgress);
      assert |Step(r, e).started| == |r.started| + 1;
    } else {
      var k :| 0 <= k < |r.attempts| && !(r.attempts[k].Failed? || r.attempts[k].Canceled?);
      assert UnderWay(r, k);
      e := Ready(k);
      assert Step(r, e).complete;
    }
  }

  lemma {:induction false} RunPrepends(r: Race, e: Event, es: seq<Event>)
    requires Enabled(r, e) && ValidRun(Step(r, e), es)
    ensures ValidRun(r, [e] + es) && Run(r, [e] + es) == Run(Step(r, e), es)
  {
    var all := [e] + es;
    if es == [] {
      assert all[..0] == [] && all == [e];
    } else {
      RunPrepends(r, e, es[..|es| - 1]);
      assert all[..|all| - 1] == [e] + es[..|es| - 1] && all[|all| - 1] == es[|es| - 1];
    }
  }

  lemma {:induction false} BringsToEnd(r: Race, twice: nat, again: nat) returns (es: seq<Event>)
    requires Inv(r, twice, again) && Held(r) && !Stranded(r)
    ensures ValidRun(r, es) && Run(r, es).closes > 0
    decreases Measure(r)
  {
    if r.closes > 0 { return []; }
    var e := OpenMoves(r, twice, again);
    EventLowers(r, e, twice, again);
    StepKeeps(r, e, twice, again);
    StepHeld(r, e, twice, again);
    StepStrands(r, e, twice, again);
    var rest := BringsToEnd(Step(r, e), twice + TwiceBy(r, e), again + AgainBy(r, e));
    RunPrepends(r, e, rest);
    es := [e] + rest;
  }

  ghost predicate CanClose(r: Race) { exists es :: ValidRun(r, es) && Run(r, es).closes > 0 }

  /** After any run, the context has been closed or can still be closed exactly if no terminal report
      was dropped. */
  lemma ClosableIff(n: nat, now: nat, outcome: Outcome, es: seq<Event>)
    requires n > 0 && ValidRun(Begin(n, now, outcome), es)
    ensures CanClose(Run(Begin(n, now, outcome), es)) <==> NothingDropped(Begin(n, now, outcome), es)
  {
    var b := Begin(n, now, outcome);
    var r := Run(b, es);
    var twice, again := TwiceAt(Fresh(n), outcome) + TwiceIn(b, es), AgainAt(Fresh(n), outcome) + AgainIn(b, es);
    RunInv(n, now, outcome, es);
    RunHeld(n, now, outcome, es);
    StrandedIff(n, now, outcome, es);
    if Stranded(r) {
      forall fs | ValidRun(r, fs) ensures Run(r, fs).closes == 0 { NeverCloses(r, fs, twice, again); }
    } else {
      var fs := BringsToEnd(r, twice, again);
    }
  }

  ghost predicate CanBeTold(r: Race) { exists es :: ValidRun(r, es) && Run(r, es).heard != [] }

  /** Nothing to wait for: no event can happen. */
  lemma {:induction false} StuckIsStill(r: Race, es: seq<Event>, twice: nat, again: nat)
    requires Inv(r, twice, again) && !r.complete && !Awaits(r) && ValidRun(r, es)
    ensures es == []
  {
    if es != [] { StuckIsStill(r, es[..|es| - 1], twice, again); }
  }

  /** The application has heard the result or can still hear one exactly if there is something to
      wait for or the race is decided. */
  lemma ToldIff(n: nat, now: nat, outcome: Outcome, es: seq<Event>)
    requires n > 0 && ValidRun(Begin(n, now, outcome), es)
    ensures var r := Run(Begin(n, now, outcome), es); CanBeTold(r) <==> r.complete || Awaits(r)
  {
    var b := Begin(n, now, outcome);
    var r := Run(b, es);
    var twice, again := TwiceAt(Fresh(n), outcome) + TwiceIn(b, es), AgainAt(Fresh(n), outcome) + AgainIn(b, es);
    RunInv(n, now, outcome, es);
    if r.complete {
      assert ValidRun(r, []) && Run(r, []).heard != [];
    } else if Awaits(r) {
      var e := if r.timer.Armed? then TimerFires(r.timer.due, ReadyInside)
               else var k :| 0 <= k < |r.attempts| && r.attempts[k].Connecting? && k !in r.ended; Ready(k);
      assert Step(r, e).heard != [];
      assert ValidRun(Step(r, e), []);
      RunPrepends(r, e, []);
    } else {
      forall fs | ValidRun(r, fs) ensures Run(r, fs).heard == [] { StuckIsStill(r, fs, twice, again); }
    }
  }

  lemma RunExtends(r: Race, es: seq<Event>, e: Event)
    requires ValidRun(r, es) && Enabled(Run(r, es), e)
    ensures ValidRun(r, es + [e]) && Run(r, es + [e]) == Step(Run(r, es), e)
  {
    assert (es + [e])[..|es|] == es;
  }

  /** The loser of two attempts ends by an error instead of a close: the winner is reported, but the
      context is never closed. */
  lemma ErrorWhileClosingStrands()
    ensures var b, es := Begin(2, 0, InProgress), [TimerFires(250, InProgress)] + [Ready(1)] + [Error(0)];
      && ValidRun(b, es) && Run(b, es).attempts == [Closing, Succeeded] && Run(b, es).heard == [ReadyOf(1)]
      && !CanClose(Run(b, es))
  {
    var b := Begin(2, 0, InProgress);
    assert b.attempts == [Connecting, Pending] && b.timer == Armed(250);
    RunExtends(b, [], TimerFires(250, InProgress));
    assert [] + [TimerFires(250, InProgress)] == [TimerFires(250, InProgress)];
    var r1 := Run(b, [TimerFires(250, InProgress)]);
    assert r1.attempts == [Connecting, Connecting];
    RunExtends(b, [TimerFires(250, InProgress)], Ready(1));
    var r2 := Run(b, [TimerFires(250, InProgress)] + [Ready(1)]);
    assert r2.attempts == [Closing, Succeeded];
    RunExtends(b, [TimerFires(250, InProgress)] + [Ready(1)], Error(0));
    var es := [TimerFires(250, InProgress)] + [Ready(1)] + [Error(0)];
    assert UnderWay(Run(b, es), 0) && 0 in Run(b, es).ended;
    StrandedIff(2, 0, InProgress, es);
    ClosableIff(2, 0, InProgress, es);
  }

  /** The only attempt is closed without an error while it connects: the application never hears
      anything. */
  lemma ClosedWhileConnectingStrands()
    ensures var b, es := Begin(1, 0, InProgress), [Closed(0)];
      && ValidRun(b, es) && Run(b, es).heard == [] && !CanBeTold(Run(b, es)) && !CanClose(Run(b, es))
  {
    var b := Begin(1, 0, InProgress);
    assert b.attempts == [Connecting] && b.timer.Idle?;
    RunExtends(b, [], Closed(0));
    assert [] + [Closed(0)] == [Closed(0)];
    var r := Run(b, [Closed(0)]);
    assert UnderWay(r, 0) && 0 in r.ended;
    StrandedIff(1, 0, InProgress, [Closed(0)]);
    ClosableIff(1, 0, InProgress, [Closed(0)]);
    ToldIff(1, 0, InProgress, [Closed(0)]);
  }

  // ---------------------------------------------------------------- stagger

  lemma {:induction false} StaggerAdds(started: seq<nat>, k: nat)
    requires Staggered(started) && k < |started|
    ensures started[0] + k * CONNECTION_ATTEMPT_DELAY_MS <= started[k]
  {
    if k > 0 { StaggerAdds(started, k - 1); }
  }

  /** Attempt k starts no sooner than k delays after attempt 0, whatever became of the attempts
      in between. */
  lemma StartsAreStaggered(n: nat, now: nat, outcome: Outcome, es: seq<Event>, k: nat)
    requires n > 0 && ValidRun(Begin(n, now, outcome), es)
    requires k < |Run(Begin(n, now, outcome), es).started|
    ensures var s := Run(Begin(n, now, outcome), es).started;
      |s| <= n && s[0] + k * 250 <= s[k]
  {
    RunInv(n, now, outcome, es);
    StaggerAdds(Run(Begin(n, now, outcome), es).started, k);
  }
}
