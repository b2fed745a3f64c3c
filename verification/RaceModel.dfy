/** The staggered race between connection attempts (section 4.3.2 of RFC 9623), as a state
    machine over values.  Every event is given in closed form: what the whole array looks like
    afterwards, not the order in which callbacks touch it.  The class in RacingContext.dfy does
    the work step by step and is proved to land on these states. */
module RaceModel {

  datatype Attempt = Pending | Connecting | Closing | Succeeded | Failed | Canceled

  /** How `init` of the protocol answers when an attempt is started. */
  datatype Outcome =
    | InProgress              // returned 0, will call back later
    | ReadyInside             // called ready before returning 0, as UDP does
    | ErrorInside             // called establishment_error before returning 0
    | Refused(hasConnection: bool)  // returned an error; was the Connection already allocated?
    | RefusedAndReported      // called establishment_error and then returned an error

  datatype Timer = Idle | Armed(due: nat)

  /** What the application hears. */
  datatype Notice = ReadyOf(attempt: nat) | EstablishmentError

  datatype Race = Race(
    attempts: seq<Attempt>,
    next: nat,
    complete: bool,
    winner: int,
    completed: nat,
    timer: Timer,
    closes: nat,            // calls of uv_close on the stagger timer
    heard: seq<Notice>,
    started: seq<nat>,      // started[k] is when attempt k was started
    connected: set<nat>,    // attempts that hold a Connection
    ended: set<nat>)        // attempts whose Connection has made its terminal report

  datatype Event =
    | TimerFires(now: nat, outcome: Outcome)
    | Ready(attempt: nat)
    | Error(attempt: nat)
    | Closed(attempt: nat)

  const CONNECTION_ATTEMPT_DELAY_MS: nat := 250

  predicate Concluded(a: Attempt) { a.Failed? || a.Canceled? || a.Succeeded? }

  predicate AllFailed(attempts: seq<Attempt>) {
    forall k | 0 <= k < |attempts| :: attempts[k].Failed? || attempts[k].Canceled?
  }

  predicate AllConcluded(attempts: seq<Attempt>) {
    forall k | 0 <= k < |attempts| :: Concluded(attempts[k])
  }

  function CountConcluded(attempts: seq<Attempt>): (c: nat) {
    if attempts == [] then 0
    else CountConcluded(attempts[..|attempts| - 1]) + if Concluded(attempts[|attempts| - 1]) then 1 else 0
  }

  /** Pending attempts, which a win cancels on the spot. */
  function CountPending(attempts: seq<Attempt>): (c: nat) {
    if attempts == [] then 0
    else CountPending(attempts[..|attempts| - 1]) + if attempts[|attempts| - 1].Pending? then 1 else 0
  }

  // ---------------------------------------------------------------- events in closed form

  function AllFailedHandler(r: Race): (r': Race) {
    r.(complete := true, heard := r.heard + [EstablishmentError], closes := r.closes + 1, timer := Idle)
  }

  function Conclude(r: Race): (r': Race) {
    if AllFailed(r.attempts) then AllFailedHandler(r)
    else if AllConcluded(r.attempts) then r.(closes := r.closes + 1, timer := Idle)
    else r
  }

  function Fail(r: Race, i: nat): (r': Race)
    requires i < |r.attempts|
  {
    Conclude(r.(attempts := r.attempts[i := Failed], completed := r.completed + 1))
  }

  function Cancel(r: Race, i: nat): (r': Race)
    requires i < |r.attempts|
  {
    Conclude(r.(attempts := r.attempts[i := Canceled], completed := r.completed + 1))
  }

  /** The array after attempt `w` has won. */
  function Settle(attempts: seq<Attempt>, w: nat): (settled: seq<Attempt>)
  {
    seq(|attempts|, k requires 0 <= k < |attempts| =>
      if k == w then Succeeded
      else match attempts[k]
        case Connecting => Closing
        case Pending => Canceled
        case other => other)
  }

  function OnReady(r: Race, i: nat): (r': Race)
    requires i < |r.attempts|
  {
    if r.complete then r else
      var settled := Settle(r.attempts, i);
      var done := AllConcluded(settled);
      r.(attempts := settled,
         completed := r.completed + 1 + CountPending(r.attempts[i := Succeeded]),
         winner := i,
         complete := true,
         closes := r.closes + if done then 1 else 0,
         timer := if done then Idle else r.timer,
         heard := r.heard + [ReadyOf(i)])
  }

  function OnError(r: Race, i: nat): (r': Race)
    requires i < |r.attempts|
  {
    var r1 := r.(ended := r.ended + {i});
    if r.complete then r1 else Fail(r1, i)
  }

  /** The closed callback is only installed on attempts that are being cancelled. */
  function OnClosed(r: Race, i: nat): (r': Race)
    requires i < |r.attempts|
  {
    var r1 := r.(ended := r.ended + {i});
    if r.attempts[i].Closing? then Cancel(r1, i) else r1
  }

  function Starting(r: Race, now: nat, outcome: Outcome): (r': Race)
    requires r.next < |r.attempts|
  {
    r.(attempts := r.attempts[r.next := Connecting],
       started := r.started + [now],
       connected := if outcome == Refused(false) then r.connected else r.connected + {r.next})
  }

  /** The tail of initiating an attempt: move on and arm the timer for the next one. */
  function Advance(r: Race, now: nat): (r': Race) {
    r.(next := r.next + 1,
       timer := if r.next + 1 < |r.attempts| && r.closes == 0
                then Armed(now + CONNECTION_ATTEMPT_DELAY_MS) else r.timer)
  }

  function Launch(r: Race, now: nat, outcome: Outcome): (r': Race)
    ensures |r'.attempts| == |r.attempts|
  {
    if r.complete || r.next >= |r.attempts| then r else
      var r1 := Starting(r, now, outcome);
      match outcome
      case InProgress => Advance(r1, now)
      case ReadyInside => Advance(OnReady(r1, r.next), now)
      case ErrorInside => Advance(OnError(r1, r.next), now)
      case Refused(_) =>
        var r2 := Fail(r1, r.next);
        if AllFailed(r2.attempts) then AllFailedHandler(r2) else Advance(r2, now)
      case RefusedAndReported =>
        var r2 := Fail(OnError(r1, r.next), r.next);
        if AllFailed(r2.attempts) then AllFailedHandler(r2) else Advance(r2, now)
  }

  function Fresh(n: nat): (r: Race) {
    Race(seq(n, _ => Pending), 0, false, -1, 0, Idle, 0, [], [], {}, {})
  }

  /** The candidates are ready.  Without any, the application hears an error and the context
      is closed at once. */
  function Begin(n: nat, now: nat, outcome: Outcome): (r: Race)
    ensures |r.attempts| == n
  {
    if n == 0 then Fresh(0).(heard := [EstablishmentError], closes := 1)
    else Launch(Fresh(n), now, outcome)
  }

  // ---------------------------------------------------------------- runs

  predicate UnderWay(r: Race, i: nat) {
    i < |r.attempts| && (r.attempts[i].Connecting? || r.attempts[i].Closing?)
  }

  /** What the environment may do: a timer never fires early, a connection reports only while its
      attempt is under way, and after an error or a close it reports nothing more. */
  predicate Enabled(r: Race, e: Event) {
    match e
    case TimerFires(now, _) => r.timer.Armed? && r.timer.due <= now
    case Ready(i) => UnderWay(r, i) && i !in r.ended
    case Error(i) => UnderWay(r, i) && i !in r.ended
    case Closed(i) => UnderWay(r, i) && i !in r.ended
  }

  function Step(r: Race, e: Event): (r': Race)
    requires Enabled(r, e)
    ensures |r'.attempts| == |r.attempts|
  {
    match e
    case TimerFires(now, outcome) => Launch(r.(timer := Idle), now, outcome)
    case Ready(i) => OnReady(r, i)
    case Error(i) => OnError(r, i)
    case Closed(i) => OnClosed(r, i)
  }

  predicate ValidRun(r: Race, es: seq<Event>)
    decreases |es|, 0
  {
    es == [] || (ValidRun(r, es[..|es| - 1]) && Enabled(Run(r, es[..|es| - 1]), es[|es| - 1]))
  }

  function Run(r: Race, es: seq<Event>): (r': Race)
    requires ValidRun(r, es)
    ensures |r'.attempts| == |r.attempts|
    decreases |es|, 1
  {
    if es == [] then r else Step(Run(r, es[..|es| - 1]), es[|es| - 1])
  }

  // ---------------------------------------------------------------- the invariant

  /** Stagger: each attempt starts a full delay after the one before. */
  predicate Staggered(started: seq<nat>) {
    forall k | 0 < k < |started| :: started[k - 1] + CONNECTION_ATTEMPT_DELAY_MS <= started[k]
  }

  /** Nothing has been decided: started attempts are connecting or failed, the others wait. */
  predicate Racing(r: Race) {
    && !r.complete && r.winner == -1 && r.heard == [] && r.closes == 0
    && |r.started| == r.next <= |r.attempts|
    && (forall k | 0 <= k < r.next :: r.attempts[k].Connecting? || r.attempts[k].Failed?)
    && (forall k | r.next <= k < |r.attempts| :: r.attempts[k].Pending?)
    && !AllFailed(r.attempts)
  }

  /** While attempts wait, the timer is set for one delay after the last start. */
  predicate TimerSet(r: Race) {
    if r.next < |r.attempts| then
      0 < r.next == |r.started| && r.timer == Armed(r.started[r.next - 1] + CONNECTION_ATTEMPT_DELAY_MS)
    else
      r.timer.Idle?
  }

  /** One attempt won; the others are finished or being closed. */
  predicate Won(r: Race) {
    && r.complete && 0 <= r.winner < |r.started| == r.next <= |r.attempts|
    && r.heard == [ReadyOf(r.winner)]
    && r.attempts[r.winner].Succeeded?
    && (forall k | 0 <= k < |r.attempts| && k != r.winner ::
          r.attempts[k].Closing? || r.attempts[k].Failed? || r.attempts[k].Canceled?)
    && r.closes == (if AllConcluded(r.attempts) then 1 else 0)
    && (r.closes > 0 ==> r.timer.Idle?)
  }

  /** Every attempt failed, and the all-failed handler ran `times` times. */
  predicate Lost(r: Race, times: nat) {
    && r.complete && r.winner == -1 && r.timer.Idle?
    && r.closes == times && |r.heard| == times
    && (forall k | 0 <= k < times :: r.heard[k] == EstablishmentError)
    && |r.started| == |r.attempts|
    && (forall k | 0 <= k < |r.attempts| :: r.attempts[k].Failed?)
  }

  /** Holds between any two events.  `twice` counts the attempts whose protocol both reported
      and returned an error, `again` the needless runs of the all-failed handler. */
  predicate Inv(r: Race, twice: nat, again: nat) {
    && |r.attempts| > 0
    && (|| (Racing(r) && TimerSet(r) && again == 0)
        || (Won(r) && again == 0)
        || Lost(r, 1 + again))
    && r.completed == CountConcluded(r.attempts) + twice
    && Staggered(r.started)
  }

  /** An attempt that is refused runs the all-failed handler again exactly when it is the last
      one and everything before it has failed. */
  function AgainAt(r: Race, outcome: Outcome): (a: nat) {
    if r.complete || r.next + 1 != |r.attempts|
       || (exists k | 0 <= k < r.next && k < |r.attempts| :: !r.attempts[k].Failed?) then 0
    else if outcome.Refused? then 1
    else if outcome.RefusedAndReported? then 2
    else 0
  }

  function TwiceAt(r: Race, outcome: Outcome): (a: nat) {
    if !r.complete && r.next < |r.attempts| && outcome.RefusedAndReported? then 1 else 0
  }

  // ---------------------------------------------------------------- counting lemmas

  lemma {:induction false} CountUpdate(s: seq<Attempt>, i: nat, a: Attempt)
    requires i < |s|
    ensures CountConcluded(s[i := a]) ==
            CountConcluded(s) + (if Concluded(a) then 1 else 0) - (if Concluded(s[i]) then 1 else 0)
  {
    var m := |s| - 1;
    if i == m {
      assert s[i := a][..m] == s[..m];
    } else {
      assert s[i := a][..m] == s[..m][i := a];
      CountUpdate(s[..m], i, a);
    }
  }

  lemma {:induction false} CountSettled(s: seq<Attempt>, w: nat)
    requires w < |s| ==> s[w].Succeeded?
    ensures CountConcluded(Settle(s, w)) == CountConcluded(s) + CountPending(s)
  {
    if s != [] {
      var m := |s| - 1;
      assert Settle(s, w)[..m] == Settle(s[..m], w);
      CountSettled(s[..m], w);
    }
  }

  lemma {:induction false} CountNone(s: seq<Attempt>)
    requires forall k | 0 <= k < |s| :: !Concluded(s[k])
    ensures CountConcluded(s) == 0
  {
    if s != [] { CountNone(s[..|s| - 1]); }
  }

  // ---------------------------------------------------------------- one event keeps the invariant

  lemma ReadyKeeps(r: Race, i: nat, twice: nat)
    requires Racing(r.(next := |r.started|)) && |r.attempts| > 0 && i < |r.started| && r.attempts[i].Connecting?
    requires r.completed == CountConcluded(r.attempts) + twice
    ensures var r' := OnReady(r, i);
      && r'.attempts[i].Succeeded?
      && Won(r'.(next := |r.started|))
      && r'.completed == CountConcluded(r'.attempts) + twice
  {
    var s := r.attempts[i := Succeeded];
    CountUpdate(r.attempts, i, Succeeded);
    CountSettled(s, i);
    assert Settle(s, i) == Settle(r.attempts, i);
  }

  lemma FailKeeps(r: Race, i: nat, twice: nat)
    requires Racing(r) && TimerSet(r) && |r.attempts| > 0 && i < |r.started| && r.attempts[i].Connecting?
    requires r.completed == CountConcluded(r.attempts) + twice
    ensures var r' := Fail(r, i);
      && (if AllFailed(r'.attempts) then Lost(r', 1) else Racing(r') && TimerSet(r'))
      && r'.completed == CountConcluded(r'.attempts) + twice
  {
    CountUpdate(r.attempts, i, Failed);
    var r1 := r.(attempts := r.attempts[i := Failed], completed := r.completed + 1);
    if !AllFailed(r1.attempts) {
      var k :| 0 <= k < |r1.attempts| && !(r1.attempts[k].Failed? || r1.attempts[k].Canceled?);
      assert !Concluded(r1.attempts[k]);
    }
  }

  /** The race can start its next attempt now. */
  predicate Poised(r: Race, now: nat, twice: nat) {
    && Racing(r) && r.next < |r.attempts| && r.timer.Idle?
    && (r.next > 0 ==> r.started[r.next - 1] + CONNECTION_ATTEMPT_DELAY_MS <= now)
    && r.completed == CountConcluded(r.attempts) + twice
    && Staggered(r.started)
  }

  lemma StartingKeeps(r: Race, now: nat, outcome: Outcome, twice: nat)
    requires Poised(r, now, twice)
    ensures var r1 := Starting(r, now, outcome);
      && Racing(r1.(next := |r1.started|)) && r1.attempts[r.next].Connecting?
      && r1.completed == CountConcluded(r1.attempts) + twice
      && Staggered(r1.started)
  {
    CountUpdate(r.attempts, r.next, Connecting);
    assert Starting(r, now, outcome).attempts[r.next].Connecting?;
  }

  lemma LaunchAccepted(r: Race, now: nat, outcome: Outcome, twice: nat)
    requires Poised(r, now, twice) && (outcome.InProgress? || outcome.ReadyInside?)
    ensures Inv(Launch(r, now, outcome), twice, 0)
  {
    StartingKeeps(r, now, outcome, twice);
    if outcome.ReadyInside? { ReadyKeeps(Starting(r, now, outcome), r.next, twice); }
  }

  /** A refused last attempt is where everything has failed. */
  lemma FailedAtLast(r: Race, now: nat, twice: nat)
    requires Poised(r, now, twice)
    ensures AllConcluded(r.attempts[r.next := Failed]) <==> AllFailed(r.attempts[r.next := Failed])
    ensures AllFailed(r.attempts[r.next := Failed]) <==>
            r.next + 1 == |r.attempts| && forall k | 0 <= k < r.next :: r.attempts[k].Failed?
  {
    var failed := r.attempts[r.next := Failed];
    if r.next + 1 < |r.attempts| { assert failed[r.next + 1].Pending?; }
    forall k | 0 <= k < r.next ensures failed[k] == r.attempts[k] {}
  }

  lemma LaunchFailing(r: Race, now: nat, outcome: Outcome, twice: nat)
    requires Poised(r, now, twice) && (outcome.Refused? || outcome.ErrorInside?)
    ensures Inv(Launch(r, now, outcome), twice, AgainAt(r, outcome))
  {
    StartingKeeps(r, now, outcome, twice);
    FailedAtLast(r, now, twice);
    var r1 := Starting(r, now, outcome);
    CountUpdate(r1.attempts, r.next, Failed);
    assert r1.attempts[r.next := Failed] == r.attempts[r.next := Failed];
  }

  lemma LaunchReported(r: Race, now: nat, twice: nat)
    requires Poised(r, now, twice)
    ensures Inv(Launch(r, now, RefusedAndReported), twice + 1, AgainAt(r, RefusedAndReported))
  {
    StartingKeeps(r, now, RefusedAndReported, twice);
    FailedAtLast(r, now, twice);
    var r1 := Starting(r, now, RefusedAndReported);
    CountUpdate(r1.attempts, r.next, Failed);
    assert r1.attempts[r.next := Failed] == r.attempts[r.next := Failed];
    assert r1.attempts[r.next := Failed][r.next := Failed] == r1.attempts[r.next := Failed];
  }

  /** Every outcome of starting the next attempt, including the ones that run the all-failed
      handler more than once. */
  lemma LaunchKeeps(r: Race, now: nat, outcome: Outcome, twice: nat)
    requires Poised(r, now, twice)
    ensures Inv(Launch(r, now, outcome), twice + TwiceAt(r, outcome), AgainAt(r, outcome))
  {
    match outcome
    case InProgress => LaunchAccepted(r, now, outcome, twice);
    case ReadyInside => LaunchAccepted(r, now, outcome, twice);
    case ErrorInside => LaunchFailing(r, now, outcome, twice);
    case Refused(_) => LaunchFailing(r, now, outcome, twice);
    case RefusedAndReported => LaunchReported(r, now, twice);
  }

  lemma ClosedKeeps(r: Race, i: nat, twice: nat)
    requires Won(r) && i < |r.attempts| && r.attempts[i].Closing?
    requires r.completed == CountConcluded(r.attempts) + twice
    ensures Won(Cancel(r, i)) && Cancel(r, i).completed == CountConcluded(Cancel(r, i).attempts) + twice
    ensures Cancel(r, i).started == r.started
  {
    CountUpdate(r.attempts, i, Canceled);
    var r1 := r.attempts[i := Canceled];
    assert r1[r.winner].Succeeded?;
  }

  /** What an event adds to the two counters of Inv. */
  function TwiceBy(r: Race, e: Event): (a: nat) {
    if e.TimerFires? then TwiceAt(r, e.outcome) else 0
  }

  function AgainBy(r: Race, e: Event): (a: nat) {
    if e.TimerFires? then AgainAt(r, e.outcome) else 0
  }

  lemma TimerKeeps(r: Race, e: Event, twice: nat, again: nat)
    requires Inv(r, twice, again) && Enabled(r, e) && e.TimerFires?
    ensures Inv(Step(r, e), twice + TwiceBy(r, e), again + AgainBy(r, e))
  {
    var idle := r.(timer := Idle);
    if r.complete {
      assert Step(r, e) == idle;
    } else {
      assert Poised(idle, e.now, twice);
      LaunchKeeps(idle, e.now, e.outcome, twice);
    }
  }

  lemma EndedKeeps(r: Race, i: nat, twice: nat, again: nat)
    requires Inv(r, twice, again)
    ensures Inv(r.(ended := r.ended + {i}), twice, again)
  {}

  lemma ReadyEventKeeps(r: Race, i: nat, twice: nat, again: nat)
    requires Inv(r, twice, again) && UnderWay(r, i)
    ensures Inv(OnReady(r, i), twice, again)
  {
    if Racing(r) { ReadyKeeps(r, i, twice); }
  }

  lemma ErrorEventKeeps(r: Race, i: nat, twice: nat, again: nat)
    requires Inv(r, twice, again) && UnderWay(r, i) && !r.complete
    ensures Inv(Fail(r, i), twice, again)
  {
    FailKeeps(r, i, twice);
  }

  lemma ClosedEventKeeps(r: Race, i: nat, twice: nat, again: nat)
    requires Inv(r, twice, again) && i < |r.attempts| && r.attempts[i].Closing?
    ensures Inv(Cancel(r, i), twice, again)
  {
    ClosedKeeps(r, i, twice);
  }

  lemma ReportKeeps(r: Race, e: Event, twice: nat, again: nat)
    requires Inv(r, twice, again) && Enabled(r, e) && !e.TimerFires?
    ensures Inv(Step(r, e), twice, again)
  {
    match e
    case Ready(i) => ReadyEventKeeps(r, i, twice, again);
    case Error(i) =>
      EndedKeeps(r, i, twice, again);
      if !r.complete { ErrorEventKeeps(r.(ended := r.ended + {i}), i, twice, again); }
    case Closed(i) =>
      EndedKeeps(r, i, twice, again);
      if r.attempts[i].Closing? { ClosedEventKeeps(r.(ended := r.ended + {i}), i, twice, again); }
  }

  lemma StepKeeps(r: Race, e: Event, twice: nat, again: nat)
    requires Inv(r, twice, again) && Enabled(r, e)
    ensures Inv(Step(r, e), twice + TwiceBy(r, e), again + AgainBy(r, e))
  {
    if e.TimerFires? { TimerKeeps(r, e, twice, again); } else { ReportKeeps(r, e, twice, again); }
  }

  // ---------------------------------------------------------------- whole runs

  /** The counters summed over a run. */
  function TwiceIn(r: Race, es: seq<Event>): (c: nat)
    requires ValidRun(r, es)
  {
    if es == [] then 0
    else TwiceIn(r, es[..|es| - 1]) + TwiceBy(Run(r, es[..|es| - 1]), es[|es| - 1])
  }

  function AgainIn(r: Race, es: seq<Event>): (c: nat)
    requires ValidRun(r, es)
  {
    if es == [] then 0
    else AgainIn(r, es[..|es| - 1]) + AgainBy(Run(r, es[..|es| - 1]), es[|es| - 1])
  }

  lemma BeginInv(n: nat, now: nat, outcome: Outcome)
    requires n > 0
    ensures Inv(Begin(n, now, outcome), TwiceAt(Fresh(n), outcome), AgainAt(Fresh(n), outcome))
  {
    var r := Fresh(n);
    assert r.attempts[0].Pending?;
    CountNone(r.attempts);
    LaunchKeeps(r, now, outcome, 0);
  }

  lemma {:induction false} RunInv(n: nat, now: nat, outcome: Outcome, es: seq<Event>)
    requires n > 0 && ValidRun(Begin(n, now, outcome), es)
    ensures var b := Begin(n, now, outcome);
      Inv(Run(b, es), TwiceAt(Fresh(n), outcome) + TwiceIn(b, es), AgainAt(Fresh(n), outcome) + AgainIn(b, es))
  {
    var b := Begin(n, now, outcome);
    if es == [] {
      BeginInv(n, now, outcome);
    } else {
      RunInv(n, now, outcome, es[..|es| - 1]);
      StepKeeps(Run(b, es[..|es| - 1]), es[|es| - 1],
                TwiceAt(Fresh(n), outcome) + TwiceIn(b, es[..|es| - 1]),
                AgainAt(Fresh(n), outcome) + AgainIn(b, es[..|es| - 1]));
    }
  }

  // ---------------------------------------------------------------- connections

  predicate InUse(a: Attempt) { a.Connecting? || a.Closing? || a.Succeeded? }

  /** Connections belong to attempts that were started, and every attempt that is under way or won
      holds one. */
  predicate Held(r: Race) {
    && (forall k | k in r.connected :: k < |r.started|)
    && (forall k | k in r.ended :: k < |r.started|)
    && (forall k | 0 <= k < |r.attempts| && InUse(r.attempts[k]) :: k in r.connected)
  }

  /** No attempt comes into use, and no connection is lost. */
  predicate NoMoreInUse(r: Race, r': Race) {
    && r'.started == r.started && r'.connected == r.connected && |r'.attempts| == |r.attempts|
    && (forall k | k in r'.ended :: k < |r.started|)
    && (forall k | 0 <= k < |r.attempts| && InUse(r'.attempts[k]) :: InUse(r.attempts[k]))
  }

  lemma NoMoreKeeps(r: Race, r': Race)
    requires Held(r) && NoMoreInUse(r, r')
    ensures Held(r')
  {}

  lemma ReportHeld(r: Race, e: Event)
    requires Held(r) && Enabled(r, e) && !e.TimerFires? && |r.started| <= |r.attempts|
    ensures Held(Step(r, e))
  {
    NoMoreKeeps(r, Step(r, e));
  }

  lemma LaunchHeld(r: Race, now: nat, outcome: Outcome)
    requires Held(r) && r.next == |r.started| < |r.attempts| && !r.complete
    ensures Held(Launch(r, now, outcome))
  {
    var r1 := Starting(r, now, outcome);
    var r2 := match outcome
      case InProgress => r1
      case ReadyInside => OnReady(r1, r.next)
      case ErrorInside => OnError(r1, r.next)
      case Refused(_) => Fail(r1, r.next)
      case RefusedAndReported => Fail(OnError(r1, r.next), r.next);
    LaunchedHeld(r, r1, r2);
    NoMoreKeeps(r2, Launch(r, now, outcome));
  }

  lemma LaunchedHeld(r: Race, r1: Race, r2: Race)
    requires Held(r) && r.next == |r.started| < |r.attempts|
    requires r1.attempts == r.attempts[r.next := Connecting] && |r1.started| == |r.started| + 1 && r1.ended == r.ended
    requires r.connected <= r1.connected <= r.connected + {r.next}
    requires NoMoreInUse(r1, r2)
    requires r.next in r1.connected || !InUse(r2.attempts[r.next])
    ensures Held(r2)
  {}

  lemma StepHeld(r: Race, e: Event, twice: nat, again: nat)
    requires Inv(r, twice, again) && Held(r) && Enabled(r, e)
    ensures Held(Step(r, e))
  {
    if e.TimerFires? {
      if !r.complete { LaunchHeld(r.(timer := Idle), e.now, e.outcome); }
    } else {
      ReportHeld(r, e);
    }
  }

  lemma {:induction false} RunHeld(n: nat, now: nat, outcome: Outcome, es: seq<Event>)
    requires n > 0 && ValidRun(Begin(n, now, outcome), es)
    ensures Held(Run(Begin(n, now, outcome), es))
  {
    var b := Begin(n, now, outcome);
    if es == [] {
      LaunchHeld(Fresh(n), now, outcome);
    } else {
      RunHeld(n, now, outcome, es[..|es| - 1]);
      RunInv(n, now, outcome, es[..|es| - 1]);
      StepHeld(Run(b, es[..|es| - 1]), es[|es| - 1],
               TwiceAt(Fresh(n), outcome) + TwiceIn(b, es[..|es| - 1]),
               AgainAt(Fresh(n), outcome) + AgainIn(b, es[..|es| - 1]));
    }
  }
}
