/** The racing context as the library keeps it: an array of attempts and a handful of fields that
    callbacks update in place.  Each callback is proved against its closed form in RaceModel. */
module RacingContext {
  import opened RaceModel

  class Context {
    const attempts: array<Attempt>
    var next: nat
    var complete: bool
    var winner: int
    var completed: nat
    var timer: Timer
    // What the environment has seen of this context.
    var closes: nat
    var heard: seq<Notice>
    var started: seq<nat>
    var connected: set<nat>
    var ended: set<nat>

    ghost function Model(): (r: Race)
      reads this, attempts
    {
      Race(attempts[..], next, complete, winner, completed, timer, closes, heard, started, connected, ended)
    }

    constructor (n: nat)
      ensures Model() == Fresh(n)
      ensures fresh(attempts)
    {
      attempts := new Attempt[n](_ => Pending);
      next, complete, winner, completed := 0, false, -1, 0;
      timer, closes, heard, started, connected, ended := Idle, 0, [], [], {}, {};
      new;
      assert attempts[..] == seq(n, _ => Pending);
    }

    method AllAttemptsFailed() returns (b: bool)
      ensures b <==> AllFailed(attempts[..])
    {
      for i := 0 to attempts.Length
        invariant forall k | 0 <= k < i :: attempts[k].Failed? || attempts[k].Canceled?
      {
        if attempts[i] != Failed && attempts[i] != Canceled { return false; }
      }
      return true;
    }

    method AllAttemptsConcluded() returns (b: bool)
      ensures b <==> AllConcluded(attempts[..])
    {
      for i := 0 to attempts.Length
        invariant forall k | 0 <= k < i :: Concluded(attempts[k])
      {
        if attempts[i] != Failed && attempts[i] != Canceled && attempts[i] != Succeeded {
          assert !Concluded(attempts[..][i]);
          return false;
        }
      }
      return true;
    }

    method InitiateContextClose()
      modifies this`timer, this`closes
      ensures Model() == old(Model()).(timer := Idle, closes := old(closes) + 1)
    {
      timer := Idle;
      closes := closes + 1;
    }

    method HandleAllAttemptsFailed()
      modifies this`complete, this`heard, this`timer, this`closes
      ensures Model() == AllFailedHandler(old(Model()))
    {
      complete := true;
      heard := heard + [EstablishmentError];
      InitiateContextClose();
    }

    method HandleConcludedAttempt()
      modifies this`complete, this`heard, this`timer, this`closes
      ensures Model() == Conclude(old(Model()))
    {
      var failed := AllAttemptsFailed();
      if failed {
        HandleAllAttemptsFailed();
      } else {
        var concluded := AllAttemptsConcluded();
        if concluded { InitiateContextClose(); }
      }
    }

    method RegisterFailedAttempt(i: nat)
      requires i < attempts.Length
      modifies this, attempts
      ensures Model() == Fail(old(Model()), i)
    {
      attempts[i] := Failed;
      completed := completed + 1;
      HandleConcludedAttempt();
    }

    method RegisterCanceledAttempt(i: nat)
      requires i < attempts.Length
      modifies this, attempts
      ensures Model() == Cancel(old(Model()), i)
    {
      attempts[i] := Canceled;
      completed := completed + 1;
      HandleConcludedAttempt();
    }

    method RegisterSuccessfulAttempt(i: nat)
      requires i < attempts.Length
      modifies this, attempts
      ensures Model() == Succeed(old(Model()), i)
    {
      attempts[i] := Succeeded;
      completed := completed + 1;
      winner := i;
      complete := true;
      HandleConcludedAttempt();
    }

    method CancelOther(i: nat, winning: nat)
      requires i < attempts.Length
      modifies this, attempts
      ensures Model() == CancelStep(old(Model()), i, winning)
    {
      if i == winning { return; }
      if attempts[i].Connecting? {
        attempts[i] := Closing;
      } else if attempts[i].Pending? {
        RegisterCanceledAttempt(i);
      }
    }

    /** Walks the array once.  Cancelling a waiting attempt concludes it on the spot and may close
        the context in the middle of the walk; it does so at most once. */
    method CancelAllOtherAttempts(winning: nat)
      requires winning < attempts.Length && attempts[winning].Succeeded?
      modifies this, attempts
      ensures Model() == Cancelled(old(Model()), winning, attempts.Length)
    {
      ghost var was := Model();
      CancelledStart(was, winning);
      for i := 0 to attempts.Length
        invariant Model() == Cancelled(was, winning, i)
      {
        CancelledNext(was, winning, i);
        CancelOther(i, winning);
      }
    }

    method AttemptReady(i: nat)
      requires i < attempts.Length
      modifies this, attempts
      ensures Model() == OnReady(old(Model()), i)
    {
      if complete { return; }
      ReadyByWalk(Model(), i);
      RegisterSuccessfulAttempt(i);
      assert attempts[i] == Model().attempts[i];
      CancelAllOtherAttempts(i);
      heard := heard + [ReadyOf(i)];
    }

    method AttemptError(i: nat)
      requires i < attempts.Length
      modifies this, attempts
      ensures Model() == OnError(old(Model()), i)
    {
      ended := ended + {i};
      if complete { return; }
      RegisterFailedAttempt(i);
    }

    method ConnectionClosed(i: nat)
      requires i < attempts.Length
      modifies this, attempts
      ensures Model() == OnClosed(old(Model()), i)
    {
      ended := ended + {i};
      if attempts[i].Closing? { RegisterCanceledAttempt(i); }
    }

    /** Starts attempt `next`; the protocol may call back into the context before it returns. */
    method StartConnectionAttempt(now: nat, outcome: Outcome) returns (rc: int)
      requires next < attempts.Length && !complete
      modifies this, attempts
      ensures rc != 0 <==> outcome.Refused? || outcome.RefusedAndReported?
      ensures var r1 := Starting(old(Model()), now, outcome);
        Model() == match outcome
                   case ReadyInside => OnReady(r1, old(next))
                   case ErrorInside => OnError(r1, old(next))
                   case RefusedAndReported => OnError(r1, old(next))
                   case _ => r1
    {
      attempts[next] := Connecting;
      started := started + [now];
      if outcome != Refused(false) { connected := connected + {next}; }
      match outcome
      case InProgress => rc := 0;
      case ReadyInside => AttemptReady(next); rc := 0;
      case ErrorInside => AttemptError(next); rc := 0;
      case Refused(_) => rc := -1;
      case RefusedAndReported => AttemptError(next); rc := -1;
    }

    method InitiateNextAttempt(now: nat, outcome: Outcome)
      modifies this, attempts
      ensures Model() == Launch(old(Model()), now, outcome)
    {
      if complete { return; }
      if next >= attempts.Length { return; }
      ghost var before := Model();
      var attempt := next;
      var rc := StartConnectionAttempt(now, outcome);
      if rc != 0 {
        RegisterFailedAttempt(attempt);
        var failed := AllAttemptsFailed();
        if failed {
          HandleAllAttemptsFailed();
          return;
        }
      }
      next := next + 1;
      if next < attempts.Length && closes == 0 {
        timer := Armed(now + CONNECTION_ATTEMPT_DELAY_MS);
      }
    }

    method StaggerTimerFired(now: nat, outcome: Outcome)
      requires timer.Armed? && timer.due <= now
      modifies this, attempts
      ensures Model() == Step(old(Model()), TimerFires(now, outcome))
    {
      timer := Idle;
      if complete { return; }
      InitiateNextAttempt(now, outcome);
    }

    /** The candidates have been gathered: `Begin`, on a context that was made for them. */
    method CandidatesReady(now: nat, outcome: Outcome)
      requires Model() == Fresh(attempts.Length)
      modifies this, attempts
      ensures Model() == Begin(attempts.Length, now, outcome)
    {
      if attempts.Length == 0 {
        heard := heard + [EstablishmentError];
        closes := closes + 1;
        return;
      }
      InitiateNextAttempt(now, outcome);
    }

    /** Runs once the timer handle is closed.  Every connection the race made is released, except
        the winner's, which belongs to the application. */
    method FreeContext() returns (released: set<nat>)
      requires forall k | k in connected :: k < attempts.Length
      ensures released == set k | k in connected && !attempts[k].Succeeded?
    {
      released := {};
      for i := 0 to attempts.Length
        invariant released == set k | k in connected && k < i && !attempts[k].Succeeded?
      {
        if attempts[i] != Succeeded && i in connected { released := released + {i}; }
      }
    }
  }

  function Succeed(r: Race, i: nat): (r': Race)
    requires i < |r.attempts|
  {
    Conclude(r.(attempts := r.attempts[i := Succeeded], completed := r.completed + 1,
                winner := i, complete := true))
  }

  function CancelStep(r: Race, i: nat, w: nat): (r': Race)
    requires i < |r.attempts|
  {
    if i == w then r
    else if r.attempts[i].Connecting? then r.(attempts := r.attempts[i := Closing])
    else if r.attempts[i].Pending? then Cancel(r, i)
    else r
  }

  /** The array when the walk has reached index `i`. */
  function Partly(was: seq<Attempt>, w: nat, i: nat): (s: seq<Attempt>)
    requires i <= |was|
  {
    Settle(was, w)[..i] + was[i..]
  }

  /** The whole state when the walk has reached index `i`. */
  ghost function Cancelled(was: Race, w: nat, i: nat): (r: Race)
    requires i <= |was.attempts|
  {
    var now := Partly(was.attempts, w, i);
    var closing := AllConcluded(now) && !AllConcluded(was.attempts);
    was.(attempts := now,
         completed := was.completed + CountPending(was.attempts[..i]),
         closes := was.closes + (if closing then 1 else 0),
         timer := if closing then Idle else was.timer)
  }

  lemma CancelledStart(was: Race, w: nat)
    ensures Cancelled(was, w, 0) == was
  {
    assert Partly(was.attempts, w, 0) == was.attempts;
  }

  lemma CancelledNext(was: Race, w: nat, i: nat)
    requires i < |was.attempts| && w < |was.attempts| && was.attempts[w].Succeeded?
    ensures Cancelled(was, w, i + 1) == CancelStep(Cancelled(was, w, i), i, w)
  {
    var s := was.attempts;
    var here, there := Partly(s, w, i), Partly(s, w, i + 1);
    assert there == here[i := Settle(s, w)[i]];
    assert s[..i + 1][..i] == s[..i];
    assert here[w].Succeeded? && there[w].Succeeded?;
    if s[i].Connecting? || s[i].Pending? {
      assert !Concluded(s[i]) && !Concluded(here[i]);
    }
    if s[i].Connecting? { assert !Concluded(there[i]); }
    assert i == w || (!s[i].Connecting? && !s[i].Pending?) ==> there == here;
  }

  lemma SettledArray(s: seq<Attempt>, w: nat)
    requires w < |s|
    ensures var won := s[w := Succeeded];
      && Partly(won, w, |won|) == Settle(s, w) && won[..|won|] == won
      && !AllFailed(won)
      && (AllConcluded(won) ==> Settle(s, w) == won && CountPending(won) == 0)
  {
    var won := s[w := Succeeded];
    assert won[w].Succeeded?;
    assert Partly(won, w, |won|) == Settle(s, w);
    if AllConcluded(won) {
      NonePending(won);
      assert Settle(s, w) == won;
    }
  }

  /** Registering the success and then walking the array is the closed form of a win. */
  lemma ReadyByWalk(r: Race, i: nat)
    requires i < |r.attempts| && !r.complete
    ensures Succeed(r, i).attempts == r.attempts[i := Succeeded]
    ensures var walked := Cancelled(Succeed(r, i), i, |r.attempts|);
      walked.(heard := walked.heard + [ReadyOf(i)]) == OnReady(r, i)
  {
    SettledArray(r.attempts, i);
    var won := r.attempts[i := Succeeded];
    var walked := Cancelled(Succeed(r, i), i, |r.attempts|);
    var ready := OnReady(r, i);
    assert walked.attempts == ready.attempts;
    assert walked.completed == ready.completed;
    assert walked.closes == ready.closes && walked.timer == ready.timer;
  }

  lemma {:induction false} NonePending(s: seq<Attempt>)
    requires forall k | 0 <= k < |s| :: !s[k].Pending?
    ensures CountPending(s) == 0
  {
    if s != [] { NonePending(s[..|s| - 1]); }
  }

  /** On every run: when the context is freed, what is not released is the winner's connection,
      and nothing of the winner is released. */
  lemma WinnerIsKept(n: nat, now: nat, outcome: Outcome, es: seq<Event>)
    requires n > 0 && ValidRun(Begin(n, now, outcome), es)
    ensures var r := Run(Begin(n, now, outcome), es);
      && (forall k | k in r.connected :: k < |r.attempts|)
      && (forall k | k in r.connected :: r.attempts[k].Succeeded? <==> k == r.winner)
      && (r.winner >= 0 ==> r.winner in r.connected)
  {
    RunInv(n, now, outcome, es);
    RunHeld(n, now, outcome, es);
  }
}
