/**
  What can still be acknowledged, and from where: exact conditions on the reachable states of a system
  with the Redis store, with and without crash recovery, and with the memory store.
*/
module Progress {
  import opened Models
  import opened Delivery
  import opened AckSafety
  import opened Exclusion
  import Batch
  import Recovery
  import opened Races

  // ---------------------------------------------------------------- continuing a run

  predicate AnyStep(step: Step) {
    true
  }

  /** Nothing is published, nobody crashes and no call fails. */
  predicate Quiet(step: Step) {
    match step
    case Publish(_) => false
    case Act(_, call) =>
      (match call
       case Crash => false
       case IsDone(failed) => !failed
       case Claim(outcome) => outcome.Success?
       case Archive(outcome) => outcome.Success?
       case Pipeline => true
       case Release(outcome) => outcome.Success?
       case MarkDone(outcome) => outcome.Success?
       case Ack(outcome) => outcome.Success?)
    case _ => true
  }

  /** A run of steps that are all `ok` leads from `s` to `t`. */
  ghost predicate Reaches(cfg: Config, s: State, t: State, ok: Step -> bool) {
    exists r: Run :: RunFrom(cfg, s, r) && r.states[|r.steps|] == t && forall i :: 0 <= i < |r.steps| ==> ok(r.steps[i])
  }

  ghost predicate Reachable(cfg: Config, s: State) {
    Reaches(cfg, Init, s, AnyStep)
  }

  lemma ReachesSelf(cfg: Config, s: State, ok: Step -> bool)
    ensures Reaches(cfg, s, s, ok)
  {
    var r := Run([s], []);
    assert RunFrom(cfg, s, r);
  }

  lemma ReachesNext(cfg: Config, s: State, t: State, step: Step, ok: Step -> bool)
    requires Reaches(cfg, s, t, ok) && Enabled(cfg, t, step) && ok(step)
    ensures Reaches(cfg, s, Apply(cfg, t, step), ok)
  {
    var r: Run :| RunFrom(cfg, s, r) && r.states[|r.steps|] == t && forall i :: 0 <= i < |r.steps| ==> ok(r.steps[i]);
    var r' := Append(cfg, s, r, step);
    assert r'.states[|r'.steps|] == Apply(cfg, t, step);
  }

  lemma ReachesOnward(cfg: Config, s: State, t: State, u: State, ok: Step -> bool)
    requires Reaches(cfg, s, t, AnyStep) && Reaches(cfg, t, u, ok)
    ensures Reaches(cfg, s, u, AnyStep)
  {
    var first: Run :| RunFrom(cfg, s, first) && first.states[|first.steps|] == t;
    var second: Run :| RunFrom(cfg, t, second) && second.states[|second.steps|] == u;
    var r := Join(cfg, s, first, second);
    assert forall i :: 0 <= i < |r.steps| ==> AnyStep(r.steps[i]);
  }

  lemma RunTo(cfg: Config, s: State) returns (r: Run)
    requires Reachable(cfg, s)
    ensures IsRun(cfg, r) && r.states[|r.steps|] == s
  {
    r :| RunFrom(cfg, Init, r) && r.states[|r.steps|] == s;
  }

  lemma ReachableIsWellFormed(cfg: Config, s: State)
    requires Reachable(cfg, s)
    ensures WellFormed(s)
  {
    var r := RunTo(cfg, s);
    WellFormedRun(cfg, r, |r.steps|);
  }

  /** Any attempt can be run to its end undisturbed. */
  lemma {:induction false} GoOnAlone(cfg: Config, s: State, t: State, a: nat)
    requires Reaches(cfg, s, t, Quiet) && a < |t.attempts|
    ensures Reaches(cfg, s, Batch.RunAlone(cfg, t, a), Quiet) && Batch.RunAlone(cfg, t, a).stream == t.stream
    decreases Batch.Remaining(t.attempts[a].pc)
  {
    var pc := t.attempts[a].pc;
    if pc != Finished && pc != Crashed {
      var step := Act(a, Batch.NextCall(pc));
      ReachesNext(cfg, s, t, step, Quiet);
      GoOnAlone(cfg, s, Apply(cfg, t, step), a);
    }
  }

  // ---------------------------------------------------------------- attempts that will acknowledge

  /** Undisturbed, attempt `a` acknowledges its entry: it has claimed, or nothing will refuse it. */
  predicate Clear(cfg: Config, s: State, a: nat)
    requires a < |s.attempts|
  {
    var pc, id := s.attempts[a].pc, s.attempts[a].event.eventId;
    match pc
    case AtIsDone => DoneLive(cfg, s, id) || !LockLive(cfg, s, id)
    case AtClaim => !LockLive(cfg, s, id)
    case AtArchive => true
    case AtPipeline => true
    case AtMarkDone => true
    case AtAck => true
    case _ => false
  }

  lemma ClearStep(cfg: Config, s: State, a: nat)
    requires a < |s.attempts| && Clear(cfg, s, a) && s.attempts[a].msg in s.pending && Accepts(cfg, s.attempts[a].event)
    ensures var t := Apply(cfg, s, Act(a, Batch.NextCall(s.attempts[a].pc)));
            && t.attempts[a].msg == s.attempts[a].msg && t.attempts[a].event == s.attempts[a].event
            && if s.attempts[a].pc == AtAck then t.attempts[a].msg in t.acked && t.attempts[a].pc == Finished
               else Clear(cfg, t, a) && t.attempts[a].msg in t.pending
  {
  }

  lemma {:induction false} ClearAcknowledges(cfg: Config, s: State, a: nat)
    requires a < |s.attempts| && Clear(cfg, s, a) && s.attempts[a].msg in s.pending && Accepts(cfg, s.attempts[a].event)
    ensures s.attempts[a].msg in Batch.RunAlone(cfg, s, a).acked
    decreases Batch.Remaining(s.attempts[a].pc)
  {
    ClearStep(cfg, s, a);
    if s.attempts[a].pc != AtAck {
      ClearAcknowledges(cfg, Apply(cfg, s, Act(a, Batch.NextCall(s.attempts[a].pc))), a);
    }
  }

  /** Some continuation of `ok` steps, with nothing else published, acknowledges entry `m`. */
  ghost predicate CanBeAcked(cfg: Config, s: State, m: nat, ok: Step -> bool) {
    exists t :: Reaches(cfg, s, t, ok) && t.stream == s.stream && m in t.acked
  }

  lemma CanBeAckedMore(cfg: Config, s: State, m: nat, ok: Step -> bool)
    requires CanBeAcked(cfg, s, m, Quiet) && forall step :: Quiet(step) ==> ok(step)
    ensures CanBeAcked(cfg, s, m, ok)
  {
    var t :| Reaches(cfg, s, t, Quiet) && t.stream == s.stream && m in t.acked;
    assert Reaches(cfg, s, t, ok);
  }

  lemma AckedAlready(cfg: Config, s: State, m: nat)
    requires m in s.acked
    ensures CanBeAcked(cfg, s, m, Quiet)
  {
    ReachesSelf(cfg, s, Quiet);
  }

  lemma AckedBy(cfg: Config, s: State, t: State, a: nat, m: nat)
    requires Reaches(cfg, s, t, Quiet) && t.stream == s.stream && a < |t.attempts| && Clear(cfg, t, a)
    requires t.attempts[a].msg == m && m in t.pending && Accepts(cfg, t.attempts[a].event)
    ensures CanBeAcked(cfg, s, m, Quiet)
  {
    ClearAcknowledges(cfg, t, a);
    GoOnAlone(cfg, s, t, a);
  }

  // ---------------------------------------------------------------- fresh attempts

  /** `t` follows `s` and differs in its clock and in deliveries, the last of them that of `m`. */
  ghost predicate FreshOn(cfg: Config, s: State, t: State, m: nat) {
    && Reaches(cfg, s, t, Quiet) && t.stream == s.stream && t.locks == s.locks && t.done == s.done && m in t.pending
    && m < |t.stream| && t.stream[m].Decodable? && |t.attempts| > 0
    && t.attempts[|t.attempts| - 1] ==
       Attempt(m, t.stream[m].event, if cfg.store.Absent? then AtArchive else AtIsDone, t.now, t.now)
  }

  lemma {:induction false} FreshByDelivery(cfg: Config, s: State, t: State, m: nat) returns (u: State)
    requires Reaches(cfg, s, t, Quiet) && t.stream == s.stream && t.locks == s.locks && t.done == s.done
    requires t.cursor <= m < |t.stream| && t.stream[m].Decodable?
    ensures FreshOn(cfg, s, u, m)
    decreases m - t.cursor
  {
    ReachesNext(cfg, s, t, Deliver, Quiet);
    if t.cursor == m {
      u := Apply(cfg, t, Deliver);
    } else {
      u := FreshByDelivery(cfg, s, Apply(cfg, t, Deliver), m);
    }
  }

  lemma FreshByReclaim(cfg: Config, s: State, m: nat) returns (u: State)
    requires cfg.claimIdle > 0 && m in s.pending && s.pending[m] <= s.now && m < |s.stream| && s.stream[m].Decodable?
    ensures FreshOn(cfg, s, u, m)
  {
    var t := Apply(cfg, s, Tick(cfg.claimIdle));
    ReachesSelf(cfg, s, Quiet);
    ReachesNext(cfg, s, s, Tick(cfg.claimIdle), Quiet);
    ReachesNext(cfg, s, t, Reclaim(m), Quiet);
    u := Apply(cfg, t, Reclaim(m));
  }

  /** An entry not yet acknowledged gets a fresh attempt if it is undelivered or crash recovery is on. */
  lemma FreshAttempt(cfg: Config, s: State, m: nat) returns (u: State)
    requires Reachable(cfg, s) && m < |s.stream| && s.stream[m].Decodable? && m !in s.acked
    requires s.cursor <= m || cfg.claimIdle > 0
    ensures FreshOn(cfg, s, u, m)
  {
    if s.cursor <= m {
      ReachesSelf(cfg, s, Quiet);
      u := FreshByDelivery(cfg, s, s, m);
    } else {
      var r := RunTo(cfg, s);
      ReachableIsWellFormed(cfg, s);
      Recovery.DeliveredBefore(cfg, r, m, |r.steps|);
      u := FreshByReclaim(cfg, s, m);
    }
  }

  // ---------------------------------------------------------------- the Redis store

  predicate Alive(pc: Pc) {
    pc != Finished && pc != Crashed
  }

  /** Only an attempt whose event the pipeline rejects is ever about to release its lock. */
  lemma {:induction false} ReleaseIsRejected(cfg: Config, r: Run, k: nat)
    requires IsRun(cfg, r) && k < |r.states|
    ensures forall a :: 0 <= a < |r.states[k].attempts| && r.states[k].attempts[a].pc == AtRelease ==>
                          !Accepts(cfg, r.states[k].attempts[a].event)
  {
    if k > 0 {
      ReleaseIsRejected(cfg, r, k - 1);
      assert Enabled(cfg, r.states[k - 1], r.steps[k - 1]);
    }
  }

  /** With Redis it is enough to wait: a lock that stands in the way expires. */
  lemma AckedAfterWaiting(cfg: Config, s: State, t: State, a: nat, m: nat)
    requires cfg.store.Redis? && Reaches(cfg, s, t, Quiet) && t.stream == s.stream && a < |t.attempts|
    requires t.attempts[a].msg == m && m in t.pending && Accepts(cfg, t.attempts[a].event)
    requires Alive(t.attempts[a].pc) && t.attempts[a].pc != AtRelease
    ensures CanBeAcked(cfg, s, m, Quiet)
  {
    var id := t.attempts[a].event.eventId;
    var tick := Tick(if id in t.locks then t.locks[id] + 1 else 0);
    ReachesNext(cfg, s, t, tick, Quiet);
    AckedBy(cfg, s, Apply(cfg, t, tick), a, m);
  }

  /** Somebody still works on entry `m`, or will get it: it is undelivered or can be reclaimed. */
  ghost predicate Attended(cfg: Config, s: State, m: nat) {
    || cfg.claimIdle > 0 || m in s.acked || s.cursor <= m
    || exists a :: 0 <= a < |s.attempts| && s.attempts[a].msg == m && Alive(s.attempts[a].pc)
  }

  lemma AcceptedCanBeAcked(cfg: Config, s: State, m: nat)
    requires cfg.store.Redis? && Reachable(cfg, s) && Attended(cfg, s, m)
    requires m < |s.stream| && s.stream[m].Decodable? && Accepts(cfg, s.stream[m].event)
    ensures CanBeAcked(cfg, s, m, Quiet)
  {
    ReachableIsWellFormed(cfg, s);
    if m in s.acked {
      AckedAlready(cfg, s, m);
    } else if s.cursor <= m || cfg.claimIdle > 0 {
      var u := FreshAttempt(cfg, s, m);
      AckedAfterWaiting(cfg, s, u, |u.attempts| - 1, m);
    } else {
      var a :| 0 <= a < |s.attempts| && s.attempts[a].msg == m && Alive(s.attempts[a].pc);
      assert ParseXMessage(s.stream[s.attempts[a].msg]) == Some(s.attempts[a].event);
      var r := RunTo(cfg, s);
      ReleaseIsRejected(cfg, r, |r.steps|);
      ReachesSelf(cfg, s, Quiet);
      AckedAfterWaiting(cfg, s, s, a, m);
    }
  }

  lemma UnattendedStep(cfg: Config, s: State, step: Step, m: nat)
    requires Enabled(cfg, s, step) && !Attended(cfg, s, m)
    ensures !Attended(cfg, Apply(cfg, s, step), m)
  {
    var t := Apply(cfg, s, step);
    forall a | 0 <= a < |t.attempts| && t.attempts[a].msg == m ensures !Alive(t.attempts[a].pc) {
      assert a < |s.attempts|;
    }
  }

  lemma {:induction false} UnattendedForever(cfg: Config, s: State, r: Run, k: nat, m: nat)
    requires RunFrom(cfg, s, r) && k < |r.states| && !Attended(cfg, s, m)
    ensures !Attended(cfg, r.states[k], m)
  {
    if k > 0 {
      UnattendedForever(cfg, s, r, k - 1, m);
      UnattendedStep(cfg, r.states[k - 1], r.steps[k - 1], m);
    }
  }

  /** Whatever store, and whatever calls fail: an acknowledged entry decodes and is accepted, and was attended. */
  lemma AckedWasPossible(cfg: Config, s: State, m: nat, ok: Step -> bool)
    requires Reachable(cfg, s) && DistinctIds(s.stream) && m < |s.stream| && CanBeAcked(cfg, s, m, ok)
    ensures s.stream[m].Decodable? && Accepts(cfg, s.stream[m].event) && Attended(cfg, s, m)
  {
    var t :| Reaches(cfg, s, t, ok) && t.stream == s.stream && m in t.acked;
    ReachesOnward(cfg, Init, s, t, ok);
    var r := RunTo(cfg, t);
    AckOnlyAfterSuccess(cfg, r, |r.steps|, m);
    if !Accepts(cfg, s.stream[m].event) {
      RejectedNeverCompletes(cfg, r, |r.steps|, m);
    }
    if !Attended(cfg, s, m) {
      var next: Run :| RunFrom(cfg, s, next) && next.states[|next.steps|] == t;
      UnattendedForever(cfg, s, next, |next.steps|, m);
    }
  }

  /**
    Redis, from every reachable state - after any crashes, lost calls, locks left behind and failed
    acknowledgements: an entry can still be acknowledged if and only if it decodes, the pipeline accepts
    its event, and, with crash recovery disabled, it is undelivered, still worked on, or acknowledged.
    If it can be at all, it can be without any further failure.
  */
  lemma CanBeAckedExactly(cfg: Config, s: State, m: nat)
    requires cfg.store.Redis? && Reachable(cfg, s) && DistinctIds(s.stream) && m < |s.stream|
    ensures CanBeAcked(cfg, s, m, AnyStep) <==>
            s.stream[m].Decodable? && Accepts(cfg, s.stream[m].event) && Attended(cfg, s, m)
    ensures CanBeAcked(cfg, s, m, Quiet) <==> CanBeAcked(cfg, s, m, AnyStep)
  {
    if CanBeAcked(cfg, s, m, Quiet) {
      CanBeAckedMore(cfg, s, m, AnyStep);
    }
    if CanBeAcked(cfg, s, m, AnyStep) {
      AckedWasPossible(cfg, s, m, AnyStep);
    }
    if s.stream[m].Decodable? && Accepts(cfg, s.stream[m].event) && Attended(cfg, s, m) {
      AcceptedCanBeAcked(cfg, s, m);
    }
  }

  // ---------------------------------------------------------------- any store, from the beginning

  /** Only `e` is published, and some run acknowledges it. */
  ghost predicate Ackable(cfg: Config, e: RawEvent) {
    exists s :: Reachable(cfg, s) && s.stream == [Decodable(e)] && 0 in s.acked
  }

  /** `e` published and handed to the first attempt. */
  function Handed(cfg: Config, e: RawEvent): State {
    Init.(stream := [Decodable(e)], cursor := 1, pending := map[0 := 0], attempts := Begin(cfg, Decodable(e), 0, 0))
  }

  lemma HandedIsReachable(cfg: Config, e: RawEvent)
    ensures Reachable(cfg, Handed(cfg, e))
  {
    var s := Apply(cfg, Init, Publish(Decodable(e)));
    assert s.stream == [Decodable(e)];
    ReachesSelf(cfg, Init, AnyStep);
    ReachesNext(cfg, Init, Init, Publish(Decodable(e)), AnyStep);
    ReachesNext(cfg, Init, s, Deliver, AnyStep);
    assert Apply(cfg, s, Deliver) == Handed(cfg, e);
  }

  /** With any store, an event can be acknowledged if and only if the pipeline accepts it. */
  lemma AckableExactly(cfg: Config, e: RawEvent)
    ensures Ackable(cfg, e) <==> Accepts(cfg, e)
  {
    if Accepts(cfg, e) {
      var s := Handed(cfg, e);
      HandedIsReachable(cfg, e);
      ReachesSelf(cfg, s, Quiet);
      AckedBy(cfg, s, s, 0, 0);
      var t :| Reaches(cfg, s, t, Quiet) && t.stream == s.stream && 0 in t.acked;
      ReachesOnward(cfg, Init, s, t, Quiet);
    } else if Ackable(cfg, e) {
      var s :| Reachable(cfg, s) && s.stream == [Decodable(e)] && 0 in s.acked;
      var r := RunTo(cfg, s);
      RejectedNeverCompletes(cfg, r, |r.steps|, 0);
    }
  }

  // ---------------------------------------------------------------- the memory store after a crash

  /** The event is locked and not done, and every attempt on it has yet to claim or has ended. */
  ghost predicate Stuck(s: State, id: string) {
    && id in s.locks && id !in s.done
    && forall a :: 0 <= a < |s.attempts| && s.attempts[a].event.eventId == id ==>
                     var pc := s.attempts[a].pc; pc == AtIsDone || pc == AtClaim || pc == Finished || pc == Crashed
  }

  lemma StuckAct(cfg: Config, s: State, a: nat, call: Call, id: string)
    requires cfg.store.Memory? && Stuck(s, id) && Enabled(cfg, s, Act(a, call)) && ClaimReplies(Act(a, call))
    ensures Stuck(Apply(cfg, s, Act(a, call)), id)
    ensures s.attempts[a].event.eventId == id ==> Apply(cfg, s, Act(a, call)).acked == s.acked
  {
  }

  lemma StuckStep(cfg: Config, s: State, step: Step, id: string, m: nat)
    requires cfg.store.Memory? && WellFormed(s) && Stuck(s, id) && Enabled(cfg, s, step) && ClaimReplies(step)
    requires m < |s.stream| && s.stream[m].Decodable? && s.stream[m].event.eventId == id && m !in s.acked
    ensures Stuck(Apply(cfg, s, step), id) && m !in Apply(cfg, s, step).acked
  {
    if step.Act? {
      StuckAct(cfg, s, step.a, step.call, id);
    }
  }

  /** However long one waits and reclaims, no entry of a stuck event is acknowledged any more. */
  lemma {:induction false} StuckForever(cfg: Config, s: State, r: Run, k: nat, id: string, m: nat)
    requires cfg.store.Memory? && Stuck(s, id) && WellFormed(s) && RunFrom(cfg, s, r) && ClaimsReply(r)
             && k < |r.states|
    requires m < |s.stream| && s.stream[m].Decodable? && s.stream[m].event.eventId == id && m !in s.acked
    ensures Stuck(r.states[k], id) && WellFormed(r.states[k]) && m !in r.states[k].acked
            && s.stream <= r.states[k].stream
  {
    if k > 0 {
      StuckForever(cfg, s, r, k - 1, id, m);
      assert s.stream[m] == r.states[k - 1].stream[m];
      StuckStep(cfg, r.states[k - 1], r.steps[k - 1], id, m);
      WellFormedStep(cfg, r.states[k - 1], r.steps[k - 1]);
      ExtendsStep(cfg, r.states[k - 1], r.steps[k - 1]);
    }
  }

  lemma ClaimsReplyWhenQuiet(step: Step)
    ensures Quiet(step) ==> ClaimReplies(step)
  {
  }

  /** An attempt past its claim, or about to acknowledge, does so undisturbed. */
  lemma HolderAcknowledges(cfg: Config, s: State, a: nat, m: nat)
    requires Reachable(cfg, s) && DistinctIds(s.stream) && m < |s.stream| && s.stream[m].Decodable? && m !in s.acked
    requires a < |s.attempts| && s.attempts[a].event.eventId == s.stream[m].event.eventId
    requires s.attempts[a].Holding() || s.attempts[a].pc == AtAck
    requires Accepts(cfg, s.stream[m].event)
    ensures CanBeAcked(cfg, s, m, Quiet)
  {
    ReachableIsWellFormed(cfg, s);
    var r := RunTo(cfg, s);
    ReleaseIsRejected(cfg, r, |r.steps|);
    assert ParseXMessage(s.stream[s.attempts[a].msg]) == Some(s.attempts[a].event);
    ReachesSelf(cfg, s, Quiet);
    AckedBy(cfg, s, s, a, m);
  }

  /** An event is marked done by an attempt that then has at most its acknowledgement left. */
  ghost predicate DoneByAttempt(s: State) {
    forall id :: id in s.done ==> exists a :: 0 <= a < |s.attempts| && HasMarkedDone(s.attempts[a], id)
  }

  predicate HasMarkedDone(att: Attempt, id: string) {
    att.event.eventId == id && (att.pc == AtAck || att.pc == Finished || att.pc == Crashed)
  }

  lemma DoneByAttemptStep(cfg: Config, s: State, step: Step)
    requires DoneByAttempt(s) && Enabled(cfg, s, step)
    ensures DoneByAttempt(Apply(cfg, s, step))
  {
    var t := Apply(cfg, s, step);
    forall id | id in t.done ensures exists a :: 0 <= a < |t.attempts| && HasMarkedDone(t.attempts[a], id) {
      if id in s.done {
        var a :| 0 <= a < |s.attempts| && HasMarkedDone(s.attempts[a], id);
        assert HasMarkedDone(t.attempts[a], id);
      } else {
        assert HasMarkedDone(t.attempts[step.a], id);
      }
    }
  }

  lemma {:induction false} DoneByAttemptRun(cfg: Config, r: Run, k: nat)
    requires IsRun(cfg, r) && k < |r.states|
    ensures DoneByAttempt(r.states[k])
  {
    if k > 0 {
      DoneByAttemptRun(cfg, r, k - 1);
      DoneByAttemptStep(cfg, r.states[k - 1], r.steps[k - 1]);
    }
  }

  /** Without crash recovery an attempt about to claim is its event's only one, so the event is not done. */
  lemma NotDoneBeforeClaim(cfg: Config, s: State, a: nat)
    requires cfg.claimIdle == 0 && Reachable(cfg, s) && DistinctIds(s.stream)
    requires a < |s.attempts| && s.attempts[a].pc == AtClaim
    ensures s.attempts[a].event.eventId !in s.done
  {
    var r := RunTo(cfg, s);
    DoneByAttemptRun(cfg, r, |r.steps|);
    OneAttemptWithoutRecovery(cfg, r, |r.steps|);
    var id := s.attempts[a].event.eventId;
    forall b | 0 <= b < |s.attempts| && s.attempts[b].event.eventId == id ensures b == a {
      assert !(a < b) && !(b < a);
    }
  }

  lemma UnlockedCanBeAcked(cfg: Config, s: State, m: nat)
    requires cfg.store.Memory? && Attended(cfg, s, m) && Reachable(cfg, s) && DistinctIds(s.stream) && m !in s.acked
    requires m < |s.stream| && s.stream[m].Decodable? && Accepts(cfg, s.stream[m].event)
    requires var id := s.stream[m].event.eventId;
             && (id in s.done || id !in s.locks)
             && forall a :: 0 <= a < |s.attempts| && s.attempts[a].event.eventId == id ==>
                              !s.attempts[a].Holding() && s.attempts[a].pc != AtAck
    ensures CanBeAcked(cfg, s, m, Quiet)
  {
    if s.cursor <= m || cfg.claimIdle > 0 {
      var u := FreshAttempt(cfg, s, m);
      AckedBy(cfg, s, u, |u.attempts| - 1, m);
    } else {
      var a :| 0 <= a < |s.attempts| && s.attempts[a].msg == m && Alive(s.attempts[a].pc);
      ReachableIsWellFormed(cfg, s);
      assert ParseXMessage(s.stream[s.attempts[a].msg]) == Some(s.attempts[a].event);
      if s.attempts[a].pc == AtClaim {
        NotDoneBeforeClaim(cfg, s, a);
      }
      ReachesSelf(cfg, s, Quiet);
      AckedBy(cfg, s, s, a, m);
    }
  }

  lemma UnstuckCanBeAcked(cfg: Config, s: State, m: nat)
    requires cfg.store.Memory? && Attended(cfg, s, m) && Reachable(cfg, s) && DistinctIds(s.stream) && m !in s.acked
    requires m < |s.stream| && s.stream[m].Decodable? && Accepts(cfg, s.stream[m].event)
    requires !Stuck(s, s.stream[m].event.eventId)
    ensures CanBeAcked(cfg, s, m, Quiet)
  {
    var id := s.stream[m].event.eventId;
    if a :| 0 <= a < |s.attempts| && s.attempts[a].event.eventId == id
            && (s.attempts[a].Holding() || s.attempts[a].pc == AtAck) {
      HolderAcknowledges(cfg, s, a, m);
    } else {
      UnlockedCanBeAcked(cfg, s, m);
    }
  }

  /**
    The memory store, from every reachable state: an entry can still be acknowledged without a failing
    claim under the conditions of the Redis store and one more, that it is acknowledged already or its
    event is not stuck.  If it can be without a failing claim, it can be without any failure.
  */
  lemma MemoryCanBeAckedExactly(cfg: Config, s: State, m: nat)
    requires cfg.store.Memory? && Reachable(cfg, s) && DistinctIds(s.stream) && m < |s.stream|
    ensures CanBeAcked(cfg, s, m, ClaimReplies) <==>
            && s.stream[m].Decodable? && Accepts(cfg, s.stream[m].event) && Attended(cfg, s, m)
            && (m in s.acked || !Stuck(s, s.stream[m].event.eventId))
    ensures CanBeAcked(cfg, s, m, Quiet) <==> CanBeAcked(cfg, s, m, ClaimReplies)
  {
    if CanBeAcked(cfg, s, m, Quiet) {
      forall step ensures Quiet(step) ==> ClaimReplies(step) {
        ClaimsReplyWhenQuiet(step);
      }
      CanBeAckedMore(cfg, s, m, ClaimReplies);
    }
    if CanBeAcked(cfg, s, m, ClaimReplies) {
      AckedWasPossible(cfg, s, m, ClaimReplies);
      if m !in s.acked && Stuck(s, s.stream[m].event.eventId) {
        StuckIsFinal(cfg, s, m);
      }
    }
    if s.stream[m].Decodable? && Accepts(cfg, s.stream[m].event) && Attended(cfg, s, m) {
      if m in s.acked {
        AckedAlready(cfg, s, m);
      } else if !Stuck(s, s.stream[m].event.eventId) {
        UnstuckCanBeAcked(cfg, s, m);
      }
    }
  }

  lemma StuckIsFinal(cfg: Config, s: State, m: nat)
    requires cfg.store.Memory? && Reachable(cfg, s) && m < |s.stream| && s.stream[m].Decodable? && m !in s.acked
    requires Stuck(s, s.stream[m].event.eventId)
    ensures !CanBeAcked(cfg, s, m, ClaimReplies)
  {
    ReachableIsWellFormed(cfg, s);
    forall t | Reaches(cfg, s, t, ClaimReplies) ensures m !in t.acked {
      var r: Run :|
        RunFrom(cfg, s, r) && r.states[|r.steps|] == t && forall i :: 0 <= i < |r.steps| ==> ClaimReplies(r.steps[i]);
      StuckForever(cfg, s, r, |r.steps|, s.stream[m].event.eventId, m);
    }
  }

  /** `e` after its worker has claimed it and crashed. */
  function Abandoned(cfg: Config, e: RawEvent): State {
    Handed(cfg, e).(locks := map[e.eventId := cfg.lockTTL], lockOwner := map[e.eventId := 0],
    attempts := [Attempt(0, e, Crashed, 0, 0)])
  }

  lemma AbandonedIsReachable(cfg: Config, e: RawEvent)
    requires !cfg.store.Absent?
    ensures Reachable(cfg, Abandoned(cfg, e))
  {
    var s0 := Handed(cfg, e);
    var s1 := s0.(attempts := [Attempt(0, e, AtClaim, 0, 0)]);
    var s2 := Abandoned(cfg, e).(attempts := [Attempt(0, e, AtArchive, 0, 0)]);
    assert Apply(cfg, s0, Act(0, IsDone(false))) == s1;
    assert Apply(cfg, s1, Act(0, Claim(Success))) == s2;
    assert Apply(cfg, s2, Act(0, Crash)) == Abandoned(cfg, e);
    HandedIsReachable(cfg, e);
    ReachesNext(cfg, Init, s0, Act(0, IsDone(false)), AnyStep);
    ReachesNext(cfg, Init, s1, Act(0, Claim(Success)), AnyStep);
    ReachesNext(cfg, Init, s2, Act(0, Crash), AnyStep);
  }

  /**
    One crash after a claim: with Redis the event can still be acknowledged, with the memory store it
    never is, as long as claims get a reply.
  */
  lemma CrashIsFinalInMemory(cfg: Config, e: RawEvent)
    requires !cfg.store.Absent? && cfg.claimIdle > 0 && Accepts(cfg, e)
    ensures var s := Abandoned(cfg, e);
            && Reachable(cfg, s) && s.stream == [Decodable(e)] && 0 in s.pending
            && (cfg.store.Redis? ==> CanBeAcked(cfg, s, 0, Quiet))
            && (cfg.store.Memory? ==> forall r, k ::
                    RunFrom(cfg, s, r) && ClaimsReply(r) && 0 <= k < |r.states| ==> 0 !in r.states[k].acked)
  {
    var s := Abandoned(cfg, e);
    AbandonedIsReachable(cfg, e);
    if cfg.store.Redis? {
      AcceptedCanBeAcked(cfg, s, 0);
    } else {
      ReachableIsWellFormed(cfg, s);
      forall r, k | RunFrom(cfg, s, r) && ClaimsReply(r) && 0 <= k < |r.states| ensures 0 !in r.states[k].acked {
        StuckForever(cfg, s, r, k, e.eventId, 0);
      }
    }
  }
}
