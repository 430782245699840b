/** How often one event can enter the pipeline within one done-marker lifetime. */
module Reexecution {
  import opened Models
  import opened Delivery
  import opened AckSafety
  import opened Exclusion

  /** A live attempt that has claimed and whose pipeline has not failed. */
  predicate Working(att: Attempt) {
    att.pc == AtArchive || att.pc == AtPipeline || att.pc == AtMarkDone
  }

  ghost predicate SomeoneWorks(s: State, id: string) {
    exists a :: 0 <= a < |s.attempts| && Working(s.attempts[a]) && s.attempts[a].event.eventId == id
  }

  ghost function InFlight(s: State, id: string): nat {
    if SomeoneWorks(s, id) then 1 else 0
  }

  predicate CrashesAtWork(s: State, step: Step, id: string) {
    ActsFor(s, step, id) && step.call.Crash? && Working(s.attempts[step.a])
  }

  /** What happened to event `id`: pipelines started, completed, failed, and lost in a crash. */
  datatype Tally = Tally(started: nat, completed: nat, failed: nat, crashed: nat)

  function One(b: bool): nat {
    if b then 1 else 0
  }

  /** The tally of steps i .. j-1. */
  ghost function Window(cfg: Config, r: Run, id: string, i: nat, j: nat): Tally
    requires i <= j < |r.states| == |r.steps| + 1
    decreases j
  {
    if i == j then Tally(0, 0, 0, 0)
    else
      var before, s, step := Window(cfg, r, id, i, j - 1), r.states[j - 1], r.steps[j - 1];
      Tally(before.started + One(Starts(cfg, s, step, id)),
            before.completed + One(Completes(s, step, id)),
            before.failed + One(PipelineFails(cfg, s, step, id)),
            before.crashed + One(CrashesAtWork(s, step, id)))
  }

  /** One step moves at most one attempt of the event into or out of the pipeline. */
  lemma BalanceStep(cfg: Config, s: State, step: Step, id: string)
    requires cfg.store.Redis? && Enabled(cfg, s, step)
    requires OwnsLock(cfg, s) && OwnsLock(cfg, Apply(cfg, s, step))
    ensures One(Starts(cfg, s, step, id)) + InFlight(s, id)
         == One(Completes(s, step, id)) + One(PipelineFails(cfg, s, step, id)) + One(CrashesAtWork(s, step, id))
            + InFlight(Apply(cfg, s, step), id)
  {
    var t := Apply(cfg, s, step);
    if ActsFor(s, step, id) && Working(s.attempts[step.a]) && !Working(t.attempts[step.a]) {
      LoneWorker(cfg, s, t, id, step.a);
    } else if ActsFor(s, step, id) && !Working(s.attempts[step.a]) && Working(t.attempts[step.a]) {
      LoneWorker(cfg, t, s, id, step.a);
    } else {
      SameWorkers(s, t, id);
    }
  }

  lemma BalanceNext(cfg: Config, s: State, step: Step, t: State, id: string)
    requires cfg.store.Redis? && Enabled(cfg, s, step) && t == Apply(cfg, s, step)
    requires OwnsLock(cfg, s) && OwnsLock(cfg, t)
    ensures One(Starts(cfg, s, step, id)) + InFlight(s, id)
         == One(Completes(s, step, id)) + One(PipelineFails(cfg, s, step, id)) + One(CrashesAtWork(s, step, id))
            + InFlight(t, id)
  {
    BalanceStep(cfg, s, step, id);
  }

  /** If `a` works on the event in `s` and `t` differs from `s` only in that, nobody works on it in `t`. */
  lemma LoneWorker(cfg: Config, s: State, t: State, id: string, a: nat)
    requires OwnsLock(cfg, s) && a < |s.attempts| == |t.attempts|
    requires Working(s.attempts[a]) && s.attempts[a].event.eventId == id && !Working(t.attempts[a])
    requires forall b :: 0 <= b < |s.attempts| && b != a ==> t.attempts[b] == s.attempts[b]
    ensures InFlight(s, id) == 1 && InFlight(t, id) == 0
  {
    forall b | 0 <= b < |s.attempts| && Working(s.attempts[b]) && s.attempts[b].event.eventId == id ensures b == a {
      assert s.attempts[a].Holding() && s.attempts[b].Holding();
    }
  }

  lemma SameWorkers(s: State, t: State, id: string)
    requires |s.attempts| <= |t.attempts|
    requires forall a :: 0 <= a < |s.attempts| ==> s.attempts[a].event == t.attempts[a].event
    requires forall a :: 0 <= a < |s.attempts| && s.attempts[a].event.eventId == id ==>
                           Working(s.attempts[a]) == Working(t.attempts[a])
    requires forall a :: |s.attempts| <= a < |t.attempts| ==> !Working(t.attempts[a])
    ensures InFlight(s, id) == InFlight(t, id)
  {
    if SomeoneWorks(s, id) {
      var a :| 0 <= a < |s.attempts| && Working(s.attempts[a]) && s.attempts[a].event.eventId == id;
      assert Working(t.attempts[a]) && t.attempts[a].event.eventId == id;
    }
  }

  ghost predicate Within(cfg: Config, r: Run, P: nat, G: nat) {
    LockCovers(cfg, P, G) && IsRun(cfg, r) && AllReply(r) && TimelyRun(r, P, G)
  }

  /** Step n moves at most one attempt of the event into or out of the pipeline. */
  ghost predicate BalancesAt(cfg: Config, r: Run, id: string, n: nat)
    requires n < |r.steps| && |r.states| == |r.steps| + 1
  {
    var s, step := r.states[n], r.steps[n];
    One(Starts(cfg, s, step, id)) + InFlight(s, id)
    == One(Completes(s, step, id)) + One(PipelineFails(cfg, s, step, id)) + One(CrashesAtWork(s, step, id))
    + InFlight(r.states[n + 1], id)
  }

  lemma {:induction false} BalancesAddUp(cfg: Config, r: Run, id: string, i: nat, j: nat)
    requires i <= j < |r.states| == |r.steps| + 1 && forall n :: i <= n < j ==> BalancesAt(cfg, r, id, n)
    ensures var w := Window(cfg, r, id, i, j);
            w.started + InFlight(r.states[i], id) == w.completed + w.failed + w.crashed + InFlight(r.states[j], id)
    decreases j
  {
    if i < j {
      BalancesAddUp(cfg, r, id, i, j - 1);
      assert BalancesAt(cfg, r, id, j - 1);
    }
  }

  /** Starts and completions, failures and crashes balance against the work in flight. */
  lemma WindowBalances(cfg: Config, r: Run, P: nat, G: nat, id: string, i: nat, j: nat)
    requires Within(cfg, r, P, G) && i <= j < |r.states|
    ensures var w := Window(cfg, r, id, i, j);
            w.started + InFlight(r.states[i], id) == w.completed + w.failed + w.crashed + InFlight(r.states[j], id)
  {
    forall n | i <= n < j ensures BalancesAt(cfg, r, id, n) {
      CompletionInvRun(cfg, r, P, G, n);
      CompletionInvRun(cfg, r, P, G, n + 1);
      BalanceNext(cfg, r.states[n], r.steps[n], r.states[n + 1], id);
    }
    BalancesAddUp(cfg, r, id, i, j);
  }

  /** While a marker is live nobody works on the event. */
  lemma LiveMarkerStopsWork(cfg: Config, s: State, G: nat, id: string)
    requires MarkerGuards(cfg, s, G) && DoneLive(cfg, s, id)
    ensures InFlight(s, id) == 0
  {
    forall a | 0 <= a < |s.attempts| && s.attempts[a].event.eventId == id ensures !s.attempts[a].Holding() {
    }
  }

  lemma {:induction false} CompletionIn(cfg: Config, r: Run, id: string, i: nat, j: nat) returns (n: nat)
    requires i <= j < |r.states| == |r.steps| + 1 && Window(cfg, r, id, i, j).completed > 0
    ensures i <= n < j && Completes(r.states[n], r.steps[n], id)
    decreases j
  {
    if Completes(r.states[j - 1], r.steps[j - 1], id) {
      n := j - 1;
    } else {
      n := CompletionIn(cfg, r, id, i, j - 1);
    }
  }

  /** A completion in a window no longer than doneTTL leaves a marker that is live at its end. */
  lemma WindowMarker(cfg: Config, r: Run, P: nat, G: nat, id: string, i: nat, j: nat)
    requires Within(cfg, r, P, G) && i <= j < |r.states| && r.states[j].now <= r.states[i].now + cfg.doneTTL
    requires Window(cfg, r, id, i, j).completed > 0
    ensures DoneLive(cfg, r.states[j], id)
  {
    var n := CompletionIn(cfg, r, id, i, j);
    assert StoreReplies(r.steps[n]);
    MarkerPersists(cfg, r, id, n, j);
    ExtendsRun(cfg, Init, r, i, n);
  }

  /** Counting alone: a window without two completions of the event counts at most one. */
  lemma {:induction false} CountsOne(cfg: Config, r: Run, id: string, i: nat, j: nat)
    requires i <= j < |r.states| == |r.steps| + 1
    requires forall m, n :: i <= m < n < j && Completes(r.states[m], r.steps[m], id) ==>
                              !Completes(r.states[n], r.steps[n], id)
    ensures Window(cfg, r, id, i, j).completed <= 1
    decreases j
  {
    if i < j {
      CountsOne(cfg, r, id, i, j - 1);
      if Completes(r.states[j - 1], r.steps[j - 1], id) && Window(cfg, r, id, i, j - 1).completed > 0 {
        var m := CompletionIn(cfg, r, id, i, j - 1);
      }
    }
  }

  lemma WindowCompletesOnce(cfg: Config, r: Run, P: nat, G: nat, id: string, i: nat, j: nat)
    requires Within(cfg, r, P, G) && i <= j < |r.states| && r.states[j].now <= r.states[i].now + cfg.doneTTL
    ensures Window(cfg, r, id, i, j).completed <= 1
  {
    forall m, n | i <= m < n < j && Completes(r.states[m], r.steps[m], id)
      ensures !Completes(r.states[n], r.steps[n], id)
    {
      if Completes(r.states[n], r.steps[n], id) {
        TwoCompletionsApart(cfg, r, P, G, m, n, id);
        ExtendsRun(cfg, Init, r, i, m);
        ExtendsRun(cfg, Init, r, n, j);
      }
    }
    CountsOne(cfg, r, id, i, j);
  }

  /**
    Within one doneTTL window an event enters the pipeline at most once more than its pipelines
    failed or crashed: no re-execution happens without a reason.
  */
  lemma BoundedReexecution(cfg: Config, r: Run, P: nat, G: nat, id: string, i: nat, j: nat)
    requires Within(cfg, r, P, G) && i <= j < |r.states|
    requires r.states[j].now <= r.states[i].now + cfg.doneTTL
    ensures var w := Window(cfg, r, id, i, j); w.started <= 1 + w.failed + w.crashed
  {
    WindowBalances(cfg, r, P, G, id, i, j);
    WindowCompletesOnce(cfg, r, P, G, id, i, j);
    CompletionInvRun(cfg, r, P, G, j);
    if Window(cfg, r, id, i, j).completed > 0 {
      WindowMarker(cfg, r, P, G, id, i, j);
      LiveMarkerStopsWork(cfg, r.states[j], G, id);
    }
  }

  /** No pipeline starts for an event while its marker is live. */
  lemma NoStartWhileDone(cfg: Config, r: Run, P: nat, G: nat, id: string, i: nat)
    requires Within(cfg, r, P, G) && i < |r.steps| && Starts(cfg, r.states[i], r.steps[i], id)
    ensures !DoneLive(cfg, r.states[i], id)
  {
    CompletionInvRun(cfg, r, P, G, i);
    assert Enabled(cfg, r.states[i], r.steps[i]) && StoreReplies(r.steps[i]);
    ClaimFindsNoMarker(cfg, r.states[i], r.steps[i].a, P, G);
  }

  /**
    For doneTTL after a completion the event's attempts do nothing but acknowledge: none starts a
    pipeline, and each that checks finds the event done.
  */
  lemma CompletedIsOnlyAcked(cfg: Config, r: Run, P: nat, G: nat, id: string, i: nat, k: nat)
    requires Within(cfg, r, P, G) && i < k < |r.steps| && Completes(r.states[i], r.steps[i], id)
    requires r.states[k].now <= r.states[i].now + cfg.doneTTL && ActsFor(r.states[k], r.steps[k], id)
    ensures !Starts(cfg, r.states[k], r.steps[k], id)
    ensures !PipelineSucceeds(cfg, r.states[k], r.steps[k], id) && !PipelineFails(cfg, r.states[k], r.steps[k], id)
    ensures r.steps[k].call.IsDone? ==> r.states[k + 1].attempts[r.steps[k].a].pc == AtAck
  {
    assert StoreReplies(r.steps[i]) && StoreReplies(r.steps[k]);
    MarkerPersists(cfg, r, id, i, k);
    CompletionInvRun(cfg, r, P, G, k);
    assert Enabled(cfg, r.states[k], r.steps[k]) && r.states[k + 1] == Apply(cfg, r.states[k], r.steps[k]);
    if Starts(cfg, r.states[k], r.steps[k], id) {
      NoStartWhileDone(cfg, r, P, G, id, k);
    }
    var att := r.states[k].attempts[r.steps[k].a];
    assert att.pc == AtPipeline ==> att.Holding();
  }

  /** An event whose acknowledgement failed is acknowledged on redelivery, touching nothing else. */
  lemma DoneEventIsOnlyAcked(cfg: Config, s: State, a: nat)
    requires a < |s.attempts| && s.attempts[a].pc == AtIsDone
    requires DoneLive(cfg, s, s.attempts[a].event.eventId) && s.attempts[a].msg in s.pending
    ensures var checked := Apply(cfg, s, Act(a, IsDone(false)));
            && Enabled(cfg, checked, Act(a, Ack(Success)))
            && var t := Apply(cfg, checked, Act(a, Ack(Success)));
            && t.attempts[a].pc == Finished
            && t.acked == s.acked + {s.attempts[a].msg} && t.pending == s.pending - {s.attempts[a].msg}
            && t.archive == s.archive && t.done == s.done && t.locks == s.locks && t.stream == s.stream
  {
  }
}
