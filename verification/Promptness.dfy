/**
  Bounded recovery: once nothing fails any more and everybody is prompt, an accepted entry is
  acknowledged within a time given by lockTTL and claimIdle, whatever happened before.
*/
module Promptness {
  import opened Models
  import opened Delivery
  import opened AckSafety
  import opened Exclusion
  import Archive
  import Recovery
  import Progress

  /**
    An entry watched from time `since` on.  `stage` bounds how long an attempt stays before its check,
    between check and claim, and from its claim (or, for a done event, its start) to its end; `slack`
    bounds how long the entry stays undelivered, and how long it stays pending beyond claimIdle.
  */
  datatype Watch = Watch(m: nat, event: RawEvent, since: nat, stage: nat, slack: nat)

  function Max(x: nat, y: nat): nat {
    if x >= y then x else y
  }

  predicate Working(pc: Pc) {
    pc == AtArchive || pc == AtPipeline || pc == AtMarkDone || pc == AtAck
  }

  predicate PromptAttempt(w: Watch, att: Attempt, now: nat) {
    && (att.pc == AtIsDone || att.pc == AtClaim ==> now <= Max(att.checkedAt, w.since) + w.stage)
    && (Working(att.pc) ==> now <= Max(att.claimedAt, w.since) + w.stage)
  }

  /** Up to `s` nobody has been late with the watched entry. */
  ghost predicate Prompt(cfg: Config, w: Watch, s: State) {
    && (forall a :: 0 <= a < |s.attempts| && s.attempts[a].msg == w.m ==> PromptAttempt(w, s.attempts[a], s.now))
    && (s.cursor <= w.m ==> s.now <= w.since + w.slack)
    && (w.m in s.pending ==> s.now <= Max(s.pending[w.m], w.since) + cfg.claimIdle + w.slack)
  }

  /** No call fails and nobody crashes; entries may be published. */
  predicate Faultless(step: Step) {
    step.Publish? || Progress.Quiet(step)
  }

  /** By then the entry has been delivered or reclaimed at a time when no lock from before `since` is left. */
  function Fresh(cfg: Config, w: Watch): nat {
    w.since + cfg.lockTTL + cfg.claimIdle + w.slack
  }

  /** An attempt that will end in time. */
  predicate OnTime(cfg: Config, w: Watch, att: Attempt) {
    && att.msg == w.m
    && match att.pc
       case AtIsDone => att.checkedAt <= Fresh(cfg, w) && att.claimedAt <= Fresh(cfg, w)
       case AtClaim => att.checkedAt <= Fresh(cfg, w) + w.stage
       case _ => Working(att.pc) && att.claimedAt <= Fresh(cfg, w) + 2 * w.stage
  }

  ghost predicate SomeoneOnTime(cfg: Config, w: Watch, s: State) {
    exists a :: 0 <= a < |s.attempts| && OnTime(cfg, w, s.attempts[a])
  }

  ghost predicate SomeoneWorking(w: Watch, s: State) {
    exists a :: 0 <= a < |s.attempts| && s.attempts[a].msg == w.m && Working(s.attempts[a].pc)
  }

  /** What is known of every state: times lie in the past, and accepted events are never released. */
  ghost predicate Sound(cfg: Config, w: Watch, s: State) {
    && WellFormed(s) && Stamped(s) && DistinctIds(s.stream)
    && w.m < |s.stream| && s.stream[w.m] == Decodable(w.event) && Accepts(cfg, w.event) && w.since <= s.now
    && (w.m in s.pending ==> s.pending[w.m] <= s.now)
    && (forall a :: 0 <= a < |s.attempts| && s.attempts[a].msg == w.m ==> s.attempts[a].pc != AtRelease)
  }

  /** A lock from after `since` belongs to someone working; a late delivery has someone on time. */
  ghost predicate OnCourse(cfg: Config, w: Watch, s: State) {
    || w.m in s.acked
    || (&& (w.event.eventId in s.locks && s.locks[w.event.eventId] > w.since + cfg.lockTTL ==> SomeoneWorking(w, s))
        && (w.m in s.pending && s.pending[w.m] > w.since + cfg.lockTTL ==> SomeoneOnTime(cfg, w, s)))
  }

  lemma EventOf(cfg: Config, w: Watch, s: State, a: nat)
    requires Sound(cfg, w, s) && a < |s.attempts|
    ensures s.attempts[a].msg == w.m <==> s.attempts[a].event.eventId == w.event.eventId
    ensures s.attempts[a].msg == w.m ==> s.attempts[a].event == w.event
  {
    assert ParseXMessage(s.stream[s.attempts[a].msg]) == Some(s.attempts[a].event);
  }

  // ---------------------------------------------------------------- one step

  /** Steps that begin no attempt on the entry and make no call for it. */
  lemma OnCourseElsewhere(cfg: Config, w: Watch, s: State, t: State)
    requires OnCourse(cfg, w, s) && s.acked <= t.acked && |s.attempts| <= |t.attempts|
    requires forall a :: 0 <= a < |s.attempts| && s.attempts[a].msg == w.m ==> t.attempts[a] == s.attempts[a]
    requires w.event.eventId in t.locks ==> w.event.eventId in s.locks
                                            && t.locks[w.event.eventId] == s.locks[w.event.eventId]
    requires w.m in t.pending ==> w.m in s.pending && t.pending[w.m] == s.pending[w.m]
    ensures OnCourse(cfg, w, t)
  {
    if SomeoneWorking(w, s) {
      var a :| 0 <= a < |s.attempts| && s.attempts[a].msg == w.m && Working(s.attempts[a].pc);
      assert t.attempts[a] == s.attempts[a];
    }
    if SomeoneOnTime(cfg, w, s) {
      var a :| 0 <= a < |s.attempts| && OnTime(cfg, w, s.attempts[a]);
      assert t.attempts[a] == s.attempts[a];
    }
  }

  /** The entry is delivered or reclaimed. */
  lemma OnCourseHanded(cfg: Config, w: Watch, s: State, t: State)
    requires cfg.store.Redis? && Sound(cfg, w, s) && Prompt(cfg, w, s) && OnCourse(cfg, w, s)
    requires w.m == s.cursor || w.m in s.pending
    requires t.now == s.now && t.locks == s.locks && t.acked == s.acked && t.pending == s.pending[w.m := s.now]
    requires t.attempts == s.attempts + Begin(cfg, s.stream[w.m], w.m, s.now)
    ensures OnCourse(cfg, w, t)
  {
    if w.m !in s.acked {
      if SomeoneWorking(w, s) {
        var a :| 0 <= a < |s.attempts| && s.attempts[a].msg == w.m && Working(s.attempts[a].pc);
        assert t.attempts[a] == s.attempts[a];
      }
      if SomeoneOnTime(cfg, w, s) {
        var a :| 0 <= a < |s.attempts| && OnTime(cfg, w, s.attempts[a]);
        assert t.attempts[a] == s.attempts[a];
      } else {
        assert s.now <= Fresh(cfg, w);
        assert OnTime(cfg, w, t.attempts[|s.attempts|]);
      }
    }
  }

  /** Attempt `a` on the entry moves on without being refused: whoever was on time or working still is. */
  lemma OnCourseMove(cfg: Config, w: Watch, s: State, t: State, a: nat)
    requires Sound(cfg, w, s) && OnCourse(cfg, w, s) && w.m !in s.acked && a < |s.attempts| && s.attempts[a].msg == w.m
    requires |t.attempts| == |s.attempts| && t.attempts == s.attempts[a := t.attempts[a]] && t.pending == s.pending
    requires OnTime(cfg, w, s.attempts[a]) ==> OnTime(cfg, w, t.attempts[a])
    requires Working(s.attempts[a].pc) ==> t.attempts[a].msg == w.m && Working(t.attempts[a].pc)
    requires t.locks == s.locks || (t.attempts[a].msg == w.m && Working(t.attempts[a].pc))
    ensures OnCourse(cfg, w, t)
  {
    if SomeoneWorking(w, s) {
      var b :| 0 <= b < |s.attempts| && s.attempts[b].msg == w.m && Working(s.attempts[b].pc);
      assert t.attempts[b].msg == w.m && Working(t.attempts[b].pc);
    }
    if SomeoneOnTime(cfg, w, s) {
      var b :| 0 <= b < |s.attempts| && OnTime(cfg, w, s.attempts[b]);
      assert OnTime(cfg, w, t.attempts[b]);
    }
  }

  /** A refused attempt that was on time leaves the one that refused it, which is on time as well. */
  lemma OnCourseRefused(cfg: Config, w: Watch, s: State, t: State, a: nat)
    requires cfg.store.Redis? && Sound(cfg, w, s) && Prompt(cfg, w, s) && OnCourse(cfg, w, s) && w.m !in s.acked
    requires a < |s.attempts| && s.attempts[a].msg == w.m && s.attempts[a].pc == AtClaim
             && LockLive(cfg, s, w.event.eventId)
    requires t == s.(attempts := s.attempts[a := s.attempts[a].(pc := Finished)])
    ensures OnCourse(cfg, w, t)
  {
    if SomeoneWorking(w, s) {
      var b :| 0 <= b < |s.attempts| && s.attempts[b].msg == w.m && Working(s.attempts[b].pc);
      assert t.attempts[b] == s.attempts[b];
      if OnTime(cfg, w, s.attempts[a]) {
        assert s.attempts[b].claimedAt <= s.now <= Max(s.attempts[a].checkedAt, w.since) + w.stage;
        assert OnTime(cfg, w, t.attempts[b]);
      }
    }
    if SomeoneOnTime(cfg, w, s) && !OnTime(cfg, w, s.attempts[a]) {
      var b :| 0 <= b < |s.attempts| && OnTime(cfg, w, s.attempts[b]);
      assert t.attempts[b] == s.attempts[b];
    }
  }

  lemma OnCourseAct(cfg: Config, w: Watch, s: State, a: nat, call: Call)
    requires cfg.store.Redis? && Sound(cfg, w, s) && Prompt(cfg, w, s) && OnCourse(cfg, w, s) && w.m !in s.acked
    requires Enabled(cfg, s, Act(a, call)) && Faultless(Act(a, call)) && s.attempts[a].msg == w.m
    ensures OnCourse(cfg, w, Apply(cfg, s, Act(a, call)))
  {
    EventOf(cfg, w, s, a);
    var t := Apply(cfg, s, Act(a, call));
    if call == Claim(Success) && LockLive(cfg, s, w.event.eventId) {
      OnCourseRefused(cfg, w, s, t, a);
    } else if call.Ack? {
      assert w.m in t.acked;
    } else {
      OnCourseMove(cfg, w, s, t, a);
    }
  }

  lemma OnCourseStep(cfg: Config, w: Watch, s: State, step: Step)
    requires cfg.store.Redis? && Sound(cfg, w, s) && Prompt(cfg, w, s) && OnCourse(cfg, w, s)
    requires Enabled(cfg, s, step) && Faultless(step)
    ensures OnCourse(cfg, w, Apply(cfg, s, step))
  {
    var t := Apply(cfg, s, step);
    ExtendsStep(cfg, s, step);
    if w.m in s.acked {
      return;
    }
    match step {
      case Publish(_) => OnCourseElsewhere(cfg, w, s, t);
      case Tick(_) => OnCourseElsewhere(cfg, w, s, t);
      case Deliver =>
        if s.cursor == w.m {
          OnCourseHanded(cfg, w, s, t);
        } else {
          OnCourseElsewhere(cfg, w, s, t);
        }
      case Reclaim(m) =>
        if m == w.m {
          OnCourseHanded(cfg, w, s, t);
        } else {
          OnCourseElsewhere(cfg, w, s, t);
        }
      case Act(a, call) =>
        if s.attempts[a].msg == w.m {
          OnCourseAct(cfg, w, s, a, call);
        } else {
          EventOf(cfg, w, s, a);
          OnCourseElsewhere(cfg, w, s, t);
        }
    }
  }

  // ---------------------------------------------------------------- whole runs

  lemma {:induction false} StampedRun(cfg: Config, r: Run, k: nat)
    requires IsRun(cfg, r) && k < |r.states|
    ensures Stamped(r.states[k])
  {
    if k > 0 {
      StampedRun(cfg, r, k - 1);
      assert Enabled(cfg, r.states[k - 1], r.steps[k - 1]);
    }
  }

  /** From state i on, nothing fails and nobody is late with the watched entry. */
  ghost predicate Watched(cfg: Config, w: Watch, r: Run, i: nat, k: nat) {
    && cfg.store.Redis? && IsRun(cfg, r) && i <= k < |r.states| && w.since == r.states[i].now
    && w.m < |r.states[i].stream| && r.states[i].stream[w.m] == Decodable(w.event) && Accepts(cfg, w.event)
    && DistinctIds(r.states[k].stream)
    && (forall n :: i <= n < k ==> Faultless(r.steps[n]))
    && (forall n :: i <= n <= k ==> Prompt(cfg, w, r.states[n]))
  }

  lemma SoundAt(cfg: Config, w: Watch, r: Run, i: nat, n: nat, k: nat)
    requires Watched(cfg, w, r, i, k) && i <= n <= k
    ensures Sound(cfg, w, r.states[n])
  {
    WellFormedRun(cfg, r, n);
    StampedRun(cfg, r, n);
    ExtendsRun(cfg, Init, r, i, n);
    ExtendsRun(cfg, Init, r, n, k);
    Archive.DistinctBefore(r.states[n].stream, r.states[k].stream);
    Recovery.DeliveredBefore(cfg, r, w.m, n);
    Progress.ReleaseIsRejected(cfg, r, n);
    assert r.states[n].stream[w.m] == r.states[i].stream[w.m];
    forall a | 0 <= a < |r.states[n].attempts| && r.states[n].attempts[a].msg == w.m
      ensures r.states[n].attempts[a].pc != AtRelease
    {
      assert ParseXMessage(r.states[n].stream[w.m]) == Some(r.states[n].attempts[a].event);
    }
  }

  lemma {:induction false} OnCourseRun(cfg: Config, w: Watch, r: Run, i: nat, n: nat, k: nat)
    requires Watched(cfg, w, r, i, k) && i <= n <= k
    ensures OnCourse(cfg, w, r.states[n])
    decreases n
  {
    SoundAt(cfg, w, r, i, n, k);
    if n == i {
      if w.event.eventId in r.states[i].locks {
        var x := Recovery.LockSetter(cfg, r, w.event.eventId, i);
        ExtendsRun(cfg, Init, r, x, i);
      }
    } else {
      OnCourseRun(cfg, w, r, i, n - 1, k);
      SoundAt(cfg, w, r, i, n - 1, k);
      OnCourseStep(cfg, w, r.states[n - 1], r.steps[n - 1]);
    }
  }

  lemma AckedOrEarly(cfg: Config, w: Watch, s: State)
    requires Sound(cfg, w, s) && Prompt(cfg, w, s) && OnCourse(cfg, w, s)
    ensures w.m in s.acked || s.now <= Fresh(cfg, w) + 3 * w.stage
  {
    if SomeoneOnTime(cfg, w, s) {
      var a :| 0 <= a < |s.attempts| && OnTime(cfg, w, s.attempts[a]);
      assert PromptAttempt(w, s.attempts[a], s.now);
    }
  }

  /**
    Whatever state the failures have left behind - crashed holders, orphaned locks, missed
    acknowledgements - an accepted entry is acknowledged before
    lockTTL + claimIdle + slack + 3 stages have passed.
  */
  lemma PromptlyAcknowledged(cfg: Config, w: Watch, r: Run, i: nat, k: nat)
    requires Watched(cfg, w, r, i, k)
    requires r.states[k].now > r.states[i].now + cfg.lockTTL + cfg.claimIdle + w.slack + 3 * w.stage
    ensures w.m in r.states[k].acked
  {
    OnCourseRun(cfg, w, r, i, k, k);
    SoundAt(cfg, w, r, i, k, k);
    AckedOrEarly(cfg, w, r.states[k]);
  }
}
