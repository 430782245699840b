/**
  What holds in every run of the delivery protocol, whatever fails and whenever anything expires: no
  entry is lost, and none is acknowledged before its event's pipeline has succeeded.
*/
module AckSafety {
  import opened Models
  import opened Delivery

  // ---------------------------------------------------------------- conservation of entries

  /** Undelivered, pending and acked partition the stream, and attempts carry the event their entry holds. */
  ghost predicate WellFormed(s: State) {
    && s.cursor <= |s.stream|
    && s.pending.Keys !! s.acked
    && (forall m: nat :: m < s.cursor <==> m in s.pending || m in s.acked)
    && (forall a :: 0 <= a < |s.attempts| ==> s.attempts[a].msg < s.cursor)
    && (forall a :: 0 <= a < |s.attempts| ==> ParseXMessage(s.stream[s.attempts[a].msg]) == Some(s.attempts[a].event))
  }

  lemma WellFormedMove(s: State, t: State, a: nat)
    requires WellFormed(s) && t.cursor == s.cursor && t.stream == s.stream
    requires a < |s.attempts| == |t.attempts|
    requires t.attempts == s.attempts[a := t.attempts[a]]
    requires t.attempts[a].msg == s.attempts[a].msg && t.attempts[a].event == s.attempts[a].event
    requires (t.pending == s.pending && t.acked == s.acked)
             || (s.attempts[a].msg in s.pending && t.pending == s.pending - {s.attempts[a].msg}
                 && t.acked == s.acked + {s.attempts[a].msg})
    ensures WellFormed(t)
  {
  }

  lemma WellFormedHand(cfg: Config, s: State, m: nat)
    requires m < s.cursor <= |s.stream| && m !in s.acked && s.pending.Keys !! s.acked
    requires forall n: nat :: n < s.cursor <==> n == m || n in s.pending || n in s.acked
    requires forall a :: 0 <= a < |s.attempts| ==> s.attempts[a].msg < s.cursor
    requires forall a :: 0 <= a < |s.attempts| ==>
                           ParseXMessage(s.stream[s.attempts[a].msg]) == Some(s.attempts[a].event)
    ensures WellFormed(Hand(cfg, s, m))
  {
  }

  lemma WellFormedStep(cfg: Config, s: State, step: Step)
    requires WellFormed(s) && Enabled(cfg, s, step)
    ensures WellFormed(Apply(cfg, s, step))
  {
    match step {
      case Publish(_) =>
      case Deliver => WellFormedHand(cfg, s.(cursor := s.cursor + 1), s.cursor);
      case Reclaim(m) => WellFormedHand(cfg, s, m);
      case Tick(_) =>
      case Act(a, call) => WellFormedMove(s, Apply(cfg, s, step), a);
    }
  }

  lemma {:induction false} WellFormedRun(cfg: Config, r: Run, k: nat)
    requires IsRun(cfg, r) && k < |r.states|
    ensures WellFormed(r.states[k])
  {
    if k > 0 {
      WellFormedRun(cfg, r, k - 1);
      WellFormedStep(cfg, r.states[k - 1], r.steps[k - 1]);
    }
  }

  /** Every appended entry is in exactly one of the three places, at every moment of every run. */
  lemma Conservation(cfg: Config, r: Run, k: nat, m: nat)
    requires IsRun(cfg, r) && k < |r.states| && m < |r.states[k].stream|
    ensures var s := r.states[k];
            var undelivered, pending, acked := m >= s.cursor, m in s.pending, m in s.acked;
            && (undelivered || pending || acked)
            && !(undelivered && pending) && !(undelivered && acked) && !(pending && acked)
  {
    WellFormedRun(cfg, r, k);
  }

  /** An entry stops being pending only when an attempt on that very entry acknowledges it. */
  lemma PendingUntilAcked(cfg: Config, r: Run, i: nat, m: nat)
    requires IsRun(cfg, r) && i < |r.steps|
    requires m in r.states[i].pending && m !in r.states[i + 1].pending
    ensures r.steps[i].Act? && r.steps[i].call.Ack? && r.steps[i].call.outcome.Applied()
    ensures r.states[i].attempts[r.steps[i].a].msg == m && m in r.states[i + 1].acked
  {
    var s, step := r.states[i], r.steps[i];
    assert Enabled(cfg, s, step) && r.states[i + 1] == Apply(cfg, s, step);
  }

  /** What never goes back: acknowledgements, the cursor, published entries, attempts and time. */
  ghost predicate Extends(s: State, t: State) {
    && s.acked <= t.acked
    && s.cursor <= t.cursor
    && s.stream <= t.stream
    && s.now <= t.now
    && |s.attempts| <= |t.attempts|
    && (forall a :: 0 <= a < |s.attempts| ==>
                      s.attempts[a].event == t.attempts[a].event && s.attempts[a].msg == t.attempts[a].msg)
  }

  lemma ExtendsStep(cfg: Config, s: State, step: Step)
    requires Enabled(cfg, s, step)
    ensures Extends(s, Apply(cfg, s, step))
  {
  }

  lemma ExtendsNext(cfg: Config, s: State, step: Step, t: State)
    requires Enabled(cfg, s, step) && t == Apply(cfg, s, step)
    ensures Extends(s, t)
  {
    ExtendsStep(cfg, s, step);
  }

  lemma ExtendsTransitive(s: State, t: State, u: State)
    requires Extends(s, t) && Extends(t, u)
    ensures Extends(s, u)
  {
  }

  lemma {:induction false} ExtendsChain(states: seq<State>, i: nat, k: nat)
    requires i <= k < |states| && forall n :: 0 <= n < |states| - 1 ==> Extends(states[n], states[n + 1])
    ensures Extends(states[i], states[k])
    decreases k - i
  {
    if i < k {
      ExtendsChain(states, i, k - 1);
      assert Extends(states[k - 1], states[k - 1 + 1]);
      ExtendsTransitive(states[i], states[k - 1], states[k]);
    }
  }

  lemma ExtendsRun(cfg: Config, from: State, r: Run, i: nat, k: nat)
    requires RunFrom(cfg, from, r) && i <= k < |r.states|
    ensures Extends(r.states[i], r.states[k])
  {
    forall n | 0 <= n < |r.states| - 1 ensures Extends(r.states[n], r.states[n + 1]) {
      ExtendsNext(cfg, r.states[n], r.steps[n], r.states[n + 1]);
    }
    ExtendsChain(r.states, i, k);
  }

  lemma AckedIsAbsorbing(cfg: Config, r: Run, i: nat, k: nat, m: nat)
    requires IsRun(cfg, r) && i <= k < |r.states| && m in r.states[i].acked
    ensures m in r.states[k].acked && m !in r.states[k].pending
  {
    ExtendsRun(cfg, Init, r, i, k);
    WellFormedRun(cfg, r, k);
  }

  /** An entry that parseXMessage rejects gets no attempt and, once delivered, stays pending forever. */
  lemma MalformedStaysPending(cfg: Config, r: Run, i: nat, k: nat, m: nat)
    requires IsRun(cfg, r) && i <= k < |r.states|
    requires m < r.states[i].cursor && m < |r.states[i].stream| && ParseXMessage(r.states[i].stream[m]).None?
    ensures m in r.states[k].pending && m !in r.states[k].acked
    ensures forall a :: 0 <= a < |r.states[k].attempts| ==> r.states[k].attempts[a].msg != m
  {
    SucceededSafe(cfg, r, k);
    ExtendsRun(cfg, Init, r, i, k);
  }

  // ---------------------------------------------------------------- no early acknowledgement

  /** The event IDs for which some pipeline run has returned without error in the first `k` steps. */
  ghost function Succeeded(cfg: Config, r: Run, k: nat): set<string>
    requires k < |r.states| == |r.steps| + 1
  {
    if k == 0 then {}
    else
      var step, s := r.steps[k - 1], r.states[k - 1];
      Succeeded(cfg, r, k - 1) +
      if step.Act? && step.a < |s.attempts| && PipelineSucceeds(cfg, s, step, s.attempts[step.a].event.eventId)
      then {s.attempts[step.a].event.eventId} else {}
  }

  lemma {:induction false} SucceededAt(cfg: Config, r: Run, k: nat, id: string) returns (i: nat)
    requires k < |r.states| == |r.steps| + 1 && id in Succeeded(cfg, r, k)
    ensures i < k && PipelineSucceeds(cfg, r.states[i], r.steps[i], id)
  {
    if id in Succeeded(cfg, r, k - 1) {
      i := SucceededAt(cfg, r, k - 1, id);
    } else {
      i := k - 1;
    }
  }

  /** Done markers, acknowledgements and attempts about to make either are all for events in `ok`. */
  ghost predicate Vouched(s: State, ok: set<string>) {
    && s.done.Keys <= ok
    && (forall a :: 0 <= a < |s.attempts| && (s.attempts[a].pc == AtMarkDone || s.attempts[a].pc == AtAck) ==>
                      s.attempts[a].event.eventId in ok)
    && (forall m :: m in s.acked ==>
                      m < |s.stream| && ParseXMessage(s.stream[m]).Some?
                      && ParseXMessage(s.stream[m]).value.eventId in ok)
  }

  /** One call of attempt `a`, seen from `Vouched`. */
  lemma VouchedMove(s: State, t: State, a: nat, ok: set<string>)
    requires WellFormed(s) && Vouched(s, ok) && t.stream == s.stream
    requires a < |s.attempts| == |t.attempts|
    requires t.attempts == s.attempts[a := t.attempts[a]] && t.attempts[a].event == s.attempts[a].event
    requires t.attempts[a].pc == AtMarkDone || t.attempts[a].pc == AtAck ==> s.attempts[a].event.eventId in ok
    requires t.done.Keys <= ok
    requires t.acked == s.acked || (t.acked == s.acked + {s.attempts[a].msg} && s.attempts[a].pc == AtAck)
    ensures Vouched(t, ok)
  {
  }

  lemma VouchedStep(cfg: Config, s: State, step: Step, ok: set<string>)
    requires WellFormed(s) && Vouched(s, ok) && Enabled(cfg, s, step)
    requires step.Act? && PipelineSucceeds(cfg, s, step, s.attempts[step.a].event.eventId) ==>
               s.attempts[step.a].event.eventId in ok
    ensures Vouched(Apply(cfg, s, step), ok)
  {
    if step.Act? {
      VouchedMove(s, Apply(cfg, s, step), step.a, ok);
    }
  }

  lemma {:induction false} SucceededSafe(cfg: Config, r: Run, k: nat)
    requires IsRun(cfg, r) && k < |r.states|
    ensures WellFormed(r.states[k]) && Vouched(r.states[k], Succeeded(cfg, r, k))
  {
    if k > 0 {
      SucceededSafe(cfg, r, k - 1);
      WellFormedStep(cfg, r.states[k - 1], r.steps[k - 1]);
      var ok := Succeeded(cfg, r, k);
      assert Succeeded(cfg, r, k - 1) <= ok;
      VouchedStep(cfg, r.states[k - 1], r.steps[k - 1], ok);
    }
  }

  /**
    A message is acknowledged only after some pipeline run for its event ID has returned without
    error: with lost replies, failing stores, expiring keys, crashes and lock-less degraded claims.
  */
  lemma AckOnlyAfterSuccess(cfg: Config, r: Run, k: nat, m: nat)
    requires IsRun(cfg, r) && k < |r.states| && m in r.states[k].acked
    ensures m < |r.states[k].stream| && r.states[k].stream[m].Decodable?
    ensures exists i :: 0 <= i < k &&
                        PipelineSucceeds(cfg, r.states[i], r.steps[i], r.states[k].stream[m].event.eventId)
  {
    SucceededSafe(cfg, r, k);
    var i := SucceededAt(cfg, r, k, r.states[k].stream[m].event.eventId);
  }

  /** The same for done markers. */
  lemma DoneOnlyAfterSuccess(cfg: Config, r: Run, k: nat, id: string)
    requires IsRun(cfg, r) && k < |r.states| && id in r.states[k].done
    ensures exists i :: 0 <= i < k && PipelineSucceeds(cfg, r.states[i], r.steps[i], id)
  {
    SucceededSafe(cfg, r, k);
    var i := SucceededAt(cfg, r, k, id);
  }

  // ---------------------------------------------------------------- distinct event IDs

  /** No two stream entries carry the same event ID. */
  ghost predicate DistinctIds(stream: seq<Entry>) {
    forall m, n :: 0 <= m < n < |stream| && stream[m].Decodable? && stream[n].Decodable? ==>
                     stream[m].event.eventId != stream[n].event.eventId
  }

  ghost predicate Published(stream: seq<Entry>, id: string) {
    exists m :: 0 <= m < |stream| && stream[m].Decodable? && stream[m].event.eventId == id
  }

  /** Behind every success stands a published event that the pipeline accepts. */
  lemma SuccessIsPublished(cfg: Config, r: Run, k: nat, id: string) returns (n: nat)
    requires IsRun(cfg, r) && k < |r.states| && id in Succeeded(cfg, r, k)
    ensures n < |r.states[k].stream| && r.states[k].stream[n].Decodable?
    ensures r.states[k].stream[n].event.eventId == id && Accepts(cfg, r.states[k].stream[n].event)
  {
    var i := SucceededAt(cfg, r, k, id);
    WellFormedRun(cfg, r, i);
    ExtendsRun(cfg, Init, r, i, k);
    n := r.states[i].attempts[r.steps[i].a].msg;
    assert r.states[k].stream[n] == r.states[i].stream[n];
  }

  /** An event the pipeline rejects is never acknowledged and never marked done: poison messages retry forever. */
  lemma RejectedNeverCompletes(cfg: Config, r: Run, k: nat, m: nat)
    requires IsRun(cfg, r) && k < |r.states| && DistinctIds(r.states[k].stream)
    requires m < |r.states[k].stream| && r.states[k].stream[m].Decodable?
    requires !Accepts(cfg, r.states[k].stream[m].event)
    ensures m !in r.states[k].acked && r.states[k].stream[m].event.eventId !in r.states[k].done
  {
    var id := r.states[k].stream[m].event.eventId;
    SucceededSafe(cfg, r, k);
    if id in Succeeded(cfg, r, k) {
      var _ := SuccessIsPublished(cfg, r, k, id);
    }
  }
}
