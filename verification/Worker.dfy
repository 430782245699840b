/**
  The worker's own code: its configuration defaults, and processSingleMessageIdempotent as a method
  on shared stores, proved to take the steps of the delivery protocol.
*/
module Worker {
  import opened Models
  import opened Delivery
  import Races
  import Batch

  // ---------------------------------------------------------------- configuration

  /** As configured; zero and negative values ask for the default. */
  datatype Settings = Settings(claimIdleMs: int, lockTTLSeconds: int, doneTTLSeconds: int, batchSize: int,
                               concurrency: int)

  function OrDefault(value: int, default: nat): nat {
    if value <= 0 then default else value
  }

  /** NewWorker, with times in milliseconds; a worker with the Redis store. */
  function NewWorker(settings: Settings, parses: (string, string) -> bool): Config {
    Config(Redis, OrDefault(settings.lockTTLSeconds, 120) * 1000, OrDefault(settings.doneTTLSeconds, 86400) * 1000,
           if settings.claimIdleMs > 0 then settings.claimIdleMs else 0, parses)
  }

  /**
    With default TTLs, completions are more than a day apart in every run
    within the bounds, if and only if work and check-to-claim gap fit into two minutes together.
  */
  lemma DefaultsCompleteOnce(settings: Settings, parses: (string, string) -> bool, P: nat, G: nat, e: RawEvent)
    requires settings.lockTTLSeconds <= 0 && settings.doneTTLSeconds <= 0
    requires parses(e.payload, e.format)
    ensures Races.AlwaysApart(NewWorker(settings, parses), P, G) <==> P + G <= 120_000
    ensures NewWorker(settings, parses).doneTTL == 86_400_000
  {
    Races.AtMostOneCompletionExactly(NewWorker(settings, parses), P, G, e);
  }

  /** How many messages one read asks for, and how many run at once. */
  function BatchSizeOf(settings: Settings): nat {
    OrDefault(settings.batchSize, 10)
  }

  function ConcurrencyOf(settings: Settings): nat {
    OrDefault(settings.concurrency, 4)
  }

  /** Neither is ever zero, and a positive setting is taken as it is. */
  lemma SizesArePositive(settings: Settings)
    ensures BatchSizeOf(settings) > 0 && ConcurrencyOf(settings) > 0
    ensures BatchSizeOf(settings) == if settings.batchSize > 0 then settings.batchSize else 10
    ensures ConcurrencyOf(settings) == if settings.concurrency > 0 then settings.concurrency else 4
  {
  }

  /** A positive lock TTL, done TTL or claim idle time reaches the configuration; any other gives the default. */
  lemma SettingsReachConfig(settings: Settings, parses: (string, string) -> bool)
    ensures var cfg := NewWorker(settings, parses);
            && cfg.store == Redis && cfg.parses == parses
            && (settings.lockTTLSeconds > 0 ==> cfg.lockTTL == 1000 * settings.lockTTLSeconds)
            && (settings.lockTTLSeconds <= 0 ==> cfg.lockTTL == 120_000)
            && (settings.doneTTLSeconds > 0 ==> cfg.doneTTL == 1000 * settings.doneTTLSeconds)
            && (settings.doneTTLSeconds <= 0 ==> cfg.doneTTL == 86_400_000)
            && (settings.claimIdleMs > 0 ==> cfg.claimIdle == settings.claimIdleMs)
            && (settings.claimIdleMs <= 0 ==> cfg.claimIdle == 0)
  {
  }

  // ---------------------------------------------------------------- one message

  /** How the calls of one attempt turn out. */
  datatype Luck = Luck(isDoneFails: bool, claim: Outcome, put: Outcome, release: Outcome, markDone: Outcome,
                       ack: Outcome)

  function CallAt(pc: Pc, luck: Luck): Call
    requires pc != Finished && pc != Crashed
  {
    match pc
    case AtIsDone => IsDone(luck.isDoneFails)
    case AtClaim => Claim(luck.claim)
    case AtArchive => Archive(luck.put)
    case AtPipeline => Pipeline
    case AtRelease => Release(luck.release)
    case AtMarkDone => MarkDone(luck.markDone)
    case AtAck => Ack(luck.ack)
  }

  /** The protocol steps of attempt `a` from where it stands to its end. */
  function Replay(cfg: Config, s: State, a: nat, luck: Luck): State
    requires a < |s.attempts|
    decreases Batch.Remaining(s.attempts[a].pc)
  {
    var pc := s.attempts[a].pc;
    if pc == Finished || pc == Crashed then s else Replay(cfg, Apply(cfg, s, Act(a, CallAt(pc, luck))), a, luck)
  }

  /** The call turns out as `luck` has it. */
  predicate Lucky(call: Call, luck: Luck) {
    match call
    case Crash => false
    case IsDone(failed) => failed == luck.isDoneFails
    case Claim(outcome) => outcome == luck.claim
    case Archive(outcome) => outcome == luck.put
    case Pipeline => true
    case Release(outcome) => outcome == luck.release
    case MarkDone(outcome) => outcome == luck.markDone
    case Ack(outcome) => outcome == luck.ack
  }

  /** A run of the protocol in which attempt `a` makes all the calls, as `luck` has it, and returns. */
  ghost predicate SoloRun(cfg: Config, s: State, a: nat, luck: Luck, r: Run) {
    && RunFrom(cfg, s, r) && a < |r.states[|r.steps|].attempts| && r.states[|r.steps|].attempts[a].pc == Finished
    && forall i :: 0 <= i < |r.steps| ==> r.steps[i].Act? && r.steps[i].a == a && Lucky(r.steps[i].call, luck)
  }

  lemma {:induction false} ReplayIsSolo(cfg: Config, from: State, r: Run, a: nat, luck: Luck) returns (r': Run)
    requires RunFrom(cfg, from, r) && a < |r.states[|r.steps|].attempts|
             && r.states[|r.steps|].attempts[a].pc != Crashed
    requires forall i :: 0 <= i < |r.steps| ==> r.steps[i].Act? && r.steps[i].a == a && Lucky(r.steps[i].call, luck)
    ensures SoloRun(cfg, from, a, luck, r') && r'.states[|r'.steps|] == Replay(cfg, r.states[|r.steps|], a, luck)
    decreases Batch.Remaining(r.states[|r.steps|].attempts[a].pc)
  {
    var s := r.states[|r.steps|];
    if s.attempts[a].pc == Finished {
      r' := r;
    } else {
      r' := Append(cfg, from, r, Act(a, CallAt(s.attempts[a].pc, luck)));
      r' := ReplayIsSolo(cfg, from, r', a, luck);
    }
  }

  /** From every state there is such a run, for every luck. */
  lemma SoloRunExists(cfg: Config, s: State, a: nat, luck: Luck) returns (r: Run)
    requires a < |s.attempts| && s.attempts[a].pc != Crashed
    ensures SoloRun(cfg, s, a, luck, r) && r.states[|r.steps|] == Replay(cfg, s, a, luck)
  {
    r := ReplayIsSolo(cfg, s, Run([s], []), a, luck);
  }

  /** And only one: the state of the attempt and the luck determine every call. */
  lemma {:induction false} SoloRunIsUnique(cfg: Config, s: State, a: nat, luck: Luck, r: Run, r': Run, k: nat)
    requires SoloRun(cfg, s, a, luck, r) && SoloRun(cfg, s, a, luck, r') && k < |r.states|
    ensures k < |r'.states| && r'.states[k] == r.states[k] && (k == |r.steps| <==> k == |r'.steps|)
    ensures k < |r.steps| ==> r'.steps[k] == r.steps[k]
  {
    if k > 0 {
      SoloRunIsUnique(cfg, s, a, luck, r, r', k - 1);
    }
    assert k < |r.steps| ==> Enabled(cfg, r.states[k], r.steps[k]);
    assert k < |r'.steps| ==> Enabled(cfg, r'.states[k], r'.steps[k]);
  }

  predicate AllWell(luck: Luck) {
    luck == Luck(false, Success, Success, Success, Success, Success)
  }

  /** With every call succeeding it is the undisturbed attempt of the batch loop. */
  lemma {:induction false} AloneIsReplay(cfg: Config, s: State, a: nat, luck: Luck)
    requires a < |s.attempts| && AllWell(luck)
    ensures Batch.RunAlone(cfg, s, a) == Replay(cfg, s, a, luck)
    decreases Batch.Remaining(s.attempts[a].pc)
  {
    var pc := s.attempts[a].pc;
    if pc != Finished && pc != Crashed {
      AloneIsReplay(cfg, Apply(cfg, s, Act(a, CallAt(pc, luck))), a, luck);
    }
  }

  /** The undisturbed attempt of the batch loop ends where the successful run of its own calls ends. */
  lemma AloneIsSolo(cfg: Config, s: State, a: nat, luck: Luck) returns (r: Run)
    requires a < |s.attempts| && s.attempts[a].pc != Crashed && AllWell(luck)
    ensures SoloRun(cfg, s, a, luck, r) && r.states[|r.steps|] == Batch.RunAlone(cfg, s, a)
  {
    r := SoloRunExists(cfg, s, a, luck);
    AloneIsReplay(cfg, s, a, luck);
  }

  /** The shared stores of a deployment at one instant. */
  class Stores {
    var now: nat
    var pending: map<nat, nat>
    var acked: set<nat>
    var locks: map<string, nat>
    var done: map<string, nat>
    var archive: map<string, RawEvent>

    function Now(): View
      reads this
    {
      View(pending, acked, locks, done, archive)
    }

    /** `None` is an error reply. */
    method IsDone(cfg: Config, id: string, fails: bool) returns (answer: Option<bool>)
      ensures answer == if fails then None else Some(Marked(cfg, now, Now(), id))
    {
      answer := if fails then None else Some(Marked(cfg, now, Now(), id));
    }

    method TryClaimProcessing(cfg: Config, id: string, outcome: Outcome) returns (claimed: Option<bool>)
      modifies `locks
      ensures claimed == if outcome.Success? then Some(!Locked(cfg, now, old(Now()), id)) else None
      ensures locks == if outcome.Applied() && !Locked(cfg, now, old(Now()), id)
                       then old(locks)[id := now + cfg.lockTTL] else old(locks)
    {
      var free := !Locked(cfg, now, Now(), id);
      if free && outcome.Applied() {
        locks := locks[id := now + cfg.lockTTL];
      }
      claimed := if outcome.Success? then Some(free) else None;
    }

    method ReleaseProcessing(id: string, outcome: Outcome)
      modifies `locks
      ensures locks == if outcome.Applied() then old(locks) - {id} else old(locks)
    {
      if outcome.Applied() {
        locks := locks - {id};
      }
    }

    method MarkDone(cfg: Config, id: string, outcome: Outcome)
      modifies `locks, `done
      ensures done == if outcome.Applied() then old(done)[id := now + cfg.doneTTL] else old(done)
      ensures locks == if outcome.Applied() && cfg.store.Memory? then old(locks) - {id} else old(locks)
    {
      if outcome.Applied() {
        done := done[id := now + cfg.doneTTL];
        if cfg.store.Memory? {
          locks := locks - {id};
        }
      }
    }

    method Put(event: RawEvent, outcome: Outcome)
      modifies `archive
      ensures archive == if outcome.Applied() && event.eventId != "" then old(archive)[event.eventId := event]
                         else old(archive)
    {
      if outcome.Applied() && event.eventId != "" {
        archive := archive[event.eventId := event];
      }
    }

    method Ack(m: nat, outcome: Outcome)
      modifies `pending, `acked
      ensures (pending, acked) == if outcome.Applied() && m in old(pending) then (old(pending) - {m}, old(acked) + {m})
                                  else (old(pending), old(acked))
    {
      if outcome.Applied() && m in pending {
        pending := pending - {m};
        acked := acked + {m};
      }
    }
  }

  // ---------------------------------------------------------------- what becomes of the stores

  /** The contents of the stores, as the calls may change them. */
  datatype View = View(
    pending: map<nat, nat>, acked: set<nat>, locks: map<string, nat>, done: map<string, nat>,
    archive: map<string, RawEvent>)

  predicate Marked(cfg: Config, now: nat, v: View, id: string) {
    id in v.done && (cfg.store.Redis? ==> now <= v.done[id])
  }

  predicate Locked(cfg: Config, now: nat, v: View, id: string) {
    id in v.locks && (cfg.store.Redis? ==> now <= v.locks[id])
  }

  /** From `v` to `w` a pending message was acknowledged, if the XACK took effect, and nothing else happened. */
  predicate Acknowledged(m: nat, luck: Luck, v: View, w: View) {
    && w.locks == v.locks && w.done == v.done && w.archive == v.archive
    && if luck.ack.Applied() && m in v.pending then w.pending == v.pending - {m} && w.acked == v.acked + {m}
       else w.pending == v.pending && w.acked == v.acked
  }

  /** Marked done, if there is a store and the SET took effect; the memory store then drops the lock. */
  function MarkedDone(cfg: Config, now: nat, id: string, luck: Luck, v: View): View {
    if cfg.store.Absent? || !luck.markDone.Applied() then v
    else v.(done := v.done[id := now + cfg.doneTTL], locks := if cfg.store.Memory? then v.locks - {id} else v.locks)
  }

  function Released(cfg: Config, id: string, luck: Luck, v: View): View {
    if cfg.store.Absent? || !luck.release.Applied() then v else v.(locks := v.locks - {id})
  }

  function Archived(event: RawEvent, luck: Luck, v: View): View {
    if luck.put.Applied() && event.eventId != "" then v.(archive := v.archive[event.eventId := event]) else v
  }

  /** A free lock is taken if the SET NX took effect, whether or not the worker saw a reply. */
  function Claimed(cfg: Config, now: nat, id: string, luck: Luck, v: View): View {
    if luck.claim.Applied() && !Locked(cfg, now, v, id) then v.(locks := v.locks[id := now + cfg.lockTTL]) else v
  }

  /** Worked on: archived, then marked done and acknowledged if the pipeline accepts the event, else released. */
  predicate WorkedOn(cfg: Config, now: nat, m: nat, event: RawEvent, luck: Luck, v: View, w: View) {
    var stored := Archived(event, luck, v);
    if cfg.parses(event.payload, event.format) then
      Acknowledged(m, luck, MarkedDone(cfg, now, event.eventId, luck, stored), w)
    else
      w == Released(cfg, event.eventId, luck, stored)
  }

  /** What the handling of one message makes of the stores `v`. */
  predicate Handled(cfg: Config, now: nat, m: nat, event: RawEvent, luck: Luck, v: View, w: View) {
    var id := event.eventId;
    if cfg.store.Absent? then WorkedOn(cfg, now, m, event, luck, v, w)
    else if !luck.isDoneFails && Marked(cfg, now, v, id) then Acknowledged(m, luck, v, w)
    else if luck.claim.Success? && Locked(cfg, now, v, id) then w == v
    else WorkedOn(cfg, now, m, event, luck, Claimed(cfg, now, id, luck, v), w)
  }

  /** The calls that come before an acknowledgement leave pending list and acknowledged set alone. */
  lemma OnlyAckAcknowledges(cfg: Config, now: nat, event: RawEvent, luck: Luck, v: View)
    ensures var id := event.eventId;
            && Claimed(cfg, now, id, luck, v).pending == v.pending && Claimed(cfg, now, id, luck, v).acked == v.acked
            && Archived(event, luck, v).pending == v.pending && Archived(event, luck, v).acked == v.acked
            && MarkedDone(cfg, now, id, luck, v).pending == v.pending
            && MarkedDone(cfg, now, id, luck, v).acked == v.acked
            && Released(cfg, id, luck, v).pending == v.pending && Released(cfg, id, luck, v).acked == v.acked
  {
  }

  predicate AcknowledgedIf(m: nat, luck: Luck, v: View, w: View, yes: bool) {
    if yes && luck.ack.Applied() && m in v.pending then w.pending == v.pending - {m} && w.acked == v.acked + {m}
    else w.pending == v.pending && w.acked == v.acked
  }

  lemma WorkedOnAcknowledges(cfg: Config, now: nat, m: nat, event: RawEvent, luck: Luck, v: View, w: View)
    requires WorkedOn(cfg, now, m, event, luck, v, w)
    ensures AcknowledgedIf(m, luck, v, w, cfg.parses(event.payload, event.format))
  {
    OnlyAckAcknowledges(cfg, now, event, luck, v);
    OnlyAckAcknowledges(cfg, now, event, luck, Archived(event, luck, v));
  }

  /**
    Read off the stores before: the message is acknowledged exactly if it is pending, the XACK takes
    effect, and its event is known to be done, or gets past the claim and is accepted.
  */
  lemma AcknowledgedExactly(cfg: Config, now: nat, m: nat, event: RawEvent, luck: Luck, v: View, w: View)
    requires Handled(cfg, now, m, event, luck, v, w)
    ensures var id, guarded := event.eventId, !cfg.store.Absent?;
            var known := guarded && !luck.isDoneFails && Marked(cfg, now, v, id);
            var refused := guarded && luck.claim.Success? && Locked(cfg, now, v, id);
            if m in v.pending && luck.ack.Applied() && (known || (!refused && cfg.parses(event.payload, event.format)))
            then w.pending == v.pending - {m} && w.acked == v.acked + {m}
            else w.pending == v.pending && w.acked == v.acked
  {
    var id := event.eventId;
    if cfg.store.Absent? {
      WorkedOnAcknowledges(cfg, now, m, event, luck, v, w);
    } else if !(!luck.isDoneFails && Marked(cfg, now, v, id)) && !(luck.claim.Success? && Locked(cfg, now, v, id)) {
      OnlyAckAcknowledges(cfg, now, event, luck, v);
      WorkedOnAcknowledges(cfg, now, m, event, luck, Claimed(cfg, now, id, luck, v), w);
    }
  }

  /** The same in the protocol: where the calls of attempt `a` lead. */
  function ViewOf(s: State): View {
    View(s.pending, s.acked, s.locks, s.done, s.archive)
  }

  lemma ReplayAcknowledges(cfg: Config, s: State, a: nat, luck: Luck)
    requires a < |s.attempts| && s.attempts[a].pc == AtAck
    ensures Acknowledged(s.attempts[a].msg, luck, ViewOf(s), ViewOf(Replay(cfg, s, a, luck)))
    ensures Replay(cfg, s, a, luck).now == s.now
  {
    var t := Apply(cfg, s, Act(a, Ack(luck.ack)));
    assert t.attempts[a].pc == Finished && Replay(cfg, t, a, luck) == t == Replay(cfg, s, a, luck);
  }

  lemma ReplayCompletes(cfg: Config, s: State, a: nat, luck: Luck)
    requires a < |s.attempts| && s.attempts[a].pc == AtMarkDone && !cfg.store.Absent?
    ensures var att := s.attempts[a];
            Acknowledged(att.msg, luck, MarkedDone(cfg, s.now, att.event.eventId, luck, ViewOf(s)),
                         ViewOf(Replay(cfg, s, a, luck)))
    ensures Replay(cfg, s, a, luck).now == s.now
  {
    var t := Apply(cfg, s, Act(a, MarkDone(luck.markDone)));
    ReplayAcknowledges(cfg, t, a, luck);
    assert Replay(cfg, s, a, luck) == Replay(cfg, t, a, luck);
    assert ViewOf(t) == MarkedDone(cfg, s.now, s.attempts[a].event.eventId, luck, ViewOf(s));
  }

  lemma ReplayReleases(cfg: Config, s: State, a: nat, luck: Luck)
    requires a < |s.attempts| && s.attempts[a].pc == AtRelease && !cfg.store.Absent?
    ensures ViewOf(Replay(cfg, s, a, luck)) == Released(cfg, s.attempts[a].event.eventId, luck, ViewOf(s))
    ensures Replay(cfg, s, a, luck).now == s.now
  {
    var t := Apply(cfg, s, Act(a, Release(luck.release)));
    assert t.attempts[a].pc == Finished && Replay(cfg, t, a, luck) == t == Replay(cfg, s, a, luck);
  }

  lemma ReplayStores(cfg: Config, s: State, a: nat, luck: Luck) returns (t: State)
    requires a < |s.attempts| && s.attempts[a].pc == AtArchive
    ensures ViewOf(t) == Archived(s.attempts[a].event, luck, ViewOf(s)) && t.now == s.now && a < |t.attempts|
    ensures t.attempts[a].msg == s.attempts[a].msg && t.attempts[a].event == s.attempts[a].event
    ensures var pc := t.attempts[a].pc;
            if Accepts(cfg, s.attempts[a].event) then pc == if cfg.store.Absent? then AtAck else AtMarkDone
            else pc == if cfg.store.Absent? then Finished else AtRelease
    ensures Replay(cfg, s, a, luck) == Replay(cfg, t, a, luck)
  {
    var u := Apply(cfg, s, Act(a, Archive(luck.put)));
    t := Apply(cfg, u, Act(a, Pipeline));
    assert Replay(cfg, s, a, luck) == Replay(cfg, u, a, luck) == Replay(cfg, t, a, luck);
  }

  lemma ReplayWorks(cfg: Config, s: State, a: nat, luck: Luck)
    requires a < |s.attempts| && s.attempts[a].pc == AtArchive
    ensures WorkedOn(cfg, s.now, s.attempts[a].msg, s.attempts[a].event, luck, ViewOf(s),
                     ViewOf(Replay(cfg, s, a, luck)))
    ensures Replay(cfg, s, a, luck).now == s.now
  {
    var t := ReplayStores(cfg, s, a, luck);
    match t.attempts[a].pc {
      case AtAck => ReplayAcknowledges(cfg, t, a, luck);
      case AtMarkDone => ReplayCompletes(cfg, t, a, luck);
      case AtRelease => ReplayReleases(cfg, t, a, luck);
      case Finished =>
    }
  }

  lemma ClaimView(cfg: Config, s: State, a: nat, luck: Luck) returns (t: State)
    requires a < |s.attempts| && s.attempts[a].pc == AtClaim
    ensures t == Apply(cfg, s, Act(a, Claim(luck.claim))) && t.now == s.now && a < |t.attempts|
    ensures t.attempts[a].msg == s.attempts[a].msg && t.attempts[a].event == s.attempts[a].event
    ensures var id := s.attempts[a].event.eventId;
            if luck.claim.Success? && Locked(cfg, s.now, ViewOf(s), id)
            then t.attempts[a].pc == Finished && ViewOf(t) == ViewOf(s)
            else t.attempts[a].pc == AtArchive && ViewOf(t) == Claimed(cfg, s.now, id, luck, ViewOf(s))
  {
    t := Apply(cfg, s, Act(a, Claim(luck.claim)));
  }

  lemma ReplayClaims(cfg: Config, s: State, a: nat, luck: Luck)
    requires a < |s.attempts| && s.attempts[a].pc == AtClaim
    ensures var att, w := s.attempts[a], ViewOf(Replay(cfg, s, a, luck));
            if luck.claim.Success? && Locked(cfg, s.now, ViewOf(s), att.event.eventId) then w == ViewOf(s)
            else WorkedOn(cfg, s.now, att.msg, att.event, luck,
                          Claimed(cfg, s.now, att.event.eventId, luck, ViewOf(s)), w)
    ensures Replay(cfg, s, a, luck).now == s.now
  {
    var t := ClaimView(cfg, s, a, luck);
    assert Replay(cfg, s, a, luck) == Replay(cfg, t, a, luck);
    if t.attempts[a].pc == AtArchive {
      ReplayWorks(cfg, t, a, luck);
    }
  }

  /** The protocol steps of a fresh attempt handle its message as specified. */
  lemma ReplayHandles(cfg: Config, s: State, a: nat, luck: Luck)
    requires a < |s.attempts| && s.attempts[a].pc == if cfg.store.Absent? then AtArchive else AtIsDone
    ensures Handled(cfg, s.now, s.attempts[a].msg, s.attempts[a].event, luck, ViewOf(s),
                    ViewOf(Replay(cfg, s, a, luck)))
    ensures Replay(cfg, s, a, luck).now == s.now
  {
    if cfg.store.Absent? {
      ReplayWorks(cfg, s, a, luck);
    } else {
      var t := Apply(cfg, s, Act(a, IsDone(luck.isDoneFails)));
      assert Replay(cfg, s, a, luck) == Replay(cfg, t, a, luck) && ViewOf(t) == ViewOf(s);
      if t.attempts[a].pc == AtAck {
        ReplayAcknowledges(cfg, t, a, luck);
      } else {
        ReplayClaims(cfg, t, a, luck);
      }
    }
  }

  lemma HandledIsUnique(cfg: Config, now: nat, m: nat, event: RawEvent, luck: Luck, v: View, w: View, w': View)
    requires Handled(cfg, now, m, event, luck, v, w) && Handled(cfg, now, m, event, luck, v, w')
    ensures w == w'
  {
  }

  /**
    What handling a message makes of the stores is what the one run makes of them in which a fresh
    attempt makes these calls.
  */
  lemma HandledIsSolo(cfg: Config, s: State, a: nat, luck: Luck, w: View) returns (r: Run)
    requires a < |s.attempts| && s.attempts[a].pc == if cfg.store.Absent? then AtArchive else AtIsDone
    requires Handled(cfg, s.now, s.attempts[a].msg, s.attempts[a].event, luck, ViewOf(s), w)
    ensures SoloRun(cfg, s, a, luck, r) && ViewOf(r.states[|r.steps|]) == w && r.states[|r.steps|].now == s.now
  {
    r := SoloRunExists(cfg, s, a, luck);
    ReplayHandles(cfg, s, a, luck);
    HandledIsUnique(cfg, s.now, s.attempts[a].msg, s.attempts[a].event, luck, ViewOf(s), w,
                    ViewOf(Replay(cfg, s, a, luck)));
  }

  // ---------------------------------------------------------------- the worker's methods

  /** The worker's ack helper; a failed XACK is only logged. */
  method AckMessage(stores: Stores, m: nat, luck: Luck)
    modifies stores`pending, stores`acked
    ensures Acknowledged(m, luck, old(stores.Now()), stores.Now())
  {
    stores.Ack(m, luck.ack);
  }

  /** Both checks passed: archive, pipeline, then release or mark done and acknowledge. */
  method ProcessClaimed(cfg: Config, stores: Stores, m: nat, event: RawEvent, luck: Luck)
    modifies stores`pending, stores`acked, stores`locks, stores`done, stores`archive
    ensures WorkedOn(cfg, stores.now, m, event, luck, old(stores.Now()), stores.Now())
  {
    stores.Put(event, luck.put);
    var processed := cfg.parses(event.payload, event.format);
    if !processed {
      if !cfg.store.Absent? {
        stores.ReleaseProcessing(event.eventId, luck.release);
      }
      return;
    }
    if !cfg.store.Absent? {
      stores.MarkDone(cfg, event.eventId, luck.markDone);
    }
    AckMessage(stores, m, luck);
  }

  /**
    The code path of one message, run without interference, for every combination of failing and lost
    calls: what becomes of each store, read off the stores before.
  */
  method ProcessSingleMessageIdempotent(cfg: Config, stores: Stores, m: nat, event: RawEvent, luck: Luck)
    modifies stores`pending, stores`acked, stores`locks, stores`done, stores`archive
    ensures Handled(cfg, stores.now, m, event, luck, old(stores.Now()), stores.Now())
  {
    if !cfg.store.Absent? {
      var done := stores.IsDone(cfg, event.eventId, luck.isDoneFails);
      if done == Some(true) {
        AckMessage(stores, m, luck);
        return;
      }
      var claimed := stores.TryClaimProcessing(cfg, event.eventId, luck.claim);
      if claimed == None {
        claimed := Some(true);
      }
      if claimed == Some(false) {
        return;
      }
    }
    ProcessClaimed(cfg, stores, m, event, luck);
  }
}
