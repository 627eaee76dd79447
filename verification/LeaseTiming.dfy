/** How long an acquired lease holds, who gets it next, and what single steps of a worker record. */
module LeaseTiming {
  import opened Sequences
  import opened EffectSink
  import opened RunLeases
  import opened Workers
  import opened WorkerTheorems

  /** Nobody holds the file: it is missing, released, without a proper holder, or expired. */
  predicate FileFree(s: System, runId: string) {
    var f := SafeName(runId);
    f !in s.leases || s.leases[f].holderId == None || s.leases[f].holderId == Some("")
    || s.leases[f].expiresAt == None || s.leases[f].expiresAt.value <= s.clock
  }

  function TokenOf(s: System, runId: string): nat {
    var f := SafeName(runId);
    if f in s.leases then s.leases[f].fencingToken else 0
  }

  /** A free file is granted for `ttl` from now under the next token, and any other refused. */
  lemma AcquireExactly(app: Application, s: System, w: nat, ttl: int)
    requires Enabled(app, s, Acquire(w, ttl))
    ensures
      var s', k, f := Apply(app, s, Acquire(w, ttl)), s.workers[w], SafeName(s.workers[w].runId);
      && s'.clock == s.clock && s'.checkpoints == s.checkpoints && s'.effects == s.effects
      && if FileFree(s, k.runId) then
           var token := TokenOf(s, k.runId) + 1;
           && s'.workers ==
                s.workers[w := k.(phase := Leased(RunLease(k.runId, k.workerId, token, s.clock + ttl)))]
           && s'.leases == s.leases[f := LeaseFile(Some(k.workerId), token, Some(s.clock + ttl))]
         else
           s'.workers == s.workers[w := k.(phase := Gone)] && s'.leases == s.leases
  {
  }

  /** Nobody else touching the file, the lease is good for a save at time `t` exactly before it expires. */
  lemma HoldsUntilExpiry(app: Application, s: System, w: nat, ttl: int, t: Time)
    requires Enabled(app, s, Acquire(w, ttl)) && FileFree(s, s.workers[w].runId) && s.clock <= t
    ensures
      var actions := [Acquire(w, ttl), StartRun(w)] + [Tick(t), CheckSaveLease(w)];
      && AllEnabled(app, s, actions)
      && w in Exec(app, s, actions).workers
      && var p := Exec(app, s, actions).workers[w].phase;
         if t < s.clock + ttl then p.Writing? else p == Gone
  {
    AcquireExactly(app, s, w, ttl);
    var s1 := Apply(app, s, Acquire(w, ttl));
    var s2 := Apply(app, s1, StartRun(w));
    var s3 := Apply(app, s2, Tick(t));
    ExecTwo(app, s, Acquire(w, ttl), StartRun(w));
    ExecTwo(app, s2, Tick(t), CheckSaveLease(w));
    ExecConcat(app, s, [Acquire(w, ttl), StartRun(w)], [Tick(t), CheckSaveLease(w)]);
    hide Exec, AllEnabled;
    assert s3.LeaseFileOf(s.workers[w].runId) == s1.leases[SafeName(s.workers[w].runId)];
  }

  /** The other worker that wants the file gets it exactly once it is released or expired, under the next token. */
  lemma NextGetsItExactly(
    app: Application, s: System, w: nat, ttl: int, releases: bool, t: Time, v: nat, ttl2: int)
    requires Enabled(app, s, Acquire(w, ttl)) && FileFree(s, s.workers[w].runId) && s.clock <= t
    requires v != w && Enabled(app, s, Acquire(v, ttl2))
    requires SafeName(s.workers[v].runId) == SafeName(s.workers[w].runId)
    ensures
      var actions := [Acquire(w, ttl), Crash(w, releases)] + [Tick(t), Acquire(v, ttl2)];
      && AllEnabled(app, s, actions)
      && v in Exec(app, s, actions).workers
      && var p := Exec(app, s, actions).workers[v].phase;
         if releases || t >= s.clock + ttl || s.workers[w].workerId == "" then
           p == Leased(RunLease(s.workers[v].runId, s.workers[v].workerId,
                                TokenOf(s, s.workers[w].runId) + 2, t + ttl2))
         else p == Gone
  {
    AcquireExactly(app, s, w, ttl);
    var s1 := Apply(app, s, Acquire(w, ttl));
    CrashExactly(app, s1, w, releases);
    var s2 := Apply(app, s1, Crash(w, releases));
    var s3 := Apply(app, s2, Tick(t));
    AcquireExactly(app, s3, v, ttl2);
    ExecTwo(app, s, Acquire(w, ttl), Crash(w, releases));
    ExecTwo(app, s2, Tick(t), Acquire(v, ttl2));
    ExecConcat(app, s, [Acquire(w, ttl), Crash(w, releases)], [Tick(t), Acquire(v, ttl2)]);
    hide Exec, AllEnabled;
  }

  /** A worker that crashes frees its file, if it gets to release it, and nobody else's. */
  lemma CrashExactly(app: Application, s: System, w: nat, releases: bool)
    requires Enabled(app, s, Crash(w, releases))
    ensures
      var s', k := Apply(app, s, Crash(w, releases)), s.workers[w];
      && s'.clock == s.clock && s'.checkpoints == s.checkpoints && s'.effects == s.effects
      && s'.workers == s.workers[w := k.(phase := Gone)]
      && (!releases || !k.phase.HasLease() ==> s'.leases == s.leases)
      && (releases && k.phase.HasLease() ==>
            var f := SafeName(k.phase.lease.runId);
            if f in s.leases && s.leases[f].holderId == Some(k.phase.lease.holderId)
               && s.leases[f].fencingToken == k.phase.lease.fencingToken
            then s'.leases == s.leases[f := LeaseFile(None, k.phase.lease.fencingToken, None)]
            else s'.leases == s.leases)
  {
  }

  /** Whoever else releases, a lease that holds goes on holding. */
  lemma ReleaseSparesOthers(app: Application, clock: Time, history: seq<Action>, w: nat, v: nat)
    requires AllEnabled(app, Start(clock), history)
    requires
      var s := Exec(app, Start(clock), history);
      && w != v && w in s.workers && s.workers[w].phase.HasLease()
      && v in s.workers && s.workers[v].phase.HasLease() && s.Holds(s.workers[v].phase.lease)
    ensures
      var s := Exec(app, Start(clock), history);
      && (forall a :: a in [Crash(w, true), Release(w)] && Enabled(app, s, a) ==>
            Apply(app, s, a).Holds(s.workers[v].phase.lease))
  {
    InvReachable(app, clock, history);
    var s := Exec(app, Start(clock), history);
    hide AllEnabled, Exec;
    forall a | a in [Crash(w, true), Release(w)] && Enabled(app, s, a)
      ensures Apply(app, s, a).Holds(s.workers[v].phase.lease) {
      ReleaseSpares(app, s, a, w, v);
    }
  }

  lemma ReleaseSpares(app: Application, s: System, a: Action, w: nat, v: nat)
    requires Inv(app, s) && w != v && w in s.workers && s.workers[w].phase.HasLease()
    requires v in s.workers && s.workers[v].phase.HasLease() && s.Holds(s.workers[v].phase.lease)
    requires (a == Crash(w, true) || a == Release(w)) && Enabled(app, s, a)
    ensures Apply(app, s, a).Holds(s.workers[v].phase.lease)
  {
    hide Effect, Remaining, Produced;
    assert WorkerOk(app, s, s.workers[w]) && WorkerOk(app, s, s.workers[v]);
    assert SameFile(s.workers[w], s.workers[v]) ==>
      s.workers[w].phase.lease.fencingToken != s.workers[v].phase.lease.fencingToken;
    hide Inv, WorkerContextOk, ProgressOk, AccountOk, TokensDistinct;
    assert Apply(app, s, a).leases == ApplyRelease(s, s.workers[w].phase.lease).leases;
  }

  // ---- a worker that checks its lease ----

  /** It holds an expired or lost lease, was not cleared to publish, and has not published. */
  ghost predicate Barred(s: System, w: nat) {
    && w in s.workers && s.workers[w].checksLease
    && var p := s.workers[w].phase;
       && !p.Cleared? && !p.Idle? && !p.Leased?
       && (p.HasContext() ==> p.context.published.None? && !s.Holds(p.lease)
                              && p.lease.fencingToken <= s.LeaseFileOf(p.lease.runId).fencingToken)
  }

  lemma BarredStep(app: Application, s: System, a: Action, w: nat)
    requires Enabled(app, s, a) && Barred(s, w)
    ensures Barred(Apply(app, s, a), w)
  {
    var s', k := Apply(app, s, a), s.workers[w];
    if k.phase.HasContext() {
      StepLater(app, s, a, k.phase.lease.runId);
      StaleStaysStale(s.LeaseFileOf(k.phase.lease.runId), s.clock,
                      s'.LeaseFileOf(k.phase.lease.runId), s'.clock, k.phase.lease);
    }
    if a.Tick? || a.w != w {
      OthersStand(app, s, a, w);
    } else {
      hide Effect, Remaining, Later;
    }
  }

  /** A worker that checks its lease, and has lost it before it was cleared, never publishes any more. */
  lemma {:induction false} LostLeaseNeverPublishes(app: Application, s: System, actions: seq<Action>, w: nat)
    requires AllEnabled(app, s, actions) && Barred(s, w)
    ensures !HasPublished(Exec(app, s, actions), w)
    decreases |actions|
  {
    hide Enabled, Apply;
    if actions != [] {
      BarredStep(app, s, actions[0], w);
      hide Barred;
      LostLeaseNeverPublishes(app, Apply(app, s, actions[0]), actions[1..], w);
    }
  }

  // ---- what a step records ----

  /** A node that succeeds leaves its value under the name of the worker that ran it, and nothing else changes. */
  lemma SucceedRecords(app: Application, s: System, w: nat)
    requires Enabled(app, s, Succeed(w))
    ensures
      var k, n := s.workers[w], s.workers[w].phase.pending[0];
      var before, after := k.phase.context, Apply(app, s, Succeed(w)).workers[w].phase.context;
      && after.runId == before.runId && after.payload == before.payload && after.healed == before.healed
      && after.ingested ==
           (if n == Ingest then Some(Output(before.payload, k.workerId)) else before.ingested)
      && (n == Transform ==>
            before.ingested.Some?
            && after.transformed == Some(Output(app.upper(before.ingested.value.value), k.workerId)))
      && (n != Transform ==> after.transformed == before.transformed)
      && (n == PublishNode ==>
            before.transformed.Some?
            && after.published == Some(Output(before.transformed.value.value, k.workerId))
            && Apply(app, s, Succeed(w)).effects
                 == s.effects[before.runId + ":publish" := before.transformed.value.value])
      && (n != PublishNode ==>
            after.published == before.published && Apply(app, s, Succeed(w)).effects == s.effects)
  {
    var k := s.workers[w];
    if k.phase.pending[0] == PublishNode { PublishedOnce(app, s, k.phase.context); }
    hide Effect;
  }

  lemma PublishedOnce(app: Application, s: System, ctx: Context)
    requires ctx.transformed.Some? && Effect(app, s, ctx).1 != Conflict
    ensures Effect(app, s, ctx).0 == s.effects[ctx.runId + ":publish" := ctx.transformed.value.value]
  {
  }

  /** An attempt that publishes and then fails has stored the effect, unless there was one, and otherwise just fails. */
  lemma PublishOnlyExactly(app: Application, s: System, w: nat)
    requires Enabled(app, s, PublishOnly(w))
    ensures
      var ctx := s.workers[w].phase.context;
      var key := ctx.runId + ":publish";
      && ctx.transformed.Some? && Enabled(app, s, FailAttempt(w))
      && Apply(app, s, PublishOnly(w)) == Apply(app, s, FailAttempt(w)).(effects :=
           if key in s.effects then s.effects else s.effects[key := ctx.transformed.value.value])
  {
    hide Remaining;
  }

  /** A save that the lease, the stored token or the disk refuses is followed by that of a failure naming no node. */
  lemma RefusedSaveExactly(app: Application, s: System, w: nat, a: Action)
    requires Enabled(app, s, a) && (a == SaveFault(w) || a == CheckSaveLease(w) || a == Write(w))
    requires a == CheckSaveLease(w) ==> !s.Holds(s.workers[w].phase.lease)
    requires a == Write(w) ==>
      SafeName(s.workers[w].runId) in s.checkpoints
      && s.workers[w].phase.lease.fencingToken < s.checkpoints[SafeName(s.workers[w].runId)].fencingToken
    ensures
      var k, p := s.workers[w], s.workers[w].phase;
      Apply(app, s, a) == s.(workers := s.workers[w := k.(phase :=
        if p.kind in {Initial, Failure} then Gone else Saving(p.lease, Failure, p.completed, p.pending, p.context))])
  {
  }

  /** A failed attempt at a node that is built to be retried leaves the worker where it was, healed or not. */
  lemma RetryStays(app: Application, s: System, w: nat, a: Action)
    requires (a == FailAttempt(w) || a == Heal(w)) && Enabled(app, s, a)
    requires s.workers[w].phase.pending[0] in app.retries
    ensures
      var k, s' := s.workers[w], Apply(app, s, a);
      var c := k.phase.context;
      var after := Context(c.runId, c.payload, c.ingested, c.transformed, c.published, c.healed || a == Heal(w));
      && s'.clock == s.clock && s'.leases == s.leases && s'.checkpoints == s.checkpoints && s'.effects == s.effects
      && s'.workers ==
           s.workers[w := k.(phase := Running(k.phase.lease, k.phase.completed, k.phase.pending, after))]
  {
  }

  /** A fresh run is first saved as RUNNING with nothing completed, and then has all nodes before it. */
  lemma StartIsSaved(app: Application, s: System, w: nat)
    requires w in s.workers && s.workers[w].phase.Leased? && s.Holds(s.workers[w].phase.lease) && NotOlder(s, w)
    ensures
      var actions := [StartRun(w)] + [CheckSaveLease(w), Write(w)];
      && AllEnabled(app, s, actions)
      && var s', k, file := Exec(app, s, actions), s.workers[w], SafeName(s.workers[w].runId);
         var start := Context(k.runId, app.payloadOf(k.runId), None, None, None, false);
         && w in s'.workers
         && s'.workers[w].phase == Running(k.phase.lease, [], [Ingest, Transform, PublishNode], start)
         && file in s'.checkpoints
         && s'.checkpoints[file] == Checkpoint(
              k.phase.lease.runId, RUNNING, [], None, start, k.phase.lease.fencingToken)
  {
    ExecOne(app, s, StartRun(w));
    var s1 := Apply(app, s, StartRun(w));
    assert CanSave(s1, w);
    SaveRound(app, s1, w);
    ExecConcat(app, s, [StartRun(w)], [CheckSaveLease(w), Write(w)]);
    hide Exec, AllEnabled;
  }

  /** A resume goes on with the stored context: the nodes not completed are before it, and the failed one again. */
  lemma ResumeExactly(app: Application, s: System, w: nat)
    requires Enabled(app, s, Resume(w))
    ensures
      var k, found := s.workers[w], s.checkpoints[SafeName(s.workers[w].runId)];
      var open := (n: Node) => n !in found.completed || found.failed == Some(n);
      && found.status in {RUNNING, FAILED}
      && Apply(app, s, Resume(w)) == s.(workers := s.workers[w := k.(phase :=
           Running(k.phase.lease, found.completed, Filter([Ingest, Transform, PublishNode], open), found.context))])
  {
    var found := s.checkpoints[SafeName(s.workers[w].runId)];
    RemainingIsFilter(found.completed, found.failed);
  }

  lemma RemainingIsFilter(completed: seq<Node>, failed: Option<Node>)
    ensures Remaining(completed, failed) ==
            Filter([Ingest, Transform, PublishNode], (n: Node) => n !in completed || failed == Some(n))
  {
    var open := (n: Node) => n !in completed || failed == Some(n);
    var first, second := If(open(Ingest), Ingest), If(open(Transform), Transform);
    var third := If(open(PublishNode), PublishNode);
    FilterCons(PublishNode, [], open);
    FilterCons(Transform, [PublishNode], open);
    FilterCons(Ingest, [Transform, PublishNode], open);
    assert [PublishNode] + [] == [PublishNode] && third + [] == third;
    assert Filter([PublishNode], open) == third;
    assert [Transform] + [PublishNode] == [Transform, PublishNode];
    assert [Ingest] + [Transform, PublishNode] == [Ingest, Transform, PublishNode];
    assert Remaining(completed, failed) == first + second + third == first + (second + third);
  }

  /** A run with no node left is saved as COMPLETED and ends so. */
  lemma CompletionIsSaved(app: Application, s: System, w: nat)
    requires Working(s, w) && s.workers[w].phase.Running? && s.workers[w].phase.pending == []
    ensures
      var actions := [Complete(w)] + [CheckSaveLease(w), Write(w)];
      && AllEnabled(app, s, actions)
      && var s', p, file := Exec(app, s, actions), s.workers[w].phase, SafeName(s.workers[w].runId);
         && w in s'.workers && s'.workers[w].phase == Ended(p.lease, COMPLETED, p.context)
         && file in s'.checkpoints
         && s'.checkpoints[file] == Checkpoint(
              p.lease.runId, COMPLETED, p.completed, None, p.context, p.lease.fencingToken)
  {
    ExecOne(app, s, Complete(w));
    var s1 := Apply(app, s, Complete(w));
    assert CanSave(s1, w);
    SaveRound(app, s1, w);
    ExecConcat(app, s, [Complete(w)], [CheckSaveLease(w), Write(w)]);
    hide Exec, AllEnabled;
  }

  /** The checkpoint after a failed node that stops the run: FAILED, naming the node. */
  lemma StopNamesNode(app: Application, s: System, w: nat)
    requires Working(s, w) && s.workers[w].phase.Running? && s.workers[w].phase.pending != []
    requires s.workers[w].phase.pending[0] !in app.retries
    ensures
      var actions := [FailAttempt(w)] + [CheckSaveLease(w), Write(w)];
      && AllEnabled(app, s, actions)
      && var s', p, file := Exec(app, s, actions), s.workers[w].phase, SafeName(s.workers[w].runId);
         && w in s'.workers && s'.workers[w].phase == Ended(p.lease, FAILED, p.context)
         && file in s'.checkpoints
         && s'.checkpoints[file] == Checkpoint(p.lease.runId, FAILED, p.completed + [p.pending[0]],
                                               Some(p.pending[0]), p.context, p.lease.fencingToken)
  {
    ExecOne(app, s, FailAttempt(w));
    var s1 := Apply(app, s, FailAttempt(w));
    assert CanSave(s1, w);
    SaveRound(app, s1, w);
    ExecConcat(app, s, [FailAttempt(w)], [CheckSaveLease(w), Write(w)]);
    hide Exec, AllEnabled;
  }

  /** The checkpoint after a node that ran to its end, with success or without: RUNNING, counting it as completed. */
  lemma NodeIsSaved(app: Application, s: System, w: nat, first: Action)
    requires Working(s, w) && s.workers[w].phase.pending != [] && (first == Succeed(w) || first == GiveUp(w))
    requires Enabled(app, s, first)
    ensures
      var actions := [first] + [CheckSaveLease(w), Write(w)];
      && AllEnabled(app, s, actions)
      && var s', p, file := Exec(app, s, actions), s.workers[w].phase, SafeName(s.workers[w].runId);
         && w in s'.workers && s'.workers[w].phase.Running? && file in s'.checkpoints
         && s'.workers[w].phase.pending == p.pending[1..]
         && s'.checkpoints[file] == Checkpoint(p.lease.runId, RUNNING, p.completed + [p.pending[0]], None,
                                               s'.workers[w].phase.context, p.lease.fencingToken)
  {
    ExecOne(app, s, first);
    var s1 := Apply(app, s, first);
    assert CanSave(s1, w);
    SaveRound(app, s1, w);
    ExecConcat(app, s, [first], [CheckSaveLease(w), Write(w)]);
    hide Exec, AllEnabled, Effect;
  }
}
