/** What the worker protocol promises about every run: its effects, its leases, its checkpoints, its recovery. */
module WorkerTheorems {
  import opened Sequences
  import opened EffectSink
  import opened RunLeases
  import opened Workers

  predicate AllEnabled(app: Application, s: System, actions: seq<Action>)
    decreases |actions|
  {
    actions == [] || (Enabled(app, s, actions[0]) && AllEnabled(app, Apply(app, s, actions[0]), actions[1..]))
  }

  function Exec(app: Application, s: System, actions: seq<Action>): System
    requires AllEnabled(app, s, actions)
    decreases |actions|
  {
    if actions == [] then s else Exec(app, Apply(app, s, actions[0]), actions[1..])
  }

  /** Nothing on disk and nobody at work. */
  function Start(clock: Time): System { System(clock, map[], map[], map[], map[]) }

  lemma {:induction false} ExecConcat(app: Application, s: System, a: seq<Action>, b: seq<Action>)
    requires AllEnabled(app, s, a) && AllEnabled(app, Exec(app, s, a), b)
    ensures AllEnabled(app, s, a + b) && Exec(app, s, a + b) == Exec(app, Exec(app, s, a), b)
    decreases |a|
  {
    if a == [] {
      assert a + b == b;
    } else {
      assert (a + b)[1..] == a[1..] + b;
      ExecConcat(app, Apply(app, s, a[0]), a[1..], b);
    }
  }

  lemma {:induction false} InvExec(app: Application, s: System, actions: seq<Action>)
    requires Inv(app, s) && AllEnabled(app, s, actions)
    ensures Inv(app, Exec(app, s, actions))
    decreases |actions|
  {
    if actions != [] {
      StepInv(app, s, actions[0]);
      InvExec(app, Apply(app, s, actions[0]), actions[1..]);
    }
  }

  /** Any interleaving of any number of workers, from empty disks. */
  lemma InvReachable(app: Application, clock: Time, actions: seq<Action>)
    requires AllEnabled(app, Start(clock), actions)
    ensures Inv(app, Exec(app, Start(clock), actions))
  {
    InvExec(app, Start(clock), actions);
  }

  // ---- effects ----

  /** Every stored effect is the right one, and a run has no second key to store another under. */
  lemma OneRightEffectPerRun(app: Application, clock: Time, actions: seq<Action>, key: string, runId: string)
    requires AllEnabled(app, Start(clock), actions)
    ensures var effects := Exec(app, Start(clock), actions).effects;
      key in effects ==>
        && (exists r :: key == EffectKey(r) && effects[key] == app.upper(app.payloadOf(r)))
        && (EffectKey(runId) == key <==> runId == key[..|key| - |":publish"|])
  {
    InvReachable(app, clock, actions);
    var effects := Exec(app, Start(clock), actions).effects;
    if key in effects {
      assert EffectOk(app, key, effects[key]);
      EffectKeyRoundTrip(runId);
    }
  }

  lemma StepKeepsEffects(app: Application, s: System, a: Action, key: string)
    requires Enabled(app, s, a) && key in s.effects
    ensures key in Apply(app, s, a).effects && Apply(app, s, a).effects[key] == s.effects[key]
  {
    if a.PublishOnly? || (a.Succeed? && s.workers[a.w].phase.pending[0] == PublishNode) {
      var ctx := s.workers[a.w].phase.context;
      PublishKeepsEffects(s.effects, EffectKey(ctx.runId), Produced(app, PublishNode, ctx).value, key);
      hide Publish;
    }
  }

  /** What was published once stays as it is, whatever happens afterwards. */
  lemma {:induction false} EffectsStay(app: Application, s: System, actions: seq<Action>, key: string)
    requires AllEnabled(app, s, actions) && key in s.effects
    ensures key in Exec(app, s, actions).effects && Exec(app, s, actions).effects[key] == s.effects[key]
    decreases |actions|
  {
    hide Enabled, Apply;
    if actions != [] {
      StepKeepsEffects(app, s, actions[0], key);
      EffectsStay(app, Apply(app, s, actions[0]), actions[1..], key);
    }
  }

  /** Whoever publishes, early, late or twice, the sink never sees a different payload. */
  lemma PublishNeverConflicts(app: Application, clock: Time, actions: seq<Action>, w: nat)
    requires AllEnabled(app, Start(clock), actions)
    requires var s := Exec(app, Start(clock), actions);
      w in s.workers && CanExecute(app, s.workers[w]) && s.workers[w].phase.pending[0] == PublishNode
    ensures var s := Exec(app, Start(clock), actions);
      Effect(app, s, s.workers[w].phase.context).1 != Conflict
  {
    InvReachable(app, clock, actions);
    var s := Exec(app, Start(clock), actions);
    assert WorkerOk(app, s, s.workers[w]);
    PublishIsRight(app, s, s.workers[w].phase.context);
  }

  // ---- leases and fencing ----

  /** At most one worker of a lease file holds a lease that validates. */
  lemma OneHolder(app: Application, clock: Time, actions: seq<Action>, v: nat, w: nat)
    requires AllEnabled(app, Start(clock), actions)
    requires var s := Exec(app, Start(clock), actions);
      && v in s.workers && w in s.workers && SameFile(s.workers[v], s.workers[w])
      && s.Holds(s.workers[v].phase.lease) && s.Holds(s.workers[w].phase.lease)
    ensures v == w
  {
    InvReachable(app, clock, actions);
    var s := Exec(app, Start(clock), actions);
    assert WorkerOk(app, s, s.workers[v]) && WorkerOk(app, s, s.workers[w]);
    assert s.LeaseFileOf(s.workers[v].runId) == s.LeaseFileOf(s.workers[w].runId);
  }

  lemma StepLater(app: Application, s: System, a: Action, runId: string)
    requires Enabled(app, s, a)
    ensures var s' := Apply(app, s, a);
      Later(s.LeaseFileOf(runId), s.clock, s'.LeaseFileOf(runId), s'.clock)
  {
    var s' := Apply(app, s, a);
    if a.Acquire? && SafeName(runId) == SafeName(s.workers[a.w].runId) {
      var k := s.workers[a.w];
      var granted := Granted(s.LeaseFileOf(k.runId), k.runId, k.workerId, a.ttl, s.clock);
      if granted.Some? { assert s'.LeaseFileOf(runId) == Written(granted.value); }
    }
  }

  /** A lease lost once is lost for good: its holder saves no checkpoint it has not already been cleared for. */
  lemma {:induction false} LostLeaseStaysLost(app: Application, s: System, actions: seq<Action>, lease: RunLease)
    requires AllEnabled(app, s, actions)
    requires lease.fencingToken <= s.LeaseFileOf(lease.runId).fencingToken && !s.Holds(lease)
    ensures !Exec(app, s, actions).Holds(lease)
    decreases |actions|
  {
    if actions != [] {
      var s' := Apply(app, s, actions[0]);
      StepLater(app, s, actions[0], lease.runId);
      StaleStaysStale(s.LeaseFileOf(lease.runId), s.clock, s'.LeaseFileOf(lease.runId), s'.clock, lease);
      LostLeaseStaysLost(app, s', actions[1..], lease);
    }
  }

  /** A checkpoint is never replaced by one of an older holder. */
  lemma {:induction false} CheckpointsMoveForward(app: Application, s: System, actions: seq<Action>, file: string)
    requires AllEnabled(app, s, actions) && file in s.checkpoints
    ensures var s' := Exec(app, s, actions);
      file in s'.checkpoints && s.checkpoints[file].fencingToken <= s'.checkpoints[file].fencingToken
    decreases |actions|
  {
    if actions != [] {
      var s1 := Apply(app, s, actions[0]);
      assert file in s1.checkpoints && s.checkpoints[file].fencingToken <= s1.checkpoints[file].fencingToken;
      CheckpointsMoveForward(app, s1, actions[1..], file);
    }
  }

  // ---- saving ----

  predicate CanSave(s: System, w: nat) {
    && w in s.workers && s.workers[w].phase.Saving? && s.Holds(s.workers[w].phase.lease)
    && NotOlder(s, w)
  }

  /** The worker's token is at least the one in its checkpoint file. */
  predicate NotOlder(s: System, w: nat)
    requires w in s.workers && s.workers[w].phase.HasLease()
  {
    SafeName(s.workers[w].runId) in s.checkpoints ==>
      s.checkpoints[SafeName(s.workers[w].runId)].fencingToken <= s.workers[w].phase.lease.fencingToken
  }

  function AfterSave(s: System, w: nat): System
    requires CanSave(s, w)
  {
    var k := s.workers[w];
    var p := k.phase;
    SetPhase(s.(checkpoints := s.checkpoints[SafeName(k.runId) := Snapshot(p)]),
             w, Saved(Writing(p.lease, p.kind, p.completed, p.pending, p.context)))
  }

  lemma SaveRound(app: Application, s: System, w: nat)
    requires CanSave(s, w)
    ensures AllEnabled(app, s, [CheckSaveLease(w), Write(w)])
    ensures Exec(app, s, [CheckSaveLease(w), Write(w)]) == AfterSave(s, w)
  {
    var s1 := Apply(app, s, CheckSaveLease(w));
    assert [CheckSaveLease(w), Write(w)][1..] == [Write(w)];
    assert s1.workers[w].phase.Writing?;
    assert Apply(app, s1, Write(w)) == AfterSave(s, w);
    assert Exec(app, s1, [Write(w)]) == Apply(app, s1, Write(w));
  }

  /** A worker at its next node, or past the last, whose lease holds. */
  predicate Working(s: System, w: nat) {
    && w in s.workers && (s.workers[w].phase.Running? || s.workers[w].phase.Cleared?)
    && s.Holds(s.workers[w].phase.lease) && NotOlder(s, w)
  }

  /** The state of the worker after its next node was run to the end, and what that left behind. */
  ghost predicate AfterNode(s: System, s1: System, s': System, w: nat)
    requires w in s.workers && (s.workers[w].phase.Running? || s.workers[w].phase.Cleared?)
    requires s.workers[w].phase.pending != [] && w in s1.workers && s1.workers[w].phase.HasContext()
  {
    && Working(s', w) && s'.workers[w].phase.Running?
    && s'.workers[w].(phase := Gone) == s.workers[w].(phase := Gone)
    && s'.workers[w].phase.lease == s.workers[w].phase.lease
    && s'.workers[w].phase.completed == s.workers[w].phase.completed + [s.workers[w].phase.pending[0]]
    && s'.workers[w].phase.pending == s.workers[w].phase.pending[1..]
    && s'.workers[w].phase.context == s1.workers[w].phase.context && s'.effects == s1.effects
    && s'.workers.Keys == s.workers.Keys
  }

  lemma NodeRound(app: Application, s: System, w: nat, first: Action)
    requires Working(s, w) && s.workers[w].phase.pending != [] && (first == Succeed(w) || first == GiveUp(w))
    requires Enabled(app, s, first)
    ensures var actions := [first, CheckSaveLease(w), Write(w)];
      AllEnabled(app, s, actions) && AfterNode(s, Apply(app, s, first), Exec(app, s, actions), w)
  {
    var s1 := Apply(app, s, first);
    assert [first, CheckSaveLease(w), Write(w)][1..] == [CheckSaveLease(w), Write(w)];
    assert CanSave(s1, w);
    SaveRound(app, s1, w);
  }

  lemma CompletionRound(app: Application, s: System, w: nat)
    requires Working(s, w) && s.workers[w].phase.Running? && s.workers[w].phase.pending == []
    ensures var actions := [Complete(w), CheckSaveLease(w), Write(w)];
      && AllEnabled(app, s, actions)
      && var s', file, ctx := Exec(app, s, actions), SafeName(s.workers[w].runId), s.workers[w].phase.context;
         && s'.effects == s.effects && file in s'.checkpoints && s'.checkpoints[file].status == COMPLETED
         && s'.checkpoints[file].context == ctx && s'.checkpoints[file].runId == s.workers[w].phase.lease.runId
         && w in s'.workers && s'.workers[w].phase == Ended(s.workers[w].phase.lease, COMPLETED, ctx)
  {
    var s1 := Apply(app, s, Complete(w));
    assert [Complete(w), CheckSaveLease(w), Write(w)][1..] == [CheckSaveLease(w), Write(w)];
    assert CanSave(s1, w);
    SaveRound(app, s1, w);
  }

  // ---- recovery ----

  /** The worker has published: its context carries the output of the last node. */
  predicate HasPublished(s: System, w: nat) {
    w in s.workers && s.workers[w].phase.HasContext() && s.workers[w].phase.context.published.Some?
  }

  /** With every earlier output in place, the next node can be attempted with success, once cleared where it must be. */
  lemma NextCanSucceed(app: Application, s: System, w: nat)
    requires Inv(app, s) && Working(s, w) && s.workers[w].phase.pending != []
    requires Accounted(s.workers[w].phase.context, s.workers[w].phase.pending)
    ensures
      if s.workers[w].phase.Running? && s.workers[w].checksLease && s.workers[w].phase.pending[0] == PublishNode
      then Enabled(app, s, CheckPublishLease(w))
      else AtNode(s.workers[w]) ==> Enabled(app, s, Succeed(w))
  {
    var k := s.workers[w];
    var p := k.phase;
    assert WorkerOk(app, s, k);
    assert IsRest(p.pending);
    if p.pending[0] == Transform {
      assert Ingest !in p.pending ==> p.context.OutputOf(Ingest).Some?;
      assert p.pending == [Transform, PublishNode];
    }
    if p.pending[0] == PublishNode {
      assert Transform !in p.pending ==> p.context.OutputOf(Transform).Some?;
      assert p.pending == [PublishNode];
      PublishIsRight(app, s, p.context);
    }
  }

  /** From there the worker can finish alone, whether it checks its lease or not: the run completes, published. */
  lemma {:induction false} CanFinish(app: Application, s: System, w: nat) returns (actions: seq<Action>)
    requires Inv(app, s) && Working(s, w) && (s.workers[w].phase.Cleared? ==> AtNode(s.workers[w]))
    requires Accounted(s.workers[w].phase.context, s.workers[w].phase.pending)
    ensures AllEnabled(app, s, actions) && HasPublished(Exec(app, s, actions), w)
    ensures forall a :: a in actions ==> !a.Spawn?
    ensures var s', file, ctx := Exec(app, s, actions), SafeName(s.workers[w].runId), s.workers[w].phase.context;
      && file in s'.checkpoints && s'.checkpoints[file].status == COMPLETED
      && s'.checkpoints[file].runId == s.workers[w].runId && s'.checkpoints[file].context.runId == ctx.runId
      && EffectKey(ctx.runId) in s'.effects && s'.effects.Keys <= s.effects.Keys + {EffectKey(ctx.runId)}
    decreases |s.workers[w].phase.pending|, if s.workers[w].phase.Running? then 1 else 0
  {
    hide Inv, Accounted, AfterSave;
    var k := s.workers[w];
    var p := k.phase;
    if p.pending == [] {
      actions := FinishAtEnd(app, s, w);
    } else {
      NextCanSucceed(app, s, w);
      if p.Running? && k.checksLease && p.pending[0] == PublishNode {
        var s1 := Apply(app, s, CheckPublishLease(w));
        StepInv(app, s, CheckPublishLease(w));
        var rest := CanFinish(app, s1, w);
        assert ([CheckPublishLease(w)] + rest)[1..] == rest;
        actions := [CheckPublishLease(w)] + rest;
      } else {
        var round := [Succeed(w), CheckSaveLease(w), Write(w)];
        NodeRound(app, s, w, Succeed(w));
        SucceedAccounts(app, s, w);
        InvExec(app, s, round);
        var rest := CanFinish(app, Exec(app, s, round), w);
        ExecConcat(app, s, round, rest);
        actions := round + rest;
      }
    }
  }

  lemma FinishAtEnd(app: Application, s: System, w: nat) returns (actions: seq<Action>)
    requires Inv(app, s) && Working(s, w) && s.workers[w].phase.Running? && s.workers[w].phase.pending == []
    requires Accounted(s.workers[w].phase.context, [])
    ensures AllEnabled(app, s, actions) && HasPublished(Exec(app, s, actions), w)
    ensures forall a :: a in actions ==> !a.Spawn?
    ensures var s', file, ctx := Exec(app, s, actions), SafeName(s.workers[w].runId), s.workers[w].phase.context;
      && file in s'.checkpoints && s'.checkpoints[file].status == COMPLETED
      && s'.checkpoints[file].runId == s.workers[w].runId && s'.checkpoints[file].context.runId == ctx.runId
      && EffectKey(ctx.runId) in s'.effects && s'.effects.Keys <= s.effects.Keys + {EffectKey(ctx.runId)}
  {
    CompletionRound(app, s, w);
    assert WorkerOk(app, s, s.workers[w]);
    assert s.workers[w].phase.context.OutputOf(PublishNode).Some?;
    actions := [Complete(w), CheckSaveLease(w), Write(w)];
  }

  lemma SucceedAccounts(app: Application, s: System, w: nat)
    requires Inv(app, s) && Enabled(app, s, Succeed(w))
    requires Accounted(s.workers[w].phase.context, s.workers[w].phase.pending)
    ensures var ctx := Apply(app, s, Succeed(w)).workers[w].phase.context;
      && Accounted(ctx, s.workers[w].phase.pending[1..]) && ctx.runId == s.workers[w].phase.context.runId
      && Apply(app, s, Succeed(w)).effects.Keys <= s.effects.Keys + {EffectKey(ctx.runId)}
  {
    var k := s.workers[w];
    assert WorkerOk(app, s, k);
    OutputIsRight(app, k.phase.context, k.phase.pending[0], k.workerId, k.phase.pending);
    hide Inv, WorkerOk, ContextOk, Accounted;
  }

  /**
   * Takeover: whatever crashed before, a checkpoint that is not completed and shows every output it should
   * can be resumed by a new worker of either kind once the lease is free, and the run then completes.
   */
  lemma TakeoverCanFinish(app: Application, clock: Time, history: seq<Action>, w: nat, workerId: string,
                          runId: string, checksLease: bool, ttl: int)
    returns (actions: seq<Action>)
    requires AllEnabled(app, Start(clock), history)
    requires var s := Exec(app, Start(clock), history);
      && w !in s.workers && ttl > 0 && !Taken(s.LeaseFileOf(runId), s.clock)
      && SafeName(runId) in s.checkpoints && s.checkpoints[SafeName(runId)].status != COMPLETED
      && Intact(s.checkpoints[SafeName(runId)])
    ensures var s := Exec(app, Start(clock), history);
      && AllEnabled(app, s, actions)
      && var s', owner := Exec(app, s, actions), s.checkpoints[SafeName(runId)].context.runId;
         && SafeName(runId) in s'.checkpoints && s'.checkpoints[SafeName(runId)].status == COMPLETED
         && s'.checkpoints[SafeName(runId)].context.runId == owner && EffectKey(owner) in s'.effects
  {
    InvReachable(app, clock, history);
    var s := Exec(app, Start(clock), history);
    CheckpointShape(app, s, SafeName(runId));
    ResumeIsAhead(s.checkpoints[SafeName(runId)]);
    hide Inv, Intact, Accounted, Remaining;
    var intro := [Spawn(w, workerId, runId, checksLease), Acquire(w, ttl), Resume(w)];
    TakeoverIntro(app, s, w, workerId, runId, checksLease, ttl);
    InvExec(app, s, intro);
    var rest := CanFinish(app, Exec(app, s, intro), w);
    ExecConcat(app, s, intro, rest);
    actions := intro + rest;
  }

  lemma CheckpointShape(app: Application, s: System, file: string)
    requires Inv(app, s) && file in s.checkpoints
    ensures CheckpointOk(app, s, file, s.checkpoints[file]) && ShapeOk(s.checkpoints[file])
  {
  }

  lemma TakeoverIntro(app: Application, s: System, w: nat, workerId: string, runId: string, checksLease: bool, ttl: int)
    requires Inv(app, s) && w !in s.workers && ttl > 0 && !Taken(s.LeaseFileOf(runId), s.clock)
    requires SafeName(runId) in s.checkpoints && s.checkpoints[SafeName(runId)].status != COMPLETED
    ensures var intro := [Spawn(w, workerId, runId, checksLease), Acquire(w, ttl), Resume(w)];
      && AllEnabled(app, s, intro)
      && var s', found := Exec(app, s, intro), s.checkpoints[SafeName(runId)];
         && Working(s', w) && s'.workers[w].runId == s'.workers[w].phase.lease.runId == runId
         && s'.workers[w].checksLease == checksLease && s'.effects == s.effects
         && s'.workers[w].phase == Running(s'.workers[w].phase.lease, found.completed,
                                           Remaining(found.completed, found.failed), found.context)
  {
    var found := s.checkpoints[SafeName(runId)];
    CheckpointShape(app, s, SafeName(runId));
    assert s.LeaseFileOf(found.context.runId) == s.LeaseFileOf(runId);
    FreeLeaseIsGranted(app, s, w, workerId, runId, checksLease, ttl);
    hide Inv, CheckpointOk, Remaining, Enabled, Apply, Working, AllEnabled, Exec;
    var s2 := Apply(app, Apply(app, s, Spawn(w, workerId, runId, checksLease)), Acquire(w, ttl));
    LeasedCanResume(app, s2, w);
    ExecThree(app, s, Spawn(w, workerId, runId, checksLease), Acquire(w, ttl), Resume(w));
  }

  lemma LeasedCanResume(app: Application, s: System, w: nat)
    requires w in s.workers && s.workers[w].phase.Leased? && s.Holds(s.workers[w].phase.lease)
    requires SafeName(s.workers[w].runId) in s.checkpoints
    requires s.checkpoints[SafeName(s.workers[w].runId)].status != COMPLETED && NotOlder(s, w)
    ensures Enabled(app, s, Resume(w))
    ensures var s', c := Apply(app, s, Resume(w)), s.checkpoints[SafeName(s.workers[w].runId)];
      && Working(s', w) && s'.effects == s.effects
      && s'.workers[w] == s.workers[w].(phase := Running(s.workers[w].phase.lease, c.completed,
                                                         Remaining(c.completed, c.failed), c.context))
  {
    hide Remaining;
  }

  lemma ExecThree(app: Application, s: System, a: Action, b: Action, c: Action)
    requires Enabled(app, s, a) && Enabled(app, Apply(app, s, a), b)
    requires Enabled(app, Apply(app, Apply(app, s, a), b), c)
    ensures AllEnabled(app, s, [a, b, c])
    ensures Exec(app, s, [a, b, c]) == Apply(app, Apply(app, Apply(app, s, a), b), c)
  {
    hide Enabled, Apply;
    assert [a, b, c][1..] == [b, c] && [b, c][1..] == [c] && [c][1..] == [];
    var s1 := Apply(app, s, a);
    var s2 := Apply(app, s1, b);
    assert AllEnabled(app, s2, [c]) && Exec(app, s2, [c]) == Apply(app, s2, c);
    assert AllEnabled(app, s1, [b, c]) && Exec(app, s1, [b, c]) == Apply(app, s2, c);
  }

  lemma FreeLeaseIsGranted(
    app: Application, s: System, w: nat, workerId: string, runId: string, checksLease: bool, ttl: int)
    requires w !in s.workers && ttl > 0 && !Taken(s.LeaseFileOf(runId), s.clock)
    ensures Enabled(app, s, Spawn(w, workerId, runId, checksLease))
    ensures Enabled(app, Apply(app, s, Spawn(w, workerId, runId, checksLease)), Acquire(w, ttl))
    ensures var s2 := Apply(app, Apply(app, s, Spawn(w, workerId, runId, checksLease)), Acquire(w, ttl));
      && w in s2.workers && s2.workers[w].phase.Leased?
      && s2.workers[w] == Worker(workerId, runId, checksLease, Leased(s2.workers[w].phase.lease))
      && s2.workers[w].phase.lease.fencingToken == s.LeaseFileOf(runId).fencingToken + 1
      && s2.workers[w].phase.lease.runId == runId && s2.Holds(s2.workers[w].phase.lease)
      && s2.checkpoints == s.checkpoints && s2.effects == s.effects && s2.workers.Keys == s.workers.Keys + {w}
  {
    var s1 := Apply(app, s, Spawn(w, workerId, runId, checksLease));
    assert s1.LeaseFileOf(runId) == s.LeaseFileOf(runId);
    var s2 := Apply(app, s1, Acquire(w, ttl));
    assert s2.LeaseFileOf(runId) == Written(s2.workers[w].phase.lease);
  }

  // ---- what a resume can reach ----

  function Pending(p: Phase): seq<Node> {
    if p.Running? || p.Cleared? || p.Saving? || p.Writing? then p.pending else []
  }

  /** An output is missing and its node will not be run any more. */
  ghost predicate Doomed(k: Worker) {
    k.phase.Gone?
    || (k.phase.HasContext() && exists n: Node :: n !in Pending(k.phase) && k.phase.context.OutputOf(n).None?)
  }

  lemma OthersStand(app: Application, s: System, a: Action, w: nat)
    requires Enabled(app, s, a) && w in s.workers && (a.Tick? || a.w != w)
    ensures w in Apply(app, s, a).workers && Apply(app, s, a).workers[w] == s.workers[w]
  {
    hide Effect, Remaining;
  }

  /** A worker's own step runs no node but its next one, and never puts a node back. */
  lemma OwnStep(app: Application, s: System, a: Action, w: nat, n: Node)
    requires Enabled(app, s, a) && w in s.workers && !a.Tick? && a.w == w && s.workers[w].phase.HasContext()
    requires n !in Pending(s.workers[w].phase) && s.workers[w].phase.context.OutputOf(n).None?
    ensures w in Apply(app, s, a).workers
    ensures var p := Apply(app, s, a).workers[w].phase;
      p.Gone? || (p.HasContext() && n !in Pending(p) && p.context.OutputOf(n).None?)
  {
    hide Effect, Remaining, Granted, Produced;
    var p := s.workers[w].phase;
    if a.Succeed? {
      assert p.pending[0] in p.pending;
      assert forall m :: m in p.pending[1..] ==> m in p.pending;
    } else if a.GiveUp? {
      assert forall m :: m in p.pending[1..] ==> m in p.pending;
    }
  }

  lemma DoomedStep(app: Application, s: System, a: Action, w: nat)
    requires Enabled(app, s, a) && w in s.workers && Doomed(s.workers[w])
    ensures w in Apply(app, s, a).workers && Doomed(Apply(app, s, a).workers[w])
  {
    if a.Tick? || a.w != w {
      OthersStand(app, s, a, w);
    } else if s.workers[w].phase.HasContext() {
      var n: Node :| n !in Pending(s.workers[w].phase) && s.workers[w].phase.context.OutputOf(n).None?;
      OwnStep(app, s, a, w, n);
      hide Apply, Enabled;
    }
  }

  lemma {:induction false} DoomedStays(app: Application, s: System, actions: seq<Action>, w: nat)
    requires Inv(app, s) && AllEnabled(app, s, actions) && w in s.workers && Doomed(s.workers[w])
    ensures !HasPublished(Exec(app, s, actions), w)
    decreases |actions|
  {
    hide Inv, Doomed, Enabled, Apply;
    if actions == [] {
      DoomedIsUnpublished(app, s, w);
    } else {
      DoomedStep(app, s, actions[0], w);
      StepInv(app, s, actions[0]);
      DoomedStays(app, Apply(app, s, actions[0]), actions[1..], w);
    }
  }

  lemma DoomedIsUnpublished(app: Application, s: System, w: nat)
    requires Inv(app, s) && w in s.workers && Doomed(s.workers[w])
    ensures !HasPublished(s, w)
  {
    var k := s.workers[w];
    assert WorkerOk(app, s, k);
    if k.phase.HasContext() {
      var n: Node :| n !in Pending(k.phase) && k.phase.context.OutputOf(n).None?;
      match n case Ingest => case Transform => case PublishNode =>
    }
  }

  /** A worker that resumes under a good lease can come to a published output exactly from an intact checkpoint. */
  lemma ResumePublishesExactly(app: Application, clock: Time, history: seq<Action>, w: nat)
    requires AllEnabled(app, Start(clock), history)
    requires var s := Exec(app, Start(clock), history);
      Enabled(app, s, Resume(w)) && s.Holds(s.workers[w].phase.lease)
    ensures var s := Exec(app, Start(clock), history);
      && var s1 := Apply(app, s, Resume(w));
         (exists more :: AllEnabled(app, s1, more) && HasPublished(Exec(app, s1, more), w))
         <==> Intact(s.checkpoints[SafeName(s.workers[w].runId)])
  {
    InvReachable(app, clock, history);
    var s := Exec(app, Start(clock), history);
    var s1, file := Apply(app, s, Resume(w)), SafeName(s.workers[w].runId);
    var c := s.checkpoints[file];
    ResumedState(app, s, w);
    StepInv(app, s, Resume(w));
    hide Inv, Enabled, Apply, Remaining;
    if Intact(c) {
      var more := CanFinish(app, s1, w);
    } else {
      ResumedIsDoomed(s1.workers[w], c);
      forall more | AllEnabled(app, s1, more) ensures !HasPublished(Exec(app, s1, more), w) {
        DoomedStays(app, s1, more, w);
      }
    }
  }

  lemma ResumedState(app: Application, s: System, w: nat)
    requires Inv(app, s) && Enabled(app, s, Resume(w)) && s.Holds(s.workers[w].phase.lease)
    ensures var s1, c := Apply(app, s, Resume(w)), s.checkpoints[SafeName(s.workers[w].runId)];
      && Working(s1, w) && ShapeOk(c)
      && s1.workers[w].phase ==
           Running(s.workers[w].phase.lease, c.completed, Remaining(c.completed, c.failed), c.context)
      && (Accounted(c.context, Remaining(c.completed, c.failed)) <==> Intact(c))
  {
    var k := s.workers[w];
    var c := s.checkpoints[SafeName(k.runId)];
    assert WorkerOk(app, s, k);
    CheckpointShape(app, s, SafeName(k.runId));
    ResumeIsAhead(c);
    assert s.LeaseFileOf(c.context.runId) == s.LeaseFileOf(k.runId);
    hide Inv, CheckpointOk, Remaining, Intact, Accounted, Ahead;
  }

  lemma ResumedIsDoomed(k: Worker, c: Checkpoint)
    requires !Intact(c) && k.phase.Running? && k.phase.context == c.context
    requires k.phase.pending == Remaining(c.completed, c.failed)
    ensures Doomed(k)
  {
    RemainingNodes(c.completed, c.failed);
    hide Remaining;
    var n :| n in c.completed && Some(n) != c.failed && c.context.OutputOf(n).None?;
    assert n !in Pending(k.phase);
  }

  // ---- completion ----

  /** In every reachable state: a completed checkpoint with its output has its effect, the right one. */
  lemma CompletedIsPublished(app: Application, clock: Time, history: seq<Action>, file: string)
    requires AllEnabled(app, Start(clock), history)
    requires var s := Exec(app, Start(clock), history);
      file in s.checkpoints && s.checkpoints[file].status == COMPLETED
    ensures var s := Exec(app, Start(clock), history);
      var c := s.checkpoints[file];
      && SafeName(c.context.runId) == file
      && (Strict(app) ==> Intact(c))
      && (Intact(c) <==> c.context.published.Some?)
      && (Intact(c) ==> EffectKey(c.context.runId) in s.effects
                        && s.effects[EffectKey(c.context.runId)] == app.upper(app.payloadOf(c.context.runId)))
  {
    InvReachable(app, clock, history);
    var s := Exec(app, Start(clock), history);
    var c := s.checkpoints[file];
    CheckpointShape(app, s, file);
    ResumeIsAhead(c);
    EffectKeyRoundTrip(c.context.runId);
    assert Accounted(c.context, []) <==> c.context.published.Some? by { AllOutputs(app, c.context); }
    if c.context.published.Some? {
      assert EffectOk(app, EffectKey(c.context.runId), s.effects[EffectKey(c.context.runId)]);
    }
  }

  /** Outputs come in order, so the last one stands for all. */
  lemma AllOutputs(app: Application, ctx: Context)
    requires ContextOk(app, ctx)
    ensures Accounted(ctx, []) <==> ctx.published.Some?
  {
    if ctx.published.Some? {
      forall n: Node ensures ctx.OutputOf(n).Some? {
        match n case Ingest => case Transform => case PublishNode =>
      }
    } else {
      assert ctx.OutputOf(PublishNode).None?;
    }
  }

  predicate Unpublished(s: System, file: string) {
    && file in s.checkpoints && s.checkpoints[file].status == COMPLETED
    && EffectKey(s.checkpoints[file].context.runId) !in s.effects
  }

  /** No history whatever leads to a completed run without its effect. */
  ghost predicate CompletionMeansPublication(app: Application) {
    forall clock, history, file | AllEnabled(app, Start(clock), history) ::
      !Unpublished(Exec(app, Start(clock), history), file)
  }

  /**
   * A completed run has its effect, in all histories, exactly where a failed node stops the run and no good
   * lease is refused its checkpoint.
   */
  lemma CompletionMeansPublicationExactly(app: Application)
    ensures CompletionMeansPublication(app) <==> PublishNode !in app.retries && !app.diskFaults
  {
    if Strict(app) {
      forall clock, history, file | AllEnabled(app, Start(clock), history)
        ensures !Unpublished(Exec(app, Start(clock), history), file) {
        var s := Exec(app, Start(clock), history);
        if file in s.checkpoints && s.checkpoints[file].status == COMPLETED {
          CompletedIsPublished(app, clock, history, file);
        }
      }
    } else if PublishNode in app.retries {
      var history := LostPublication(app, 0, "", "");
      assert Unpublished(Exec(app, Start(0), history), SafeName(""));
    } else {
      var history := ForgottenFailure(app, 0, "", "");
      assert Unpublished(Exec(app, Start(0), history), SafeName(""));
    }
  }

  /** Nobody but workers of this run is started. */
  predicate SpawnsOnly(actions: seq<Action>, runId: string) {
    forall a :: a in actions && a.Spawn? ==> a.runId == runId
  }

  /** A first worker on empty disks gets to its loop with everything still to do. */
  lemma FreshIntro(app: Application, clock: Time, workerId: string, runId: string) returns (actions: seq<Action>)
    ensures AllEnabled(app, Start(clock), actions) && SpawnsOnly(actions, runId)
    ensures var s := Exec(app, Start(clock), actions);
      && Working(s, 0) && s.workers.Keys == {0} && s.effects == map[]
      && s.workers[0].runId == s.workers[0].phase.lease.runId == runId && !s.workers[0].checksLease
      && s.workers[0].phase == Running(s.workers[0].phase.lease, [], ORDER, Initially(app, runId))
      && SafeName(runId) in s.checkpoints && s.checkpoints[SafeName(runId)] ==
           Checkpoint(runId, RUNNING, [], None, Initially(app, runId), s.workers[0].phase.lease.fencingToken)
  {
    var s0 := Start(clock);
    assert s0.LeaseFileOf(runId) == NO_LEASE;
    FreeLeaseIsGranted(app, s0, 0, workerId, runId, false, 1);
    ExecThree(app, s0, Spawn(0, workerId, runId, false), Acquire(0, 1), StartRun(0));
    var intro := [Spawn(0, workerId, runId, false), Acquire(0, 1), StartRun(0)];
    var s3 := Exec(app, s0, intro);
    assert CanSave(s3, 0);
    SaveRound(app, s3, 0);
    ExecConcat(app, s0, intro, [CheckSaveLease(0), Write(0)]);
    actions := intro + [CheckSaveLease(0), Write(0)];
  }

  /** Up to its last node, with nothing published. */
  ghost predicate AtPublish(app: Application, s: System, runId: string) {
    && Inv(app, s) && Working(s, 0) && s.workers[0].phase.Running?
    && s.workers[0].phase.completed == [Ingest, Transform] && s.workers[0].phase.pending == [PublishNode]
    && s.workers[0].runId == s.workers[0].phase.lease.runId == runId && s.workers.Keys == {0} && s.effects == map[]
  }

  lemma TwoRounds(app: Application, s: System, runId: string) returns (actions: seq<Action>)
    requires Inv(app, s) && Working(s, 0) && s.workers[0].phase.Running?
    requires s.workers[0].phase.completed == [] && s.workers[0].phase.pending == ORDER
    requires s.workers[0].runId == s.workers[0].phase.lease.runId == runId && s.workers.Keys == {0}
    requires s.effects == map[]
    ensures AllEnabled(app, s, actions) && AtPublish(app, Exec(app, s, actions), runId)
    ensures SpawnsOnly(actions, runId)
  {
    hide Inv, Enabled, Apply, Working, AllEnabled, Exec;
    var round := [Succeed(0), CheckSaveLease(0), Write(0)];
    assert Accounted(s.workers[0].phase.context, ORDER) by { StartsWithAll(s.workers[0].phase.context); }
    hide Accounted;
    assert ORDER[1..] == [Transform, PublishNode] && ORDER[0] == Ingest;
    NextNode(app, s, Ingest);
    NextNode(app, Exec(app, s, round), Transform);
    ExecConcat(app, s, round, round);
    actions := round + round;
  }

  lemma StartsWithAll(ctx: Context)
    ensures Accounted(ctx, ORDER)
  {
    assert ORDER[0] == Ingest && ORDER[1] == Transform && ORDER[2] == PublishNode;
    forall n: Node ensures n in ORDER {
      match n case Ingest => case Transform => case PublishNode =>
    }
  }

  lemma UpToPublish(app: Application, clock: Time, workerId: string, runId: string) returns (actions: seq<Action>)
    ensures AllEnabled(app, Start(clock), actions) && SpawnsOnly(actions, runId)
    ensures AtPublish(app, Exec(app, Start(clock), actions), runId)
  {
    var intro := FreshIntro(app, clock, workerId, runId);
    InvReachable(app, clock, intro);
    hide Inv, Working, AtPublish;
    var rest := TwoRounds(app, Exec(app, Start(clock), intro), runId);
    ExecConcat(app, Start(clock), intro, rest);
    actions := intro + rest;
  }

  lemma NextNode(app: Application, s: System, n: Node)
    requires Inv(app, s) && Working(s, 0) && s.workers[0].phase.Running? && s.workers[0].phase.pending != []
    requires s.workers[0].phase.pending[0] == n != PublishNode
    requires Accounted(s.workers[0].phase.context, s.workers[0].phase.pending)
    ensures var round := [Succeed(0), CheckSaveLease(0), Write(0)];
      && AllEnabled(app, s, round)
      && var s' := Exec(app, s, round);
         && Inv(app, s') && Working(s', 0) && s'.workers[0].phase.Running? && s'.effects == s.effects
         && s'.workers[0].runId == s.workers[0].runId && s'.workers.Keys == s.workers.Keys
         && s'.workers[0].phase.lease == s.workers[0].phase.lease
         && s'.workers[0].phase.completed == s.workers[0].phase.completed + [n]
         && s'.workers[0].phase.pending == s.workers[0].phase.pending[1..]
         && Accounted(s'.workers[0].phase.context, s'.workers[0].phase.pending)
  {
    hide Inv, Accounted;
    NextCanSucceed(app, s, 0);
    NodeRound(app, s, 0, Succeed(0));
    SucceedAccounts(app, s, 0);
    InvExec(app, s, [Succeed(0), CheckSaveLease(0), Write(0)]);
  }

  /** With retries, a publish node that fails on every attempt is counted as completed, and the run completes. */
  lemma CompletedWithoutEffect(app: Application, s: System, w: nat)
    requires PublishNode in app.retries
    requires Working(s, w) && s.workers[w].phase.Running? && s.workers[w].phase.pending == [PublishNode]
    ensures var actions := [GiveUp(w), CheckSaveLease(w), Write(w)] + [Complete(w), CheckSaveLease(w), Write(w)];
      && AllEnabled(app, s, actions)
      && var s', file := Exec(app, s, actions), SafeName(s.workers[w].runId);
         s'.effects == s.effects && file in s'.checkpoints && s'.checkpoints[file].status == COMPLETED
         && s'.checkpoints[file].runId == s.workers[w].phase.lease.runId
  {
    var round := [GiveUp(w), CheckSaveLease(w), Write(w)];
    NodeRound(app, s, w, GiveUp(w));
    CompletionRound(app, Exec(app, s, round), w);
    ExecConcat(app, s, round, [Complete(w), CheckSaveLease(w), Write(w)]);
  }

  /** Such a run exists for every run id, from the first action on. */
  lemma LostPublication(app: Application, clock: Time, workerId: string, runId: string) returns (actions: seq<Action>)
    requires PublishNode in app.retries
    ensures AllEnabled(app, Start(clock), actions) && SpawnsOnly(actions, runId)
    ensures var s := Exec(app, Start(clock), actions);
      SafeName(runId) in s.checkpoints && s.checkpoints[SafeName(runId)].status == COMPLETED
      && s.checkpoints[SafeName(runId)].runId == runId && s.effects == map[]
  {
    var intro := UpToPublish(app, clock, workerId, runId);
    hide Inv;
    CompletedWithoutEffect(app, Exec(app, Start(clock), intro), 0);
    var ending := [GiveUp(0), CheckSaveLease(0), Write(0)] + [Complete(0), CheckSaveLease(0), Write(0)];
    ExecConcat(app, Start(clock), intro, ending);
    actions := intro + ending;
  }

  /** The actions of a worker whose node fails and whose first save of the failure is refused. */
  function FaultyStop(w: nat): seq<Action> {
    [FailAttempt(w), SaveFault(w)] + ([CheckSaveLease(w), Write(w)] + [Release(w)])
  }

  lemma ExecOne(app: Application, s: System, a: Action)
    requires Enabled(app, s, a)
    ensures AllEnabled(app, s, [a]) && Exec(app, s, [a]) == Apply(app, s, a)
  {
    hide Enabled, Apply;
    assert [a][1..] == [];
  }

  lemma ExecTwo(app: Application, s: System, a: Action, b: Action)
    requires Enabled(app, s, a) && Enabled(app, Apply(app, s, a), b)
    ensures AllEnabled(app, s, [a, b]) && Exec(app, s, [a, b]) == Apply(app, Apply(app, s, a), b)
  {
    hide Enabled, Apply;
    ExecOne(app, Apply(app, s, a), b);
    assert [a, b][1..] == [b];
  }

  /** The exception handler goes on to save the failure without naming the node. */
  lemma FaultReachesHandler(app: Application, s: System, w: nat)
    requires PublishNode !in app.retries && app.diskFaults
    requires Working(s, w) && s.workers[w].phase.Running? && s.workers[w].phase.pending == [PublishNode]
    ensures AllEnabled(app, s, [FailAttempt(w), SaveFault(w)])
    ensures var s2, p := Exec(app, s, [FailAttempt(w), SaveFault(w)]), s.workers[w].phase;
      && s2 == SetPhase(s, w, Saving(p.lease, Failure, p.completed + [PublishNode], p.pending, p.context))
      && CanSave(s2, w)
  {
    ExecTwo(app, s, FailAttempt(w), SaveFault(w));
    hide Exec, AllEnabled;
    var s1 := Apply(app, s, FailAttempt(w));
    assert s1.workers[w].phase.Saving? && s1.workers[w].phase.kind.Stopped?;
  }

  lemma HandlerSaves(app: Application, s: System, w: nat)
    requires CanSave(s, w) && s.workers[w].phase.kind == Failure
    requires s.workers[w].phase.lease.runId == s.workers[w].runId
    ensures AllEnabled(app, s, [CheckSaveLease(w), Write(w)] + [Release(w)])
    ensures var s', p, file := Exec(app, s, [CheckSaveLease(w), Write(w)] + [Release(w)]), s.workers[w].phase,
                               SafeName(s.workers[w].runId);
      && file in s'.checkpoints && s'.effects == s.effects && s'.workers.Keys == s.workers.Keys
      && s'.checkpoints[file] == Snapshot(p) && !Taken(s'.LeaseFileOf(s.workers[w].runId), s'.clock)
  {
    SaveRound(app, s, w);
    var s3 := AfterSave(s, w);
    ExecOne(app, s3, Release(w));
    ExecConcat(app, s, [CheckSaveLease(w), Write(w)], [Release(w)]);
    hide Exec, AllEnabled;
  }

  /** A failed node whose save was refused counts as completed from then on. */
  lemma StopForgets(app: Application, s: System, w: nat)
    requires PublishNode !in app.retries && app.diskFaults
    requires Working(s, w) && s.workers[w].phase.Running? && s.workers[w].phase.pending == [PublishNode]
    requires s.workers[w].phase.lease.runId == s.workers[w].runId
    ensures AllEnabled(app, s, FaultyStop(w))
    ensures var s', p, file := Exec(app, s, FaultyStop(w)), s.workers[w].phase, SafeName(s.workers[w].runId);
      && file in s'.checkpoints && s'.effects == s.effects && s'.workers.Keys == s.workers.Keys
      && s'.checkpoints[file] == Checkpoint(
           s.workers[w].runId, FAILED, p.completed + [PublishNode], None, p.context, p.lease.fencingToken)
      && !Taken(s'.LeaseFileOf(s.workers[w].runId), s'.clock)
  {
    hide Apply, Enabled, CanSave;
    FaultReachesHandler(app, s, w);
    var s2 := Exec(app, s, [FailAttempt(w), SaveFault(w)]);
    assert w in s.workers && s2.workers.Keys == s.workers.Keys;
    HandlerSaves(app, s2, w);
    ExecConcat(app, s, [FailAttempt(w), SaveFault(w)], [CheckSaveLease(w), Write(w)] + [Release(w)]);
    hide Exec, AllEnabled;
  }

  lemma SpawnsConcat(a: seq<Action>, b: seq<Action>, runId: string)
    requires SpawnsOnly(a, runId) && SpawnsOnly(b, runId)
    ensures SpawnsOnly(a + b, runId)
  {
  }

  /** Without retries but with a refused save: the resume skips the failed node, and the run completes. */
  lemma ForgottenFailure(app: Application, clock: Time, workerId: string, runId: string)
    returns (actions: seq<Action>)
    requires PublishNode !in app.retries && app.diskFaults
    ensures AllEnabled(app, Start(clock), actions) && SpawnsOnly(actions, runId)
    ensures var s := Exec(app, Start(clock), actions);
      SafeName(runId) in s.checkpoints && s.checkpoints[SafeName(runId)].status == COMPLETED
      && s.checkpoints[SafeName(runId)].runId == runId && s.effects == map[]
  {
    var intro := UpToPublish(app, clock, workerId, runId);
    var s := Exec(app, Start(clock), intro);
    StopForgets(app, s, 0);
    InvExec(app, s, FaultyStop(0));
    hide Inv, Enabled, Apply, AllEnabled, Exec;
    var rest := ResumeAtEnd(app, Exec(app, s, FaultyStop(0)), workerId, runId);
    ExecConcat(app, s, FaultyStop(0), rest);
    ExecConcat(app, Start(clock), intro, FaultyStop(0) + rest);
    SpawnsConcat(FaultyStop(0), rest, runId);
    SpawnsConcat(intro, FaultyStop(0) + rest, runId);
    actions := intro + (FaultyStop(0) + rest);
  }

  /** A second worker that finds nothing left to run completes the run. */
  lemma ResumeAtEnd(app: Application, s: System, workerId: string, runId: string) returns (actions: seq<Action>)
    requires Inv(app, s) && 1 !in s.workers && !Taken(s.LeaseFileOf(runId), s.clock)
    requires SafeName(runId) in s.checkpoints && s.checkpoints[SafeName(runId)].status != COMPLETED
    requires s.checkpoints[SafeName(runId)].completed == [Ingest, Transform] + [PublishNode]
    requires s.checkpoints[SafeName(runId)].failed == None
    ensures AllEnabled(app, s, actions) && SpawnsOnly(actions, runId)
    ensures var s' := Exec(app, s, actions);
      SafeName(runId) in s'.checkpoints && s'.checkpoints[SafeName(runId)].status == COMPLETED
      && s'.checkpoints[SafeName(runId)].runId == runId && s'.effects == s.effects
  {
    assert Remaining([Ingest, Transform] + [PublishNode], None) == [];
    hide Inv, Enabled, Apply, Remaining, AllEnabled, Exec;
    var takeover := [Spawn(1, workerId, runId, false), Acquire(1, 1), Resume(1)];
    TakeoverIntro(app, s, 1, workerId, runId, false, 1);
    CompletionRound(app, Exec(app, s, takeover), 1);
    var ending := [Complete(1), CheckSaveLease(1), Write(1)];
    ExecConcat(app, s, takeover, ending);
    actions := takeover + ending;
  }
}
