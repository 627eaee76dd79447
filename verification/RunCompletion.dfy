/** When a run that a worker reports COMPLETED has its effect, by the run the worker was started for. */
module RunCompletions {
  import opened Sequences
  import opened EffectSink
  import opened RunLeases
  import opened Workers
  import opened WorkerTheorems

  /** The checkpoint that workers of this run saved last says that it is completed. */
  predicate CompletedRun(s: System, runId: string) {
    var file := SafeName(runId);
    file in s.checkpoints && s.checkpoints[file].runId == runId && s.checkpoints[file].status == COMPLETED
  }

  ghost predicate UsesIds(actions: seq<Action>, ids: iset<string>) {
    forall a :: a in actions && a.Spawn? ==> a.runId in ids
  }

  /** No two of these runs share their files. */
  ghost predicate FilesApart(ids: iset<string>) {
    forall a, b :: a in ids && b in ids && SafeName(a) == SafeName(b) ==> a == b
  }

  /** Whatever workers of these runs do, a run they complete has its effect. */
  ghost predicate RunsPublish(app: Application, ids: iset<string>) {
    forall clock, history, runId | AllEnabled(app, Start(clock), history) && UsesIds(history, ids) ::
      CompletedRun(Exec(app, Start(clock), history), runId) ==>
        EffectKey(runId) in Exec(app, Start(clock), history).effects
  }

  // ---- the runs of a history ----

  ghost predicate OwnRuns(s: System, ids: iset<string>) {
    && (forall w :: w in s.workers ==> OwnWorker(s.workers[w], ids))
    && (forall f :: f in s.checkpoints ==> OwnCheckpoint(f, s.checkpoints[f], ids))
  }

  ghost predicate OwnWorker(k: Worker, ids: iset<string>) {
    && k.runId in ids && (k.phase.HasContext() ==> k.phase.context.runId in ids)
    && (k.phase.HasLease() ==> k.phase.lease.runId == k.runId)
  }

  ghost predicate OwnCheckpoint(file: string, c: Checkpoint, ids: iset<string>) {
    c.runId in ids && c.context.runId in ids && SafeName(c.runId) == file
  }

  lemma OwnRunsStep(app: Application, s: System, a: Action, ids: iset<string>)
    requires OwnRuns(s, ids) && Enabled(app, s, a) && (a.Spawn? ==> a.runId in ids)
    ensures OwnRuns(Apply(app, s, a), ids)
  {
    hide Apply, Enabled, OwnWorker, OwnCheckpoint;
    var s' := Apply(app, s, a);
    forall w | w in s'.workers ensures OwnWorker(s'.workers[w], ids) {
      AnyWorkerStep(app, s, a, ids, w);
    }
    forall f | f in s'.checkpoints ensures OwnCheckpoint(f, s'.checkpoints[f], ids) {
      CheckpointStep(app, s, a, ids, f);
    }
  }

  lemma AnyWorkerStep(app: Application, s: System, a: Action, ids: iset<string>, w: nat)
    requires OwnRuns(s, ids) && Enabled(app, s, a) && (a.Spawn? ==> a.runId in ids)
    requires w in Apply(app, s, a).workers
    ensures OwnWorker(Apply(app, s, a).workers[w], ids)
  {
    hide OwnWorker;
    if w in s.workers && (a.Tick? || a.w != w) {
      OthersStand(app, s, a, w);
    } else {
      OwnWorkerStep(app, s, a, ids);
    }
  }

  lemma OwnWorkerStep(app: Application, s: System, a: Action, ids: iset<string>)
    requires OwnRuns(s, ids) && Enabled(app, s, a) && (a.Spawn? ==> a.runId in ids) && !a.Tick?
    ensures a.w in Apply(app, s, a).workers && OwnWorker(Apply(app, s, a).workers[a.w], ids)
  {
    hide Remaining, Effect, Produced, Taken, Publish, MayRelease, Validates;
    if a.Resume? {
      var file := SafeName(s.workers[a.w].runId);
      assert OwnWorker(s.workers[a.w], ids) && OwnCheckpoint(file, s.checkpoints[file], ids);
    } else if !a.Spawn? {
      assert OwnWorker(s.workers[a.w], ids);
      hide OwnRuns;
    }
  }

  lemma CheckpointStep(app: Application, s: System, a: Action, ids: iset<string>, f: string)
    requires OwnRuns(s, ids) && Enabled(app, s, a) && f in Apply(app, s, a).checkpoints
    ensures OwnCheckpoint(f, Apply(app, s, a).checkpoints[f], ids)
  {
    if a.Write? {
      assert OwnWorker(s.workers[a.w], ids);
      hide OwnWorker, Enabled, SaveRaised, Saved;
    } else {
      hide OwnWorker, OwnCheckpoint, Remaining, Effect, Failed, NodeDone, SaveRaised;
    }
  }

  lemma {:induction false} OwnRunsExec(app: Application, s: System, actions: seq<Action>, ids: iset<string>)
    requires OwnRuns(s, ids) && AllEnabled(app, s, actions) && UsesIds(actions, ids)
    ensures OwnRuns(Exec(app, s, actions), ids)
    decreases |actions|
  {
    hide Enabled, Apply, OwnRuns;
    if actions != [] {
      assert actions[0] in actions;
      OwnRunsStep(app, s, actions[0], ids);
      OwnRunsExec(app, Apply(app, s, actions[0]), actions[1..], ids);
    }
  }

  /** Where no files are shared, the run of a checkpoint is the run of its context. */
  lemma CompletedHere(app: Application, clock: Time, history: seq<Action>, ids: iset<string>, runId: string)
    requires Strict(app) && FilesApart(ids) && AllEnabled(app, Start(clock), history) && UsesIds(history, ids)
    requires CompletedRun(Exec(app, Start(clock), history), runId)
    ensures EffectKey(runId) in Exec(app, Start(clock), history).effects
  {
    var s, file := Exec(app, Start(clock), history), SafeName(runId);
    OwnRunsExec(app, Start(clock), history, ids);
    assert OwnCheckpoint(file, s.checkpoints[file], ids);
    CompletedIsPublished(app, clock, history, file);
  }

  // ---- two runs over one set of files ----

  /** A second run resumes the first one's checkpoint, completes, and has published nothing of its own. */
  lemma CollisionCompletes(app: Application, clock: Time, a: string, b: string) returns (history: seq<Action>)
    requires a != b && SafeName(a) == SafeName(b)
    ensures AllEnabled(app, Start(clock), history) && UsesIds(history, iset{a, b})
    ensures var s := Exec(app, Start(clock), history);
      CompletedRun(s, b) && EffectKey(a) in s.effects && EffectKey(b) !in s.effects
  {
    var intro := FreshIntro(app, clock, "", a);
    var s := Exec(app, Start(clock), intro);
    InvReachable(app, clock, intro);
    hide Inv;
    CrashFrees(app, s, a);
    InvExec(app, s, [Crash(0, true)]);
    var rest := ResumeOther(app, Exec(app, s, [Crash(0, true)]), a, b);
    hide AllEnabled, Exec;
    ExecConcat(app, s, [Crash(0, true)], rest);
    ExecConcat(app, Start(clock), intro, [Crash(0, true)] + rest);
    EffectKeysDiffer(a, b);
    history := intro + ([Crash(0, true)] + rest);
  }

  lemma EffectKeysDiffer(a: string, b: string)
    requires a != b
    ensures EffectKey(a) != EffectKey(b)
  {
    EffectKeyRoundTrip(a);
    EffectKeyRoundTrip(b);
  }

  /** A worker that crashes with its lease released leaves only its checkpoint. */
  lemma CrashFrees(app: Application, s: System, runId: string)
    requires Working(s, 0) && s.workers.Keys == {0} && s.workers[0].phase.lease.runId == runId
    ensures AllEnabled(app, s, [Crash(0, true)])
    ensures var s' := Exec(app, s, [Crash(0, true)]);
      && !Taken(s'.LeaseFileOf(runId), s'.clock) && s'.checkpoints == s.checkpoints && s'.effects == s.effects
      && s'.workers.Keys == {0}
  {
    ExecOne(app, s, Crash(0, true));
  }

  lemma NothingRunYet(app: Application, runId: string)
    ensures Initially(app, runId).runId == runId
    ensures Accounted(Initially(app, runId), Remaining([], None))
  {
    StartsWithAll(Initially(app, runId));
    assert Remaining([], None) == ORDER;
  }

  lemma ResumeOther(app: Application, s: System, a: string, b: string) returns (actions: seq<Action>)
    requires Inv(app, s) && 1 !in s.workers && s.effects == map[]
    requires SafeName(a) == SafeName(b) && !Taken(s.LeaseFileOf(a), s.clock)
    requires SafeName(a) in s.checkpoints && s.checkpoints[SafeName(a)].status != COMPLETED
    requires s.checkpoints[SafeName(a)].context == Initially(app, a)
    requires s.checkpoints[SafeName(a)].completed == [] && s.checkpoints[SafeName(a)].failed == None
    ensures AllEnabled(app, s, actions) && UsesIds(actions, iset{a, b})
    ensures var s' := Exec(app, s, actions);
      CompletedRun(s', b) && EffectKey(a) in s'.effects && s'.effects.Keys <= {EffectKey(a)}
  {
    hide Inv, AllEnabled, Exec, Accounted, Remaining, Apply, Enabled, Initially, HasPublished;
    var intro := [Spawn(1, "", b, false), Acquire(1, 1), Resume(1)];
    assert s.LeaseFileOf(a) == s.LeaseFileOf(b);
    TakeoverIntro(app, s, 1, "", b, false, 1);
    var s1 := Exec(app, s, intro);
    InvExec(app, s, intro);
    NothingRunYet(app, a);
    var rest := CanFinish(app, s1, 1);
    ExecConcat(app, s, intro, rest);
    actions := intro + rest;
  }

  /**
   * A run that a worker completes has its effect, in all histories of workers of these runs, exactly where a
   * failed publish node stops the run, no good lease is refused its checkpoint, and no two runs share files.
   */
  lemma RunsPublishExactly(app: Application, ids: iset<string>)
    ensures RunsPublish(app, ids) <==>
      ids == iset{} || (PublishNode !in app.retries && !app.diskFaults && FilesApart(ids))
  {
    if ids == iset{} {
      forall clock, history, runId | AllEnabled(app, Start(clock), history) && UsesIds(history, ids)
        ensures !CompletedRun(Exec(app, Start(clock), history), runId) {
        OwnRunsExec(app, Start(clock), history, ids);
        assert forall f :: f in Exec(app, Start(clock), history).checkpoints ==>
          OwnCheckpoint(f, Exec(app, Start(clock), history).checkpoints[f], ids);
      }
    } else if Strict(app) && FilesApart(ids) {
      forall clock, history, runId |
        AllEnabled(app, Start(clock), history) && UsesIds(history, ids)
        && CompletedRun(Exec(app, Start(clock), history), runId)
        ensures EffectKey(runId) in Exec(app, Start(clock), history).effects {
        CompletedHere(app, clock, history, ids, runId);
      }
    } else {
      NotAlways(app, ids);
    }
  }

  lemma NotAlways(app: Application, ids: iset<string>)
    requires ids != iset{} && !(Strict(app) && FilesApart(ids))
    ensures !RunsPublish(app, ids)
  {
    var runId :| runId in ids;
    var history: seq<Action>, completed := [], runId;
    if PublishNode in app.retries {
      history := LostPublication(app, 0, "", runId);
    } else if app.diskFaults {
      history := ForgottenFailure(app, 0, "", runId);
    } else {
      var a, b :| a in ids && b in ids && SafeName(a) == SafeName(b) && a != b;
      history := CollisionCompletes(app, 0, a, b);
      completed := b;
    }
    hide AllEnabled, Exec;
    assert UsesIds(history, ids) && CompletedRun(Exec(app, Start(0), history), completed);
    assert EffectKey(completed) !in Exec(app, Start(0), history).effects;
  }
}
