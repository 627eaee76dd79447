/**
 * Disposable workers over shared durable files.  Each step is one await-free stretch: a lease file
 * operation, one attempt at a pipeline node, the lease check in front of a checkpoint, the write of
 * the checkpoint.  Workers may crash, stall past their lease, be superseded, and be resumed by others.
 */
module Workers {
  import opened Sequences
  import opened EffectSink
  import opened RunLeases

  datatype Node = Ingest | Transform | PublishNode
  const ORDER: seq<Node> := [Ingest, Transform, PublishNode]

  datatype RunStatus = RUNNING | COMPLETED | FAILED

  datatype Output = Output(value: string, workerId: string)

  /** The context of a run: its id, its payload, one output per node that succeeded, and the recovery mark. */
  datatype Context = Context(
    runId: string, payload: string, ingested: Option<Output>, transformed: Option<Output>,
    published: Option<Output>, healed: bool)
  {
    function OutputOf(n: Node): Option<Output> {
      match n case Ingest => ingested case Transform => transformed case PublishNode => published
    }
  }

  /** `runId` is the run of the worker that saved, which need not be the run of the context it resumed. */
  datatype Checkpoint = Checkpoint(
    runId: string, status: RunStatus, completed: seq<Node>, failed: Option<Node>, context: Context,
    fencingToken: nat)

  /**
   * What is fixed from outside: the payload a run starts from, `str.upper`, which nodes are built with
   * `retry_on_failure`, and whether the disk may refuse a checkpoint although the lease is good.
   */
  datatype Application = Application(
    payloadOf: string -> string, upper: string -> string, retries: set<Node>, diskFaults: bool)

  /** `Stopped` is the save that names the failed node; `Failure` is the one of the exception handler. */
  datatype SaveKind = Initial | Progress | Completion | Stopped(node: Node) | Failure

  datatype Phase =
    | Idle
    | Leased(lease: RunLease)
    | Running(lease: RunLease, completed: seq<Node>, pending: seq<Node>, context: Context)
    | Cleared(lease: RunLease, completed: seq<Node>, pending: seq<Node>, context: Context)
    | Saving(lease: RunLease, kind: SaveKind, completed: seq<Node>, pending: seq<Node>, context: Context)
    | Writing(lease: RunLease, kind: SaveKind, completed: seq<Node>, pending: seq<Node>, context: Context)
    | Ended(lease: RunLease, status: RunStatus, context: Context)
    | Gone
  {
    predicate HasContext() { Running? || Cleared? || Saving? || Writing? || Ended? }
    predicate HasLease() { Leased? || HasContext() }
  }

  /** `checksLease` tells the red-team worker, which validates its lease before it publishes. */
  datatype Worker = Worker(workerId: string, runId: string, checksLease: bool, phase: Phase)

  datatype System = System(
    clock: Time, leases: map<string, LeaseFile>, checkpoints: map<string, Checkpoint>,
    effects: map<string, string>, workers: map<nat, Worker>)
  {
    function LeaseFileOf(runId: string): LeaseFile {
      if SafeName(runId) in leases then leases[SafeName(runId)] else NO_LEASE
    }

    predicate Holds(lease: RunLease) { Validates(LeaseFileOf(lease.runId), lease, clock) }
  }

  datatype Action =
    | Tick(to: Time)
    | Spawn(w: nat, workerId: string, runId: string, checksLease: bool)
    | Acquire(w: nat, ttl: int)
    | StartRun(w: nat)
    | Resume(w: nat)
    | Succeed(w: nat)
    | CheckPublishLease(w: nat)
    | PublishOnly(w: nat)
    | FailAttempt(w: nat)
    | Heal(w: nat)
    | GiveUp(w: nat)
    | Complete(w: nat)
    | CheckSaveLease(w: nat)
    | Write(w: nat)
    | SaveFault(w: nat)
    | Release(w: nat)
    | Crash(w: nat, releases: bool)

  function EffectKey(runId: string): string { runId + ":publish" }

  function Initially(app: Application, runId: string): Context {
    Context(runId, app.payloadOf(runId), None, None, None, false)
  }

  /** The value a node produces; `None` when an input is missing and the attempt raises. */
  function Produced(app: Application, n: Node, ctx: Context): Option<string> {
    match n
    case Ingest => Some(ctx.payload)
    case Transform => if ctx.ingested.Some? then Some(app.upper(ctx.ingested.value.value)) else None
    case PublishNode => if ctx.transformed.Some? then Some(ctx.transformed.value.value) else None
  }

  function WithOutput(ctx: Context, n: Node, o: Output): Context {
    match n
    case Ingest => ctx.(ingested := Some(o))
    case Transform => ctx.(transformed := Some(o))
    case PublishNode => ctx.(published := Some(o))
  }

  /** The nodes a resume runs: those not completed, and again the one that stopped the run. */
  function Remaining(completed: seq<Node>, failed: Option<Node>): seq<Node> {
    If(ToRun(Ingest, completed, failed), Ingest)
    + If(ToRun(Transform, completed, failed), Transform)
    + If(ToRun(PublishNode, completed, failed), PublishNode)
  }

  predicate ToRun(n: Node, completed: seq<Node>, failed: Option<Node>) { n !in completed || Some(n) == failed }

  function If(b: bool, n: Node): seq<Node> { if b then [n] else [] }

  /** Whether the worker's next node may be attempted from here; a checking worker publishes only when cleared. */
  predicate AtNode(k: Worker) {
    && (k.phase.Running? || k.phase.Cleared?)
    && k.phase.pending != []
    && (k.phase.Cleared? ==> k.phase.pending[0] == PublishNode)
  }

  predicate CanExecute(app: Application, k: Worker) {
    && AtNode(k)
    && Produced(app, k.phase.pending[0], k.phase.context).Some?
    && (k.phase.pending[0] == PublishNode && k.checksLease ==> k.phase.Cleared?)
  }

  /** The node is published under the run of the context, with the transformed value. */
  function Effect(app: Application, s: System, ctx: Context): (map<string, string>, Receipt)
    requires Produced(app, PublishNode, ctx).Some?
  {
    Publish(s.effects, EffectKey(ctx.runId), Produced(app, PublishNode, ctx).value)
  }

  predicate Enabled(app: Application, s: System, a: Action) {
    match a
    case Tick(to) => s.clock <= to
    case Spawn(w, _, _, _) => w !in s.workers
    case Acquire(w, ttl) => w in s.workers && s.workers[w].phase.Idle? && ttl > 0
    case StartRun(w) => w in s.workers && s.workers[w].phase.Leased?
    case Resume(w) =>
      && w in s.workers && s.workers[w].phase.Leased?
      && SafeName(s.workers[w].runId) in s.checkpoints
      && s.checkpoints[SafeName(s.workers[w].runId)].status != COMPLETED
    case Succeed(w) =>
      && w in s.workers && CanExecute(app, s.workers[w])
      && (s.workers[w].phase.pending[0] == PublishNode ==> Effect(app, s, s.workers[w].phase.context).1 != Conflict)
    case CheckPublishLease(w) =>
      && w in s.workers && s.workers[w].phase.Running? && AtNode(s.workers[w])
      && s.workers[w].phase.pending[0] == PublishNode && s.workers[w].checksLease
      && s.Holds(s.workers[w].phase.lease)
    case PublishOnly(w) =>
      w in s.workers && CanExecute(app, s.workers[w]) && s.workers[w].phase.pending[0] == PublishNode
    case FailAttempt(w) => w in s.workers && AtNode(s.workers[w])
    case Heal(w) => w in s.workers && AtNode(s.workers[w]) && s.workers[w].phase.pending[0] == PublishNode
    case GiveUp(w) => w in s.workers && AtNode(s.workers[w]) && s.workers[w].phase.pending[0] in app.retries
    case Complete(w) => w in s.workers && s.workers[w].phase.Running? && s.workers[w].phase.pending == []
    case CheckSaveLease(w) => w in s.workers && s.workers[w].phase.Saving?
    case Write(w) => w in s.workers && s.workers[w].phase.Writing?
    case SaveFault(w) =>
      w in s.workers && (s.workers[w].phase.Saving? || s.workers[w].phase.Writing?) && app.diskFaults
    case Release(w) => w in s.workers && s.workers[w].phase.Ended?
    case Crash(w, _) => w in s.workers
  }

  function SetPhase(s: System, w: nat, p: Phase): System
    requires w in s.workers
  {
    s.(workers := s.workers[w := s.workers[w].(phase := p)])
  }

  /** After a failed attempt: back at the head of the attempt loop, or on to the save that stops the run. */
  function Failed(app: Application, p: Phase, ctx: Context): Phase
    requires (p.Running? || p.Cleared?) && p.pending != []
  {
    if p.pending[0] in app.retries then Running(p.lease, p.completed, p.pending, ctx)
    else Saving(p.lease, Stopped(p.pending[0]), p.completed + [p.pending[0]], p.pending, ctx)
  }

  /** On to the checkpoint that follows a node, whether it succeeded or ran out of attempts. */
  function NodeDone(p: Phase, ctx: Context): Phase
    requires (p.Running? || p.Cleared?) && p.pending != []
  {
    Saving(p.lease, Progress, p.completed + [p.pending[0]], p.pending[1..], ctx)
  }

  function ApplySucceed(app: Application, s: System, w: nat): System
    requires Enabled(app, s, Succeed(w))
  {
    var k := s.workers[w];
    var n := k.phase.pending[0];
    var output := Output(Produced(app, n, k.phase.context).value, k.workerId);
    var effects := if n == PublishNode then Effect(app, s, k.phase.context).0 else s.effects;
    SetPhase(s.(effects := effects), w, NodeDone(k.phase, WithOutput(k.phase.context, n, output)))
  }

  /** A failed save: the executor saves the failure instead, or lets the error out. */
  function SaveRaised(p: Phase): Phase
    requires p.Saving? || p.Writing?
  {
    if p.kind == Initial || p.kind == Failure then Gone
    else Saving(p.lease, Failure, p.completed, p.pending, p.context)
  }

  function StatusFor(kind: SaveKind): RunStatus {
    match kind
    case Initial => RUNNING
    case Progress => RUNNING
    case Completion => COMPLETED
    case Stopped(_) => FAILED
    case Failure => FAILED
  }

  function FailedNode(kind: SaveKind): Option<Node> { if kind.Stopped? then Some(kind.node) else None }

  function Snapshot(p: Phase): Checkpoint
    requires p.Saving? || p.Writing?
  {
    Checkpoint(p.lease.runId, StatusFor(p.kind), p.completed, FailedNode(p.kind), p.context, p.lease.fencingToken)
  }

  function Saved(p: Phase): Phase
    requires p.Writing?
  {
    match p.kind
    case Completion => Ended(p.lease, COMPLETED, p.context)
    case Failure => Ended(p.lease, FAILED, p.context)
    case Stopped(_) => Ended(p.lease, FAILED, p.context)
    case _ => Running(p.lease, p.completed, p.pending, p.context)
  }

  /** The file refuses a token below the stored one; this check and the write are one locked step. */
  function ApplyWrite(s: System, w: nat): System
    requires w in s.workers && s.workers[w].phase.Writing?
  {
    var p := s.workers[w].phase;
    var file := SafeName(s.workers[w].runId);
    if file in s.checkpoints && p.lease.fencingToken < s.checkpoints[file].fencingToken then
      SetPhase(s, w, SaveRaised(p))
    else
      SetPhase(s.(checkpoints := s.checkpoints[file := Snapshot(p)]), w, Saved(p))
  }

  function ApplyRelease(s: System, lease: RunLease): System {
    if MayRelease(s.LeaseFileOf(lease.runId), lease)
    then s.(leases := s.leases[SafeName(lease.runId) := Released(s.LeaseFileOf(lease.runId))]) else s
  }

  function ApplyAcquire(s: System, w: nat, ttl: int): System
    requires w in s.workers
  {
    var k := s.workers[w];
    match Granted(s.LeaseFileOf(k.runId), k.runId, k.workerId, ttl, s.clock)
    case None => SetPhase(s, w, Gone)
    case Some(lease) => SetPhase(s.(leases := s.leases[SafeName(k.runId) := Written(lease)]), w, Leased(lease))
  }

  function ApplyResume(s: System, w: nat): System
    requires w in s.workers && s.workers[w].phase.Leased? && SafeName(s.workers[w].runId) in s.checkpoints
  {
    var found := s.checkpoints[SafeName(s.workers[w].runId)];
    var pending := Remaining(found.completed, found.failed);
    SetPhase(s, w, Running(s.workers[w].phase.lease, found.completed, pending, found.context))
  }

  function Apply(app: Application, s: System, a: Action): System
    requires Enabled(app, s, a)
  {
    match a
    case Tick(to) => s.(clock := to)
    case Spawn(w, workerId, runId, checksLease) =>
      s.(workers := s.workers[w := Worker(workerId, runId, checksLease, Idle)])
    case Acquire(w, ttl) => ApplyAcquire(s, w, ttl)
    case StartRun(w) =>
      SetPhase(s, w, Saving(s.workers[w].phase.lease, Initial, [], ORDER, Initially(app, s.workers[w].runId)))
    case Resume(w) => ApplyResume(s, w)
    case Succeed(w) => ApplySucceed(app, s, w)
    case CheckPublishLease(w) =>
      var p := s.workers[w].phase;
      SetPhase(s, w, Cleared(p.lease, p.completed, p.pending, p.context))
    case PublishOnly(w) =>
      var p := s.workers[w].phase;
      SetPhase(s.(effects := Effect(app, s, p.context).0), w, Failed(app, p, p.context))
    case FailAttempt(w) => SetPhase(s, w, Failed(app, s.workers[w].phase, s.workers[w].phase.context))
    case Heal(w) =>
      var p := s.workers[w].phase;
      SetPhase(s, w, Failed(app, p, p.context.(healed := true)))
    case GiveUp(w) => SetPhase(s, w, NodeDone(s.workers[w].phase, s.workers[w].phase.context))
    case Complete(w) =>
      var p := s.workers[w].phase;
      SetPhase(s, w, Saving(p.lease, Completion, p.completed, [], p.context))
    case CheckSaveLease(w) =>
      var p := s.workers[w].phase;
      SetPhase(s, w,
               if s.Holds(p.lease) then Writing(p.lease, p.kind, p.completed, p.pending, p.context) else SaveRaised(p))
    case Write(w) => ApplyWrite(s, w)
    case SaveFault(w) => SetPhase(s, w, SaveRaised(s.workers[w].phase))
    case Release(w) => SetPhase(ApplyRelease(s, s.workers[w].phase.lease), w, Gone)
    case Crash(w, releases) =>
      var p := s.workers[w].phase;
      SetPhase(if releases && p.HasLease() then ApplyRelease(s, p.lease) else s, w, Gone)
  }

  // ---- the invariant ----

  /** Whoever ran the nodes, their outputs are those of the run's own payload. */
  predicate ContextOk(app: Application, ctx: Context) {
    && ctx.payload == app.payloadOf(ctx.runId)
    && (ctx.ingested.Some? ==> ctx.ingested.value.value == ctx.payload)
    && (ctx.transformed.Some? ==> ctx.transformed.value.value == app.upper(ctx.payload))
    && (ctx.published.Some? ==> ctx.published.value.value == app.upper(ctx.payload))
    && (ctx.transformed.Some? ==> ctx.ingested.Some?)
    && (ctx.published.Some? ==> ctx.transformed.Some?)
  }

  predicate Backed(s: System, ctx: Context) { ctx.published.Some? ==> EffectKey(ctx.runId) in s.effects }

  /** Every node that is not to be run any more has left its output. */
  predicate Accounted(ctx: Context, pending: seq<Node>) {
    forall n: Node :: n in pending || ctx.OutputOf(n).Some?
  }

  /** What a checkpoint file shows: every node it counts as completed, but for the failed one, has its output. */
  predicate Intact(c: Checkpoint) {
    forall n :: n in c.completed && Some(n) != c.failed ==> c.context.OutputOf(n).Some?
  }

  /** A run that has nothing left to publish has published. */
  predicate Shipped(ctx: Context, pending: seq<Node>) { PublishNode in pending || ctx.published.Some? }

  /** A failed publish node stops the run, and every good lease gets its checkpoint written. */
  predicate Strict(app: Application) { PublishNode !in app.retries && !app.diskFaults }

  predicate IsRest(pending: seq<Node>) {
    pending == ORDER || pending == [Transform, PublishNode] || pending == [PublishNode] || pending == []
  }

  predicate LeaseOk(s: System, k: Worker) {
    k.phase.HasLease() ==>
      && k.phase.lease.runId == k.runId
      && k.phase.lease.fencingToken <= s.LeaseFileOf(k.runId).fencingToken
  }

  predicate WorkerContextOk(app: Application, s: System, k: Worker) {
    k.phase.HasContext() ==>
      && ContextOk(app, k.phase.context)
      && Backed(s, k.phase.context)
      && SafeName(k.phase.context.runId) == SafeName(k.runId)
  }

  /** The pending nodes are the end of the pipeline; a node that stopped an earlier run is completed and pending. */
  predicate Ahead(done: seq<Node>, pending: seq<Node>) {
    && IsRest(pending)
    && (forall n: Node :: n in done || n in pending)
    && (pending != [] ==> forall n :: n in pending[1..] ==> n !in done)
  }

  predicate ProgressOk(k: Worker) {
    match k.phase
    case Running(_, done, pending, _) => Ahead(done, pending)
    case Cleared(_, done, pending, _) => Ahead(done, pending)
    case Saving(_, kind, done, pending, _) => SaveOk(kind, done, pending)
    case Writing(_, kind, done, pending, _) => SaveOk(kind, done, pending)
    case _ => true
  }

  predicate SaveOk(kind: SaveKind, done: seq<Node>, pending: seq<Node>) {
    match kind
    case Failure => IsRest(Remaining(done, None))
    case Stopped(n) => IsRest(pending) && pending != [] && pending[0] == n && Remaining(done, Some(n)) == pending
                       && n in done && IsRest(Remaining(done, None))
    case Completion => pending == [] && Remaining(done, None) == []
    case _ => IsRest(pending) && Remaining(done, None) == pending
  }

  /** In a strict application a published output is missing only where no checkpoint can be written any more. */
  predicate AccountOk(s: System, k: Worker) {
    match k.phase
    case Running(_, _, pending, ctx) => Shipped(ctx, pending)
    case Cleared(_, _, pending, ctx) => Shipped(ctx, pending)
    case Saving(lease, kind, done, _, ctx) =>
      (kind == Failure ==> s.Holds(lease)) ==> Shipped(ctx, Remaining(done, FailedNode(kind)))
    case Writing(_, kind, done, _, ctx) => Shipped(ctx, Remaining(done, FailedNode(kind)))
    case Ended(_, status, ctx) => status == COMPLETED ==> Shipped(ctx, [])
    case _ => true
  }

  predicate WorkerOk(app: Application, s: System, k: Worker) {
    LeaseOk(s, k) && WorkerContextOk(app, s, k) && ProgressOk(k) && (Strict(app) ==> AccountOk(s, k))
  }

  predicate CheckpointOk(app: Application, s: System, file: string, c: Checkpoint) {
    && ContextOk(app, c.context)
    && Backed(s, c.context)
    && SafeName(c.context.runId) == file
    && ShapeOk(c)
    && (Strict(app) ==> Shipped(c.context, Remaining(c.completed, c.failed)))
    && c.fencingToken <= s.LeaseFileOf(c.context.runId).fencingToken
  }

  predicate ShapeOk(c: Checkpoint) {
    var rest := Remaining(c.completed, c.failed);
    && IsRest(rest)
    && (c.failed.Some? ==> rest != [] && rest[0] == c.failed.value)
    && (c.status == COMPLETED ==> rest == [])
  }

  /** A stored effect is the upper-cased payload of the run its key names. */
  predicate EffectOk(app: Application, key: string, value: string) {
    && |key| >= |":publish"|
    && key == EffectKey(key[..|key| - |":publish"|])
    && value == app.upper(app.payloadOf(key[..|key| - |":publish"|]))
  }

  ghost predicate TokensDistinct(s: System) {
    forall v, w :: v in s.workers && w in s.workers && v != w && SameFile(s.workers[v], s.workers[w]) ==>
      s.workers[v].phase.lease.fencingToken != s.workers[w].phase.lease.fencingToken
  }

  predicate SameFile(j: Worker, k: Worker) {
    j.phase.HasLease() && k.phase.HasLease() && SafeName(j.runId) == SafeName(k.runId)
  }

  ghost predicate Inv(app: Application, s: System) {
    && (forall w :: w in s.workers ==> WorkerOk(app, s, s.workers[w]))
    && (forall f :: f in s.checkpoints ==> CheckpointOk(app, s, f, s.checkpoints[f]))
    && (forall k :: k in s.effects ==> EffectOk(app, k, s.effects[k]))
    && TokensDistinct(s)
  }

  // ---- what a step means for everybody else ----

  /** Effects stay, lease files only move on. */
  ghost predicate Env(s: System, s': System) {
    && (forall k :: k in s.effects ==> k in s'.effects && s'.effects[k] == s.effects[k])
    && (forall r :: Later(s.LeaseFileOf(r), s.clock, s'.LeaseFileOf(r), s'.clock))
  }

  lemma WorkerKept(app: Application, s: System, s': System, k: Worker)
    requires Env(s, s') && WorkerOk(app, s, k)
    ensures WorkerOk(app, s', k)
  {
    if k.phase.HasLease() {
      assert Later(s.LeaseFileOf(k.runId), s.clock, s'.LeaseFileOf(k.runId), s'.clock);
      if !s.Holds(k.phase.lease) {
        StaleStaysStale(s.LeaseFileOf(k.runId), s.clock, s'.LeaseFileOf(k.runId), s'.clock, k.phase.lease);
      }
    }
  }

  lemma CheckpointKept(app: Application, s: System, s': System, f: string, c: Checkpoint)
    requires Env(s, s') && CheckpointOk(app, s, f, c)
    ensures CheckpointOk(app, s', f, c)
  {
    assert Later(s.LeaseFileOf(c.context.runId), s.clock, s'.LeaseFileOf(c.context.runId), s'.clock);
  }

  /** A step that only one worker takes part in leaves the invariant to that worker. */
  lemma OthersKept(app: Application, s: System, s': System, w: nat)
    requires Inv(app, s) && Env(s, s') && w in s'.workers
    requires s'.workers == s.workers[w := s'.workers[w]] && s'.checkpoints == s.checkpoints
    requires WorkerOk(app, s', s'.workers[w]) && TokensDistinct(s')
    requires forall k :: k in s'.effects ==> EffectOk(app, k, s'.effects[k])
    ensures Inv(app, s')
  {
    forall v | v in s'.workers ensures WorkerOk(app, s', s'.workers[v]) {
      if v != w { WorkerKept(app, s, s', s.workers[v]); }
    }
    forall f | f in s'.checkpoints ensures CheckpointOk(app, s', f, s'.checkpoints[f]) {
      CheckpointKept(app, s, s', f, s.checkpoints[f]);
    }
  }

  lemma StillEnv(s: System, s': System)
    requires s'.effects == s.effects && s'.leases == s.leases && s.clock <= s'.clock
    ensures Env(s, s')
  {
    forall r ensures Later(s.LeaseFileOf(r), s.clock, s'.LeaseFileOf(r), s'.clock) {
      assert s'.LeaseFileOf(r) == s.LeaseFileOf(r);
    }
  }

  /** The acting worker keeps its lease or drops it, so the tokens stay apart. */
  lemma TokensKept(s: System, s': System, w: nat)
    requires TokensDistinct(s) && w in s.workers && w in s'.workers
    requires s'.workers == s.workers[w := s'.workers[w]] && s'.workers[w].runId == s.workers[w].runId
    requires s'.workers[w].phase.HasLease() ==>
               s.workers[w].phase.HasLease() && s'.workers[w].phase.lease == s.workers[w].phase.lease
    ensures TokensDistinct(s')
  {
    forall u, v | u in s'.workers && v in s'.workers && u != v && SameFile(s'.workers[u], s'.workers[v])
      ensures s'.workers[u].phase.lease.fencingToken != s'.workers[v].phase.lease.fencingToken {
      assert SameFile(s.workers[u], s.workers[v]);
    }
  }

  // ---- effects ----

  lemma EffectKeyRoundTrip(runId: string)
    ensures EffectKey(runId)[..|EffectKey(runId)| - |":publish"|] == runId
  {
  }

  /** Publishing from a good context never meets a different payload, and stores the right value. */
  lemma PublishIsRight(app: Application, s: System, ctx: Context)
    requires ContextOk(app, ctx) && Produced(app, PublishNode, ctx).Some?
    requires forall k :: k in s.effects ==> EffectOk(app, k, s.effects[k])
    ensures var (effects, receipt) := Effect(app, s, ctx);
      && receipt != Conflict && EffectKey(ctx.runId) in effects
      && (forall k :: k in effects ==> EffectOk(app, k, effects[k]))
      && (forall k :: k in s.effects ==> k in effects && effects[k] == s.effects[k])
  {
    EffectKeyRoundTrip(ctx.runId);
    assert EffectOk(app, EffectKey(ctx.runId), app.upper(app.payloadOf(ctx.runId)));
  }

  // ---- every step keeps the invariant ----

  /** The step changes the worker's phase and perhaps the effects or the clock. */
  lemma LocalStep(app: Application, s: System, s': System, w: nat)
    requires Inv(app, s) && Env(s, s') && w in s.workers && w in s'.workers
    requires s'.workers == s.workers[w := s.workers[w].(phase := s'.workers[w].phase)]
    requires s'.checkpoints == s.checkpoints
    requires s'.workers[w].phase.HasLease() ==>
               s.workers[w].phase.HasLease() && s'.workers[w].phase.lease == s.workers[w].phase.lease
    requires WorkerOk(app, s', s'.workers[w])
    requires forall k :: k in s'.effects ==> EffectOk(app, k, s'.effects[k])
    ensures Inv(app, s')
  {
    TokensKept(s, s', w);
    OthersKept(app, s, s', w);
  }

  /** What an attempt that worked leaves in the context. */
  lemma OutputIsRight(app: Application, ctx: Context, n: Node, workerId: string, pending: seq<Node>)
    requires ContextOk(app, ctx) && Produced(app, n, ctx).Some?
    ensures var ctx' := WithOutput(ctx, n, Output(Produced(app, n, ctx).value, workerId));
      && ContextOk(app, ctx') && ctx'.runId == ctx.runId
      && (n != PublishNode ==> ctx'.published == ctx.published)
      && (pending != [] && pending[0] == n && Accounted(ctx, pending) ==> Accounted(ctx', pending[1..]))
      && (pending != [] && pending[0] == n && Shipped(ctx, pending) ==> Shipped(ctx', pending[1..]))
  {
    var ctx' := WithOutput(ctx, n, Output(Produced(app, n, ctx).value, workerId));
    if pending != [] && pending[0] == n && Accounted(ctx, pending) {
      forall m: Node ensures m in pending[1..] || ctx'.OutputOf(m).Some? {
        assert m in pending || ctx.OutputOf(m).Some?;
      }
    }
  }

  lemma RemainingNodes(done: seq<Node>, failed: Option<Node>)
    ensures forall n: Node :: n in Remaining(done, failed) <==> ToRun(n, done, failed)
  {
    hide ToRun;
    forall n: Node ensures n in Remaining(done, failed) <==> ToRun(n, done, failed) {
      match n case Ingest => case Transform => case PublishNode =>
    }
  }

  /** The completed nodes decide the rest. */
  lemma RestIsRemaining(done: seq<Node>, failed: Option<Node>, rest: seq<Node>)
    requires IsRest(rest) && forall n: Node :: n in rest <==> ToRun(n, done, failed)
    ensures Remaining(done, failed) == rest
  {
    hide ToRun;
    assert Ingest in rest <==> ToRun(Ingest, done, failed);
    assert Transform in rest <==> ToRun(Transform, done, failed);
    assert PublishNode in rest <==> ToRun(PublishNode, done, failed);
  }

  lemma RestSplits(rest: seq<Node>)
    requires IsRest(rest) && rest != []
    ensures IsRest(rest[1..]) && forall n: Node :: n in rest <==> n == rest[0] || n in rest[1..]
    ensures rest[0] !in rest[1..]
  {
    assert ORDER[1..] == [Transform, PublishNode];
    assert rest == [rest[0]] + rest[1..];
  }

  /** Running a node moves the boundary between completed and pending by one, whatever came before. */
  lemma NodeMoves(done: seq<Node>, pending: seq<Node>)
    requires Ahead(done, pending) && pending != []
    ensures IsRest(pending[1..]) && Remaining(done + [pending[0]], None) == pending[1..]
    ensures Remaining(done + [pending[0]], Some(pending[0])) == pending
  {
    RestSplits(pending);
    hide IsRest;
    RestIsRemaining(done + [pending[0]], None, pending[1..]);
    RestIsRemaining(done + [pending[0]], Some(pending[0]), pending);
  }

  lemma NodeDoneOk(app: Application, s: System, s': System, k: Worker, ctx': Context)
    requires WorkerOk(app, s, k) && AtNode(k) && ContextOk(app, ctx') && Backed(s', ctx')
    requires s'.leases == s.leases && s'.clock == s.clock && ctx'.runId == k.phase.context.runId
    requires Strict(app) ==> Shipped(ctx', k.phase.pending[1..])
    ensures WorkerOk(app, s', k.(phase := NodeDone(k.phase, ctx')))
  {
    hide IsRest, Remaining, Ahead, ContextOk, Backed, Shipped;
    assert Ahead(k.phase.completed, k.phase.pending);
    NodeMoves(k.phase.completed, k.phase.pending);
    assert s'.LeaseFileOf(k.runId) == s.LeaseFileOf(k.runId);
    var k' := k.(phase := NodeDone(k.phase, ctx'));
    assert ProgressOk(k') && LeaseOk(s', k') && WorkerContextOk(app, s', k');
  }

  lemma FailedOk(app: Application, s: System, s': System, k: Worker, ctx': Context)
    requires WorkerOk(app, s, k) && AtNode(k) && ContextOk(app, ctx') && Backed(s', ctx')
    requires s'.leases == s.leases && s'.clock == s.clock && ctx'.runId == k.phase.context.runId
    requires Shipped(k.phase.context, k.phase.pending) ==> Shipped(ctx', k.phase.pending)
    ensures WorkerOk(app, s', k.(phase := Failed(app, k.phase, ctx')))
  {
    hide IsRest, Remaining, Ahead, ContextOk, Backed, Shipped, SaveOk;
    assert s'.LeaseFileOf(k.runId) == s.LeaseFileOf(k.runId);
    assert Ahead(k.phase.completed, k.phase.pending);
    if k.phase.pending[0] !in app.retries { StoppedOk(k.phase.completed, k.phase.pending); }
    var k' := k.(phase := Failed(app, k.phase, ctx'));
    assert ProgressOk(k') && LeaseOk(s', k') && WorkerContextOk(app, s', k');
  }

  lemma StoppedOk(done: seq<Node>, pending: seq<Node>)
    requires Ahead(done, pending) && pending != []
    ensures SaveOk(Stopped(pending[0]), done + [pending[0]], pending)
    ensures Remaining(done + [pending[0]], Some(pending[0])) == pending
  {
    NodeMoves(done, pending);
  }

  /** A node that succeeded: what it stored is right, nothing stored before changed, its output is backed. */
  lemma SucceedStores(app: Application, s: System, w: nat)
    requires Inv(app, s) && Enabled(app, s, Succeed(w))
    ensures var s', ctx := ApplySucceed(app, s, w), s.workers[w].phase.context;
      && (forall k :: k in s'.effects ==> EffectOk(app, k, s'.effects[k]))
      && (forall k :: k in s.effects ==> k in s'.effects && s'.effects[k] == s.effects[k])
      && ContextOk(app, s'.workers[w].phase.context) && Backed(s', s'.workers[w].phase.context)
  {
    var k := s.workers[w];
    assert WorkerOk(app, s, k);
    OutputIsRight(app, k.phase.context, k.phase.pending[0], k.workerId, k.phase.pending);
    if k.phase.pending[0] == PublishNode { PublishIsRight(app, s, k.phase.context); }
    hide Inv, WorkerOk, ContextOk, Accounted, Shipped, Produced, Publish, EffectOk;
  }

  lemma SucceedEnv(app: Application, s: System, w: nat)
    requires Inv(app, s) && Enabled(app, s, Succeed(w))
    ensures Env(s, ApplySucceed(app, s, w))
  {
    SucceedStores(app, s, w);
    hide Inv, Effect, EffectOk, ContextOk, Backed, Produced;
    var s' := ApplySucceed(app, s, w);
    forall r ensures Later(s.LeaseFileOf(r), s.clock, s'.LeaseFileOf(r), s'.clock) {
      assert s'.LeaseFileOf(r) == s.LeaseFileOf(r);
    }
  }

  lemma SucceedWorker(app: Application, s: System, w: nat)
    requires Inv(app, s) && Enabled(app, s, Succeed(w))
    ensures WorkerOk(app, ApplySucceed(app, s, w), ApplySucceed(app, s, w).workers[w])
  {
    var s', k := ApplySucceed(app, s, w), s.workers[w];
    assert WorkerOk(app, s, k);
    SucceedStores(app, s, w);
    OutputIsRight(app, k.phase.context, k.phase.pending[0], k.workerId, k.phase.pending);
    hide Inv, ContextOk, Backed, Accounted, Shipped, Produced, Effect, EffectOk;
    NodeDoneOk(app, s, s', k, s'.workers[w].phase.context);
  }

  lemma SucceedInv(app: Application, s: System, w: nat)
    requires Inv(app, s) && Enabled(app, s, Succeed(w))
    ensures Inv(app, Apply(app, s, Succeed(w)))
  {
    SucceedEnv(app, s, w);
    SucceedWorker(app, s, w);
    SucceedStores(app, s, w);
    hide Inv, Env, ContextOk, Backed, Produced, WorkerOk, Effect, EffectOk;
    LocalStep(app, s, ApplySucceed(app, s, w), w);
  }

  lemma PublishOnlyInv(app: Application, s: System, w: nat)
    requires Inv(app, s) && Enabled(app, s, PublishOnly(w))
    ensures Inv(app, Apply(app, s, PublishOnly(w)))
  {
    var s', k := Apply(app, s, PublishOnly(w)), s.workers[w];
    assert WorkerOk(app, s, k);
    PublishIsRight(app, s, k.phase.context);
    FailedOk(app, s, s', k, k.phase.context);
    hide WorkerOk, EffectOk, Effect, ContextOk, Produced;
    forall r ensures Later(s.LeaseFileOf(r), s.clock, s'.LeaseFileOf(r), s'.clock) {
      assert s'.LeaseFileOf(r) == s.LeaseFileOf(r);
    }
    LocalStep(app, s, s', w);
  }

  /** Steps that touch nothing but the phase of the worker. */
  lemma PhaseInv(app: Application, s: System, w: nat, p: Phase)
    requires Inv(app, s) && w in s.workers
    requires p.HasLease() ==> s.workers[w].phase.HasLease() && p.lease == s.workers[w].phase.lease
    requires WorkerOk(app, s, s.workers[w].(phase := p))
    ensures Inv(app, SetPhase(s, w, p))
  {
    var s' := SetPhase(s, w, p);
    StillEnv(s, s');
    forall r ensures s'.LeaseFileOf(r) == s.LeaseFileOf(r) {}
    assert WorkerOk(app, s', s'.workers[w]);
    LocalStep(app, s, s', w);
  }

  lemma StartInv(app: Application, s: System, w: nat)
    requires Inv(app, s) && Enabled(app, s, StartRun(w))
    ensures Inv(app, Apply(app, s, StartRun(w)))
  {
    assert WorkerOk(app, s, s.workers[w]);
    assert Remaining([], None) == ORDER;
    hide Remaining;
    PhaseInv(app, s, w, Saving(s.workers[w].phase.lease, Initial, [], ORDER, Initially(app, s.workers[w].runId)));
  }

  lemma ResumeInv(app: Application, s: System, w: nat)
    requires Inv(app, s) && Enabled(app, s, Resume(w))
    ensures Inv(app, Apply(app, s, Resume(w)))
  {
    var k := s.workers[w];
    assert WorkerOk(app, s, k);
    var found := s.checkpoints[SafeName(k.runId)];
    assert CheckpointOk(app, s, SafeName(k.runId), found);
    ResumeIsAhead(found);
    PhaseInv(app, s, w,
             Running(k.phase.lease, found.completed, Remaining(found.completed, found.failed), found.context));
  }

  /** A resume starts at the first node that is not completed, or at the one that failed. */
  lemma ResumeIsAhead(c: Checkpoint)
    requires ShapeOk(c)
    ensures Ahead(c.completed, Remaining(c.completed, c.failed))
    ensures Accounted(c.context, Remaining(c.completed, c.failed)) <==> Intact(c)
  {
    RemainingNodes(c.completed, c.failed);
    var rest := Remaining(c.completed, c.failed);
    if rest != [] {
      assert forall n :: n in rest[1..] ==> n != rest[0] && n in rest;
    }
  }

  lemma SavedIsOk(app: Application, s: System, k: Worker)
    requires WorkerOk(app, s, k) && k.phase.Writing?
    ensures CheckpointOk(app, s, SafeName(k.runId), Snapshot(k.phase))
    ensures WorkerOk(app, s, k.(phase := Saved(k.phase)))
  {
    SnapshotIsOk(app, s, k);
    SavedWorkerIsOk(app, s, k);
  }

  lemma SnapshotIsOk(app: Application, s: System, k: Worker)
    requires WorkerOk(app, s, k) && k.phase.Writing?
    ensures CheckpointOk(app, s, SafeName(k.runId), Snapshot(k.phase))
  {
    assert s.LeaseFileOf(k.phase.context.runId) == s.LeaseFileOf(k.runId);
    hide ContextOk, Backed, IsRest, Remaining, Shipped;
  }

  lemma SavedWorkerIsOk(app: Application, s: System, k: Worker)
    requires WorkerOk(app, s, k) && k.phase.Writing?
    ensures WorkerOk(app, s, k.(phase := Saved(k.phase)))
  {
    var p := k.phase;
    if p.kind.Initial? || p.kind.Progress? { SavedIsAhead(p.completed, p.pending); }
    hide ContextOk, Backed, IsRest, Remaining, Ahead, Shipped;
  }

  lemma SavedIsAhead(done: seq<Node>, pending: seq<Node>)
    requires IsRest(pending) && Remaining(done, None) == pending
    ensures Ahead(done, pending)
  {
    RemainingNodes(done, None);
  }

  lemma WriteInv(app: Application, s: System, w: nat)
    requires Inv(app, s) && Enabled(app, s, Write(w))
    ensures Inv(app, Apply(app, s, Write(w)))
  {
    hide Inv;
    var k := s.workers[w];
    var file := SafeName(k.runId);
    if file in s.checkpoints && k.phase.lease.fencingToken < s.checkpoints[file].fencingToken {
      WriteRefused(app, s, w);
    } else {
      WriteDone(app, s, w);
    }
  }

  lemma WriteRefused(app: Application, s: System, w: nat)
    requires Inv(app, s) && w in s.workers && s.workers[w].phase.Writing?
    requires SafeName(s.workers[w].runId) in s.checkpoints
    requires s.workers[w].phase.lease.fencingToken < s.checkpoints[SafeName(s.workers[w].runId)].fencingToken
    ensures Inv(app, SetPhase(s, w, SaveRaised(s.workers[w].phase)))
  {
    hide WorkerOk, CheckpointOk;
    var k := s.workers[w];
    assert WorkerOk(app, s, k) && CheckpointOk(app, s, SafeName(k.runId), s.checkpoints[SafeName(k.runId)]);
    hide Inv;
    StaleTokenHoldsNothing(app, s, k, s.checkpoints[SafeName(k.runId)]);
    RaisedIsOk(app, s, k);
    PhaseInv(app, s, w, SaveRaised(k.phase));
  }

  lemma WriteDone(app: Application, s: System, w: nat)
    requires Inv(app, s) && w in s.workers && s.workers[w].phase.Writing?
    ensures var k := s.workers[w];
      Inv(app, SetPhase(s.(checkpoints := s.checkpoints[SafeName(k.runId) := Snapshot(k.phase)]), w, Saved(k.phase)))
  {
    hide WorkerOk, CheckpointOk, Saved, Snapshot;
    var k := s.workers[w];
    var s' := SetPhase(s.(checkpoints := s.checkpoints[SafeName(k.runId) := Snapshot(k.phase)]), w, Saved(k.phase));
    assert WorkerOk(app, s, k);
    StillEnv(s, s');
    SavedIsOk(app, s, k);
    SavedKeepsLease(k.phase);
    forall f | f in s'.checkpoints ensures CheckpointOk(app, s', f, s'.checkpoints[f]) {
      CheckpointKept(app, s, s', f, s'.checkpoints[f]);
    }
    forall v | v in s'.workers ensures WorkerOk(app, s', s'.workers[v]) {
      WorkerKept(app, s, s', s'.workers[v]);
    }
    TokensKept(s, s', w);
  }

  lemma SavedKeepsLease(p: Phase)
    requires p.Writing?
    ensures Saved(p).HasLease() && Saved(p).lease == p.lease
  {
  }

  /** A token older than a stored checkpoint belongs to a lease that is lost. */
  lemma StaleTokenHoldsNothing(app: Application, s: System, k: Worker, c: Checkpoint)
    requires WorkerOk(app, s, k) && k.phase.HasLease() && CheckpointOk(app, s, SafeName(k.runId), c)
    requires k.phase.lease.fencingToken < c.fencingToken
    ensures !s.Holds(k.phase.lease)
  {
    assert s.LeaseFileOf(c.context.runId) == s.LeaseFileOf(k.runId);
  }

  lemma RaisedIsOk(app: Application, s: System, k: Worker)
    requires WorkerOk(app, s, k) && (k.phase.Saving? || k.phase.Writing?)
    requires Strict(app) ==> !s.Holds(k.phase.lease)
    ensures WorkerOk(app, s, k.(phase := SaveRaised(k.phase)))
  {
    hide ContextOk, Backed, Shipped, Remaining;
  }

  lemma ReleaseInv(app: Application, s: System, s1: System, w: nat, lease: RunLease)
    requires Inv(app, s) && w in s.workers && s1 == ApplyRelease(s, lease)
    ensures Inv(app, SetPhase(s1, w, Gone))
  {
    var s' := SetPhase(s1, w, Gone);
    forall r ensures Later(s.LeaseFileOf(r), s.clock, s'.LeaseFileOf(r), s'.clock) {
      assert s'.LeaseFileOf(r) == s.LeaseFileOf(r) || s'.LeaseFileOf(r) == Released(s.LeaseFileOf(r));
    }
    LocalStep(app, s, s', w);
  }

  lemma AcquireInv(app: Application, s: System, w: nat, ttl: int)
    requires Inv(app, s) && Enabled(app, s, Acquire(w, ttl))
    ensures Inv(app, Apply(app, s, Acquire(w, ttl)))
  {
    var s', k := Apply(app, s, Acquire(w, ttl)), s.workers[w];
    var before := s.LeaseFileOf(k.runId);
    match Granted(before, k.runId, k.workerId, ttl, s.clock)
    case None => PhaseInv(app, s, w, Gone);
    case Some(lease) =>
      forall r ensures Later(s.LeaseFileOf(r), s.clock, s'.LeaseFileOf(r), s'.clock) {
        if SafeName(r) == SafeName(k.runId) {
          assert s.LeaseFileOf(r) == before && s'.LeaseFileOf(r) == Written(lease);
        } else {
          assert s'.LeaseFileOf(r) == s.LeaseFileOf(r);
        }
      }
      forall u, v | u in s'.workers && v in s'.workers && u != v && SameFile(s'.workers[u], s'.workers[v])
        ensures s'.workers[u].phase.lease.fencingToken != s'.workers[v].phase.lease.fencingToken {
        if u == w {
          assert WorkerOk(app, s, s.workers[v]);
        } else if v == w {
          assert WorkerOk(app, s, s.workers[u]);
        } else {
          assert SameFile(s.workers[u], s.workers[v]);
        }
      }
      assert s'.workers[w] == k.(phase := Leased(lease));
      OthersKept(app, s, s', w);
  }

  lemma SpawnInv(app: Application, s: System, a: Action)
    requires Inv(app, s) && Enabled(app, s, a) && a.Spawn?
    ensures Inv(app, Apply(app, s, a))
  {
    var s' := Apply(app, s, a);
    StillEnv(s, s');
    forall u, v | u in s'.workers && v in s'.workers && u != v && SameFile(s'.workers[u], s'.workers[v])
      ensures s'.workers[u].phase.lease.fencingToken != s'.workers[v].phase.lease.fencingToken {
      assert SameFile(s.workers[u], s.workers[v]);
    }
    OthersKept(app, s, s', a.w);
  }

  lemma TickInv(app: Application, s: System, to: Time)
    requires Inv(app, s) && s.clock <= to
    ensures Inv(app, s.(clock := to))
  {
    var s' := s.(clock := to);
    StillEnv(s, s');
    forall v | v in s'.workers ensures WorkerOk(app, s', s'.workers[v]) { WorkerKept(app, s, s', s.workers[v]); }
    forall f | f in s'.checkpoints ensures CheckpointOk(app, s', f, s'.checkpoints[f]) {
      CheckpointKept(app, s, s', f, s.checkpoints[f]);
    }
    forall u, v | u in s'.workers && v in s'.workers && u != v && SameFile(s'.workers[u], s'.workers[v])
      ensures s'.workers[u].phase.lease.fencingToken != s'.workers[v].phase.lease.fencingToken {
      assert SameFile(s.workers[u], s.workers[v]);
    }
  }

  lemma StepInv(app: Application, s: System, a: Action)
    requires Inv(app, s) && Enabled(app, s, a)
    ensures Inv(app, Apply(app, s, a))
  {
    hide Inv;
    match a
    case Tick(to) => TickInv(app, s, to);
    case Spawn(_, _, _, _) => SpawnInv(app, s, a);
    case Acquire(w, ttl) => AcquireInv(app, s, w, ttl);
    case StartRun(w) => StartInv(app, s, w);
    case Resume(w) => ResumeInv(app, s, w);
    case Succeed(w) => SucceedInv(app, s, w);
    case PublishOnly(w) => PublishOnlyInv(app, s, w);
    case Write(w) => WriteInv(app, s, w);
    case Release(w) => ReleaseInv(app, s, ApplyRelease(s, s.workers[w].phase.lease), w, s.workers[w].phase.lease);
    case Crash(w, releases) =>
      if releases && s.workers[w].phase.HasLease() {
        ReleaseInv(app, s, ApplyRelease(s, s.workers[w].phase.lease), w, s.workers[w].phase.lease);
      } else {
        PhaseInv(app, s, w, Gone);
      }
    case _ => PhaseOnlyInv(app, s, a);
  }

  lemma InvWorker(app: Application, s: System, w: nat)
    requires Inv(app, s) && w in s.workers
    ensures WorkerOk(app, s, s.workers[w])
  {
  }

  lemma PhaseOnlyInv(app: Application, s: System, a: Action)
    requires Inv(app, s) && Enabled(app, s, a)
    requires a.CheckPublishLease? || a.FailAttempt? || a.Heal? || a.GiveUp? || a.Complete? || a.CheckSaveLease?
             || a.SaveFault?
    ensures Inv(app, Apply(app, s, a))
  {
    hide Inv, WorkerOk, Effect, Remaining, Produced, Granted;
    var k, p := s.workers[a.w], Apply(app, s, a).workers[a.w].phase;
    InvWorker(app, s, a.w);
    if (a.CheckSaveLease? && !s.Holds(k.phase.lease)) || a.SaveFault? {
      RaisedIsOk(app, s, k);
    } else {
      PhaseOnlyOk(app, s, a);
    }
    PhaseInv(app, s, a.w, p);
  }

  lemma PhaseOnlyOk(app: Application, s: System, a: Action)
    requires Enabled(app, s, a)
    requires a.CheckPublishLease? || a.FailAttempt? || a.Heal? || a.GiveUp? || a.Complete? || a.CheckSaveLease?
    requires WorkerOk(app, s, s.workers[a.w]) && (a.CheckSaveLease? ==> s.Holds(s.workers[a.w].phase.lease))
    ensures WorkerOk(app, s, Apply(app, s, a).workers[a.w])
  {
    var k := s.workers[a.w];
    if a.FailAttempt? {
      FailedOk(app, s, s, k, k.phase.context);
    } else if a.Heal? {
      FailedOk(app, s, s, k, k.phase.context.(healed := true));
    } else if a.GiveUp? {
      assert k.phase.pending == [k.phase.pending[0]] + k.phase.pending[1..];
      NodeDoneOk(app, s, s, k, k.phase.context);
    } else if a.Complete? {
      RemainingNodes(k.phase.completed, None);
    }
  }
}
