/**
 * Concurrent use of the directory, one await-free stretch of code per step.  An `admit` waits for the
 * lock of its (agent, task) pair, publishes its spawn key, and only then stores or looks up the
 * instance; transitions, disposals, other admits and other users of the injected sink run in between, and
 * a task may be cancelled at any await.  The sinks of `idempotency.py` return without suspending once
 * they have recorded a key; a sink that awaits after recording lets others run at that point, and the
 * steps here allow it.
 */
module AdmissionProtocol {
  import opened Sequences
  import opened Identity
  import opened EffectSink
  import opened Directory

  datatype Failure = PayloadConflict | KeyError | CancelledError

  /** Where one `admit` call is. */
  datatype Phase =
    | Waiting(req: Request)
    | LockHeld(req: Request)
    | Published(req: Request, created: bool)
    | Returned(req: Request, instance: AgentInstance)
    | Raised(req: Request, failure: Failure)
  {
    predicate HoldsLock() { LockHeld? || Published? }
    predicate Finished() { Returned? || Raised? }
  }

  /** Keys of the sink that have no instance and never will, by reason. */
  datatype Lost = Lost(
    preexisting: set<string>, disposed: set<string>, cancelled: set<string>, foreign: set<string>)
  {
    function All(): set<string> { preexisting + disposed + cancelled + foreign }
  }

  /** One minted instance and the spawn key it was minted for. */
  datatype Birth = Birth(key: string, instance: AgentInstance)

  /** `minted` and `lost` only record what happened; no step looks at them. */
  datatype System = System(
    store: Store, effects: map<string, Payload>, locks: map<(string, string), nat>,
    clients: map<nat, Phase>, minted: seq<Birth>, lost: Lost)

  datatype Action =
    | Call(client: nat, req: Request)
    | Acquire(client: nat)
    | PublishKey(client: nat)
    | Finish(client: nat, freshId: Uuid, now: Time, attempt: string)
    | Cancel(client: nat)
    | Move(id: Uuid, taskId: string, status: Status, newAttempt: Option<string>, now: Time)
    | DisposeRun(runId: string)
    | ForeignPublish(key: string, payload: Payload)

  /** A uuid is drawn once. */
  predicate FreshId(s: System, id: Uuid) {
    forall i :: 0 <= i < |s.minted| ==> s.minted[i].instance.instanceId != id
  }

  predicate Enabled(s: System, a: Action) {
    match a
    case Call(c, _) => c !in s.clients
    case Acquire(c) => c in s.clients && s.clients[c].Waiting? && s.clients[c].req.Pair() !in s.locks
    case PublishKey(c) => c in s.clients && s.clients[c].LockHeld?
    case Finish(c, id, _, _) => c in s.clients && s.clients[c].Published? && FreshId(s, id)
    case Cancel(c) => c in s.clients && !s.clients[c].Finished()
    case Move(_, _, _, _, _) => true
    case DisposeRun(_) => true
    case ForeignPublish(_, _) => true
  }

  function SetPhase(s: System, c: nat, p: Phase): System { s.(clients := s.clients[c := p]) }

  function Release(s: System, req: Request): System { s.(locks := s.locks - {req.Pair()}) }

  function ApplyPublish(s: System, c: nat): System
    requires Enabled(s, PublishKey(c))
  {
    var req := s.clients[c].req;
    var (effects, receipt) := Publish(s.effects, req.spawnKey, req.AsPayload());
    if receipt == Conflict then SetPhase(Release(s, req), c, Raised(req, PayloadConflict))
    else SetPhase(s.(effects := effects), c, Published(req, receipt == Created))
  }

  function ApplyFinish(s: System, c: nat, id: Uuid, now: Time, attempt: string): System
    requires Enabled(s, Finish(c, id, now, attempt))
  {
    var req := s.clients[c].req;
    var free := Release(s, req);
    if s.clients[c].created then
      var x := Mint(s.store, req, id, now, attempt);
      SetPhase(free.(store := Commit(s.store, req, id, now, attempt), minted := s.minted + [Birth(req.spawnKey, x)]),
               c, Returned(req, x))
    else
      match Replay(s.store, req.spawnKey)
      case Ok(x) => SetPhase(free, c, Returned(req, x))
      case Err(_) => SetPhase(free, c, Raised(req, KeyError))
  }

  function ApplyCancel(s: System, c: nat): System
    requires Enabled(s, Cancel(c))
  {
    var p := s.clients[c];
    var free := if p.HoldsLock() then Release(s, p.req) else s;
    var lost := if p.Published? && p.created then s.lost.(cancelled := s.lost.cancelled + {p.req.spawnKey}) else s.lost;
    SetPhase(free.(lost := lost), c, Raised(p.req, CancelledError))
  }

  function KeysOfRun(st: Store, runId: string): set<string> {
    set k | k in st.byKey && st.byKey[k] in OfRun(st, runId)
  }

  function ApplyDispose(s: System, runId: string): System {
    s.(store := Dispose(s.store, runId),
       lost := s.lost.(disposed := s.lost.disposed + KeysOfRun(s.store, runId)))
  }

  /** Another directory, or any other user of the same sink. */
  function ApplyForeign(s: System, key: string, payload: Payload): System {
    var (effects, receipt) := Publish(s.effects, key, payload);
    s.(effects := effects,
       lost := if receipt == Created then s.lost.(foreign := s.lost.foreign + {key}) else s.lost)
  }

  function Apply(s: System, a: Action): System
    requires Enabled(s, a)
  {
    match a
    case Call(c, req) => SetPhase(s, c, Phase.Waiting(req))
    case Acquire(c) =>
      var req := s.clients[c].req;
      SetPhase(s.(locks := s.locks[req.Pair() := c]), c, LockHeld(req))
    case PublishKey(c) => ApplyPublish(s, c)
    case Finish(c, id, now, attempt) => ApplyFinish(s, c, id, now, attempt)
    case Cancel(c) => ApplyCancel(s, c)
    case Move(id, taskId, status, attempt, now) =>
      s.(store := Transition(s.store, id, taskId, status, attempt, now).0)
    case DisposeRun(runId) => ApplyDispose(s, runId)
    case ForeignPublish(key, payload) => ApplyForeign(s, key, payload)
  }

  /** A directory just built, over a sink that may hold keys from elsewhere. */
  ghost predicate Init(s: System) {
    && s.store == EMPTY && s.locks == map[] && s.clients == map[] && s.minted == []
    && s.lost == Lost(s.effects.Keys, {}, {}, {})
  }

  // ---- the invariant ----

  /** A lock belongs to the one client that is between acquiring and releasing it. */
  ghost predicate LocksInv(s: System) {
    && (forall c :: c in s.clients && s.clients[c].HoldsLock() ==>
          s.clients[c].req.Pair() in s.locks && s.locks[s.clients[c].req.Pair()] == c)
    && (forall p :: p in s.locks ==>
          s.locks[p] in s.clients && s.clients[s.locks[p]].HoldsLock() && s.clients[s.locks[p]].req.Pair() == p)
  }

  /** This client is past the publish that created the key and has not stored the instance yet. */
  predicate Owns(s: System, c: nat, key: string) {
    c in s.clients && s.clients[c].Published? && s.clients[c].created && s.clients[c].req.spawnKey == key
  }

  ghost predicate Owned(s: System, key: string) { exists c :: Owns(s, c, key) }

  /** Every key of the sink is in exactly one of three situations: stored, lost, or being admitted. */
  ghost predicate KeysInv(s: System) {
    && (forall k :: k in s.effects ==> k in s.store.byKey || k in s.lost.All() || Owned(s, k))
    && (forall k :: k in s.store.byKey || k in s.lost.All() ==> k in s.effects && !Owned(s, k))
    && s.store.byKey.Keys !! s.lost.All()
    && (forall c :: c in s.clients && s.clients[c].Published? ==>
          s.clients[c].req.spawnKey in s.effects
          && s.effects[s.clients[c].req.spawnKey] == s.clients[c].req.AsPayload())
  }

  ghost predicate Born(minted: seq<Birth>, key: string, id: Uuid) {
    exists i :: 0 <= i < |minted| && minted[i].key == key && minted[i].instance.instanceId == id
  }

  /** Keys and ids are minted once; what is stored or was returned was minted under its key. */
  ghost predicate BirthsInv(s: System) {
    && (forall i, j :: 0 <= i < j < |s.minted| ==>
          s.minted[i].key != s.minted[j].key
          && s.minted[i].instance.instanceId != s.minted[j].instance.instanceId)
    && (forall i :: 0 <= i < |s.minted| ==> s.minted[i].key in s.store.byKey || s.minted[i].key in s.lost.All())
    && (forall k :: k in s.store.byKey ==> Born(s.minted, k, s.store.byKey[k]))
    && (forall c :: c in s.clients && s.clients[c].Returned? ==>
          Born(s.minted, s.clients[c].req.spawnKey, s.clients[c].instance.instanceId))
  }

  predicate SamePair(b: Birth, pair: (string, string)) { (b.instance.agentId, b.instance.taskId) == pair }

  /** How many instances of this pair were minted. */
  function Spawned(minted: seq<Birth>, pair: (string, string)): nat {
    Count(minted, (b: Birth) => SamePair(b, pair))
  }

  /** The counters count, and the n-th spawn of a pair carries ordinal n. */
  ghost predicate OrdinalsInv(s: System) {
    && (forall pair :: OrdinalOf(s.store, pair) == Spawned(s.minted, pair))
    && (forall i :: 0 <= i < |s.minted| ==> NamedInOrder(s.minted, i))
  }

  predicate NamedInOrder(minted: seq<Birth>, i: nat)
    requires i < |minted|
  {
    var x := minted[i].instance;
    x.displayName == FormatDisplayName(x.agentId, Spawned(minted[..i], (x.agentId, x.taskId)) + 1)
  }

  /** A live record still has the identity it was minted with. */
  ghost predicate IdentityInv(s: System) {
    forall i :: 0 <= i < |s.minted| ==> KeepsIdentity(s.store, s.minted[i].instance)
  }

  predicate KeepsIdentity(st: Store, x: AgentInstance) {
    x.instanceId in st.instances ==> st.instances[x.instanceId].Identity() == x.Identity()
  }

  ghost predicate Inv(s: System) {
    Valid(s.store) && LocksInv(s) && KeysInv(s) && BirthsInv(s) && OrdinalsInv(s) && IdentityInv(s)
  }

  lemma InitInv(s: System)
    requires Init(s)
    ensures Inv(s)
  {
  }

  /** Two clients cannot hold one lock. */
  lemma MutualExclusion(s: System, c: nat, d: nat)
    requires LocksInv(s)
    requires c in s.clients && d in s.clients && s.clients[c].HoldsLock() && s.clients[d].HoldsLock()
    requires s.clients[c].req.Pair() == s.clients[d].req.Pair()
    ensures c == d
  {
  }

  lemma LocksWhileHeld(s: System, s': System, c: nat, p: Phase)
    requires LocksInv(s) && c in s.clients && p.HoldsLock() == s.clients[c].HoldsLock() && p.req == s.clients[c].req
    requires s'.clients == s.clients[c := p] && s'.locks == s.locks
    ensures LocksInv(s')
  {
  }

  lemma LocksReleased(s: System, s': System, c: nat, p: Phase)
    requires LocksInv(s) && c in s.clients && s.clients[c].HoldsLock() && !p.HoldsLock()
    requires s'.clients == s.clients[c := p] && s'.locks == s.locks - {s.clients[c].req.Pair()}
    ensures LocksInv(s')
  {
  }

  lemma LocksOnCall(s: System, c: nat, req: Request)
    requires LocksInv(s) && Enabled(s, Call(c, req))
    ensures LocksInv(Apply(s, Call(c, req)))
  {
  }

  lemma LocksOnAcquire(s: System, c: nat)
    requires LocksInv(s) && Enabled(s, Acquire(c))
    ensures LocksInv(Apply(s, Acquire(c)))
  {
  }

  lemma LocksElsewhere(s: System, s': System)
    requires LocksInv(s) && s'.clients == s.clients && s'.locks == s.locks
    ensures LocksInv(s')
  {
  }

  lemma StepLocks(s: System, a: Action)
    requires LocksInv(s) && Enabled(s, a)
    ensures LocksInv(Apply(s, a))
  {
    hide LocksInv;
    var s' := Apply(s, a);
    match a
    case Call(c, req) => LocksOnCall(s, c, req);
    case Acquire(c) => LocksOnAcquire(s, c);
    case PublishKey(c) =>
      if s'.clients[c].Raised? { LocksReleased(s, s', c, s'.clients[c]); }
      else { LocksWhileHeld(s, s', c, s'.clients[c]); }
    case Finish(c, _, _, _) => LocksReleased(s, s', c, s'.clients[c]);
    case Cancel(c) =>
      if s.clients[c].HoldsLock() { LocksReleased(s, s', c, s'.clients[c]); }
      else { LocksWhileHeld(s, s', c, s'.clients[c]); }
    case Move(_, _, _, _, _) => LocksElsewhere(s, s');
    case DisposeRun(_) => LocksElsewhere(s, s');
    case ForeignPublish(_, _) => LocksElsewhere(s, s');
  }

  /** The payload names the pair, so two owners of a key would hold the same lock. */
  lemma OneOwner(s: System, c: nat, d: nat, key: string)
    requires LocksInv(s) && KeysInv(s) && Owns(s, c, key) && Owns(s, d, key)
    ensures c == d
  {
    assert s.clients[c].req.AsPayload() == s.clients[d].req.AsPayload();
    MutualExclusion(s, c, d);
  }

  lemma SameOwners(s: System, s': System)
    requires forall c, k :: Owns(s', c, k) <==> Owns(s, c, k)
    ensures forall k :: Owned(s', k) <==> Owned(s, k)
  {
    forall k ensures Owned(s', k) <==> Owned(s, k) {
      if Owned(s, k) { var c :| Owns(s, c, k); assert Owns(s', c, k); }
      if Owned(s', k) { var c :| Owns(s', c, k); assert Owns(s, c, k); }
    }
  }

  /** A step that touches neither keys nor owners. */
  lemma KeysUntouched(s: System, s': System)
    requires KeysInv(s)
    requires s'.effects == s.effects && s'.store.byKey == s.store.byKey && s'.lost == s.lost
    requires forall c, k :: Owns(s', c, k) <==> Owns(s, c, k)
    requires forall c :: c in s'.clients && s'.clients[c].Published? ==> c in s.clients && s'.clients[c] == s.clients[c]
    ensures KeysInv(s')
  {
    SameOwners(s, s');
  }

  /** The owner leaves: its key is now stored or lost, and nobody else owned it. */
  lemma KeysSettled(s: System, s': System, c: nat, key: string)
    requires LocksInv(s) && KeysInv(s) && Owns(s, c, key)
    requires c in s'.clients && !s'.clients[c].Published? && s'.clients == s.clients[c := s'.clients[c]]
    requires s'.effects == s.effects
    requires s'.store.byKey.Keys + s'.lost.All() == s.store.byKey.Keys + s.lost.All() + {key}
    requires s'.store.byKey.Keys !! s'.lost.All()
    ensures KeysInv(s')
  {
    forall k ensures Owned(s', k) <==> Owned(s, k) && k != key {
      if Owned(s', k) {
        var d :| Owns(s', d, k);
        assert Owns(s, d, k);
        if k == key { OneOwner(s, c, d, key); }
      }
      if Owned(s, k) && k != key {
        var d :| Owns(s, d, k);
        assert Owns(s', d, k);
      }
    }
    assert Owned(s, key);
    assert forall k :: k in s'.store.byKey || k in s'.lost.All()
                       <==> k in s.store.byKey || k in s.lost.All() || k == key by {
      assert forall k :: k in s'.store.byKey.Keys + s'.lost.All() <==> k in s.store.byKey.Keys + s.lost.All() + {key};
    }
  }

  lemma PublishKeys(s: System, c: nat)
    requires KeysInv(s) && Enabled(s, PublishKey(c))
    ensures KeysInv(ApplyPublish(s, c))
  {
    var s', req := ApplyPublish(s, c), s.clients[c].req;
    if req.spawnKey in s.effects {
      SameOwners(s, s');
    } else {
      assert Owns(s', c, req.spawnKey);
      forall k ensures Owned(s', k) <==> Owned(s, k) || k == req.spawnKey {
        if Owned(s, k) { var d :| Owns(s, d, k); assert Owns(s', d, k); }
        if Owned(s', k) { var d :| Owns(s', d, k); assert d == c || Owns(s, d, k); }
      }
    }
  }

  lemma FinishKeys(s: System, a: Action)
    requires LocksInv(s) && KeysInv(s) && a.Finish? && Enabled(s, a)
    ensures KeysInv(Apply(s, a))
  {
    var s', key := Apply(s, a), s.clients[a.client].req.spawnKey;
    if s.clients[a.client].created {
      assert Owns(s, a.client, key) && Owned(s, key);
      assert s'.store.byKey.Keys == s.store.byKey.Keys + {key};
      KeysSettled(s, s', a.client, key);
    } else {
      KeysUntouched(s, s');
    }
  }

  lemma CancelKeys(s: System, a: Action)
    requires LocksInv(s) && KeysInv(s) && a.Cancel? && Enabled(s, a)
    ensures KeysInv(Apply(s, a))
  {
    var s', p := Apply(s, a), s.clients[a.client];
    if p.Published? && p.created {
      assert Owns(s, a.client, p.req.spawnKey) && Owned(s, p.req.spawnKey);
      assert s'.lost.All() == s.lost.All() + {p.req.spawnKey};
      KeysSettled(s, s', a.client, p.req.spawnKey);
    } else {
      KeysUntouched(s, s');
    }
  }

  lemma StepKeys(s: System, a: Action)
    requires LocksInv(s) && KeysInv(s) && Enabled(s, a)
    ensures KeysInv(Apply(s, a))
  {
    match a
    case Call(_, _) => KeysUntouched(s, Apply(s, a));
    case Acquire(_) => KeysUntouched(s, Apply(s, a));
    case PublishKey(c) => PublishKeys(s, c);
    case Finish(_, _, _, _) => FinishKeys(s, a);
    case Cancel(_) => CancelKeys(s, a);
    case Move(_, _, _, _, _) => KeysUntouched(s, Apply(s, a));
    case DisposeRun(runId) => DisposeKeys(s, runId);
    case ForeignPublish(key, payload) => ForeignKeys(s, key, payload);
  }

  lemma ForeignKeys(s: System, key: string, payload: Payload)
    requires KeysInv(s)
    ensures KeysInv(ApplyForeign(s, key, payload))
  {
    var s' := ApplyForeign(s, key, payload);
    SameOwners(s, s');
    forall k | Owned(s, k) ensures k in s.effects {
      var c :| Owns(s, c, k);
    }
    if key !in s.effects { assert s'.lost.All() == s.lost.All() + {key}; }
  }

  lemma DisposeKeys(s: System, runId: string)
    requires KeysInv(s)
    ensures KeysInv(ApplyDispose(s, runId))
  {
    var s' := ApplyDispose(s, runId);
    SameOwners(s, s');
    assert forall k :: k in s'.store.byKey || k in s'.lost.All() <==> k in s.store.byKey || k in s.lost.All();
  }

  // ---- births and names ----

  lemma BornGrows(minted: seq<Birth>, b: Birth, key: string, id: Uuid)
    requires Born(minted, key, id) || (b.key == key && b.instance.instanceId == id)
    ensures Born(minted + [b], key, id)
  {
    if Born(minted, key, id) {
      var i :| 0 <= i < |minted| && minted[i].key == key && minted[i].instance.instanceId == id;
      assert (minted + [b])[i] == minted[i];
    } else {
      assert (minted + [b])[|minted|] == b;
    }
  }

  lemma SpawnedSnoc(minted: seq<Birth>, b: Birth, pair: (string, string))
    ensures Spawned(minted + [b], pair) == Spawned(minted, pair) + if SamePair(b, pair) then 1 else 0
  {
    var same := (x: Birth) => SamePair(x, pair);
    FilterConcat(minted, [b], same);
    assert Filter([b], same) == if SamePair(b, pair) then [b] else [];
  }

  lemma {:induction false} SpawnedPrefix(minted: seq<Birth>, i: nat, pair: (string, string))
    requires i < |minted| && SamePair(minted[i], pair)
    ensures Spawned(minted[..i], pair) < Spawned(minted, pair)
  {
    var last := minted[..|minted| - 1];
    assert minted == last + [minted[|minted| - 1]];
    SpawnedSnoc(last, minted[|minted| - 1], pair);
    if i < |last| {
      SpawnedPrefix(last, i, pair);
      assert last[..i] == minted[..i];
    } else {
      assert minted[..i] == last;
    }
  }

  lemma SpawnedBetween(minted: seq<Birth>, k: nat, m: nat, pair: (string, string))
    requires k < m <= |minted| && SamePair(minted[k], pair)
    ensures Spawned(minted[..k], pair) < Spawned(minted[..m], pair)
  {
    SpawnedPrefix(minted[..m], k, pair);
    assert minted[..m][..k] == minted[..k];
  }

  /** A live record was minted, and still answers to the alias it was minted with. */
  lemma LiveWasMinted(s: System, id: Uuid) returns (i: nat)
    requires Inv(s) && id in s.store.instances
    ensures i < |s.minted| && s.minted[i].instance.instanceId == id && s.minted[i].key == s.store.keyOf[id]
    ensures s.minted[i].instance.Identity() == s.store.instances[id].Identity()
  {
    assert id in s.store.keyOf;
    assert Born(s.minted, s.store.keyOf[id], id);
    i :| 0 <= i < |s.minted| && s.minted[i].key == s.store.keyOf[id] && s.minted[i].instance.instanceId == id;
    assert KeepsIdentity(s.store, s.minted[i].instance);
  }

  /** The next alias of a pair is in no alias slot: neither another agent's nor an older spawn's. */
  lemma NextAliasFree(s: System, req: Request, id: Uuid, now: Time, attempt: string)
    requires Inv(s)
    ensures AliasOf(Mint(s.store, req, id, now, attempt)) !in s.store.aliases
  {
    hide LocksInv, KeysInv, BirthsInv, IdentityInv, Ordered, Records;
    var a := AliasOf(Mint(s.store, req, id, now, attempt));
    if a in s.store.aliases {
      var holder := s.store.aliases[a];
      var i := LiveWasMinted(s, holder);
      var x := s.minted[i].instance;
      assert NamedInOrder(s.minted, i);
      assert AliasOf(x) == AliasOf(x.Identity()) == a;
      DisplayNameInjective(x.agentId, Spawned(s.minted[..i], (x.agentId, x.taskId)) + 1,
                           req.agentId, OrdinalOf(s.store, req.Pair()) + 1);
      SpawnedPrefix(s.minted, i, req.Pair());
    }
  }

  lemma StepStore(s: System, a: Action)
    requires Inv(s) && Enabled(s, a)
    ensures Valid(Apply(s, a).store)
  {
    match a
    case Finish(c, id, now, attempt) =>
      var req := s.clients[c].req;
      if s.clients[c].created {
        assert Owned(s, req.spawnKey) by { assert Owns(s, c, req.spawnKey); }
        if id in s.store.instances { var i := LiveWasMinted(s, id); }
        NextAliasFree(s, req, id, now, attempt);
        CommitValid(s.store, req, id, now, attempt);
      }
    case Move(id, taskId, status, attempt, now) => TransitionValid(s.store, id, taskId, status, attempt, now);
    case DisposeRun(runId) => WithoutValid(s.store, OfRun(s.store, runId));
    case _ =>
  }

  lemma CommitBirths(s: System, a: Action)
    requires KeysInv(s) && BirthsInv(s) && a.Finish? && Enabled(s, a) && s.clients[a.client].created
    ensures BirthsInv(Apply(s, a))
  {
    var s', req := Apply(s, a), s.clients[a.client].req;
    var b := Birth(req.spawnKey, Mint(s.store, req, a.freshId, a.now, a.attempt));
    assert s'.minted == s.minted + [b];
    assert Owned(s, req.spawnKey) by { assert Owns(s, a.client, req.spawnKey); }
    hide KeysInv;
    forall key, id | Born(s.minted, key, id) || (key == b.key && id == a.freshId) ensures Born(s'.minted, key, id) {
      BornGrows(s.minted, b, key, id);
    }
  }

  lemma CommitOrdinals(s: System, a: Action)
    requires OrdinalsInv(s) && a.Finish? && Enabled(s, a) && s.clients[a.client].created
    ensures OrdinalsInv(Apply(s, a))
  {
    var s', req := Apply(s, a), s.clients[a.client].req;
    var b := Birth(req.spawnKey, Mint(s.store, req, a.freshId, a.now, a.attempt));
    assert s'.minted == s.minted + [b];
    forall pair ensures OrdinalOf(s'.store, pair) == Spawned(s'.minted, pair) {
      SpawnedSnoc(s.minted, b, pair);
    }
    forall i | 0 <= i < |s'.minted| ensures NamedInOrder(s'.minted, i) {
      if i < |s.minted| {
        assert NamedInOrder(s.minted, i);
        assert s'.minted[..i] == s.minted[..i];
      } else {
        assert s'.minted[..i] == s.minted;
      }
    }
  }

  lemma StepOrdinals(s: System, a: Action)
    requires OrdinalsInv(s) && Enabled(s, a)
    ensures OrdinalsInv(Apply(s, a))
  {
    if a.Finish? && s.clients[a.client].created { CommitOrdinals(s, a); }
  }

  lemma StepIdentity(s: System, a: Action)
    requires IdentityInv(s) && Enabled(s, a)
    ensures IdentityInv(Apply(s, a))
  {
    var s' := Apply(s, a);
    forall i | 0 <= i < |s'.minted| ensures KeepsIdentity(s'.store, s'.minted[i].instance) {
      assert i < |s.minted| ==> s'.minted[i] == s.minted[i] && KeepsIdentity(s.store, s.minted[i].instance);
    }
  }

  /** A replay hands out the record that was minted for the key. */
  lemma ReplayBirths(s: System, a: Action)
    requires Valid(s.store) && BirthsInv(s) && a.Finish? && Enabled(s, a) && !s.clients[a.client].created
    ensures BirthsInv(Apply(s, a))
  {
    hide KeysAgree, AliasesAgree, Ordered;
    var s', key := Apply(s, a), s.clients[a.client].req.spawnKey;
    assert s'.minted == s.minted && s'.store == s.store && s'.lost == s.lost;
    if Replay(s.store, key).Ok? {
      assert WellFormed(s.store.byKey[key], s.store.instances[s.store.byKey[key]]);
      assert Born(s.minted, key, s.store.byKey[key]);
    }
  }

  lemma BirthsUntouched(s: System, s': System)
    requires BirthsInv(s) && s'.minted == s.minted
    requires forall k :: k in s.store.byKey || k in s.lost.All() ==> k in s'.store.byKey || k in s'.lost.All()
    requires forall k :: k in s'.store.byKey ==> k in s.store.byKey && s'.store.byKey[k] == s.store.byKey[k]
    requires forall c :: c in s'.clients && s'.clients[c].Returned? ==> c in s.clients && s'.clients[c] == s.clients[c]
    ensures BirthsInv(s')
  {
  }

  lemma StepBirths(s: System, a: Action)
    requires Valid(s.store) && KeysInv(s) && BirthsInv(s) && Enabled(s, a)
    ensures BirthsInv(Apply(s, a))
  {
    hide Valid, KeysInv, BirthsInv;
    if a.Finish? && s.clients[a.client].created {
      CommitBirths(s, a);
    } else if a.Finish? {
      ReplayBirths(s, a);
    } else {
      BirthsUntouched(s, Apply(s, a));
    }
  }

  lemma StepInv(s: System, a: Action)
    requires Inv(s) && Enabled(s, a)
    ensures Inv(Apply(s, a))
  {
    hide Valid, LocksInv, KeysInv, BirthsInv, OrdinalsInv, IdentityInv, Apply;
    StepStore(s, a);
    StepLocks(s, a);
    StepKeys(s, a);
    StepBirths(s, a);
    StepOrdinals(s, a);
    StepIdentity(s, a);
  }
}
