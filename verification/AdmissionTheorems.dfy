/** What holds in every run of the directory protocol: keys, aliases, ordinals, lifecycles, progress. */
module AdmissionTheorems {
  import opened Sequences
  import opened Identity
  import opened EffectSink
  import opened Directory
  import opened AdmissionProtocol

  // ---- whole runs ----

  ghost predicate IsRun(trace: seq<System>, actions: seq<Action>) {
    && |trace| == |actions| + 1
    && Init(trace[0])
    && forall i :: 0 <= i < |actions| ==> Enabled(trace[i], actions[i]) && trace[i + 1] == Apply(trace[i], actions[i])
  }

  /** The invariant holds in every state of every interleaving. */
  lemma {:induction false} InvAlways(trace: seq<System>, actions: seq<Action>, i: nat)
    requires IsRun(trace, actions) && i < |trace|
    ensures Inv(trace[i])
  {
    if i == 0 {
      InitInv(trace[0]);
    } else {
      InvAlways(trace, actions, i - 1);
      StepInv(trace[i - 1], actions[i - 1]);
    }
  }

  /** Replaying a key fails exactly when its instance is lost; otherwise it yields the minted record. */
  lemma ReplayFailsExactlyWhenLost(trace: seq<System>, actions: seq<Action>, i: nat)
    requires IsRun(trace, actions) && i < |actions|
    requires actions[i].Finish? && !trace[i].clients[actions[i].client].created
    ensures var before, after := trace[i], trace[i + 1].clients[actions[i].client];
      && (after == Raised(after.req, KeyError) <==> after.req.spawnKey in before.lost.All())
      && (after.Returned? <==> after.req.spawnKey !in before.lost.All())
      && (after.Returned? ==> Born(before.minted, after.req.spawnKey, after.instance.instanceId))
  {
    InvAlways(trace, actions, i);
    InvAlways(trace, actions, i + 1);
    var s, c := trace[i], actions[i].client;
    var key := s.clients[c].req.spawnKey;
    if Owned(s, key) {
      var d :| Owns(s, d, key);
      assert s.clients[c].req.AsPayload() == s.clients[d].req.AsPayload();
      MutualExclusion(s, c, d);
    }
  }

  /** Whoever admits with one key, however the calls overlap, gets one and the same instance. */
  lemma SameKeySameInstance(trace: seq<System>, actions: seq<Action>, i: nat, c: nat, d: nat)
    requires IsRun(trace, actions) && i < |trace|
    requires c in trace[i].clients && d in trace[i].clients
    requires trace[i].clients[c].Returned? && trace[i].clients[d].Returned?
    ensures trace[i].clients[c].req.spawnKey == trace[i].clients[d].req.spawnKey <==>
            trace[i].clients[c].instance.instanceId == trace[i].clients[d].instance.instanceId
  {
    InvAlways(trace, actions, i);
    var s := trace[i];
    assert Born(s.minted, s.clients[c].req.spawnKey, s.clients[c].instance.instanceId);
    assert Born(s.minted, s.clients[d].req.spawnKey, s.clients[d].instance.instanceId);
  }

  lemma {:induction false} MintedGrows(trace: seq<System>, actions: seq<Action>, i: nat, j: nat)
    requires IsRun(trace, actions) && i <= j < |trace|
    ensures trace[i].minted <= trace[j].minted
  {
    if i < j { MintedGrows(trace, actions, i, j - 1); }
  }

  /** An alias handed out once answers, at any later time, with its own instance or with nothing. */
  lemma AliasNeverReassigned(trace: seq<System>, actions: seq<Action>, i: nat, j: nat, b: Birth)
    requires IsRun(trace, actions) && i <= j < |trace| && b in trace[i].minted
    ensures var found := Lookup(trace[j].store, ByAlias(b.instance.displayName), b.instance.taskId);
      found.Some? ==> found.value.Identity() == b.instance.Identity()
  {
    hide Apply, Enabled, Init, LocksInv, KeysInv, BirthsInv, OrdinalsInv, IdentityInv, Ordered, Records;
    MintedGrows(trace, actions, i, j);
    InvAlways(trace, actions, j);
    var s, x := trace[j], b.instance;
    var found := Lookup(s.store, ByAlias(x.displayName), x.taskId);
    if found.Some? {
      var id := s.store.aliases[AliasOf(x)];
      var k := LiveWasMinted(s, id);
      var m :| 0 <= m < |s.minted| && s.minted[m] == b;
      AliasesDistinct(s, k, m);
    }
  }

  /** No alias is minted twice in a task, across agents and disposals alike. */
  lemma AliasesDistinct(s: System, k: nat, m: nat)
    requires Inv(s) && k < |s.minted| && m < |s.minted|
    requires AliasOf(s.minted[k].instance) == AliasOf(s.minted[m].instance)
    ensures k == m
  {
    hide Valid, LocksInv, KeysInv, BirthsInv, IdentityInv;
    var x, y := s.minted[k].instance, s.minted[m].instance;
    var pair := (x.agentId, x.taskId);
    assert NamedInOrder(s.minted, k) && NamedInOrder(s.minted, m);
    hide Inv, FormatDisplayName, Spawned;
    DisplayNameInjective(x.agentId, Spawned(s.minted[..k], pair) + 1,
                         y.agentId, Spawned(s.minted[..m], (y.agentId, y.taskId)) + 1);
    if k < m { SpawnedBetween(s.minted, k, m, pair); }
    if m < k { SpawnedBetween(s.minted, m, k, pair); }
  }

  // ---- lifecycles ----

  predicate Live(s: System, id: Uuid) { id in s.store.instances }

  function StatusOf(s: System, id: Uuid): Status requires Live(s, id) { s.store.instances[id].status }

  /** One step of the transition table, or staying put. */
  predicate Follows(from: Status, to: Status) { from == to || Legal(from, to) }

  lemma StepLifecycle(s: System, a: Action, id: Uuid)
    requires Inv(s) && Enabled(s, a) && Live(Apply(s, a), id)
    ensures var s' := Apply(s, a);
      if Live(s, id)
      then Follows(StatusOf(s, id), StatusOf(s', id))
           && s.store.instances[id].Identity() == s'.store.instances[id].Identity()
      else StatusOf(s', id) == Queued && FreshId(s, id) && !FreshId(s', id)
  {
    hide Inv;
    if Live(s, id) {
      var i := LiveWasMinted(s, id);
    } else {
      assert a.Finish? && s.clients[a.client].created && id == a.freshId;
      assert Apply(s, a).minted[|s.minted|].instance.instanceId == id;
    }
  }

  lemma SpentId(trace: seq<System>, actions: seq<Action>, i: nat, j: nat, id: Uuid)
    requires IsRun(trace, actions) && i <= j < |trace| && Live(trace[i], id)
    ensures !FreshId(trace[j], id)
  {
    hide Inv, Apply, Enabled, Init;
    InvAlways(trace, actions, i);
    var k := LiveWasMinted(trace[i], id);
    MintedGrows(trace, actions, i, j);
    assert trace[j].minted[k] == trace[i].minted[k];
  }

  /** Between two moments an instance is live, it was live throughout, on a path of the table. */
  lemma {:induction false} LifecycleIsPath(trace: seq<System>, actions: seq<Action>, i: nat, j: nat, id: Uuid)
    requires IsRun(trace, actions) && i <= j < |trace|
    requires Live(trace[i], id) && Live(trace[j], id)
    ensures forall m :: i <= m <= j ==> Live(trace[m], id)
    ensures forall m :: i <= m < j ==> Follows(StatusOf(trace[m], id), StatusOf(trace[m + 1], id))
    ensures trace[i].store.instances[id].Identity() == trace[j].store.instances[id].Identity()
  {
    hide Inv, Apply, Enabled, Init;
    if i < j {
      InvAlways(trace, actions, j - 1);
      StepLifecycle(trace[j - 1], actions[j - 1], id);
      SpentId(trace, actions, i, j - 1, id);
      LifecycleIsPath(trace, actions, i, j - 1, id);
    }
  }

  /** A terminal status is final and the queue is never re-entered. */
  lemma {:induction false} TerminalIsFinal(trace: seq<System>, actions: seq<Action>, i: nat, j: nat, id: Uuid)
    requires IsRun(trace, actions) && i <= j < |trace|
    requires Live(trace[i], id) && Live(trace[j], id)
    ensures Terminal(StatusOf(trace[i], id)) ==> StatusOf(trace[j], id) == StatusOf(trace[i], id)
    ensures StatusOf(trace[i], id) != Queued ==> StatusOf(trace[j], id) != Queued
  {
    if i < j {
      LifecycleIsPath(trace, actions, i, j, id);
      TerminalIsFinal(trace, actions, i, j - 1, id);
      assert Follows(StatusOf(trace[j - 1], id), StatusOf(trace[j - 1 + 1], id));
    }
  }

  /** Nothing waits or completes that was not running before. */
  lemma {:induction false} CompletedWasRunning(trace: seq<System>, actions: seq<Action>, j: nat, id: Uuid)
    requires IsRun(trace, actions) && j < |trace| && Live(trace[j], id)
    requires StatusOf(trace[j], id) == Completed || StatusOf(trace[j], id) == Status.Waiting
    ensures exists m :: 0 <= m < j && Live(trace[m], id) && StatusOf(trace[m], id) == Running
  {
    hide Inv, Apply, Enabled;
    assert j > 0;
    InvAlways(trace, actions, j - 1);
    StepLifecycle(trace[j - 1], actions[j - 1], id);
    if StatusOf(trace[j - 1], id) != Running { CompletedWasRunning(trace, actions, j - 1, id); }
  }

  /** Terminal times sit exactly on terminal records, at every moment of every run. */
  lemma TerminalTimeIffTerminal(trace: seq<System>, actions: seq<Action>, i: nat, id: Uuid)
    requires IsRun(trace, actions) && i < |trace| && Live(trace[i], id)
    ensures trace[i].store.instances[id].terminalAt.Some? <==> Terminal(StatusOf(trace[i], id))
  {
    InvAlways(trace, actions, i);
    assert WellFormed(id, trace[i].store.instances[id]);
  }

  // ---- what the invariant says about one moment ----

  /** A key of the sink is stored, lost, or in the hands of the one client holding its lock. */
  lemma SinkKeyAccountedFor(trace: seq<System>, actions: seq<Action>, i: nat, key: string)
    requires IsRun(trace, actions) && i < |trace|
    ensures var s := trace[i];
      && (key in s.effects <==> key in s.store.byKey || key in s.lost.All() || Owned(s, key))
      && !(key in s.store.byKey && key in s.lost.All())
      && (forall c :: Owns(s, c, key) ==>
            key !in s.store.byKey && key !in s.lost.All()
            && s.clients[c].req.Pair() in s.locks && s.locks[s.clients[c].req.Pair()] == c
            && (forall d :: Owns(s, d, key) ==> d == c))
  {
    InvAlways(trace, actions, i);
    var s := trace[i];
    forall c | Owns(s, c, key) ensures Owned(s, key) && forall d :: Owns(s, d, key) ==> d == c {
      forall d | Owns(s, d, key) ensures d == c { OneOwner(s, c, d, key); }
    }
  }

  lemma {:induction false} NthSpawn(minted: seq<Birth>, pair: (string, string), n: nat) returns (i: nat)
    requires 1 <= n <= Spawned(minted, pair)
    ensures i < |minted| && SamePair(minted[i], pair) && Spawned(minted[..i], pair) + 1 == n
  {
    var last := minted[..|minted| - 1];
    var b := minted[|minted| - 1];
    assert minted == last + [b];
    SpawnedSnoc(last, b, pair);
    if n <= Spawned(last, pair) {
      i := NthSpawn(last, pair, n);
      assert last[..i] == minted[..i];
    } else {
      i := |last|;
    }
  }

  /** The ordinals of a pair are 1, 2, ..., up to its counter, each on exactly one instance. */
  lemma OrdinalsGapFree(trace: seq<System>, actions: seq<Action>, t: nat, pair: (string, string), n: nat)
    requires IsRun(trace, actions) && t < |trace| && 1 <= n <= OrdinalOf(trace[t].store, pair)
    ensures var minted := trace[t].minted;
      exists i :: 0 <= i < |minted| && SamePair(minted[i], pair)
                  && minted[i].instance.displayName == FormatDisplayName(pair.0, n)
                  && forall j :: 0 <= j < |minted| && AliasOf(minted[j].instance) == AliasOf(minted[i].instance) ==>
                       j == i
  {
    InvAlways(trace, actions, t);
    var s := trace[t];
    var i := NthSpawn(s.minted, pair, n);
    assert NamedInOrder(s.minted, i);
    forall j | 0 <= j < |s.minted| && AliasOf(s.minted[j].instance) == AliasOf(s.minted[i].instance) ensures j == i {
      AliasesDistinct(s, j, i);
    }
  }

  /** While a call is unfinished, some client can go on without anybody being cancelled. */
  lemma NoDeadlock(trace: seq<System>, actions: seq<Action>, i: nat, c: nat, freshId: Uuid)
    requires IsRun(trace, actions) && i < |trace| && FreshId(trace[i], freshId)
    requires c in trace[i].clients && !trace[i].clients[c].Finished()
    ensures exists d :: Enabled(trace[i], Acquire(d)) || Enabled(trace[i], PublishKey(d))
                        || Enabled(trace[i], Finish(d, freshId, 0, ""))
  {
    InvAlways(trace, actions, i);
    var s := trace[i];
    var pair := s.clients[c].req.Pair();
    var d := if s.clients[c].Waiting? && pair in s.locks then s.locks[pair] else c;
    assert Enabled(s, Acquire(d)) || Enabled(s, PublishKey(d)) || Enabled(s, Finish(d, freshId, 0, ""));
  }

  // ---- one call alone ----

  /** The steps of one `admit` with nothing in between. */
  function AdmitSteps(s: System, c: nat, req: Request, id: Uuid, now: Time, attempt: string): System
    requires Enabled(s, Call(c, req)) && req.Pair() !in s.locks && FreshId(s, id)
  {
    var published := Apply(Apply(Apply(s, Call(c, req)), Acquire(c)), PublishKey(c));
    if published.clients[c].Published? then Apply(published, Finish(c, id, now, attempt)) else published
  }

  /** Run without interruption, the steps do what the sequential `admit` does. */
  lemma StepsRefineAdmit(s: System, c: nat, req: Request, id: Uuid, now: Time, attempt: string)
    requires Enabled(s, Call(c, req)) && req.Pair() !in s.locks && FreshId(s, id)
    ensures var s' := AdmitSteps(s, c, req, id, now, attempt);
      var (st, effects, r) := Admit(s.store, s.effects, req, id, now, attempt);
      && s'.store == st && s'.effects == effects && s'.locks == s.locks && c in s'.clients
      && s'.clients[c] == match r
                          case Ok(x) => Returned(req, x)
                          case Err(IdempotencyConflict) => Raised(req, PayloadConflict)
                          case Err(MissingInstance) => Raised(req, KeyError)
  {
    var held := Apply(Apply(s, Call(c, req)), Acquire(c));
    assert held == s.(clients := held.clients, locks := s.locks[req.Pair() := c]) && held.clients[c] == LockHeld(req);
    assert held.locks - {req.Pair()} == s.locks;
  }

  lemma FinishStores(s: System, req: Request, now: Time, attempt: string)
    requires s.clients == map[0 := Published(req, true)] && s.minted == []
    ensures var finish := Finish(0, 0, now, attempt);
      && Enabled(s, finish) && Live(Apply(s, finish), 0)
      && Apply(s, finish).store.instances[0].runId == req.runId
  {
  }

  /** `dispose` takes no admission lock: a call already past its publish stores its instance afterwards. */
  lemma DisposedRunCanReappear(req: Request, now: Time, attempt: string)
    returns (trace: seq<System>, actions: seq<Action>)
    ensures IsRun(trace, actions) && |actions| == 5 && actions[3] == DisposeRun(req.runId)
    ensures trace[4].store.instances == map[]
    ensures Live(trace[5], 0) && trace[5].store.instances[0].runId == req.runId
  {
    var s0 := System(EMPTY, map[], map[], map[], [], Lost({}, {}, {}, {}));
    var s1 := Apply(s0, Call(0, req));
    var s2 := Apply(s1, Acquire(0));
    var s3 := Apply(s2, PublishKey(0));
    assert s3 == System(EMPTY, map[req.spawnKey := req.AsPayload()], map[req.Pair() := 0],
                        map[0 := Published(req, true)], [], Lost({}, {}, {}, {}));
    var s4 := Apply(s3, DisposeRun(req.runId));
    DisposeNothing(req.runId);
    hide Dispose, OfRun;
    assert s4 == s3;
    var finish := Finish(0, 0, now, attempt);
    FinishStores(s4, req, now, attempt);
    hide Mint, Commit, Replay, Transition;
    actions := [Call(0, req), Acquire(0), PublishKey(0), DisposeRun(req.runId), finish];
    trace := [s0, s1, s2, s3, s4, Apply(s4, finish)];
  }
}
