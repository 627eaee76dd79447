/** When the disposal of a run is final, and what is left of a disposed spawn key. */
module Disposals {
  import opened Identity
  import opened EffectSink
  import opened Directory
  import opened AdmissionProtocol
  import opened AdmissionTheorems

  /** An unfinished call of the run that owns its key, or will find the key free in the sink. */
  predicate MayMint(s: System, c: nat, runId: string) {
    && c in s.clients && s.clients[c].req.runId == runId
    && match s.clients[c]
       case Published(_, created) => created
       case Waiting(req) => req.spawnKey !in s.effects
       case LockHeld(req) => req.spawnKey !in s.effects
       case _ => false
  }

  predicate CallsRun(a: Action, runId: string) { a.Call? && a.req.runId == runId }

  ghost predicate RunGone(s: System, runId: string) {
    forall id :: id in s.store.instances ==> s.store.instances[id].runId != runId
  }

  /** What may happen from `s` on. */
  ghost predicate Continues(s: System, trace: seq<System>, actions: seq<Action>) {
    && |trace| == |actions| + 1
    && trace[0] == s
    && forall i :: 0 <= i < |actions| ==> Enabled(trace[i], actions[i]) && trace[i + 1] == Apply(trace[i], actions[i])
  }

  /** Whatever happens next, without a new call of the run none of its instances is live. */
  ghost predicate StaysGone(s: System, runId: string) {
    forall trace, actions ::
      Continues(s, trace, actions) && (forall a :: a in actions ==> !CallsRun(a, runId)) ==>
        RunGone(trace[|actions|], runId)
  }

  // ---- nobody may mint: the run stays gone ----

  lemma NoNewMinter(s: System, a: Action, runId: string, c: nat)
    requires Enabled(s, a) && !CallsRun(a, runId) && MayMint(Apply(s, a), c, runId)
    ensures MayMint(s, c, runId)
  {
    hide Dispose, Transition, Commit, Mint, Replay, KeysOfRun;
    assert forall k :: k in s.effects ==> k in Apply(s, a).effects;
  }

  lemma NoMinterKeepsGone(s: System, a: Action, runId: string)
    requires Enabled(s, a) && RunGone(s, runId) && forall c :: !MayMint(s, c, runId)
    ensures RunGone(Apply(s, a), runId)
  {
    hide Publish;
    assert a.Finish? ==> !MayMint(s, a.client, runId);
  }

  lemma NoMinterStep(s: System, a: Action, runId: string)
    requires Enabled(s, a) && !CallsRun(a, runId)
    requires RunGone(s, runId) && forall c :: !MayMint(s, c, runId)
    ensures RunGone(Apply(s, a), runId) && forall c :: !MayMint(Apply(s, a), c, runId)
  {
    NoMinterKeepsGone(s, a, runId);
    hide Enabled, Apply, MayMint, RunGone;
    forall c ensures !MayMint(Apply(s, a), c, runId) {
      if MayMint(Apply(s, a), c, runId) { NoNewMinter(s, a, runId, c); }
    }
  }

  lemma {:induction false} NoMinterStays(trace: seq<System>, actions: seq<Action>, runId: string)
    requires trace != [] && Continues(trace[0], trace, actions) && forall a :: a in actions ==> !CallsRun(a, runId)
    requires RunGone(trace[0], runId) && forall c :: !MayMint(trace[0], c, runId)
    ensures RunGone(trace[|actions|], runId)
    decreases |actions|
  {
    hide Enabled, Apply, MayMint, RunGone, CallsRun;
    if actions != [] {
      assert actions[0] in actions;
      NoMinterStep(trace[0], actions[0], runId);
      assert trace[1..][0] == trace[1];
      NoMinterStays(trace[1..], actions[1..], runId);
    }
  }

  // ---- somebody may mint: the run can come back ----

  /** A uuid that was not drawn yet. */
  lemma FreshExists(minted: seq<Birth>) returns (id: Uuid)
    ensures forall i :: 0 <= i < |minted| ==> minted[i].instance.instanceId < id
  {
    if minted == [] {
      id := 0;
    } else {
      var rest := FreshExists(minted[1..]);
      var first := minted[0].instance.instanceId + 1;
      id := if rest < first then first else rest;
      forall i | 0 <= i < |minted| ensures minted[i].instance.instanceId < id {
        if i > 0 { assert minted[1..][i - 1] == minted[i]; }
      }
    }
  }

  /** The way back to an instance: get rid of the lock holder, take the lock, publish, store. */
  function Rank(s: System, c: nat): nat
    requires c in s.clients
  {
    if s.clients[c].Published? then 0
    else if s.clients[c].LockHeld? then 1
    else if s.clients[c].req.Pair() !in s.locks then 2
    else 3
  }

  lemma MintStep(s: System, c: nat, runId: string) returns (a: Action)
    requires LocksInv(s) && MayMint(s, c, runId) && !s.clients[c].Published?
    ensures Enabled(s, a) && !a.Call? && LocksInv(Apply(s, a))
    ensures MayMint(Apply(s, a), c, runId) && Rank(Apply(s, a), c) < Rank(s, c)
  {
    a := if s.clients[c].LockHeld? then PublishKey(c)
         else if s.clients[c].req.Pair() !in s.locks then Acquire(c)
         else Cancel(s.locks[s.clients[c].req.Pair()]);
    StepLocks(s, a);
  }

  lemma ContinuesCons(s: System, a: Action, trace: seq<System>, actions: seq<Action>)
    requires Enabled(s, a) && Continues(Apply(s, a), trace, actions)
    ensures Continues(s, [s] + trace, [a] + actions)
    ensures ([s] + trace)[|[a] + actions|] == trace[|actions|]
  {
    hide Enabled, Apply;
    var t, b := [s] + trace, [a] + actions;
    forall i | 0 <= i < |b| ensures Enabled(t[i], b[i]) && t[i + 1] == Apply(t[i], b[i]) {
      if i > 0 {
        assert t[i] == trace[i - 1] && b[i] == actions[i - 1] && t[i + 1] == trace[i - 1 + 1];
      }
    }
  }

  lemma {:induction false} MinterMints(s: System, c: nat, runId: string)
    returns (trace: seq<System>, actions: seq<Action>)
    requires LocksInv(s) && MayMint(s, c, runId)
    ensures Continues(s, trace, actions) && (forall a :: a in actions ==> !a.Call?)
    ensures !RunGone(trace[|actions|], runId)
    decreases Rank(s, c)
  {
    var a: Action;
    if s.clients[c].Published? {
      var id := FreshExists(s.minted);
      a := Finish(c, id, 0, "");
      var s' := Apply(s, a);
      assert id in s'.store.instances && s'.store.instances[id].runId == runId;
      trace, actions := [s'], [];
    } else {
      a := MintStep(s, c, runId);
      trace, actions := MinterMints(Apply(s, a), c, runId);
    }
    ContinuesCons(s, a, trace, actions);
    trace, actions := [s] + trace, [a] + actions;
  }

  /**
   * A disposal is final, as long as nobody calls `admit` for the run again, exactly when no unfinished call
   * of the run owns its key or finds it free.
   */
  lemma DisposalIsFinalExactly(trace: seq<System>, actions: seq<Action>, i: nat, runId: string)
    requires IsRun(trace, actions) && i < |actions| && actions[i] == DisposeRun(runId)
    ensures StaysGone(trace[i + 1], runId) <==> forall c :: !MayMint(trace[i], c, runId)
  {
    var s := trace[i + 1];
    InvAlways(trace, actions, i + 1);
    assert RunGone(s, runId) && forall c :: MayMint(s, c, runId) <==> MayMint(trace[i], c, runId);
    hide Inv, Apply, Enabled, MayMint, RunGone;
    if forall c :: !MayMint(trace[i], c, runId) {
      forall t, next | Continues(s, t, next) && (forall a :: a in next ==> !CallsRun(a, runId))
        ensures RunGone(t[|next|], runId) {
        NoMinterStays(t, next, runId);
      }
    } else {
      var c :| MayMint(trace[i], c, runId);
      assert LocksInv(s) by { InvLocks(s); }
      var t, next := MinterMints(s, c, runId);
      assert forall a :: a in next ==> !CallsRun(a, runId);
      assert !RunGone(t[|next|], runId);
    }
  }

  lemma InvLocks(s: System)
    requires Inv(s)
    ensures LocksInv(s)
  {
  }

  // ---- a spent key ----

  lemma Extend(trace: seq<System>, actions: seq<Action>, a: Action)
    requires IsRun(trace, actions) && Enabled(trace[|actions|], a)
    ensures IsRun(trace + [Apply(trace[|actions|], a)], actions + [a])
  {
    hide Enabled, Apply, Init;
  }

  /** A key that is lost raises KeyError for whoever admits with it again, whatever happened before. */
  lemma LostKeyRaises(
    trace: seq<System>, actions: seq<Action>, c: nat, req: Request, id: Uuid, now: Time, attempt: string)
    requires IsRun(trace, actions)
    requires var s := trace[|actions|];
      Enabled(s, Call(c, req)) && req.Pair() !in s.locks && FreshId(s, id)
    ensures var s := trace[|actions|];
      var s' := AdmitSteps(s, c, req, id, now, attempt);
      req.spawnKey in s.lost.All() && req.spawnKey in s.effects && s.effects[req.spawnKey] == req.AsPayload() ==>
        c in s'.clients && s'.clients[c] == Raised(req, KeyError)
  {
    InvAlways(trace, actions, |actions|);
    StepsRefineAdmit(trace[|actions|], c, req, id, now, attempt);
    hide AdmitSteps, Apply, Enabled, Init;
  }

  /** Admit, dispose, admit again: the second call with the key raises KeyError. */
  lemma DisposedKeyRaises(req: Request, now: Time, attempt: string) returns (trace: seq<System>, actions: seq<Action>)
    ensures IsRun(trace, actions) && |actions| == 9 && actions[4] == DisposeRun(req.runId)
    ensures trace[9].clients == map[0 := Returned(req, Mint(EMPTY, req, 0, now, attempt)), 1 := Raised(req, KeyError)]
  {
    hide Apply, AdmitSteps, Commit, Dispose;
    var s0 := System(EMPTY, map[], map[], map[], [], Lost({}, {}, {}, {}));
    assert IsRun([s0], []);
    hide IsRun;
    trace, actions := AdmitRun(s0, [s0], [], 0, req, 0, now, attempt);
    FirstAdmit(req, now, attempt);
    var s4 := trace[4];
    DisposedStore(s4, req, now, attempt);
    Extend(trace, actions, DisposeRun(req.runId));
    var s5 := Apply(s4, DisposeRun(req.runId));
    trace, actions := trace + [s5], actions + [DisposeRun(req.runId)];
    SecondAdmit(s5, req, now, attempt);
    trace, actions := AdmitRun(s5, trace, actions, 1, req, 1, now, attempt);
  }

  lemma FirstAdmit(req: Request, now: Time, attempt: string)
    ensures
      var s0 := System(EMPTY, map[], map[], map[], [], Lost({}, {}, {}, {}));
      var x := Mint(EMPTY, req, 0, now, attempt);
      AdmitSteps(s0, 0, req, 0, now, attempt) ==
        System(Commit(EMPTY, req, 0, now, attempt), map[req.spawnKey := req.AsPayload()], map[],
               map[0 := Returned(req, x)], [Birth(req.spawnKey, x)], Lost({}, {}, {}, {}))
  {
  }

  lemma SecondAdmit(s: System, req: Request, now: Time, attempt: string)
    requires s.store.byKey == map[] && s.locks == map[] && 1 !in s.clients && FreshId(s, 1)
    requires req.spawnKey in s.effects && s.effects[req.spawnKey] == req.AsPayload()
    ensures AdmitSteps(s, 1, req, 1, now, attempt).clients == s.clients[1 := Raised(req, KeyError)]
  {
  }

  lemma DisposedStore(s: System, req: Request, now: Time, attempt: string)
    requires s.store == Commit(EMPTY, req, 0, now, attempt)
    ensures var s' := Apply(s, DisposeRun(req.runId));
      s'.store.byKey == map[] && s'.clients == s.clients && s'.effects == s.effects && s'.locks == s.locks
      && s'.minted == s.minted
  {
  }

  /** The four steps of one uninterrupted `admit` of a key that is free or already stored with this payload. */
  lemma AdmitRun(s: System, trace: seq<System>, actions: seq<Action>, c: nat, req: Request, id: Uuid, now: Time,
                 attempt: string)
    returns (longer: seq<System>, more: seq<Action>)
    requires IsRun(trace, actions) && trace[|actions|] == s && c !in s.clients && req.Pair() !in s.locks
    requires FreshId(s, id) && (req.spawnKey in s.effects ==> s.effects[req.spawnKey] == req.AsPayload())
    ensures IsRun(longer, more) && |more| == |actions| + 4
    ensures trace <= longer && actions <= more
    ensures longer[|more|] == AdmitSteps(s, c, req, id, now, attempt)
  {
    var s1 := Apply(s, Call(c, req));
    var s2 := Apply(s1, Acquire(c));
    var s3 := Apply(s2, PublishKey(c));
    var s4 := Apply(s3, Finish(c, id, now, attempt));
    Extend(trace, actions, Call(c, req));
    Extend(trace + [s1], actions + [Call(c, req)], Acquire(c));
    Extend(trace + [s1] + [s2], actions + [Call(c, req)] + [Acquire(c)], PublishKey(c));
    Extend(trace + [s1] + [s2] + [s3], actions + [Call(c, req)] + [Acquire(c)] + [PublishKey(c)],
           Finish(c, id, now, attempt));
    longer := trace + [s1] + [s2] + [s3] + [s4];
    more := actions + [Call(c, req)] + [Acquire(c)] + [PublishKey(c)] + [Finish(c, id, now, attempt)];
  }
}
