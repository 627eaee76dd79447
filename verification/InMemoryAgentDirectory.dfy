/** `InMemoryAgentDirectory` with its dictionaries as fields, used by one caller at a time. */
module AgentDirectories {
  import opened Sequences
  import opened Identity
  import opened EffectSink
  import opened Directory

  class InMemoryAgentDirectory {
    const effectSink: InMemoryIdempotentEffectSink<Payload>
    var instances: map<Uuid, AgentInstance>
    var order: seq<Uuid>
    var instanceBySpawnKey: map<string, Uuid>
    var spawnKeyByInstance: map<Uuid, string>
    var aliasIndex: map<(string, string), Uuid>
    var ordinals: map<(string, string), nat>

    ghost predicate Valid()
      reads this, effectSink
    {
      && Directory.Valid(Store())
      && AllNumbered(Store())
      && (forall k :: k in instanceBySpawnKey ==> k in effectSink.effects)
    }

    function Store(): Directory.Store
      reads this
    {
      Directory.Store(instances, order, instanceBySpawnKey, spawnKeyByInstance, aliasIndex, ordinals)
    }

    constructor (sink: InMemoryIdempotentEffectSink<Payload>)
      ensures effectSink == sink && Store() == EMPTY && Valid()
    {
      effectSink := sink;
      instances, order, instanceBySpawnKey := map[], [], map[];
      spawnKeyByInstance, aliasIndex, ordinals := map[], map[], map[];
    }

    method Admit(req: Request, freshId: Uuid, now: Time, attemptId: string)
      returns (r: Result<AgentInstance, AdmitError>)
      requires Valid() && freshId !in instances
      modifies this, effectSink
      ensures Valid()
      ensures (Store(), effectSink.effects, r) ==
              Directory.Admit(old(Store()), old(effectSink.effects), req, freshId, now, attemptId)
    {
      hide Directory.Valid, AllNumbered;
      var receipt := effectSink.PublishEffect(req.spawnKey, req.AsPayload());
      if receipt == Conflict { return Err(IdempotencyConflict); }
      if receipt == Replayed {
        if req.spawnKey !in instanceBySpawnKey || instanceBySpawnKey[req.spawnKey] !in instances {
          return Err(MissingInstance);
        }
        return Ok(instances[instanceBySpawnKey[req.spawnKey]]);
      }
      NextAliasUnused(Store(), req, freshId, now, attemptId);
      CommitValid(Store(), req, freshId, now, attemptId);
      CommitNumbered(Store(), req, freshId, now, attemptId);
      var pair := req.Pair();
      ordinals := ordinals[pair := (if pair in ordinals then ordinals[pair] else 0) + 1];
      var instance := AgentInstance(
        freshId, req.agentId, FormatDisplayName(req.agentId, ordinals[pair]), req.capabilities, req.taskId,
        req.runId, Queued, now, attemptId, None, None, req.nodeId, req.councilMemberSlot,
        req.parentInstanceId, None, req.replacesId);
      instances := instances[freshId := instance];
      order := order + [freshId];
      instanceBySpawnKey := instanceBySpawnKey[req.spawnKey := freshId];
      spawnKeyByInstance := spawnKeyByInstance[freshId := req.spawnKey];
      aliasIndex := aliasIndex[(req.taskId, instance.displayName) := freshId];
      return Ok(instance);
    }

    method Get(ref: Ref, taskId: string) returns (r: Option<AgentInstance>)
      requires Valid()
      ensures r.Some? ==> r.value in instances.Values && Named(r.value, ref, taskId)
      ensures r.None? ==> forall x :: x in instances.Values ==> !Named(x, ref, taskId)
    {
      forall x ensures Lookup(Store(), ref, taskId) == Some(x) <==> x in instances.Values && Named(x, ref, taskId) {
        LookupIsScan(Store(), ref, taskId, x);
      }
      match ref
      case ById(id) =>
        if id in instances && instances[id].taskId == taskId { return Some(instances[id]); }
        return None;
      case ByAlias(name) =>
        if (taskId, name) !in aliasIndex || aliasIndex[(taskId, name)] !in instances { return None; }
        return Some(instances[aliasIndex[(taskId, name)]]);
    }

    method List(taskId: string, status: Option<Status>) returns (r: seq<AgentInstance>)
      requires Valid()
      ensures r == Listing(Store(), taskId, status)
    {
      var matches: seq<AgentInstance> := [];
      ghost var scan := Scan(Store());
      for i := 0 to |order|
        invariant matches == Filter(scan[..i], Wanted(taskId, status))
      {
        FilterSnoc(scan, i, Wanted(taskId, status));
        assert order[i] in order;
        var instance := instances[order[i]];
        if instance.taskId == taskId && (status == None || Some(instance.status) == status) {
          matches := matches + [instance];
        }
      }
      assert scan[..|order|] == scan;
      return Sort(matches, Earlier());
    }

    method Transition(instanceId: Uuid, taskId: string, status: Status, attemptId: Option<string>, now: Time)
      returns (r: Result<AgentInstance, MoveError>)
      requires Valid()
      modifies this
      ensures Valid()
      ensures (Store(), r) == Directory.Transition(old(Store()), instanceId, taskId, status, attemptId, now)
    {
      hide Directory.Valid, AllNumbered;
      if instanceId !in instances || instances[instanceId].taskId != taskId { return Err(NoSuchInstance); }
      var current := instances[instanceId];
      if status != current.status && !Legal(current.status, status) { return Err(InvalidTransition); }
      TransitionValid(Store(), instanceId, taskId, status, attemptId, now);
      TransitionNumbered(Store(), instanceId, taskId, status, attemptId, now);
      var terminalAt := if Terminal(status) then Some(now) else current.terminalAt;
      var updated := AgentInstance(
        current.instanceId, current.agentId, current.displayName, current.capabilities, current.taskId,
        current.runId, status, current.createdAt,
        if attemptId.Some? && attemptId.value != "" then attemptId.value else current.attemptId,
        current.tenantId, current.projectId, current.nodeId, current.councilMemberSlot,
        current.parentInstanceId, terminalAt, current.replacesId);
      instances := instances[instanceId := updated];
      return Ok(updated);
    }

    method Dispose(runId: string)
      requires Valid()
      modifies this
      ensures Valid()
      ensures Store() == Directory.Dispose(old(Store()), runId)
    {
      hide Directory.Valid, AllNumbered, Ordered, Without, Pop, Elements, Distinct;
      ghost var before := Store();
      DisposeValid(before, runId);
      WithoutNothing(before);
      var stale := Stale(runId);
      assert stale[..0] == [];
      for i := 0 to |stale|
        invariant Store() == Without(before, Elements(stale[..i]))
      {
        ElementsSnoc(stale, i);
        WithoutStep(before, Elements(stale[..i]), stale[i]);
        PopRecord(stale[i]);
      }
      assert stale[..|stale|] == stale;
    }

    /** The body of the loop in `dispose`: one instance is gone from every map, found from either side. */
    method PopRecord(id: Uuid)
      requires Directory.Valid(Store()) && id in instances
      modifies this
      ensures Directory.Valid(Store()) && Store() == Without(old(Store()), {id})
    {
      hide Directory.Valid, Without;
      ghost var before := Store();
      PopIsWithout(before, id);
      WithoutValid(before, {id});
      var instance := instances[id];
      instances := instances - {id};
      order := Filter(order, Outside({id}));
      if id in spawnKeyByInstance {
        var spawnKey := spawnKeyByInstance[id];
        spawnKeyByInstance := spawnKeyByInstance - {id};
        instanceBySpawnKey := instanceBySpawnKey - {spawnKey};
      }
      aliasIndex := aliasIndex - {(instance.taskId, instance.displayName)};
      assert Store() == Pop(before, id);
    }

    /** The list comprehension at the head of `dispose`. */
    method Stale(runId: string) returns (stale: seq<Uuid>)
      requires Ordered(Store())
      ensures Distinct(stale)
      ensures Elements(stale) == OfRun(Store(), runId)
    {
      hide Ordered, Elements, OfRun, Distinct;
      StaleIsRun(Store(), runId);
      stale := [];
      for i := 0 to |order|
        invariant stale == Filter(order[..i], InRun(instances, runId))
      {
        FilterSnoc(order, i, InRun(instances, runId));
        if instances[order[i]].runId == runId { stale := stale + [order[i]]; }
      }
      assert order[..|order|] == order;
    }
  }
}
