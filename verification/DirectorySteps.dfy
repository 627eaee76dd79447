/** What single steps of the directory protocol change: moves, disposals, and the keys that are lost. */
module DirectorySteps {
  import opened Sequences
  import opened Identity
  import opened Directory
  import opened AdmissionProtocol

  /** Between any other steps, a move of the table changes its record, and no other record, call, lock or key. */
  lemma MoveTakesEffect(s: System, id: Uuid, taskId: string, status: Status, attempt: Option<string>, now: Time)
    requires id in s.store.instances && s.store.instances[id].taskId == taskId
    requires s.store.instances[id].status == status || (s.store.instances[id].status, status) in MOVES
    ensures
      var s' := Apply(s, Move(id, taskId, status, attempt, now));
      && id in s'.store.instances && s'.store.instances[id].status == status
      && s'.store.instances.Keys == s.store.instances.Keys
      && (forall i :: i in s.store.instances && i != id ==> s'.store.instances[i] == s.store.instances[i])
      && s' == s.(store := s.store.(instances := s'.store.instances))
  {
  }

  /** A disposal at any moment takes the run's records and their keys, and touches no call, lock or counter. */
  lemma DisposalTakesEffect(s: System, runId: string)
    ensures
      var s' := Apply(s, DisposeRun(runId));
      && (forall i :: i in s'.store.instances <==> i in s.store.instances && s.store.instances[i].runId != runId)
      && (forall i :: i in s'.store.instances ==> s'.store.instances[i] == s.store.instances[i])
      && (forall k :: k in s'.store.byKey <==> k in s.store.byKey && s.store.byKey[k] !in OfRun(s.store, runId))
      && (forall k :: k in s'.store.byKey ==> s'.store.byKey[k] == s.store.byKey[k])
      && s' == s.(store := s'.store, lost := s'.lost) && s'.store.ordinals == s.store.ordinals
  {
  }

  /** A key is lost by a disposal of its run, a cancellation after the publish that created it, or somebody else. */
  lemma LosesKeyExactly(s: System, a: Action, key: string)
    requires Enabled(s, a)
    ensures
      var lost := Apply(s, a).lost;
      && lost.preexisting == s.lost.preexisting
      && (key in lost.disposed <==>
            || key in s.lost.disposed
            || (a.DisposeRun? && key in s.store.byKey && s.store.byKey[key] in s.store.instances
                && s.store.instances[s.store.byKey[key]].runId == a.runId))
      && (key in lost.cancelled <==>
            || key in s.lost.cancelled
            || (a.Cancel? && s.clients[a.client].Published? && s.clients[a.client].created
                && s.clients[a.client].req.spawnKey == key))
      && (key in lost.foreign <==>
            key in s.lost.foreign || (a.ForeignPublish? && a.key == key && key !in s.effects))
  {
  }
}
