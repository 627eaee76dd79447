/** The records of `src/cemaf/agents/directory.py` as one value, and what each operation makes of them. */
module Directory {
  import opened Sequences
  import opened Text
  import opened Identity
  import opened EffectSink

  /** The arguments of `admit`. */
  datatype Request = Request(
    spawnKey: string, agentId: string, taskId: string, runId: string, nodeId: Option<string>,
    councilMemberSlot: Option<string>, parentInstanceId: Option<Uuid>,
    capabilities: set<string>, replacesId: Option<Uuid>)
  {
    /** What the sink compares on a replay; the capabilities are not part of it. */
    function AsPayload(): Payload {
      Payload(agentId, taskId, runId, nodeId, councilMemberSlot, parentInstanceId, replacesId)
    }

    function Pair(): (string, string) { (agentId, taskId) }
  }

  /** What the sink stores: the payload of an `admit`, or whatever other users of the sink publish. */
  datatype Payload =
    | Payload(
        agentId: string, taskId: string, runId: string, nodeId: Option<string>,
        councilMemberSlot: Option<string>, parentInstanceId: Option<Uuid>, replacesId: Option<Uuid>)
    | OtherJson(text: string)

  datatype Ref = ById(id: Uuid) | ByAlias(name: string)

  datatype AdmitError = IdempotencyConflict | MissingInstance
  datatype MoveError = NoSuchInstance | InvalidTransition
  datatype Result<+T, +E> = Ok(value: T) | Err(error: E)

  /** `order` is the iteration order of the `instances` dictionary: Python keeps insertion order. */
  datatype Store = Store(
    instances: map<Uuid, AgentInstance>, order: seq<Uuid>,
    byKey: map<string, Uuid>, keyOf: map<Uuid, string>,
    aliases: map<(string, string), Uuid>, ordinals: map<(string, string), nat>)

  const EMPTY := Store(map[], [], map[], map[], map[], map[])

  function AliasOf(x: AgentInstance): (string, string) { (x.taskId, x.displayName) }

  /** The two spawn key maps undo each other. */
  ghost predicate KeysAgree(byKey: map<string, Uuid>, keyOf: map<Uuid, string>) {
    && (forall k :: k in byKey ==> byKey[k] in keyOf && keyOf[byKey[k]] == k)
    && (forall id :: id in keyOf ==> keyOf[id] in byKey && byKey[keyOf[id]] == id)
  }

  /** The alias index undoes the aliases that the records carry. */
  ghost predicate AliasesAgree(aliases: map<(string, string), Uuid>, instances: map<Uuid, AgentInstance>) {
    && (forall a :: a in aliases ==> aliases[a] in instances && AliasOf(instances[aliases[a]]) == a)
    && (forall id :: id in instances ==> AliasOf(instances[id]) in aliases && aliases[AliasOf(instances[id])] == id)
  }

  /** A record sits under its own id; a terminal time is stamped exactly on terminal records. */
  predicate WellFormed(id: Uuid, x: AgentInstance) {
    x.instanceId == id && (x.terminalAt.Some? <==> Terminal(x.status))
  }

  ghost predicate Ordered(st: Store) {
    Distinct(st.order) && forall id :: id in st.order <==> id in st.instances
  }

  ghost predicate Records(st: Store) {
    forall id :: id in st.instances ==> WellFormed(id, st.instances[id])
  }

  /** The four maps agree. */
  ghost predicate Valid(st: Store) {
    && Ordered(st)
    && Records(st)
    && st.keyOf.Keys == st.instances.Keys
    && KeysAgree(st.byKey, st.keyOf)
    && AliasesAgree(st.aliases, st.instances)
  }

  // ---- admit ----

  /** The ordinal counter is a `defaultdict(int)`. */
  function OrdinalOf(st: Store, pair: (string, string)): nat {
    if pair in st.ordinals then st.ordinals[pair] else 0
  }

  function Mint(st: Store, req: Request, id: Uuid, now: Time, attempt: string): AgentInstance {
    AgentInstance(id, req.agentId, FormatDisplayName(req.agentId, OrdinalOf(st, req.Pair()) + 1),
                  req.capabilities, req.taskId, req.runId, Queued, now, attempt, None, None,
                  req.nodeId, req.councilMemberSlot, req.parentInstanceId, None, req.replacesId)
  }

  function Commit(st: Store, req: Request, id: Uuid, now: Time, attempt: string): Store {
    var x := Mint(st, req, id, now, attempt);
    Store(st.instances[id := x], st.order + [id], st.byKey[req.spawnKey := id], st.keyOf[id := req.spawnKey],
          st.aliases[AliasOf(x) := id], st.ordinals[req.Pair() := OrdinalOf(st, req.Pair()) + 1])
  }

  /** `self._instances[self._instance_by_spawn_key[key]]`, with the KeyError as a value. */
  function Replay(st: Store, key: string): Result<AgentInstance, AdmitError> {
    if key in st.byKey && st.byKey[key] in st.instances then Ok(st.instances[st.byKey[key]]) else Err(MissingInstance)
  }

  /** One `admit` that nothing interrupts. */
  function Admit(st: Store, effects: map<string, Payload>, req: Request, id: Uuid, now: Time, attempt: string)
    : (Store, map<string, Payload>, Result<AgentInstance, AdmitError>)
  {
    var (published, receipt) := Publish(effects, req.spawnKey, req.AsPayload());
    match receipt
    case Conflict => (st, published, Err(IdempotencyConflict))
    case Replayed => (st, published, Replay(st, req.spawnKey))
    case Created => (Commit(st, req, id, now, attempt), published, Ok(Mint(st, req, id, now, attempt)))
  }

  /** An admission under a new key, field by field: what it returns, and what it stores where. */
  lemma AdmissionReturns(
    st: Store, effects: map<string, Payload>, req: Request, id: Uuid, now: Time, attempt: string)
    requires req.spawnKey !in effects
    ensures
      var (st', effects', r) := Admit(st, effects, req, id, now, attempt);
      var pair := (req.agentId, req.taskId);
      var n := (if pair in st.ordinals then st.ordinals[pair] else 0) + 1;
      && r.Ok?
      && var x := r.value;
      && x.instanceId == id && x.agentId == req.agentId && x.displayName == req.agentId + "-" + Decimal(n)
      && x.capabilities == req.capabilities && x.taskId == req.taskId && x.runId == req.runId
      && x.status == Queued && x.createdAt == now && x.attemptId == attempt
      && x.tenantId == None && x.projectId == None
      && x.nodeId == req.nodeId && x.councilMemberSlot == req.councilMemberSlot
      && x.parentInstanceId == req.parentInstanceId && x.terminalAt == None && x.replacesId == req.replacesId
      && st'.instances == st.instances[id := x] && st'.order == st.order + [id]
      && st'.byKey == st.byKey[req.spawnKey := id] && st'.keyOf == st.keyOf[id := req.spawnKey]
      && st'.aliases == st.aliases[(req.taskId, x.displayName) := id] && st'.ordinals == st.ordinals[pair := n]
      && effects'.Keys == effects.Keys + {req.spawnKey}
  {
  }

  /** What a second call has to agree on with the first; its capabilities may differ. */
  predicate SameSpawn(a: Request, b: Request) {
    && a.agentId == b.agentId && a.taskId == b.taskId && a.runId == b.runId && a.nodeId == b.nodeId
    && a.councilMemberSlot == b.councilMemberSlot && a.parentInstanceId == b.parentInstanceId
    && a.replacesId == b.replacesId
  }

  /** A second call with the key gets the first one's instance, or a conflict if it disagrees with the first. */
  lemma SecondAdmitExactly(
    st: Store, effects: map<string, Payload>, a: Request, b: Request, id: Uuid, now: Time, attempt: string,
    id2: Uuid, now2: Time, attempt2: string)
    requires a.spawnKey == b.spawnKey && a.spawnKey !in effects
    ensures
      var (st1, effects1, first) := Admit(st, effects, a, id, now, attempt);
      Admit(st1, effects1, b, id2, now2, attempt2) ==
        (st1, effects1, if SameSpawn(a, b) then first else Err(IdempotencyConflict))
  {
    hide Mint;
  }

  /** The alias carries an ordinal that its pair's counter has reached. */
  ghost predicate Numbered(st: Store, x: AgentInstance) {
    exists n: nat :: n <= OrdinalOf(st, (x.agentId, x.taskId)) && x.displayName == FormatDisplayName(x.agentId, n)
  }

  ghost predicate AllNumbered(st: Store) {
    forall id :: id in st.instances ==> Numbered(st, st.instances[id])
  }

  /** Counters only grow, so the next alias is new even after every earlier holder was disposed. */
  lemma NextAliasUnused(st: Store, req: Request, id: Uuid, now: Time, attempt: string)
    requires Valid(st) && AllNumbered(st)
    ensures AliasOf(Mint(st, req, id, now, attempt)) !in st.aliases
  {
    var a := AliasOf(Mint(st, req, id, now, attempt));
    if a in st.aliases {
      var x := st.instances[st.aliases[a]];
      assert Numbered(st, x);
      var n: nat :| n <= OrdinalOf(st, (x.agentId, x.taskId)) && x.displayName == FormatDisplayName(x.agentId, n);
      DisplayNameInjective(x.agentId, n, req.agentId, OrdinalOf(st, req.Pair()) + 1);
    }
  }

  lemma CommitNumbered(st: Store, req: Request, id: Uuid, now: Time, attempt: string)
    requires AllNumbered(st)
    ensures AllNumbered(Commit(st, req, id, now, attempt))
  {
    var st' := Commit(st, req, id, now, attempt);
    assert Numbered(st', st'.instances[id]);
    forall i | i in st.instances && i != id ensures Numbered(st', st.instances[i]) {
      assert Numbered(st, st.instances[i]);
    }
  }

  lemma CommitKeys(byKey: map<string, Uuid>, keyOf: map<Uuid, string>, key: string, id: Uuid)
    requires KeysAgree(byKey, keyOf) && key !in byKey && id !in keyOf
    ensures KeysAgree(byKey[key := id], keyOf[id := key])
  {
  }

  lemma CommitAliases(
    aliases: map<(string, string), Uuid>, instances: map<Uuid, AgentInstance>, id: Uuid, x: AgentInstance)
    requires AliasesAgree(aliases, instances) && AliasOf(x) !in aliases && id !in instances
    ensures AliasesAgree(aliases[AliasOf(x) := id], instances[id := x])
  {
  }

  lemma CommitValid(st: Store, req: Request, id: Uuid, now: Time, attempt: string)
    requires Valid(st) && id !in st.instances && req.spawnKey !in st.byKey
    requires AliasOf(Mint(st, req, id, now, attempt)) !in st.aliases
    ensures Valid(Commit(st, req, id, now, attempt))
  {
    hide KeysAgree, AliasesAgree;
    CommitKeys(st.byKey, st.keyOf, req.spawnKey, id);
    CommitAliases(st.aliases, st.instances, id, Mint(st, req, id, now, attempt));
    assert Ordered(Commit(st, req, id, now, attempt)) by {
      assert id !in st.order;
    }
  }

  // ---- get and list ----

  function Lookup(st: Store, ref: Ref, taskId: string): Option<AgentInstance> {
    match ref
    case ById(id) =>
      if id in st.instances && st.instances[id].taskId == taskId then Some(st.instances[id]) else None
    case ByAlias(name) =>
      if (taskId, name) in st.aliases && st.aliases[(taskId, name)] in st.instances
      then Some(st.instances[st.aliases[(taskId, name)]]) else None
  }

  predicate Named(x: AgentInstance, ref: Ref, taskId: string) {
    x.taskId == taskId && match ref case ById(id) => x.instanceId == id case ByAlias(name) => x.displayName == name
  }

  /** Both ways of asking agree with a linear scan of the instances. */
  lemma LookupIsScan(st: Store, ref: Ref, taskId: string, x: AgentInstance)
    requires Valid(st)
    ensures Lookup(st, ref, taskId) == Some(x) <==> x in st.instances.Values && Named(x, ref, taskId)
  {
    if x in st.instances.Values {
      var id :| id in st.instances && st.instances[id] == x;
      assert WellFormed(id, x) && st.aliases[AliasOf(x)] == id;
    }
    if ref.ById? && ref.id in st.instances {
      assert WellFormed(ref.id, st.instances[ref.id]);
    }
  }

  function Scan(st: Store): seq<AgentInstance>
    requires forall id :: id in st.order ==> id in st.instances
  {
    seq(|st.order|, i requires 0 <= i < |st.order| => assert st.order[i] in st.order; st.instances[st.order[i]])
  }

  function Wanted(taskId: string, status: Option<Status>): AgentInstance -> bool {
    (x: AgentInstance) => x.taskId == taskId && (status == None || Some(x.status) == status)
  }

  function Earlier(): (AgentInstance, AgentInstance) -> bool {
    (x: AgentInstance, y: AgentInstance) => x.createdAt < y.createdAt
  }

  function Listing(st: Store, taskId: string, status: Option<Status>): seq<AgentInstance>
    requires forall id :: id in st.order ==> id in st.instances
  {
    Sort(Filter(Scan(st), Wanted(taskId, status)), Earlier())
  }

  lemma ScanIsInstances(st: Store)
    requires Valid(st)
    ensures forall x :: x in Scan(st) <==> x in st.instances.Values
  {
    forall x | x in st.instances.Values ensures x in Scan(st) {
      assert x.instanceId in st.order;
      var i :| 0 <= i < |st.order| && st.order[i] == x.instanceId;
      assert Scan(st)[i] == x;
    }
    forall x | x in Scan(st) ensures x in st.instances.Values {
      var i :| 0 <= i < |st.order| && Scan(st)[i] == x;
      assert st.order[i] in st.order;
    }
  }

  /** `list` returns exactly the matching records, oldest first, ties in admission order. */
  lemma ListingIsStableScan(st: Store, taskId: string, status: Option<Status>, at: Time)
    requires Valid(st)
    ensures forall x :: x in Listing(st, taskId, status) <==> x in st.instances.Values && Wanted(taskId, status)(x)
    ensures multiset(Listing(st, taskId, status)) == multiset(Filter(Scan(st), Wanted(taskId, status)))
    ensures SortedBy(Listing(st, taskId, status), Earlier())
    ensures var tied := (x: AgentInstance) => x.createdAt == at;
      Filter(Listing(st, taskId, status), tied) == Filter(Filter(Scan(st), Wanted(taskId, status)), tied)
  {
    var kept := Filter(Scan(st), Wanted(taskId, status));
    ScanIsInstances(st);
    hide Valid, Scan, Wanted;
    SortSorted(kept, Earlier());
    SortStable(kept, Earlier(), (x: AgentInstance) => x.createdAt == at);
  }

  /** A listing without its definitions: who is in it, and in which order. */
  lemma ListsExactly(st: Store, taskId: string, status: Option<Status>)
    requires Valid(st)
    ensures forall x :: x in Listing(st, taskId, status) <==>
      x in st.instances.Values && x.taskId == taskId && (status == None || status == Some(x.status))
    ensures var l := Listing(st, taskId, status);
      forall i, j :: 0 <= i < j < |l| ==> l[i].createdAt <= l[j].createdAt
  {
    ListingIsStableScan(st, taskId, status, 0);
    hide Listing, Valid;
    var l := Listing(st, taskId, status);
    forall i, j | 0 <= i < j < |l| ensures l[i].createdAt <= l[j].createdAt {
      assert !Earlier()(l[j], l[i]);
    }
  }

  /** While the clock does not run backwards, whoever is admitted last is listed last. */
  lemma AdmittedIsListedLast(
    st: Store, effects: map<string, Payload>, req: Request, id: Uuid, now: Time, attempt: string,
    status: Option<Status>)
    requires Valid(st) && id !in st.instances && req.spawnKey !in effects
    requires forall i :: i in st.instances ==> st.instances[i].createdAt <= now
    ensures
      var (st', _, r) := Admit(st, effects, req, id, now, attempt);
      && r.Ok? && (forall i :: i in st'.order ==> i in st'.instances)
      && Listing(st', req.taskId, status) ==
           Listing(st, req.taskId, status) + if status == None || status == Some(Queued) then [r.value] else []
  {
    var (st', _, r) := Admit(st, effects, req, id, now, attempt);
    AdmittedIsScannedLast(st, effects, req, id, now, attempt);
    ScanIsInstances(st);
    hide Valid, Admit, Scan;
    var x, scan := r.value, Scan(st);
    assert forall y :: y in scan ==> y in st.instances.Values;
    ListedLast(scan, x, req.taskId, status);
  }

  lemma AdmittedIsScannedLast(
    st: Store, effects: map<string, Payload>, req: Request, id: Uuid, now: Time, attempt: string)
    requires Valid(st) && id !in st.instances && req.spawnKey !in effects
    ensures
      var (st', _, r) := Admit(st, effects, req, id, now, attempt);
      && r.Ok? && r.value.createdAt == now && r.value.taskId == req.taskId && r.value.status == Queued
      && (forall i :: i in st'.order ==> i in st'.instances) && Scan(st') == Scan(st) + [r.value]
  {
    assert id !in st.order;
  }

  lemma ListedLast(scan: seq<AgentInstance>, x: AgentInstance, taskId: string, status: Option<Status>)
    requires forall y :: y in scan ==> y.createdAt <= x.createdAt
    ensures
      var p, lt := Wanted(taskId, status), Earlier();
      Sort(Filter(scan + [x], p), lt) == Sort(Filter(scan, p), lt) + if p(x) then [x] else []
  {
    var p, lt := Wanted(taskId, status), Earlier();
    FilterConcat(scan, [x], p);
    FilterCons(x, [], p);
    assert [x] + [] == [x] && Filter([], p) == [];
    var kept := Filter(scan, p);
    hide Sort;
    SortLast(kept, x, lt);
    assert kept + [] == kept && Sort(kept, lt) + [] == Sort(kept, lt);
  }

  // ---- transition ----

  predicate Terminal(s: Status) { s.Completed? || s.Failed? || s.Cancelled? }

  /** The transition table. */
  predicate Legal(from: Status, to: Status) {
    match from
    case Queued => to.Queued? || to.Running? || to.Cancelled? || to.Failed?
    case Running => !to.Queued?
    case Waiting => !to.Queued?
    case _ => false
  }

  function Moved(x: AgentInstance, status: Status, attempt: Option<string>, now: Time): AgentInstance {
    x.(status := status,
       attemptId := if attempt.Some? && attempt.value != "" then attempt.value else x.attemptId,
       terminalAt := if Terminal(status) then Some(now) else x.terminalAt)
  }

  /** A same-status move skips the table, on a terminal record too. */
  function Transition(st: Store, id: Uuid, taskId: string, status: Status, attempt: Option<string>, now: Time)
    : (Store, Result<AgentInstance, MoveError>)
  {
    if id !in st.instances || st.instances[id].taskId != taskId then (st, Err(NoSuchInstance))
    else if status != st.instances[id].status && !Legal(st.instances[id].status, status) then
      (st, Err(InvalidTransition))
    else
      var x := Moved(st.instances[id], status, attempt, now);
      (st.(instances := st.instances[id := x]), Ok(x))
  }

  lemma ReplaceValid(st: Store, id: Uuid, x: AgentInstance)
    requires Valid(st) && id in st.instances && WellFormed(id, x) && AliasOf(x) == AliasOf(st.instances[id])
    ensures Valid(st.(instances := st.instances[id := x]))
  {
  }

  lemma TransitionValid(st: Store, id: Uuid, taskId: string, status: Status, attempt: Option<string>, now: Time)
    requires Valid(st)
    ensures Valid(Transition(st, id, taskId, status, attempt, now).0)
  {
    hide KeysAgree, AliasesAgree, Ordered;
    if Transition(st, id, taskId, status, attempt, now).1.Ok? {
      assert WellFormed(id, st.instances[id]);
      ReplaceValid(st, id, Moved(st.instances[id], status, attempt, now));
    }
  }

  lemma TransitionNumbered(st: Store, id: Uuid, taskId: string, status: Status, attempt: Option<string>, now: Time)
    requires AllNumbered(st)
    ensures AllNumbered(Transition(st, id, taskId, status, attempt, now).0)
  {
    var st' := Transition(st, id, taskId, status, attempt, now).0;
    forall i | i in st'.instances ensures Numbered(st', st'.instances[i]) {
      assert Numbered(st, st.instances[i]);
    }
  }

  /** The moves to another status, all of them. */
  const MOVES: set<(Status, Status)> := {
    (Queued, Running), (Queued, Cancelled), (Queued, Failed),
    (Running, Waiting), (Running, Completed), (Running, Failed), (Running, Cancelled),
    (Waiting, Running), (Waiting, Completed), (Waiting, Failed), (Waiting, Cancelled)}

  lemma MovesAreLegal(before: Status, after: Status)
    requires before != after
    ensures Legal(before, after) <==> (before, after) in MOVES
  {
  }

  /** A transition, field by field: which are accepted, and what becomes of the record. */
  lemma TransitionExactly(
    st: Store, id: Uuid, taskId: string, status: Status, attempt: Option<string>, now: Time)
    ensures
      var (st', r) := Transition(st, id, taskId, status, attempt, now);
      var known := id in st.instances && st.instances[id].taskId == taskId;
      && (r.Ok? <==> known && (st.instances[id].status == status || (st.instances[id].status, status) in MOVES))
      && (r == Err(NoSuchInstance) <==> !known)
      && (r == Err(InvalidTransition) <==> known && st.instances[id].status != status
                                           && (st.instances[id].status, status) !in MOVES)
      && (r.Err? ==> st' == st)
      && (r.Ok? ==>
            && st' == st.(instances := st.instances[id := r.value])
            && var before, x := st.instances[id], r.value;
            && x.status == status
            && x.terminalAt == (if status in {Completed, Failed, Cancelled} then Some(now) else before.terminalAt)
            && x.attemptId == (if attempt == None || attempt == Some("") then before.attemptId else attempt.value)
            && x.instanceId == before.instanceId && x.agentId == before.agentId && x.displayName == before.displayName
            && x.capabilities == before.capabilities && x.taskId == before.taskId && x.runId == before.runId
            && x.createdAt == before.createdAt && x.tenantId == before.tenantId && x.projectId == before.projectId
            && x.nodeId == before.nodeId && x.councilMemberSlot == before.councilMemberSlot
            && x.parentInstanceId == before.parentInstanceId && x.replacesId == before.replacesId)
  {
    if id in st.instances {
      if st.instances[id].status != status { MovesAreLegal(st.instances[id].status, status); }
    }
    hide Legal, MOVES;
  }

  /** A terminal record accepts its own status and nothing else, and is then stamped anew. */
  lemma TerminalIsRestamped(
    st: Store, id: Uuid, taskId: string, status: Status, attempt: Option<string>, now: Time)
    requires id in st.instances && st.instances[id].taskId == taskId && Terminal(st.instances[id].status)
    ensures var (st', r) := Transition(st, id, taskId, status, attempt, now);
      && (r.Ok? <==> status == st.instances[id].status)
      && (r.Ok? ==> st'.instances[id] == r.value && r.value.terminalAt == Some(now)
                    && r.value.Identity() == st.instances[id].Identity())
      && (r.Err? ==> st' == st && r.error == InvalidTransition)
  {
  }

  // ---- dispose ----

  function Outside(gone: set<Uuid>): Uuid -> bool { id => id !in gone }

  /** The records without the given instances: in all four maps, and no ordinal reset. */
  function Without(st: Store, gone: set<Uuid>): Store {
    Store(st.instances - gone,
          Filter(st.order, Outside(gone)),
          st.byKey - (set k | k in st.byKey && st.byKey[k] in gone),
          st.keyOf - gone,
          st.aliases - (set a | a in st.aliases && st.aliases[a] in gone),
          st.ordinals)
  }

  function OfRun(st: Store, runId: string): set<Uuid> {
    set id | id in st.instances && st.instances[id].runId == runId
  }

  function InRun(records: map<Uuid, AgentInstance>, runId: string): Uuid -> bool {
    id => id in records && records[id].runId == runId
  }

  lemma StaleIsRun(st: Store, runId: string)
    requires Ordered(st)
    ensures Distinct(Filter(st.order, InRun(st.instances, runId)))
    ensures Elements(Filter(st.order, InRun(st.instances, runId))) == OfRun(st, runId)
    ensures forall i :: 0 <= i < |st.order| ==> st.order[i] in st.instances
  {
    FilterDistinct(st.order, InRun(st.instances, runId));
  }

  function Dispose(st: Store, runId: string): Store { Without(st, OfRun(st, runId)) }

  lemma {:induction false} FilterDistinct<T(!new)>(s: seq<T>, p: T -> bool)
    requires Distinct(s)
    ensures Distinct(Filter(s, p))
  {
    if s != [] {
      assert Distinct(s[1..]);
      FilterDistinct(s[1..], p);
      assert s[0] !in s[1..];
    }
  }

  lemma WithoutValid(st: Store, gone: set<Uuid>)
    requires Valid(st)
    ensures Valid(Without(st, gone))
  {
    FilterDistinct(st.order, Outside(gone));
  }

  lemma WithoutNumbered(st: Store, gone: set<Uuid>)
    requires AllNumbered(st)
    ensures AllNumbered(Without(st, gone))
  {
    var st' := Without(st, gone);
    forall i | i in st'.instances ensures Numbered(st', st'.instances[i]) {
      assert Numbered(st, st.instances[i]);
    }
  }

  lemma {:induction false} FilterTwice(s: seq<Uuid>, a: set<Uuid>, b: set<Uuid>)
    ensures Filter(Filter(s, Outside(a)), Outside(b)) == Filter(s, Outside(a + b))
  {
    if s != [] {
      FilterTwice(s[1..], a, b);
      var head := if s[0] !in a then [s[0]] else [];
      FilterConcat(head, Filter(s[1..], Outside(a)), Outside(b));
    }
  }

  lemma ElementsSnoc(s: seq<Uuid>, i: nat)
    requires Distinct(s) && i < |s|
    ensures s[i] in Elements(s) && s[i] !in Elements(s[..i])
    ensures Elements(s[..i + 1]) == Elements(s[..i]) + {s[i]}
  {
    assert s[..i + 1] == s[..i] + [s[i]];
  }

  lemma {:induction false} FilterNothing(s: seq<Uuid>)
    ensures Filter(s, Outside({})) == s
  {
    if s != [] { FilterNothing(s[1..]); }
  }

  lemma WithoutNothing(st: Store)
    ensures Without(st, {}) == st && Elements<Uuid>([]) == {}
  {
    FilterNothing(st.order);
  }

  lemma WithoutTwice(st: Store, a: set<Uuid>, b: set<Uuid>)
    ensures Without(Without(st, a), b) == Without(st, a + b)
  {
    FilterTwice(st.order, a, b);
  }

  /** The pops of one iteration of the `dispose` loop. */
  function Pop(st: Store, id: Uuid): Store
    requires id in st.instances
  {
    var x := st.instances[id];
    var byKey := if id in st.keyOf then st.byKey - {st.keyOf[id]} else st.byKey;
    Store(st.instances - {id}, Filter(st.order, Outside({id})), byKey, st.keyOf - {id},
          st.aliases - {AliasOf(x)}, st.ordinals)
  }

  lemma PopKeys(st: Store, id: Uuid)
    requires KeysAgree(st.byKey, st.keyOf) && id in st.keyOf && id in st.instances
    ensures Pop(st, id).byKey == Without(st, {id}).byKey
  {
  }

  lemma PopAliases(st: Store, id: Uuid)
    requires AliasesAgree(st.aliases, st.instances) && id in st.instances
    ensures Pop(st, id).aliases == Without(st, {id}).aliases
  {
  }

  lemma PopIsWithout(st: Store, id: Uuid)
    requires Valid(st) && id in st.instances
    ensures Pop(st, id) == Without(st, {id})
  {
    hide KeysAgree, AliasesAgree, Ordered, Records;
    PopKeys(st, id);
    PopAliases(st, id);
  }

  lemma DisposeValid(st: Store, runId: string)
    requires Valid(st) && AllNumbered(st)
    ensures Ordered(st) && OfRun(st, runId) <= st.instances.Keys
    ensures Valid(Dispose(st, runId)) && AllNumbered(Dispose(st, runId))
    ensures Dispose(st, runId).byKey.Keys <= st.byKey.Keys
  {
    WithoutValid(st, OfRun(st, runId));
    WithoutNumbered(st, OfRun(st, runId));
  }

  /** One pop more: what is gone grows by one instance. */
  lemma WithoutStep(st: Store, gone: set<Uuid>, id: Uuid)
    requires Valid(st) && id in st.instances && id !in gone
    ensures Valid(Without(st, gone)) && id in Without(st, gone).instances
    ensures Without(Without(st, gone), {id}) == Without(st, gone + {id})
  {
    WithoutValid(st, gone);
    WithoutTwice(st, gone, {id});
  }

  lemma DisposeNothing(runId: string)
    ensures OfRun(EMPTY, runId) == {} && Dispose(EMPTY, runId) == EMPTY
  {
  }

  /** A spawn key is spent for good: admitted, disposed and admitted again, it finds no instance. */
  lemma DisposedKeyIsSpent(
    st: Store, effects: map<string, Payload>, req: Request, id: Uuid, now: Time, attempt: string,
    id2: Uuid, now2: Time, attempt2: string)
    requires Valid(st) && AllNumbered(st) && id !in st.instances
    requires req.spawnKey !in effects && req.spawnKey !in st.byKey
    ensures var (st1, effects1, _) := Admit(st, effects, req, id, now, attempt);
      Admit(Dispose(st1, req.runId), effects1, req, id2, now2, attempt2) ==
        (Dispose(st1, req.runId), effects1, Err(MissingInstance))
  {
    var (st1, effects1, r1) := Admit(st, effects, req, id, now, attempt);
    assert st1.byKey[req.spawnKey] == id && st1.instances[id].runId == req.runId;
  }

  /** Disposal takes one run out of every answer the directory gives, and nothing else. */
  lemma DisposeRemovesExactlyTheRun(st: Store, runId: string, ref: Ref, taskId: string, key: string)
    requires Valid(st)
    ensures var before := Lookup(st, ref, taskId);
      Lookup(Dispose(st, runId), ref, taskId) ==
        if before.Some? && before.value.runId == runId then None else before
    ensures var before := Replay(st, key);
      Replay(Dispose(st, runId), key) ==
        if before.Ok? && before.value.runId == runId then Err(MissingInstance) else before
    ensures Dispose(st, runId).ordinals == st.ordinals
  {
  }
}
