/** `src/cemaf/agents/selection.py`: the auction that picks an agent by capability, load and budget. */
module Selection {
  import opened Sequences
  import opened Text

  datatype Capability = Research | Summarize | Write | Library | Quality

  /** One element of an advertised collection: an enum member, a string, or anything else. */
  datatype Item = Member(capability: Capability) | Text(text: string) | Other

  /** `None` where the attribute is absent or of another type, a boolean load included. */
  datatype Agent = Agent(id: string, capabilities: Option<seq<Item>>, currentLoad: Option<real>)

  datatype BidContext = BidContext(capability: Capability, costUtilization: real, tokenUtilization: real)

  datatype Bid = Bid(
    agentId: string, score: real, capabilityMatch: real, loadFactor: real, budgetHeadroom: real)

  const DEFAULT_LOAD := 0.5
  const DEFAULT_MATCH := 0.3
  const FULL_MATCH := 1.0

  function Max(a: real, b: real): real { if b > a then b else a }

  function Clamp(value: real): (r: real)
    ensures 0.0 <= r <= 1.0 && (0.0 <= value <= 1.0 ==> r == value)
  {
    if value < 0.0 then 0.0 else if value > 1.0 then 1.0 else value
  }

  function Coerce(item: Item): Option<Capability> {
    match item
    case Member(c) => Some(c)
    case Text(t) =>
      if t == "research" then Some(Research)
      else if t == "summarize" then Some(Summarize)
      else if t == "write" then Some(Write)
      else if t == "library" then Some(Library)
      else if t == "quality" then Some(Quality)
      else None
    case Other => None
  }

  /** Only what can be read as a capability counts; everything else in the collection is dropped. */
  predicate Advertises(agent: Agent, c: Capability) {
    agent.capabilities.Some? && exists item :: item in agent.capabilities.value && Coerce(item) == Some(c)
  }

  method ReadCapabilities(agent: Agent) returns (r: Option<set<Capability>>)
    ensures r.None? <==> agent.capabilities.None?
    ensures r.Some? ==> forall c :: c in r.value <==> Advertises(agent, c)
  {
    if agent.capabilities.None? { return None; }
    var raw := agent.capabilities.value;
    var coerced: set<Capability> := {};
    for i := 0 to |raw|
      invariant forall c :: c in coerced <==> exists k :: 0 <= k < i && Coerce(raw[k]) == Some(c)
    {
      match Coerce(raw[i])
      case Some(c) => coerced := coerced + {c};
      case None =>
    }
    return Some(coerced);
  }

  function ReadLoad(agent: Agent): (r: real)
    ensures 0.0 <= r <= 1.0
  {
    match agent.currentLoad
    case None => DEFAULT_LOAD
    case Some(raw) => Clamp(raw)
  }

  function Headroom(ctx: BidContext): real {
    Clamp(1.0 - Max(Clamp(ctx.costUtilization), Clamp(ctx.tokenUtilization)))
  }

  function BidFor(agent: Agent, ctx: BidContext): Bid {
    var m := if Advertises(agent, ctx.capability) then FULL_MATCH else DEFAULT_MATCH;
    var load, budget := Clamp(1.0 - ReadLoad(agent)), Headroom(ctx);
    Bid(agent.id, Clamp(0.5 * m + 0.3 * load + 0.2 * budget), m, load, budget)
  }

  /** Descending by `(score, agent_id)`. */
  predicate Beats(x: Bid, y: Bid) {
    x.score > y.score || (x.score == y.score && Less(y.agentId, x.agentId))
  }

  function Bids(candidates: seq<Agent>, ctx: BidContext): (r: seq<Bid>)
    ensures |r| == |candidates|
  {
    Map((a: Agent) => BidFor(a, ctx), candidates)
  }

  function Select(candidates: seq<Agent>, ctx: BidContext): (r: Option<Bid>)
    ensures r == None <==> candidates == []
  {
    if candidates == [] then None
    else
      InsertFirst(Bids(candidates, ctx));
      Some(Sort(Bids(candidates, ctx), Beats)[0])
  }

  lemma InsertFirst(bids: seq<Bid>)
    requires bids != []
    ensures Sort(bids, Beats) != []
    ensures |bids| == 1 ==> Sort(bids, Beats)[0] == bids[0]
    ensures |bids| > 1 ==>
      var rest := Sort(bids[1..], Beats);
      rest != [] && Sort(bids, Beats)[0] == if Beats(rest[0], bids[0]) then rest[0] else bids[0]
  {
    if |bids| > 1 {
      InsertFirst(bids[1..]);
    } else {
      assert Sort(bids[1..], Beats) == [];
    }
  }

  // ---- what a score means ----

  /** The outer clamp never changes a score, so a score is the weighted sum. */
  lemma ScoreIsWeightedSum(agent: Agent, ctx: BidContext)
    ensures BidFor(agent, ctx).score ==
            0.5 * BidFor(agent, ctx).capabilityMatch + 0.3 * (1.0 - ReadLoad(agent)) + 0.2 * Headroom(ctx)
    ensures 0.15 <= BidFor(agent, ctx).score <= 1.0
  {
    hide Advertises;
  }

  /** Whatever loads are reported, an advertiser outbids everyone else by at least this margin. */
  lemma CapabilityMargin(a: Agent, b: Agent, ctx: BidContext)
    requires Advertises(a, ctx.capability) && !Advertises(b, ctx.capability)
    ensures BidFor(a, ctx).score >= BidFor(b, ctx).score + 0.05
  {
    ScoreIsWeightedSum(a, ctx);
    ScoreIsWeightedSum(b, ctx);
  }

  /** The weighted score is the order "capable first, then less loaded, then greater id". */
  lemma ScoreIsLexicographic(a: Agent, b: Agent, ctx: BidContext)
    ensures Beats(BidFor(a, ctx), BidFor(b, ctx)) <==> Outranks(a, b, ctx.capability)
  {
    hide Advertises;
    ScoreIsWeightedSum(a, ctx);
    ScoreIsWeightedSum(b, ctx);
  }

  predicate Outranks(a: Agent, b: Agent, c: Capability) {
    if Advertises(a, c) != Advertises(b, c) then Advertises(a, c)
    else if ReadLoad(a) != ReadLoad(b) then ReadLoad(a) < ReadLoad(b)
    else Less(b.id, a.id)
  }

  // ---- who wins ----

  /** The first candidate that no other outranks. */
  function Best(candidates: seq<Agent>, c: Capability): Agent
    requires candidates != []
  {
    if |candidates| == 1 then candidates[0]
    else
      var rest := Best(candidates[1..], c);
      if Outranks(rest, candidates[0], c) then rest else candidates[0]
  }

  /** The auction picks the best-ranked candidate; utilisation decides nothing but the score it reports. */
  lemma {:induction false} WinnerIsBest(candidates: seq<Agent>, ctx: BidContext)
    requires candidates != []
    ensures Select(candidates, ctx) == Some(BidFor(Best(candidates, ctx.capability), ctx))
  {
    hide BidFor, Outranks, Beats;
    var bids := Bids(candidates, ctx);
    InsertFirst(bids);
    if |candidates| > 1 {
      WinnerIsBest(candidates[1..], ctx);
      assert bids[1..] == Bids(candidates[1..], ctx);
      ScoreIsLexicographic(Best(candidates[1..], ctx.capability), candidates[0], ctx);
    }
  }

  lemma UtilisationDecidesNothing(candidates: seq<Agent>, ctx: BidContext, other: BidContext)
    requires candidates != [] && ctx.capability == other.capability
    ensures Select(candidates, ctx).value.agentId == Select(candidates, other).value.agentId
  {
    WinnerIsBest(candidates, ctx);
    WinnerIsBest(candidates, other);
  }

  lemma OutranksTransitive(x: Agent, y: Agent, z: Agent, c: Capability)
    requires !Outranks(x, y, c) && !Outranks(y, z, c)
    ensures !Outranks(x, z, c)
  {
    hide Advertises, ReadLoad;
    LessIsOrder();
  }

  lemma OutranksAsymmetric(x: Agent, y: Agent, c: Capability)
    requires Outranks(x, y, c)
    ensures !Outranks(y, x, c)
  {
    hide Advertises, ReadLoad;
    LessAsymmetric(x.id, y.id);
  }

  lemma {:induction false} BestIsMaximal(candidates: seq<Agent>, c: Capability)
    requires candidates != []
    ensures Best(candidates, c) in candidates
    ensures forall a :: a in candidates ==> !Outranks(a, Best(candidates, c), c)
  {
    hide Outranks;
    if |candidates| == 1 {
      if Outranks(candidates[0], candidates[0], c) { OutranksAsymmetric(candidates[0], candidates[0], c); }
    } else {
      var rest, best := Best(candidates[1..], c), Best(candidates, c);
      BestIsMaximal(candidates[1..], c);
      forall a | a in candidates ensures !Outranks(a, best, c) {
        if Outranks(rest, candidates[0], c) {
          OutranksAsymmetric(rest, candidates[0], c);
        } else if a in candidates[1..] {
          OutranksTransitive(a, rest, candidates[0], c);
        } else if Outranks(a, a, c) {
          OutranksAsymmetric(a, a, c);
        }
      }
    }
  }

  /** Whenever anyone advertises the capability, the winner does. */
  lemma CapableWins(candidates: seq<Agent>, ctx: BidContext)
    requires exists a :: a in candidates && Advertises(a, ctx.capability)
    ensures Select(candidates, ctx) == Some(BidFor(Best(candidates, ctx.capability), ctx))
    ensures Best(candidates, ctx.capability) in candidates
    ensures Advertises(Best(candidates, ctx.capability), ctx.capability)
  {
    WinnerIsBest(candidates, ctx);
    BestIsMaximal(candidates, ctx.capability);
    hide Advertises;
    var a :| a in candidates && Advertises(a, ctx.capability);
    assert !Outranks(a, Best(candidates, ctx.capability), ctx.capability);
  }

  lemma EquallyRanked(x: Agent, y: Agent, ctx: BidContext)
    requires !Outranks(x, y, ctx.capability) && !Outranks(y, x, ctx.capability)
    ensures x.id == y.id && BidFor(x, ctx) == BidFor(y, ctx)
  {
    hide Advertises, ReadLoad;
    LessTotal(x.id, y.id);
  }

  /** The winning bid does not depend on the order of the candidates. */
  lemma OrderDecidesNothing(candidates: seq<Agent>, shuffled: seq<Agent>, ctx: BidContext)
    requires multiset(candidates) == multiset(shuffled)
    ensures Select(candidates, ctx) == Select(shuffled, ctx)
  {
    hide Outranks;
    SameElements(candidates, shuffled);
    if candidates != [] {
      WinnerIsBest(candidates, ctx);
      WinnerIsBest(shuffled, ctx);
      BestIsMaximal(candidates, ctx.capability);
      BestIsMaximal(shuffled, ctx.capability);
      EquallyRanked(Best(candidates, ctx.capability), Best(shuffled, ctx.capability), ctx);
    }
  }

  lemma {:induction false} BestOfConcat(a: seq<Agent>, b: seq<Agent>, c: Capability)
    requires a != [] && b != []
    ensures Best(a + b, c) == if Outranks(Best(b, c), Best(a, c), c) then Best(b, c) else Best(a, c)
  {
    hide Outranks;
    assert (a + b)[1..] == a[1..] + b;
    if |a| == 1 {
      assert a[1..] + b == b;
    } else {
      BestOfConcat(a[1..], b, c);
      BestOfThree(a[0], Best(a[1..], c), Best(b, c), c);
    }
  }

  /** Folding from the right or pairing the first two picks the same of three. */
  lemma BestOfThree(x: Agent, y: Agent, z: Agent, c: Capability)
    ensures
      var yz := if Outranks(z, y, c) then z else y;
      var xy := if Outranks(y, x, c) then y else x;
      (if Outranks(yz, x, c) then yz else x) == (if Outranks(z, xy, c) then z else xy)
  {
    hide Outranks;
    if Outranks(z, y, c) {
      if Outranks(y, x, c) {
        if !Outranks(z, x, c) { OutranksAsymmetric(z, y, c); OutranksAsymmetric(y, x, c); Chain(z, y, x, c); }
      }
    } else if !Outranks(y, x, c) {
      OutranksTransitive(z, y, x, c);
    }
  }

  lemma Chain(z: Agent, y: Agent, x: Agent, c: Capability)
    requires Outranks(z, y, c) && Outranks(y, x, c)
    ensures Outranks(z, x, c)
  {
    hide Advertises, ReadLoad;
    LessIsOrder();
  }

  /** An auction over two groups is an auction between the groups' winners. */
  lemma SelectFromConcat(a: seq<Agent>, b: seq<Agent>, ctx: BidContext)
    requires a != [] && b != []
    ensures
      var x, y := Select(a, ctx).value, Select(b, ctx).value;
      Select(a + b, ctx) == Some(if Beats(y, x) then y else x)
  {
    hide Outranks, Beats, BidFor, Select, Best;
    var p, q := Best(a, ctx.capability), Best(b, ctx.capability);
    WinnerIsBest(a, ctx);
    WinnerIsBest(b, ctx);
    WinnerIsBest(a + b, ctx);
    BestOfConcat(a, b, ctx.capability);
    ScoreIsLexicographic(q, p, ctx);
  }

  lemma NotOutranked(w: Agent, a: Agent, load: Option<real>, c: Capability)
    requires !Outranks(w, a, c) && ReadLoad(a.(currentLoad := load)) <= ReadLoad(a)
    ensures !Outranks(w, a.(currentLoad := load), c)
  {
    hide ReadLoad;
  }

  lemma WinnerLighter(candidates: seq<Agent>, i: nat, load: Option<real>, ctx: BidContext)
    requires i < |candidates| && Select(candidates, ctx).value.agentId == candidates[i].id
    requires ReadLoad(candidates[i].(currentLoad := load)) <= ReadLoad(candidates[i])
    ensures
      var after := candidates[i := candidates[i].(currentLoad := load)];
      Select(after, ctx).value.agentId == candidates[i].id
  {
    hide Outranks, Best, ReadLoad, Select, Advertises;
    var c := ctx.capability;
    var lighter := candidates[i].(currentLoad := load);
    var after := candidates[i := lighter];
    var first, next := Best(candidates, c), Best(after, c);
    WinnerIsBest(candidates, ctx);
    WinnerIsBest(after, ctx);
    BestIsMaximal(candidates, c);
    BestIsMaximal(after, c);
    assert after[i] == lighter && lighter in after;
    var k :| 0 <= k < |after| && after[k] == next;
    if k != i {
      assert next == candidates[k] && next in candidates;
      if first == candidates[i] {
        NotOutranked(next, candidates[i], load, c);
        EquallyRanked(next, lighter, ctx);
      } else {
        var j :| 0 <= j < |candidates| && candidates[j] == first;
        assert after[j] == first;
        EquallyRanked(next, first, ctx);
      }
    }
  }

  // ---- the auction without its definitions ----

  /** A winner that reports less load still wins. */
  lemma LowerLoadStillWins(candidates: seq<Agent>, i: nat, x: real, y: real, ctx: BidContext)
    requires i < |candidates| && candidates[i].currentLoad == Some(y) && x <= y
    requires Select(candidates, ctx).value.agentId == candidates[i].id
    ensures
      var after := candidates[i := candidates[i].(currentLoad := Some(x))];
      Select(after, ctx).value.agentId == candidates[i].id
  {
    WinnerLighter(candidates, i, Some(x), ctx);
  }

  /** An agent advertises a capability by the member itself or by its name, and by nothing else. */
  lemma AdvertisesExactly(agent: Agent)
    requires agent.capabilities.Some?
    ensures
      var raw := agent.capabilities.value;
      && (Advertises(agent, Research) <==> Member(Research) in raw || Text("research") in raw)
      && (Advertises(agent, Summarize) <==> Member(Summarize) in raw || Text("summarize") in raw)
      && (Advertises(agent, Write) <==> Member(Write) in raw || Text("write") in raw)
      && (Advertises(agent, Library) <==> Member(Library) in raw || Text("library") in raw)
      && (Advertises(agent, Quality) <==> Member(Quality) in raw || Text("quality") in raw)
  {
    hide Advertises;
    AdvertisesBy(agent, Research, "research");
    AdvertisesBy(agent, Summarize, "summarize");
    AdvertisesBy(agent, Write, "write");
    AdvertisesBy(agent, Library, "library");
    AdvertisesBy(agent, Quality, "quality");
  }

  lemma AdvertisesBy(agent: Agent, c: Capability, name: string)
    requires agent.capabilities.Some? && forall t :: Coerce(Text(t)) == Some(c) <==> t == name
    ensures Advertises(agent, c) <==> Member(c) in agent.capabilities.value || Text(name) in agent.capabilities.value
  {
    assert Coerce(Member(c)) == Some(c) && Coerce(Text(name)) == Some(c);
    if Advertises(agent, c) {
      var item :| item in agent.capabilities.value && Coerce(item) == Some(c);
      assert item == Member(c) || item == Text(name);
    }
  }

  /** A bid whose agent reports a load between 0 and 1: the weighted sum of match, idleness and what is left. */
  lemma BidExactly(agent: Agent, x: real, ctx: BidContext)
    requires agent.currentLoad == Some(x) && 0.0 <= x <= 1.0
    ensures
      var bid, u, v := BidFor(agent, ctx), ctx.costUtilization, ctx.tokenUtilization;
      && bid.agentId == agent.id
      && bid.capabilityMatch == (if Advertises(agent, ctx.capability) then 1.0 else 0.3)
      && bid.loadFactor == 1.0 - x
      && (u <= 0.0 && v <= 0.0 ==> bid.budgetHeadroom == 1.0)
      && (u >= 1.0 || v >= 1.0 ==> bid.budgetHeadroom == 0.0)
      && (v <= u && 0.0 <= u <= 1.0 ==> bid.budgetHeadroom == 1.0 - u)
      && (u <= v && 0.0 <= v <= 1.0 ==> bid.budgetHeadroom == 1.0 - v)
      && bid.score == 0.5 * bid.capabilityMatch + 0.3 * bid.loadFactor + 0.2 * bid.budgetHeadroom
  {
    hide Advertises;
  }

  /** A load below 0 is read as 0, one above 1 as 1, and none as 0.5: no auction tells them apart. */
  lemma LoadIsReadAs(candidates: seq<Agent>, i: nat, x: real, ctx: BidContext)
    requires i < |candidates|
    ensures
      var a := candidates[i];
      && Select(candidates[i := a.(currentLoad := None)], ctx)
           == Select(candidates[i := a.(currentLoad := Some(0.5))], ctx)
      && (x <= 0.0 ==>
            Select(candidates[i := a.(currentLoad := Some(x))], ctx)
              == Select(candidates[i := a.(currentLoad := Some(0.0))], ctx))
      && (x >= 1.0 ==>
            Select(candidates[i := a.(currentLoad := Some(x))], ctx)
              == Select(candidates[i := a.(currentLoad := Some(1.0))], ctx))
  {
    hide Select, BidFor;
    var a := candidates[i];
    SameBid(candidates, i, a.(currentLoad := None), a.(currentLoad := Some(0.5)), ctx);
    if x <= 0.0 { SameBid(candidates, i, a.(currentLoad := Some(x)), a.(currentLoad := Some(0.0)), ctx); }
    if x >= 1.0 { SameBid(candidates, i, a.(currentLoad := Some(x)), a.(currentLoad := Some(1.0)), ctx); }
  }

  lemma SameBid(candidates: seq<Agent>, i: nat, a: Agent, b: Agent, ctx: BidContext)
    requires i < |candidates| && a.id == b.id && a.capabilities == b.capabilities && ReadLoad(a) == ReadLoad(b)
    ensures Select(candidates[i := a], ctx) == Select(candidates[i := b], ctx)
  {
    assert BidFor(a, ctx) == BidFor(b, ctx) by {
      assert Advertises(a, ctx.capability) == Advertises(b, ctx.capability);
      hide Advertises;
    }
    hide BidFor, Advertises, ReadLoad;
    assert Bids(candidates[i := a], ctx) == Bids(candidates[i := b], ctx);
  }

  /** Capable before others, then the smaller reported load, then the greater id. */
  predicate Leads(a: Agent, b: Agent, c: Capability)
    requires a.currentLoad.Some? && b.currentLoad.Some?
  {
    var x, y := a.currentLoad.value, b.currentLoad.value;
    || (Advertises(a, c) && !Advertises(b, c))
    || (Advertises(a, c) == Advertises(b, c) && (x < y || (x == y && Less(b.id, a.id))))
  }

  lemma LeaderOutranks(a: Agent, b: Agent, c: Capability)
    requires a.currentLoad.Some? && 0.0 <= a.currentLoad.value <= 1.0
    requires b.currentLoad.Some? && 0.0 <= b.currentLoad.value <= 1.0
    requires Leads(a, b, c)
    ensures Outranks(a, b, c)
  {
    hide Advertises;
  }

  /** Of agents that report loads between 0 and 1, the one that leads all others wins, in any order. */
  lemma LeaderWins(candidates: seq<Agent>, i: nat, ctx: BidContext)
    requires i < |candidates|
    requires forall k :: 0 <= k < |candidates| ==>
      candidates[k].currentLoad.Some? && 0.0 <= candidates[k].currentLoad.value <= 1.0
    requires forall k :: 0 <= k < |candidates| && k != i ==> Leads(candidates[i], candidates[k], ctx.capability)
    ensures Select(candidates, ctx) == Some(BidFor(candidates[i], ctx))
  {
    var c := ctx.capability;
    hide Outranks, Select, BidFor, Best, Leads;
    WinnerIsBest(candidates, ctx);
    BestIsMaximal(candidates, c);
    var k :| 0 <= k < |candidates| && candidates[k] == Best(candidates, c);
    if k != i {
      var leader := candidates[i];
      assert leader in candidates;
      LeaderOutranks(leader, candidates[k], c);
      assert false;
    }
  }
}
