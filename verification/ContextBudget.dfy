/** Selecting context sources under a token budget: greedy, with a tool-output bucket, and with decay. */
module ContextBudget {
  import opened Sequences
  import opened Identity

  /** `turn` is the metadata entry, 0 when absent. */
  datatype Source = Source(
    id: string, kind: string, tokenCount: Option<nat>, priority: int, timestamp: Time, turn: int)

  function Cost(s: Source): nat { if s.tokenCount.Some? then s.tokenCount.value else 0 }

  predicate IsTool(s: Source) { s.kind == "tool_output" }

  predicate IsOther(s: Source) { !IsTool(s) }

  function Total(s: seq<Source>): nat {
    if s == [] then 0 else Total(s[..|s| - 1]) + Cost(s[|s| - 1])
  }

  /** `ContextSource.__lt__`: higher priority first, then newer first. */
  predicate Precedes(a: Source, b: Source) {
    if a.priority != b.priority then a.priority > b.priority else a.timestamp > b.timestamp
  }

  predicate Newer(a: Source, b: Source) { a.timestamp > b.timestamp }

  // ---- subsets of a ranking ----

  /** The members of `s` that `mask` keeps. */
  function Kept(s: seq<Source>, mask: seq<bool>): seq<Source>
    requires |s| == |mask|
  {
    if s == [] then []
    else
      var n := |s| - 1;
      Kept(s[..n], mask[..n]) + if mask[n] then [s[n]] else []
  }

  /** The members of `s` that `mask` leaves out. */
  function Dropped(s: seq<Source>, mask: seq<bool>): seq<Source>
    requires |s| == |mask|
  {
    if s == [] then []
    else
      var n := |s| - 1;
      Dropped(s[..n], mask[..n]) + if mask[n] then [] else [s[n]]
  }

  /** Walk the ranking and keep whatever still fits. */
  function Greedy(s: seq<Source>, budget: int): (mask: seq<bool>)
    ensures |mask| == |s|
  {
    if s == [] then []
    else
      var n := |s| - 1;
      var rest := Greedy(s[..n], budget);
      rest + [Total(Kept(s[..n], rest)) + Cost(s[n]) <= budget]
  }

  function Pick(s: seq<Source>, budget: int): seq<Source> { Kept(s, Greedy(s, budget)) }

  function Skipped(s: seq<Source>, budget: int): seq<Source> { Dropped(s, Greedy(s, budget)) }

  lemma TotalSnoc(s: seq<Source>, x: Source)
    ensures Total(s + [x]) == Total(s) + Cost(x)
  {
    assert (s + [x])[..|s + [x]| - 1] == s;
  }

  lemma KeptSnoc(s: seq<Source>, mask: seq<bool>, n: nat)
    requires |s| == |mask| == n + 1
    ensures Kept(s, mask) == Kept(s[..n], mask[..n]) + if mask[n] then [s[n]] else []
    ensures Dropped(s, mask) == Dropped(s[..n], mask[..n]) + if mask[n] then [] else [s[n]]
    ensures Total(Kept(s, mask)) == Total(Kept(s[..n], mask[..n])) + if mask[n] then Cost(s[n]) else 0
  {
    TotalSnoc(Kept(s[..n], mask[..n]), s[n]);
    assert Kept(s[..n], mask[..n]) + [] == Kept(s[..n], mask[..n]);
  }

  lemma PickStep(s: seq<Source>, i: nat, budget: int)
    requires i < |s|
    ensures
      var fits := Total(Pick(s[..i], budget)) + Cost(s[i]) <= budget;
      && Pick(s[..i + 1], budget) == Pick(s[..i], budget) + (if fits then [s[i]] else [])
      && Skipped(s[..i + 1], budget) == Skipped(s[..i], budget) + (if fits then [] else [s[i]])
      && Total(Pick(s[..i + 1], budget)) == Total(Pick(s[..i], budget)) + (if fits then Cost(s[i]) else 0)
  {
    var t := s[..i + 1];
    assert t[..i] == s[..i];
    var mask := Greedy(t, budget);
    assert mask[..i] == Greedy(s[..i], budget);
    KeptSnoc(t, mask, i);
  }

  /** Within a budget that is not negative, and nothing at all below zero. */
  lemma {:induction false} PickFits(s: seq<Source>, budget: int)
    ensures Total(Pick(s, budget)) <= if budget < 0 then 0 else budget
    ensures budget < 0 ==> Pick(s, budget) == []
  {
    if s != [] {
      PickFits(s[..|s| - 1], budget);
      PickStep(s, |s| - 1, budget);
      assert s[..|s|] == s;
    }
  }

  lemma GreedyPrefix(s: seq<Source>, budget: int, n: nat)
    requires |s| == n + 1
    ensures Greedy(s, budget)[..n] == Greedy(s[..n], budget)
    ensures Greedy(s, budget)[n] <==> Total(Pick(s[..n], budget)) + Cost(s[n]) <= budget
  {
  }

  ghost predicate FirstDifferenceTaken(g: seq<bool>, m: seq<bool>, k: int) {
    0 <= k < |g| == |m| && g[..k] == m[..k] && g[k] && !m[k]
  }

  lemma DifferenceExtends(g: seq<bool>, m: seq<bool>, n: nat)
    requires |g| == |m| == n + 1
    requires m[..n] == g[..n] ==> m[n] ==> g[n]
    requires m[..n] == g[..n] || exists k :: FirstDifferenceTaken(g[..n], m[..n], k)
    ensures m == g || exists k :: FirstDifferenceTaken(g, m, k)
  {
    assert m == m[..n] + [m[n]] && g == g[..n] + [g[n]];
    if m[..n] == g[..n] {
      if m[n] != g[n] { assert FirstDifferenceTaken(g, m, n); }
    } else {
      var k :| FirstDifferenceTaken(g[..n], m[..n], k);
      assert g[..k] == g[..n][..k] && m[..k] == m[..n][..k];
      assert FirstDifferenceTaken(g, m, k);
    }
  }

  /**
   * Greedy with skipping is the lexicographically greatest subset within the budget: where any other
   * subset that fits first differs from it, greedy took the source and the other did not.
   */
  lemma {:induction false} GreedyIsGreatest(s: seq<Source>, budget: int, mask: seq<bool>)
    requires |mask| == |s| && Total(Kept(s, mask)) <= budget
    ensures mask == Greedy(s, budget) || exists k :: FirstDifferenceTaken(Greedy(s, budget), mask, k)
  {
    if s != [] {
      var n := |s| - 1;
      KeptSnoc(s, mask, n);
      GreedyIsGreatest(s[..n], budget, mask[..n]);
      GreedyPrefix(s, budget, n);
      hide Kept, Greedy, Total, FirstDifferenceTaken;
      DifferenceExtends(Greedy(s, budget), mask, n);
    }
  }

  /** Nothing that was skipped would fit into what is left. */
  lemma {:induction false} GreedyIsMaximal(s: seq<Source>, budget: int, k: nat)
    requires k < |s| && !Greedy(s, budget)[k]
    ensures Total(Pick(s, budget)) + Cost(s[k]) > budget
  {
    var n := |s| - 1;
    hide Kept, Greedy, Total, Pick, Skipped;
    GreedyPrefix(s, budget, n);
    PickStep(s, n, budget);
    assert s[..n + 1] == s;
    if k < n {
      assert Greedy(s, budget)[..n][k] == Greedy(s, budget)[k];
      GreedyIsMaximal(s[..n], budget, k);
    }
  }

  lemma {:induction false} PickAll(s: seq<Source>, budget: int)
    requires Total(s) <= budget
    ensures Pick(s, budget) == s
  {
    if s != [] {
      var n := |s| - 1;
      assert s == s[..n] + [s[n]];
      TotalSnoc(s[..n], s[n]);
      PickStep(s, n, budget);
      hide Pick, Total, Skipped;
      assert s[..n + 1] == s;
      PickAll(s[..n], budget);
    }
  }

  lemma {:induction false} PickOfPrefix(s: seq<Source>, budget: int, k: nat)
    requires k <= |s|
    ensures Pick(s[..k], budget) <= Pick(s, budget)
  {
    hide Pick, Total, Skipped;
    assert s[..|s|] == s;
    if k < |s| {
      var n := |s| - 1;
      PickStep(s, n, budget);
      assert s[..n][..k] == s[..k];
      PickOfPrefix(s[..n], budget, k);
    }
  }

  /** Everything in a leading stretch of the ranking that fits is taken. */
  lemma PickTakesPrefix(s: seq<Source>, budget: int, k: nat)
    requires k <= |s| && Total(s[..k]) <= budget
    ensures s[..k] <= Pick(s, budget)
    ensures k == |s| ==> Pick(s, budget) == s
  {
    hide Pick, Total;
    PickAll(s[..k], budget);
    PickOfPrefix(s, budget, k);
    assert k == |s| ==> s[..k] == s;
  }

  lemma PartitionSnoc(a: seq<Source>, b: seq<Source>, s: seq<Source>, x: Source, first: bool)
    requires multiset(a) + multiset(b) == multiset(s)
    ensures multiset(a + if first then [x] else []) + multiset(b + if first then [] else [x]) == multiset(s + [x])
  {
    assert a + [] == a && b + [] == b;
  }

  lemma KeptPartitionSnoc(s: seq<Source>, mask: seq<bool>, n: nat)
    requires |s| == |mask| == n + 1
    requires multiset(Kept(s[..n], mask[..n])) + multiset(Dropped(s[..n], mask[..n])) == multiset(s[..n])
    ensures multiset(Kept(s, mask)) + multiset(Dropped(s, mask)) == multiset(s)
  {
    hide Kept, Dropped, Total;
    KeptSnoc(s, mask, n);
    var a, b, front, x := Kept(s[..n], mask[..n]), Dropped(s[..n], mask[..n]), s[..n], s[n];
    assert s == front + [x];
    PartitionSnoc(a, b, front, x, mask[n]);
  }

  lemma {:induction false} KeptPartition(s: seq<Source>, mask: seq<bool>)
    requires |s| == |mask|
    ensures multiset(Kept(s, mask)) + multiset(Dropped(s, mask)) == multiset(s)
  {
    if s != [] {
      var n := |s| - 1;
      KeptPartition(s[..n], mask[..n]);
      KeptPartitionSnoc(s, mask, n);
    }
  }

  lemma {:induction false} TotalConcat(a: seq<Source>, b: seq<Source>)
    ensures Total(a + b) == Total(a) + Total(b)
  {
    if b == [] {
      assert a + b == a;
    } else {
      assert (a + b)[..|a + b| - 1] == a + b[..|b| - 1];
      TotalConcat(a, b[..|b| - 1]);
    }
  }

  // ---- the selectors ----

  function Tools(sources: seq<Source>): seq<Source> { Sort(Filter(sources, IsTool), Newer) }

  function Others(sources: seq<Source>): seq<Source> { Sort(Filter(sources, IsOther), Precedes) }

  /** The accumulating loop every selector shares. */
  method SelectRanked(ranked: seq<Source>, budget: int)
    returns (selected: seq<Source>, skipped: seq<Source>, used: nat)
    ensures selected == Pick(ranked, budget) && skipped == Skipped(ranked, budget)
    ensures used == Total(selected)
  {
    selected, skipped, used := [], [], 0;
    for i := 0 to |ranked|
      invariant selected == Pick(ranked[..i], budget) && skipped == Skipped(ranked[..i], budget)
      invariant used == Total(selected)
    {
      hide Pick, Skipped, Total;
      PickStep(ranked, i, budget);
      var cost := Cost(ranked[i]);
      if used + cost <= budget {
        selected := selected + [ranked[i]];
        used := used + cost;
      } else {
        skipped := skipped + [ranked[i]];
      }
    }
    assert ranked[..|ranked|] == ranked;
  }

  method M1Select(sources: seq<Source>, budget: int) returns (selected: seq<Source>)
    ensures selected == M1(sources, budget)
  {
    var used, skipped;
    selected, skipped, used := SelectRanked(Sort(sources, Precedes), budget);
  }

  function M1(sources: seq<Source>, budget: int): seq<Source> { Pick(Sort(sources, Precedes), budget) }

  method Prune(sources: seq<Source>, protectLast: int) returns (kept: seq<Source>, evicted: seq<Source>)
    ensures kept == Pick(Tools(sources), protectLast) && evicted == Skipped(Tools(sources), protectLast)
  {
    var used;
    kept, evicted, used := SelectRanked(Tools(sources), protectLast);
  }

  function M2(sources: seq<Source>, budget: int, reserve: int): seq<Source> {
    var tools := Pick(Tools(sources), reserve);
    Pick(Others(sources), budget - Total(tools)) + tools
  }

  method M2Select(sources: seq<Source>, budget: int, reserve: int)
    returns (selected: seq<Source>, evictions: nat)
    ensures selected == M2(sources, budget, reserve)
    ensures evictions == |Skipped(Tools(sources), reserve)|
  {
    hide Pick, Skipped, Total, Tools, Others;
    var tools, evicted := Prune(sources, reserve);
    var others, skipped, used := SelectRanked(Others(sources), budget - Total(tools));
    return others + tools, |evicted|;
  }

  function Adaptive(sources: seq<Source>, budget: int, reserve: int): seq<Source> {
    var others := Pick(Others(sources), budget - reserve);
    others + Pick(Tools(sources), budget - Total(others))
  }

  method M2AdaptiveSelect(sources: seq<Source>, budget: int, reserve: int)
    returns (selected: seq<Source>, evictions: nat)
    ensures selected == Adaptive(sources, budget, reserve)
    ensures evictions == |Skipped(Tools(sources), budget - Total(Pick(Others(sources), budget - reserve)))|
  {
    hide Pick, Skipped, Total, Tools, Others;
    var others, skipped, used := SelectRanked(Others(sources), budget - reserve);
    var tools, evicted := Prune(sources, budget - used);
    return others + tools, |evicted|;
  }

  /** `max(..., default=0)` over the turns of the tool outputs. */
  function MaxTurn(sources: seq<Source>): (r: int)
    ensures forall s :: s in sources && IsTool(s) ==> s.turn <= r
    ensures (exists s :: s in sources && IsTool(s) && s.turn == r)
         || (r == 0 && forall s :: s in sources ==> !IsTool(s))
  {
    if sources == [] then 0
    else
      assert sources[0] in sources;
      var rest := MaxTurn(sources[1..]);
      if !IsTool(sources[0]) then rest
      else if (exists s :: s in sources[1..] && IsTool(s)) && sources[0].turn < rest then rest
      else sources[0].turn
  }

  function Decayed(s: Source, maxTurn: int, decay: real): real {
    if IsTool(s) then s.priority as real - decay * (maxTurn - s.turn) as real else s.priority as real
  }

  function DecayOrder(maxTurn: int, decay: real): (Source, Source) -> bool {
    (a: Source, b: Source) =>
      var x, y := Decayed(a, maxTurn, decay), Decayed(b, maxTurn, decay);
      x > y || (x == y && a.timestamp > b.timestamp)
  }

  function M3(sources: seq<Source>, budget: int, decay: real): seq<Source> {
    Pick(Sort(sources, DecayOrder(MaxTurn(sources), decay)), budget)
  }

  method M3Select(sources: seq<Source>, budget: int, decay: real) returns (selected: seq<Source>)
    ensures selected == M3(sources, budget, decay)
  {
    var used, skipped;
    selected, skipped, used := SelectRanked(Sort(sources, DecayOrder(MaxTurn(sources), decay)), budget);
  }

  // ---- what the budget guarantees ----

  /** The fixed reserve stays within budget on every input exactly when the reserve itself does. */
  lemma M2WithinBudget(budget: int, reserve: int)
    ensures (forall sources :: Total(M2(sources, budget, reserve)) <= budget) <==> 0 <= budget && reserve <= budget
  {
    hide Pick, Total, Tools, Others, Kept;
    if 0 <= budget && reserve <= budget {
      forall sources ensures Total(M2(sources, budget, reserve)) <= budget {
        var tools := Pick(Tools(sources), reserve);
        PickFits(Tools(sources), reserve);
        PickFits(Others(sources), budget - Total(tools));
        TotalConcat(Pick(Others(sources), budget - Total(tools)), tools);
      }
    } else if 0 <= budget {
      var sources := [Source("t", "tool_output", Some(reserve), 0, 0, 0)];
      OneTool(sources[0], reserve);
      TotalConcat(Pick(Others(sources), budget - reserve), Pick(Tools(sources), reserve));
      assert Total(M2(sources, budget, reserve)) > budget;
    } else {
      assert Total(M2([], budget, reserve)) > budget;
    }
  }

  lemma SortOfOne(s: Source, lt: (Source, Source) -> bool)
    ensures Sort([s], lt) == [s]
  {
    assert Sort([s][1..], lt) == [];
  }

  lemma Alone(s: Source, budget: int)
    requires Cost(s) <= budget
    ensures Pick([s], budget) == [s] && Total([s]) == Cost(s)
    ensures Sort([s], Newer) == [s] && Sort([s], Precedes) == [s]
  {
    PickStep([s], 0, budget);
    TotalSnoc([], s);
    assert [s][..1] == [s] && [s][..0] == [] && [] + [s] == [s];
    assert Pick([], budget) == [] && Total([]) == 0;
    hide Pick, Total, Sort, Skipped;
    SortOfOne(s, Newer);
    SortOfOne(s, Precedes);
  }

  lemma OneTool(s: Source, budget: int)
    requires IsTool(s) && Cost(s) <= budget
    ensures Tools([s]) == [s] && Total(Pick(Tools([s]), budget)) == Cost(s)
  {
    assert Filter([s], IsTool) == [s];
    Alone(s, budget);
  }

  lemma OneOther(s: Source, budget: int)
    requires IsOther(s) && Cost(s) <= budget
    ensures Others([s]) == [s] && Total(Pick(Others([s]), budget)) == Cost(s)
  {
    assert Filter([s], IsOther) == [s];
    Alone(s, budget);
  }

  /** The adaptive bucket stays within budget on every input, whatever the reserve, unless it is negative. */
  lemma AdaptiveWithinBudget(budget: int, reserve: int)
    ensures (forall sources :: Total(Adaptive(sources, budget, reserve)) <= budget)
       <==> 0 <= budget && 0 <= reserve
  {
    hide Pick, Total, Tools, Others;
    if 0 <= budget && 0 <= reserve {
      forall sources ensures Total(Adaptive(sources, budget, reserve)) <= budget {
        var others := Pick(Others(sources), budget - reserve);
        PickFits(Others(sources), budget - reserve);
        PickFits(Tools(sources), budget - Total(others));
        TotalConcat(others, Pick(Tools(sources), budget - Total(others)));
      }
    } else if 0 <= budget {
      var sources := [Source("d", "document", Some(budget - reserve), 0, 0, 0)];
      OneOther(sources[0], budget - reserve);
      TotalConcat(Pick(Others(sources), budget - reserve), Pick(Tools(sources), reserve));
      var others := Pick(Others(sources), budget - reserve);
      TotalConcat(others, Pick(Tools(sources), budget - Total(others)));
      assert Total(Adaptive(sources, budget, reserve)) > budget;
    } else {
      assert Total(Adaptive([], budget, reserve)) > budget;
    }
  }

  lemma NewerIsOrder()
    ensures StrictWeakOrder(Newer)
  {
  }

  lemma PrecedesIsOrder()
    ensures StrictWeakOrder(Precedes)
  {
  }

  /** Kept and evicted outputs are together exactly the tool outputs. */
  lemma PrunePartitions(sources: seq<Source>, protectLast: int)
    ensures multiset(Pick(Tools(sources), protectLast)) + multiset(Skipped(Tools(sources), protectLast))
         == multiset(Filter(sources, IsTool))
  {
    NewerIsOrder();
    SortIsSorted(Filter(sources, IsTool), Newer);
    KeptPartition(Tools(sources), Greedy(Tools(sources), protectLast));
  }

  /** The newest tool outputs that fit the reserve survive, whatever else competes for the budget. */
  lemma ReservedToolsSurvive(sources: seq<Source>, budget: int, reserve: int, k: nat)
    requires k <= |Tools(sources)| && Total(Tools(sources)[..k]) <= reserve <= budget
    ensures Tools(sources)[..k] <= Pick(Tools(sources), reserve)
    ensures Tools(sources)[..k]
         <= Pick(Tools(sources), budget - Total(Pick(Others(sources), budget - reserve)))
    ensures forall t :: t in Tools(sources)[..k] ==>
      t in M2(sources, budget, reserve) && t in Adaptive(sources, budget, reserve)
  {
    hide Pick, Total, Tools, Others;
    PickFits(Others(sources), budget - reserve);
    PickTakesPrefix(Tools(sources), reserve, k);
    PickTakesPrefix(Tools(sources), budget - Total(Pick(Others(sources), budget - reserve)), k);
  }

  /** Nothing is evicted for the sake of an unused reserve: what fits is selected, all of it. */
  lemma AdaptiveKeepsWhatFits(sources: seq<Source>, budget: int, reserve: int)
    requires Total(Others(sources)) <= budget - reserve
    requires Total(Others(sources)) + Total(Tools(sources)) <= budget
    ensures Adaptive(sources, budget, reserve) == Others(sources) + Tools(sources)
    ensures multiset(Adaptive(sources, budget, reserve)) == multiset(sources)
  {
    hide Pick, Total, Filter, Sort, IsTool, IsOther;
    var others, tools := Others(sources), Tools(sources);
    assert others[..|others|] == others && tools[..|tools|] == tools;
    PickTakesPrefix(others, budget - reserve, |others|);
    PickTakesPrefix(tools, budget - Total(others), |tools|);
    NewerIsOrder();
    PrecedesIsOrder();
    SortIsSorted(Filter(sources, IsTool), Newer);
    SortIsSorted(Filter(sources, IsOther), Precedes);
    Split(sources);
  }

  lemma {:induction false} Split(s: seq<Source>)
    ensures multiset(Filter(s, IsOther)) + multiset(Filter(s, IsTool)) == multiset(s)
  {
    if s != [] {
      hide Filter;
      Split(s[1..]);
      FilterCons(s[0], s[1..], IsOther);
      FilterCons(s[0], s[1..], IsTool);
      assert s == [s[0]] + s[1..];
    }
  }

  // ---- decay ----

  /** Without decay the third selector is the first. */
  lemma NoDecayIsGreedy(sources: seq<Source>, budget: int)
    ensures M3(sources, budget, 0.0) == M1(sources, budget)
  {
    SortCongruent(sources, DecayOrder(MaxTurn(sources), 0.0), Precedes);
  }

  lemma TimesMonotone(c: real, a: real, b: real)
    requires c > 0.0
    ensures a < b ==> c * a < c * b
  {
    if a < b { assert c * (b - a) > 0.0; }
  }

  /** Decay ranks tool outputs of one priority by turn, whatever their timestamps. */
  lemma DecayPrefersLaterTurns(a: Source, b: Source, maxTurn: int, decay: real)
    requires decay > 0.0 && IsTool(a) && IsTool(b) && a.priority == b.priority && a.turn > b.turn
    ensures DecayOrder(maxTurn, decay)(a, b) && !DecayOrder(maxTurn, decay)(b, a)
  {
    var x, y := Decayed(a, maxTurn, decay), Decayed(b, maxTurn, decay);
    var p, q := (maxTurn - a.turn) as real, (maxTurn - b.turn) as real;
    assert x > y by {
      TimesMonotone(decay, p, q);
    }
  }

  /** Decay leaves the order of all other sources alone. */
  lemma DecaySparesOthers(a: Source, b: Source, maxTurn: int, decay: real)
    requires IsOther(a) && IsOther(b)
    ensures DecayOrder(maxTurn, decay)(a, b) == Precedes(a, b)
  {
  }

  // ---- the selections without their definitions ----

  lemma {:induction false} KeptHas(s: seq<Source>, mask: seq<bool>, k: nat)
    requires k < |s| == |mask| && mask[k]
    ensures s[k] in Kept(s, mask)
  {
    var n := |s| - 1;
    if k < n { KeptHas(s[..n], mask[..n], k); }
  }

  lemma SkippedDoesNotFit(s: seq<Source>, budget: int, x: Source)
    requires x in s && x !in Pick(s, budget)
    ensures Total(Pick(s, budget)) + Cost(x) > budget
  {
    hide Kept, Total, Greedy;
    var k :| 0 <= k < |s| && s[k] == x;
    if Greedy(s, budget)[k] {
      KeptHas(s, Greedy(s, budget), k);
      assert false;
    }
    GreedyIsMaximal(s, budget, k);
  }

  /** Nothing is kept twice. */
  lemma PickWithin(s: seq<Source>, budget: int)
    ensures multiset(Pick(s, budget)) <= multiset(s)
    ensures forall x :: x in Pick(s, budget) ==> x in s
  {
    KeptPartition(s, Greedy(s, budget));
    hide Kept, Dropped, Greedy;
    var picked := Pick(s, budget);
    forall x | x in picked ensures x in s {
      assert x in multiset(picked);
      assert x in multiset(s);
    }
  }

  lemma SnocKeepsOrder(front: seq<Source>, x: Source, picked: seq<Source>, lt: (Source, Source) -> bool)
    requires SortedBy(front + [x], lt) && SortedBy(picked, lt)
    requires forall p :: p in picked ==> p in front
    ensures SortedBy(picked + [x], lt)
  {
    var s := front + [x];
    forall i | 0 <= i < |picked| ensures !lt(x, picked[i]) {
      assert picked[i] in front;
      var k :| 0 <= k < |front| && front[k] == picked[i];
      assert s[k] == front[k] && s[|front|] == x;
    }
  }

  /** What is kept keeps its place. */
  lemma {:induction false} PickKeepsOrder(s: seq<Source>, budget: int, lt: (Source, Source) -> bool)
    requires SortedBy(s, lt)
    ensures SortedBy(Pick(s, budget), lt)
  {
    if s != [] {
      var n := |s| - 1;
      PickKeepsOrder(s[..n], budget, lt);
      PickStep(s, n, budget);
      PickWithin(s[..n], budget);
      hide Pick, Skipped, Total, SortedBy;
      assert s[..n + 1] == s && s == s[..n] + [s[n]];
      SnocKeepsOrder(s[..n], s[n], Pick(s[..n], budget), lt);
      assert Pick(s[..n], budget) + [] == Pick(s[..n], budget);
    }
  }

  /** A list of sources costs the tokens its members count, an unknown count being nothing. */
  lemma TotalExactly(s: seq<Source>, x: Source)
    ensures Total([]) == 0
    ensures Total(s + [x]) == Total(s) + match x.tokenCount case None => 0 case Some(n) => n
  {
    TotalSnoc(s, x);
  }

  /** Higher priority first, then newer first. */
  ghost predicate Ranked(s: seq<Source>) {
    forall i, j :: 0 <= i < j < |s| ==>
      s[i].priority > s[j].priority || (s[i].priority == s[j].priority && s[i].timestamp >= s[j].timestamp)
  }

  ghost predicate NewestFirst(s: seq<Source>) {
    forall i, j :: 0 <= i < j < |s| ==> s[i].timestamp >= s[j].timestamp
  }

  lemma SortedIsRanked(s: seq<Source>)
    ensures SortedBy(s, Precedes) ==> Ranked(s)
    ensures SortedBy(s, Newer) ==> NewestFirst(s)
  {
    if SortedBy(s, Precedes) {
      forall i, j | 0 <= i < j < |s|
        ensures s[i].priority > s[j].priority || (s[i].priority == s[j].priority && s[i].timestamp >= s[j].timestamp)
      {
        assert !Precedes(s[j], s[i]);
      }
    }
    if SortedBy(s, Newer) {
      forall i, j | 0 <= i < j < |s| ensures s[i].timestamp >= s[j].timestamp {
        assert !Newer(s[j], s[i]);
      }
    }
  }

  /** The tool outputs are the sources of that kind, newest first; the others are the rest, in their ranking. */
  lemma ToolsAndOthersExactly(sources: seq<Source>)
    ensures forall s :: s in Tools(sources) <==> s in sources && s.kind == "tool_output"
    ensures forall s :: s in Others(sources) <==> s in sources && s.kind != "tool_output"
    ensures NewestFirst(Tools(sources)) && Ranked(Others(sources))
    ensures SortedBy(Tools(sources), Newer) && SortedBy(Others(sources), Precedes)
    ensures multiset(Others(sources)) + multiset(Tools(sources)) == multiset(sources)
  {
    NewerIsOrder();
    PrecedesIsOrder();
    SortSorted(Filter(sources, IsTool), Newer);
    SortSorted(Filter(sources, IsOther), Precedes);
    SortedIsRanked(Tools(sources));
    SortedIsRanked(Others(sources));
    Split(sources);
  }

  /** The first selector: by rank, within the budget, and whatever is left out would not fit. */
  lemma GreedyExactly(sources: seq<Source>, budget: int)
    ensures
      var r := M1(sources, budget);
      && Ranked(r) && multiset(r) <= multiset(sources)
      && Total(r) <= (if budget < 0 then 0 else budget)
      && forall s :: s in sources && s !in r ==> Total(r) + Cost(s) > budget
  {
    hide Pick, Total;
    PrecedesIsOrder();
    SortSorted(sources, Precedes);
    var all := Sort(sources, Precedes);
    var r := Pick(all, budget);
    PickFits(all, budget);
    PickWithin(all, budget);
    PickKeepsOrder(all, budget, Precedes);
    SortedIsRanked(r);
    forall s | s in sources && s !in r ensures Total(r) + Cost(s) > budget {
      SkippedDoesNotFit(all, budget, s);
    }
  }

  /** The chosen sources of a bucketed selection: first the others by rank, then the tool outputs newest first. */
  ghost predicate Bucketed(r: seq<Source>, others: seq<Source>, tools: seq<Source>, sources: seq<Source>) {
    && r == others + tools && Ranked(others) && NewestFirst(tools)
    && (forall s :: s in others ==> s in sources && s.kind != "tool_output")
    && (forall s :: s in tools ==> s in sources && s.kind == "tool_output")
    && multiset(r) <= multiset(sources)
  }

  lemma BucketedPicks(sources: seq<Source>, forOthers: int, forTools: int)
    ensures
      var others, tools := Pick(Others(sources), forOthers), Pick(Tools(sources), forTools);
      && Bucketed(others + tools, others, tools, sources)
      && (forall s :: s in sources && s.kind != "tool_output" && s !in others ==>
            Total(others) + Cost(s) > forOthers)
      && (forall s :: s in sources && s.kind == "tool_output" && s !in tools ==> Total(tools) + Cost(s) > forTools)
  {
    ToolsAndOthersExactly(sources);
    hide Pick, Total, Tools, Others, Ranked, NewestFirst, SortedBy;
    var others, tools := Pick(Others(sources), forOthers), Pick(Tools(sources), forTools);
    PickWithin(Others(sources), forOthers);
    PickWithin(Tools(sources), forTools);
    PickKeepsOrder(Others(sources), forOthers, Precedes);
    PickKeepsOrder(Tools(sources), forTools, Newer);
    SortedIsRanked(others);
    SortedIsRanked(tools);
    forall s | s in sources && s.kind != "tool_output" && s !in others
      ensures Total(others) + Cost(s) > forOthers
    {
      SkippedDoesNotFit(Others(sources), forOthers, s);
    }
    forall s | s in sources && s.kind == "tool_output" && s !in tools ensures Total(tools) + Cost(s) > forTools {
      SkippedDoesNotFit(Tools(sources), forTools, s);
    }
  }

  /** With a fixed reserve, a tool output left out exceeds the reserve, any other source the whole budget. */
  lemma M2Exactly(sources: seq<Source>, budget: int, reserve: int) returns (others: seq<Source>, tools: seq<Source>)
    ensures
      var r := M2(sources, budget, reserve);
      && Bucketed(r, others, tools, sources)
      && Total(r) == Total(others) + Total(tools)
      && (forall s :: s in sources && s.kind == "tool_output" && s !in tools ==> Total(tools) + Cost(s) > reserve)
      && (forall s :: s in sources && s.kind != "tool_output" && s !in others ==> Total(r) + Cost(s) > budget)
  {
    hide Pick, Total, Tools, Others, Bucketed;
    tools := Pick(Tools(sources), reserve);
    others := Pick(Others(sources), budget - Total(tools));
    BucketedPicks(sources, budget - Total(tools), reserve);
    TotalConcat(others, tools);
  }

  /** With the adaptive bucket, a tool output left out exceeds the whole budget, any other what is not reserved. */
  lemma AdaptiveExactly(sources: seq<Source>, budget: int, reserve: int)
    returns (others: seq<Source>, tools: seq<Source>)
    ensures
      var r := Adaptive(sources, budget, reserve);
      && Bucketed(r, others, tools, sources)
      && Total(r) == Total(others) + Total(tools)
      && (forall s :: s in sources && s.kind == "tool_output" && s !in tools ==> Total(r) + Cost(s) > budget)
      && (forall s :: s in sources && s.kind != "tool_output" && s !in others ==>
            Total(others) + Cost(s) > budget - reserve)
  {
    hide Pick, Total, Tools, Others, Bucketed;
    others := Pick(Others(sources), budget - reserve);
    tools := Pick(Tools(sources), budget - Total(others));
    BucketedPicks(sources, budget - reserve, budget - Total(others));
    TotalConcat(others, tools);
  }

  /**
   * A tool output that is `n` turns old ranks like a source whose priority is `n` decays lower; only outputs
   * decay, and a tie goes to the newer source.
   */
  lemma DecayExactly(a: Source, b: Source, n: int, m: int, maxTurn: int, decay: real)
    requires IsTool(a) ==> a.turn == maxTurn - n
    requires IsTool(b) ==> b.turn == maxTurn - m
    ensures
      var p, q := a.priority as real, b.priority as real;
      var lost, gone := decay * n as real, decay * m as real;
      DecayOrder(maxTurn, decay)(a, b) <==>
        match (a.kind == "tool_output", b.kind == "tool_output")
        case (true, true) => p - lost > q - gone || (p - lost == q - gone && a.timestamp > b.timestamp)
        case (true, false) => p - lost > q || (p - lost == q && a.timestamp > b.timestamp)
        case (false, true) => p > q - gone || (p == q - gone && a.timestamp > b.timestamp)
        case (false, false) => p > q || (p == q && a.timestamp > b.timestamp)
  {
  }

  lemma DecayIsOrder(maxTurn: int, decay: real)
    ensures StrictWeakOrder(DecayOrder(maxTurn, decay))
  {
    hide Decayed;
  }

  /** The third selector, whatever the decay: in the decayed order, within the budget, and nothing else fits. */
  lemma DecayedExactly(sources: seq<Source>, budget: int, decay: real)
    ensures
      var r := M3(sources, budget, decay);
      && SortedBy(r, DecayOrder(MaxTurn(sources), decay)) && multiset(r) <= multiset(sources)
      && Total(r) <= (if budget < 0 then 0 else budget)
      && forall s :: s in sources && s !in r ==> Total(r) + Cost(s) > budget
  {
    hide Pick, Total, DecayOrder;
    var lt := DecayOrder(MaxTurn(sources), decay);
    DecayIsOrder(MaxTurn(sources), decay);
    SortSorted(sources, lt);
    var all := Sort(sources, lt);
    var r := Pick(all, budget);
    PickFits(all, budget);
    PickWithin(all, budget);
    PickKeepsOrder(all, budget, lt);
    forall s | s in sources && s !in r ensures Total(r) + Cost(s) > budget {
      SkippedDoesNotFit(all, budget, s);
    }
  }
}
