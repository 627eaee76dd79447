/** `src/cemaf/audit/trail.py`: timelines, quality trends and anomalies computed from the audit log. */
module AuditTrails {
  import opened Sequences
  import opened Identity
  import opened Statistics
  import opened AuditLogs

  const EVALS := Criteria(None, Some(EvalResult), None)
  const ALERTS := Criteria(None, Some(QualityAlert), None)
  const LIMIT := 10_000

  predicate HasScore(e: AuditEntry) { e.score.Some? }

  function ScoreOf(e: AuditEntry): real { if e.score.Some? then e.score.value else 0.0 }

  function Scores(s: seq<AuditEntry>): seq<real> { Map(ScoreOf, Filter(s, HasScore)) }

  predicate Earlier(a: AuditEntry, b: AuditEntry) { a.timestamp < b.timestamp }

  function Timeline(log: seq<AuditEntry>, runId: string): seq<AuditEntry> {
    Sort(Answer(log, Criteria(Some(runId), None, None), LIMIT), Earlier)
  }

  /** `s[-w:]`: the last `w` elements, all of them for 0, and without the first `-w` below 0. */
  function TailSlice<T>(s: seq<T>, w: int): seq<T> {
    if w > |s| then s
    else if w > 0 then s[|s| - w..]
    else if -w < |s| then s[-w..]
    else []
  }

  function Trend(log: seq<AuditEntry>, window: int): seq<real> {
    TailSlice(Scores(Answer(log, EVALS, window)), window)
  }

  function Ids(s: seq<AuditEntry>): set<string> { set e | e in s :: e.id }

  function Suspect(values: seq<real>, std: real, t: real, known: set<string>): AuditEntry -> bool
    requires values != [] && std > 0.0
  {
    (e: AuditEntry) => Flagged(values, std, t, ScoreOf(e)) && e.id !in known
  }

  function Scored(log: seq<AuditEntry>): seq<AuditEntry> { Filter(Answer(log, EVALS, LIMIT), HasScore) }

  function Outliers(scored: seq<AuditEntry>, std: real, t: real, known: set<string>): seq<AuditEntry>
    requires scored != [] && std > 0.0
  {
    Filter(scored, Suspect(Map(ScoreOf, scored), std, t, known))
  }

  function Anomalies(log: seq<AuditEntry>, t: real, sqrt: real -> real): seq<AuditEntry> {
    var alerts, scored := Answer(log, ALERTS, LIMIT), Scored(log);
    if |scored| < 2 then alerts else
    var std := sqrt(Variance(Map(ScoreOf, scored)));
    if std > 0.0 then alerts + Outliers(scored, std, t, Ids(alerts)) else alerts
  }

  class InMemoryAuditTrail {
    const log: EventBusAuditLog

    constructor (log: EventBusAuditLog)
      ensures this.log == log
    {
      this.log := log;
    }

    method GetRunTimeline(runId: string) returns (r: seq<AuditEntry>)
      ensures r == Timeline(log.entries, runId)
    {
      var entries := log.Query(Criteria(Some(runId), None, None), LIMIT);
      return Sort(entries, Earlier);
    }

    method GetQualityTrend(window: int) returns (r: seq<real>)
      ensures r == Trend(log.entries, window)
    {
      hide Filter, Answer;
      var entries := log.Query(EVALS, window);
      var scores := [];
      for i := 0 to |entries|
        invariant scores == Scores(entries[..i])
      {
        FilterSnoc(entries, i, HasScore);
        if entries[i].score.Some? { scores := scores + [entries[i].score.value]; }
      }
      assert entries[..|entries|] == entries;
      return TailSlice(scores, window);
    }

    method GetAnomalies(threshold: real, sqrt: real -> real) returns (anomalies: seq<AuditEntry>)
      ensures anomalies == Anomalies(log.entries, threshold, sqrt)
    {
      hide Flagged, Variance, Answer, Filter;
      var alerts := log.Query(ALERTS, LIMIT);
      anomalies := alerts;
      var evals := log.Query(EVALS, LIMIT);
      var scored := [];
      for i := 0 to |evals|
        invariant scored == Filter(evals[..i], HasScore)
      {
        FilterSnoc(evals, i, HasScore);
        if evals[i].score.Some? { scored := scored + [evals[i]]; }
      }
      assert evals[..|evals|] == evals;
      if |scored| < 2 { return; }
      var values := Map(ScoreOf, scored);
      var std := sqrt(Variance(values));
      if std <= 0.0 { return; }
      var known := Ids(anomalies);
      for i := 0 to |scored|
        invariant anomalies == alerts + Filter(scored[..i], Suspect(values, std, threshold, known))
      {
        FilterSnoc(scored, i, Suspect(values, std, threshold, known));
        if Flagged(values, std, threshold, ScoreOf(scored[i])) && scored[i].id !in known {
          anomalies := anomalies + [scored[i]];
        }
      }
      assert scored[..|scored|] == scored;
    }
  }

  // ---- timelines ----

  lemma EarlierIsOrder()
    ensures StrictWeakOrder(Earlier)
  {
  }

  /** A timeline is the run's entries in time order, simultaneous ones in the order they were appended. */
  lemma TimelineIsStable(log: seq<AuditEntry>, runId: string, now: Time)
    ensures SortedBy(Timeline(log, runId), Earlier)
    ensures multiset(Timeline(log, runId)) == multiset(Answer(log, Criteria(Some(runId), None, None), LIMIT))
    ensures Filter(Timeline(log, runId), (e: AuditEntry) => e.timestamp == now)
         == Filter(Answer(log, Criteria(Some(runId), None, None), LIMIT), (e: AuditEntry) => e.timestamp == now)
  {
    var s := Answer(log, Criteria(Some(runId), None, None), LIMIT);
    EarlierIsOrder();
    SortIsSorted(s, Earlier);
    SortStable(s, Earlier, (e: AuditEntry) => e.timestamp == now);
  }

  lemma {:induction false} FilterKeepsOrder<T(!new)>(s: seq<T>, p: T -> bool, lt: (T, T) -> bool)
    requires SortedBy(s, lt)
    ensures SortedBy(Filter(s, p), lt)
  {
    if s != [] {
      FilterKeepsOrder(s[1..], p, lt);
      var rest := Filter(s[1..], p);
      forall j | 0 <= j < |rest| ensures !lt(rest[j], s[0]) {
        assert rest[j] in s[1..];
      }
    }
  }

  /** With a clock that does not run backwards the timeline is the query, unsorted. */
  lemma TimelineOfSteadyClock(log: seq<AuditEntry>, runId: string)
    requires SortedBy(log, Earlier)
    ensures Timeline(log, runId) == Answer(log, Criteria(Some(runId), None, None), LIMIT)
  {
    var c := Criteria(Some(runId), None, None);
    FilterKeepsOrder(log, c.Test(), Earlier);
    SortOfSorted(Answer(log, c, LIMIT), Earlier);
  }

  // ---- trends ----

  /** The final slice never cuts a positive window; window 0 reports one entry and a negative one nothing. */
  lemma TrendByWindow(log: seq<AuditEntry>, window: int)
    ensures window >= 0 ==> Trend(log, window) == Scores(Answer(log, EVALS, window))
    ensures window == 0 ==> Trend(log, window) == Trend(log, 1)
    ensures window < 0 ==> Trend(log, window) == []
  {
    AnswerFits(log, EVALS, window);
    AnswerFits(log, EVALS, 1);
    assert window == 0 ==> Answer(log, EVALS, window) == Answer(log, EVALS, 1);
    hide Answer, Filter;
    var scores := Scores(Answer(log, EVALS, window));
    assert |scores| <= Capacity(window);
    assert window == |scores| ==> scores[0..] == scores;
  }

  /** After `window` evaluations the "recent" trend never changes again, whatever is appended. */
  lemma TrendFreezes(log: seq<AuditEntry>, more: seq<AuditEntry>, window: int)
    requires Count(log, EVALS.Test()) >= window >= 1
    ensures Trend(log + more, window) == Trend(log, window)
  {
    AnswerGrows(log, more, EVALS, window);
  }

  // ---- anomalies ----

  /** The contract of `math.sqrt` over the reals. */
  ghost predicate IsSquareRoot(sqrt: real -> real) {
    forall x :: x >= 0.0 ==> sqrt(x) >= 0.0 && Square(sqrt(x)) == x
  }

  lemma RootIsDeviation(s: seq<real>, sqrt: real -> real)
    requires s != [] && IsSquareRoot(sqrt)
    ensures IsDeviation(s, sqrt(Variance(s)))
  {
  }

  lemma AlertsAndEvalsDisjoint(log: seq<AuditEntry>, e: AuditEntry)
    requires UniqueIds(log) && e in Scored(log)
    ensures e.id !in Ids(Answer(log, ALERTS, LIMIT))
  {
    assert e in log && e.kind == EvalResult;
    forall a | a in Answer(log, ALERTS, LIMIT) ensures a.id != e.id {
      assert a in log && a.kind == QualityAlert;
      var i, j :| 0 <= i < |log| && 0 <= j < |log| && log[i] == a && log[j] == e;
      assert i < j || j < i;
    }
  }

  /** With unique ids in the log, an entry is reported at most once. */
  lemma AnomaliesAreDistinct(log: seq<AuditEntry>, t: real, sqrt: real -> real)
    requires UniqueIds(log)
    ensures UniqueIds(Anomalies(log, t, sqrt))
  {
    var alerts, scored := Answer(log, ALERTS, LIMIT), Scored(log);
    FilterUniqueIds(log, ALERTS.Test());
    FilterUniqueIds(log, EVALS.Test());
    FilterUniqueIds(Answer(log, EVALS, LIMIT), HasScore);
    if |scored| >= 2 && sqrt(Variance(Map(ScoreOf, scored))) > 0.0 {
      var std := sqrt(Variance(Map(ScoreOf, scored)));
      var p := Suspect(Map(ScoreOf, scored), std, t, Ids(alerts));
      FilterUniqueIds(scored, p);
      var added := Filter(scored, p);
      forall i, j | 0 <= i < |alerts| && 0 <= j < |added| ensures alerts[i].id != added[j].id {
        assert added[j] in scored;
        AlertsAndEvalsDisjoint(log, added[j]);
      }
    }
  }

  lemma {:induction false} FilterAtMostFlags(
    part: seq<AuditEntry>, values: seq<real>, std: real, t: real, known: set<string>)
    requires values != [] && std > 0.0
    ensures |Filter(part, Suspect(values, std, t, known))| <= FlagCount(Map(ScoreOf, part), values, std, t)
  {
    hide Flagged;
    if part != [] {
      FilterAtMostFlags(part[1..], values, std, t, known);
      assert Map(ScoreOf, part)[1..] == Map(ScoreOf, part[1..]);
    }
  }

  lemma OneScoreHasNoVariance(s: seq<real>)
    requires |s| == 1
    ensures Variance(s) == 0.0
  {
    hide Times, Square, Mean, Variance;
    assert s[1..] == [];
    MeanTimes(s);
    Laws(Mean(s), Mean(s), Mean(s));
    Laws(Variance(s), Variance(s), Variance(s));
    SquareIsZero(0.0);
  }

  /**
   * The report without square roots: the alerts, and every scored entry of another id whose squared
   * deviation is at least t squared times a variance that is not zero.
   */
  lemma ReportedExactly(log: seq<AuditEntry>, t: real, sqrt: real -> real, e: AuditEntry)
    requires IsSquareRoot(sqrt) && t > 0.0 && Scored(log) != []
    ensures
      var alerts, values := Answer(log, ALERTS, LIMIT), Map(ScoreOf, Scored(log));
      e in Anomalies(log, t, sqrt) <==>
        e in alerts ||
        (e in Scored(log) && e.id !in Ids(alerts) && Variance(values) > 0.0
         && Square(ScoreOf(e) - Mean(values)) >= Times(Square(t), Variance(values)))
  {
    hide Square, Times, Variance, Mean, Flagged, Answer, IsDeviation, IsSquareRoot, Scored;
    var scored := Scored(log);
    var values := Map(ScoreOf, scored);
    if |scored| == 1 {
      OneScoreHasNoVariance(values);
    } else {
      RootIsPositive(values, sqrt);
      var std := sqrt(Variance(values));
      if std > 0.0 { FlaggedBySquares(values, std, t, ScoreOf(e)); }
    }
  }

  lemma RootIsPositive(s: seq<real>, sqrt: real -> real)
    requires s != [] && IsSquareRoot(sqrt)
    ensures IsDeviation(s, sqrt(Variance(s)))
    ensures sqrt(Variance(s)) > 0.0 <==> Variance(s) > 0.0
  {
    RootIsDeviation(s, sqrt);
    hide Square, Variance;
    SquareIsZero(sqrt(Variance(s)));
  }

  /** At threshold t at most one scored entry in t squared is added to the alerts. */
  lemma FewOutliers(log: seq<AuditEntry>, t: real, sqrt: real -> real)
    requires IsSquareRoot(sqrt) && t > 0.0
    ensures Answer(log, ALERTS, LIMIT) <= Anomalies(log, t, sqrt)
    ensures Times((|Anomalies(log, t, sqrt)| - |Answer(log, ALERTS, LIMIT)|) as real, Square(t))
         <= |Scored(log)| as real
  {
    hide Times, Square, Variance, IsDeviation;
    var alerts, scored := Answer(log, ALERTS, LIMIT), Scored(log);
    var values := Map(ScoreOf, scored);
    Laws(Square(t), 0.0, 0.0);
    if |scored| >= 2 && sqrt(Variance(values)) > 0.0 {
      var std := sqrt(Variance(values));
      RootIsDeviation(values, sqrt);
      FilterAtMostFlags(scored, values, std, t, Ids(alerts));
      Chebyshev(values, std, t);
      SquareIsZero(t);
      var k := |Outliers(scored, std, t, Ids(alerts))|;
      TimesOrder(k as real, FlagCount(values, values, std, t) as real, Square(t));
    }
  }

  /** With n scores and a threshold above sqrt(n - 1), only the alerts are reported. */
  lemma TooFewScores(log: seq<AuditEntry>, t: real, sqrt: real -> real)
    requires IsSquareRoot(sqrt) && t > 0.0 && Square(t) > (|Scored(log)| - 1) as real
    ensures Anomalies(log, t, sqrt) == Answer(log, ALERTS, LIMIT)
  {
    hide Square, Variance, IsDeviation, Flagged;
    var alerts, scored := Answer(log, ALERTS, LIMIT), Scored(log);
    var values := Map(ScoreOf, scored);
    if |scored| >= 2 && sqrt(Variance(values)) > 0.0 {
      var std := sqrt(Variance(values));
      RootIsDeviation(values, sqrt);
      var added := Outliers(scored, std, t, Ids(alerts));
      if added != [] {
        assert added[0] in scored && Flagged(values, std, t, ScoreOf(added[0]));
        var i :| 0 <= i < |scored| && scored[i] == added[0];
        FlaggedBound(values, std, t, i);
      }
    }
  }

  // ---- rescaling ----

  function Rescale(a: real, b: real): AuditEntry -> AuditEntry {
    (e: AuditEntry) => e.(score := if e.score.Some? then Some(Times(a, e.score.value) + b) else None)
  }

  lemma MapConcat<A, B>(f: A -> B, x: seq<A>, y: seq<A>)
    ensures Map(f, x + y) == Map(f, x) + Map(f, y)
  {
  }

  lemma {:induction false} FilterMap<A(!new), B(!new)>(f: A -> B, s: seq<A>, p: A -> bool, q: B -> bool)
    requires forall x :: x in s ==> p(x) == q(f(x))
    ensures Filter(Map(f, s), q) == Map(f, Filter(s, p))
  {
    if s != [] {
      assert s[0] in s;
      FilterMap(f, s[1..], p, q);
      assert Map(f, s)[1..] == Map(f, s[1..]);
      var head := if p(s[0]) then [s[0]] else [];
      assert Filter(s, p) == head + Filter(s[1..], p);
      MapConcat(f, head, Filter(s[1..], p));
    }
  }

  lemma {:induction false} AffineAt(s: seq<real>, a: real, b: real, i: nat)
    requires i < |s|
    ensures Affine(s, a, b)[i] == Times(a, s[i]) + b
  {
    hide Times;
    if i > 0 { AffineAt(s[1..], a, b, i - 1); }
  }

  lemma RescaledAnswer(log: seq<AuditEntry>, c: Criteria, limit: int, a: real, b: real)
    ensures Answer(Map(Rescale(a, b), log), c, limit) == Map(Rescale(a, b), Answer(log, c, limit))
  {
    hide Times;
    FilterMap(Rescale(a, b), log, c.Test(), c.Test());
  }

  lemma RescaledScored(log: seq<AuditEntry>, a: real, b: real)
    ensures Scored(Map(Rescale(a, b), log)) == Map(Rescale(a, b), Scored(log))
  {
    hide Times, Answer;
    RescaledAnswer(log, EVALS, LIMIT, a, b);
    FilterMap(Rescale(a, b), Answer(log, EVALS, LIMIT), HasScore, HasScore);
  }

  lemma RescaledValues(s: seq<AuditEntry>, a: real, b: real)
    requires forall e :: e in s ==> HasScore(e)
    ensures Map(ScoreOf, Map(Rescale(a, b), s)) == Affine(Map(ScoreOf, s), a, b)
  {
    hide Times, Affine;
    forall i | 0 <= i < |s| ensures ScoreOf(Rescale(a, b)(s[i])) == Affine(Map(ScoreOf, s), a, b)[i] {
      assert HasScore(s[i]);
      AffineAt(Map(ScoreOf, s), a, b, i);
    }
  }

  /** A set of scores has only one standard deviation. */
  lemma RootIsUnique(s: seq<real>, x: real, y: real)
    requires IsDeviation(s, x) && IsDeviation(s, y)
    ensures x == y
  {
    hide Square, Variance;
    SquareOrder(x, y);
    SquareOrder(y, x);
  }

  lemma RescaledOutliers(
    scored: seq<AuditEntry>, std: real, t: real, known: set<string>, a: real, b: real)
    requires scored != [] && a != 0.0 && forall e :: e in scored ==> HasScore(e)
    requires std > 0.0 && IsDeviation(Map(ScoreOf, scored), std)
    ensures Times(Abs(a), std) > 0.0
    ensures Outliers(Map(Rescale(a, b), scored), Times(Abs(a), std), t, known)
         == Map(Rescale(a, b), Outliers(scored, std, t, known))
  {
    hide Times, Abs, IsDeviation, Flagged, Affine;
    var values := Map(ScoreOf, scored);
    FlagsAreScaleFree(values, std, t, a, b, 0.0);
    RescaledValues(scored, a, b);
    var p := Suspect(values, std, t, known);
    var q := Suspect(Affine(values, a, b), Times(Abs(a), std), t, known);
    forall e | e in scored ensures p(e) == q(Rescale(a, b)(e)) {
      assert HasScore(e);
      FlagsAreScaleFree(values, std, t, a, b, ScoreOf(e));
    }
    FilterMap(Rescale(a, b), scored, p, q);
  }

  /** Reporting all scores on another scale, even an inverted one, reports the same entries. */
  lemma AnomaliesAreScaleFree(log: seq<AuditEntry>, t: real, sqrt: real -> real, a: real, b: real)
    requires IsSquareRoot(sqrt) && a != 0.0
    ensures Anomalies(Map(Rescale(a, b), log), t, sqrt) == Map(Rescale(a, b), Anomalies(log, t, sqrt))
  {
    hide Times, Square, Abs, IsDeviation, Flagged, Affine, Variance, Answer, Rescale, Outliers, Scored;
    var r := Rescale(a, b);
    var alerts, scored := Answer(log, ALERTS, LIMIT), Scored(log);
    RescaledAnswer(log, ALERTS, LIMIT, a, b);
    RescaledScored(log, a, b);
    ScoredHaveScores(log);
    RescaledIds(alerts, a, b);
    if |scored| >= 2 {
      var values := Map(ScoreOf, scored);
      var std := sqrt(Variance(values));
      RescaledValues(scored, a, b);
      RescaledDeviation(values, a, b, sqrt);
      if std > 0.0 {
        RootIsDeviation(values, sqrt);
        RescaledOutliers(scored, std, t, Ids(alerts), a, b);
        MapConcat(r, alerts, Outliers(scored, std, t, Ids(alerts)));
      }
    }
  }

  lemma RescaledDeviation(values: seq<real>, a: real, b: real, sqrt: real -> real)
    requires values != [] && IsSquareRoot(sqrt) && a != 0.0
    ensures sqrt(Variance(Affine(values, a, b))) == Times(Abs(a), sqrt(Variance(values)))
    ensures sqrt(Variance(Affine(values, a, b))) > 0.0 <==> sqrt(Variance(values)) > 0.0
  {
    hide Times, Square, Abs, Variance, Affine;
    var std := sqrt(Variance(values));
    RootIsDeviation(values, sqrt);
    RootIsDeviation(Affine(values, a, b), sqrt);
    AffineMoments(values, a, b);
    AbsPositive(a);
    SquareLaws(Abs(a), std);
    NotNegative(Abs(a), std);
    RootIsUnique(Affine(values, a, b), sqrt(Variance(Affine(values, a, b))), Times(Abs(a), std));
    if std > 0.0 { Positive(Abs(a), std); } else { Laws(std, Abs(a), 0.0); }
  }

  lemma AbsPositive(a: real)
    requires a != 0.0
    ensures Abs(a) > 0.0 && Square(Abs(a)) == Square(a)
  {
    hide Square;
    SquareLaws(a, a);
  }

  lemma NotNegative(a: real, b: real)
    requires a >= 0.0 && b >= 0.0
    ensures Times(a, b) >= 0.0
  {
  }

  lemma ScoredHaveScores(log: seq<AuditEntry>)
    ensures forall e :: e in Scored(log) ==> HasScore(e)
  {
  }

  lemma RescaledIds(s: seq<AuditEntry>, a: real, b: real)
    ensures Ids(Map(Rescale(a, b), s)) == Ids(s)
  {
    hide Times;
    var r := Map(Rescale(a, b), s);
    forall x ensures x in Ids(r) <==> x in Ids(s) {
      if x in Ids(s) {
        var i :| 0 <= i < |s| && s[i].id == x;
        assert r[i] in r;
      }
    }
  }

  // ---- the answers without their definitions ----

  function OfKind(kind: EntryType): AuditEntry -> bool { (e: AuditEntry) => e.kind == kind }

  function OfRun(runId: string): AuditEntry -> bool { (e: AuditEntry) => e.runId == runId }

  /** A timeline holds entries of the run only, by time, 10000 at most, and all of them if there are no more. */
  lemma TimelineExactly(log: seq<AuditEntry>, runId: string)
    ensures
      var r, all := Timeline(log, runId), Filter(log, OfRun(runId));
      && (forall e :: e in r ==> e in log && e.runId == runId)
      && (forall i, j :: 0 <= i < j < |r| ==> r[i].timestamp <= r[j].timestamp)
      && |r| == (if |all| <= 10000 then |all| else 10000)
      && multiset(r) == multiset(if |all| <= 10000 then all else all[..10000])
  {
    var c := Criteria(Some(runId), None, None);
    var s := Answer(log, c, LIMIT);
    QueryExactly(log, c, LIMIT);
    FilterCongruent(log, IsAskedFor(c), OfRun(runId));
    EarlierIsOrder();
    SortSorted(s, Earlier);
    hide Answer, Sort, Filter;
    var r := Timeline(log, runId);
    forall i, j | 0 <= i < j < |r| ensures r[i].timestamp <= r[j].timestamp {
      assert !Earlier(r[j], r[i]);
    }
  }

  lemma FirstOfKind(log: seq<AuditEntry>, kind: EntryType, limit: int)
    ensures
      var all := Filter(log, OfKind(kind));
      Answer(log, Criteria(None, Some(kind), None), limit) ==
        if |all| <= limit || |all| <= 1 then all else all[..if limit <= 1 then 1 else limit]
  {
    var c := Criteria(None, Some(kind), None);
    QueryExactly(log, c, limit);
    FilterCongruent(log, IsAskedFor(c), OfKind(kind));
  }

  /** The scores there are, one after the other. */
  lemma ScoresExactly(s: seq<AuditEntry>)
    ensures s == [] ==> Scores(s) == []
    ensures s != [] ==>
      Scores(s) == (match s[0].score case Some(v) => [v] case None => []) + Scores(s[1..])
  {
    if s != [] {
      var rest := Filter(s[1..], HasScore);
      if s[0].score.Some? {
        assert Filter(s, HasScore) == [s[0]] + rest;
        assert Scores(s) == [s[0].score.value] + Scores(s[1..]);
      } else {
        assert Filter(s, HasScore) == rest;
      }
    }
  }

  /** For a window from 1 up, the trend is the scores of the first evaluations, as many as the window. */
  lemma TrendExactly(log: seq<AuditEntry>, window: int)
    requires window >= 1
    ensures
      var all := Filter(log, OfKind(EvalResult));
      Trend(log, window) == Scores(if |all| <= window then all else all[..window])
  {
    TrendByWindow(log, window);
    FirstOfKind(log, EvalResult, window);
  }

  /**
   * While neither kind exceeds 10000 entries: reported are all quality alerts, and the evaluations with a
   * score, an id that no alert has, and a squared deviation of at least t squared times a non-zero variance.
   */
  lemma SmallLogReport(log: seq<AuditEntry>, t: real, sqrt: real -> real, e: AuditEntry)
    requires IsSquareRoot(sqrt) && t > 0.0
    requires Count(log, OfKind(QualityAlert)) <= 10000 && Count(log, OfKind(EvalResult)) <= 10000
    requires exists x :: x in log && x.kind == EvalResult && x.score.Some?
    ensures
      var values := Scores(Filter(log, OfKind(EvalResult)));
      && values != []
      && (e in Anomalies(log, t, sqrt) <==>
            && e in log
            && (|| e.kind == QualityAlert
                || (&& e.kind == EvalResult && e.score.Some? && Variance(values) > 0.0
                    && (forall a :: a in log && a.kind == QualityAlert ==> a.id != e.id)
                    && Square(e.score.value - Mean(values)) >= Times(Square(t), Variance(values)))))
  {
    hide Square, Times, Variance, Mean, Answer, Anomalies, IsSquareRoot, Scored, Scores, Filter, Count, Ids;
    SmallLog(log);
    var x :| x in log && x.kind == EvalResult && x.score.Some?;
    assert x in Scored(log);
    ReportedExactly(log, t, sqrt, e);
  }

  /** What is asked of a small log is everything of the kind. */
  lemma SmallLog(log: seq<AuditEntry>)
    requires Count(log, OfKind(QualityAlert)) <= 10000 && Count(log, OfKind(EvalResult)) <= 10000
    ensures
      var alerts := Answer(log, ALERTS, LIMIT);
      && (forall e :: e in Scored(log) <==> e in log && e.kind == EvalResult && e.score.Some?)
      && (forall e :: e in alerts <==> e in log && e.kind == QualityAlert)
      && (forall id :: id in Ids(alerts) <==> exists a :: a in log && a.kind == QualityAlert && a.id == id)
      && Map(ScoreOf, Scored(log)) == Scores(Filter(log, OfKind(EvalResult)))
  {
    FirstOfKind(log, EvalResult, LIMIT);
    FirstOfKind(log, QualityAlert, LIMIT);
    hide Answer;
    var alerts := Answer(log, ALERTS, LIMIT);
    forall id ensures id in Ids(alerts) <==> exists a :: a in log && a.kind == QualityAlert && a.id == id {
      if a :| a in log && a.kind == QualityAlert && a.id == id { assert a in alerts; }
    }
  }
}
