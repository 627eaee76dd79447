/** `src/cemaf/audit/subscriber.py`: the append-only audit log and its filtered, limited query. */
module AuditLogs {
  import opened Sequences
  import opened Identity

  datatype EntryType =
    | NodeExecuted | AgentCompleted | ContextPatched | EvalResult | QualityAlert | DagCompleted
    | MemoryExtracted | AccessDenied | KeyRotation

  /** `score` is `float(payload["score"])`, absent where the payload has none or it is not a number. */
  datatype AuditEntry = AuditEntry(
    id: string, kind: EntryType, timestamp: Time, runId: string, source: string, score: Option<real>)

  datatype Criteria = Criteria(runId: Option<string>, kind: Option<EntryType>, since: Option<Time>) {
    predicate Admits(e: AuditEntry) {
      && (runId.Some? ==> e.runId == runId.value)
      && (kind.Some? ==> e.kind == kind.value)
      && (since.Some? ==> e.timestamp >= since.value)
    }

    function Test(): AuditEntry -> bool { (e: AuditEntry) => Admits(e) }
  }

  /** The limit is looked at only after an append, so a limit below one still lets one entry through. */
  function Capacity(limit: int): nat { if limit < 1 then 1 else limit }

  function Take<T>(s: seq<T>, n: nat): seq<T> { if n < |s| then s[..n] else s }

  /** The oldest matches, as many as the limit lets through. */
  function Answer(log: seq<AuditEntry>, c: Criteria, limit: int): seq<AuditEntry> {
    Take(Filter(log, c.Test()), Capacity(limit))
  }

  /** What a loop over the log has collected is the answer once it is full or the log is read. */
  lemma AnswerOfPrefix(log: seq<AuditEntry>, i: nat, c: Criteria, limit: int)
    requires i <= |log| && |Filter(log[..i], c.Test())| <= Capacity(limit)
    requires i == |log| || |Filter(log[..i], c.Test())| == Capacity(limit)
    ensures Answer(log, c, limit) == Filter(log[..i], c.Test())
  {
    hide Criteria.Test;
    FilterConcat(log[..i], log[i..], c.Test());
    assert log == log[..i] + log[i..];
  }

  class EventBusAuditLog {
    var entries: seq<AuditEntry>

    constructor ()
      ensures entries == []
    {
      entries := [];
    }

    method Append(entry: AuditEntry)
      modifies this
      ensures entries == old(entries) + [entry]
    {
      entries := entries + [entry];
    }

    method Query(c: Criteria, limit: int) returns (results: seq<AuditEntry>)
      ensures results == Answer(entries, c, limit)
    {
      hide Filter, Answer;
      results := [];
      var i := 0;
      while i < |entries|
        invariant 0 <= i <= |entries|
        invariant results == Filter(entries[..i], c.Test())
        invariant |results| < Capacity(limit)
      {
        var entry := entries[i];
        FilterSnoc(entries, i, c.Test());
        i := i + 1;
        if c.runId.Some? && entry.runId != c.runId.value { continue; }
        if c.kind.Some? && entry.kind != c.kind.value { continue; }
        if c.since.Some? && entry.timestamp < c.since.value { continue; }
        results := results + [entry];
        if |results| >= limit {
          AnswerOfPrefix(entries, i, c, limit);
          return;
        }
      }
      AnswerOfPrefix(entries, i, c, limit);
    }

    method CountOf(runId: Option<string>) returns (n: nat)
      ensures n == Count(entries, Criteria(runId, None, None).Test())
    {
      var c := Criteria(runId, None, None);
      if runId.None? {
        FilterAll(entries, c.Test());
        return |entries|;
      }
      n := 0;
      for i := 0 to |entries|
        invariant n == Count(entries[..i], c.Test())
      {
        FilterSnoc(entries, i, c.Test());
        if entries[i].runId == runId.value { n := n + 1; }
      }
      assert entries[..|entries|] == entries;
    }
  }

  lemma {:induction false} FilterAll<T(!new)>(s: seq<T>, p: T -> bool)
    requires forall x :: x in s ==> p(x)
    ensures Filter(s, p) == s
  {
    if s != [] {
      FilterAll(s[1..], p);
      assert s == [s[0]] + s[1..];
    }
  }

  lemma AnswerFits(log: seq<AuditEntry>, c: Criteria, limit: int)
    ensures |Answer(log, c, limit)| <= Capacity(limit)
  {
  }

  /** A query only ever grows at its end while the log grows, and stops changing once it is full. */
  lemma AnswerGrows(log: seq<AuditEntry>, more: seq<AuditEntry>, c: Criteria, limit: int)
    ensures Answer(log, c, limit) <= Answer(log + more, c, limit)
    ensures |Answer(log, c, limit)| == Capacity(limit) ==> Answer(log + more, c, limit) == Answer(log, c, limit)
  {
    FilterConcat(log, more, c.Test());
  }

  /** The newest `n` matches, which is what a caller asking for "recent" entries would expect. */
  function Newest(log: seq<AuditEntry>, c: Criteria, n: nat): seq<AuditEntry> {
    var m := Filter(log, c.Test());
    if n < |m| then m[|m| - n..] else m
  }

  ghost predicate UniqueIds(s: seq<AuditEntry>) {
    forall i, j :: 0 <= i < j < |s| ==> s[i].id != s[j].id
  }

  lemma {:induction false} FilterUniqueIds(s: seq<AuditEntry>, p: AuditEntry -> bool)
    requires UniqueIds(s)
    ensures UniqueIds(Filter(s, p))
  {
    if s != [] {
      FilterUniqueIds(s[1..], p);
      var rest := Filter(s[1..], p);
      forall j | 0 <= j < |rest| ensures rest[j].id != s[0].id {
        assert rest[j] in s[1..];
        var k :| 0 <= k < |s[1..]| && s[1..][k] == rest[j];
        assert s[k + 1].id != s[0].id;
      }
    }
  }

  /** A limited query is a query for the newest entries exactly as long as the limit is not exceeded. */
  lemma AnswerIsNewest(log: seq<AuditEntry>, c: Criteria, limit: int)
    requires UniqueIds(log) && limit >= 1
    ensures Answer(log, c, limit) == Newest(log, c, limit) <==> Count(log, c.Test()) <= limit
  {
    var m := Filter(log, c.Test());
    FilterUniqueIds(log, c.Test());
    if |m| > limit {
      assert Answer(log, c, limit)[0] == m[0];
      assert Newest(log, c, limit)[0] == m[|m| - limit];
    }
  }

  // ---- the query without its definitions ----

  /** The asked run, if one is asked; the asked kind, if one is asked; not before the asked time, if one is. */
  predicate AskedFor(e: AuditEntry, c: Criteria) {
    match (c.runId, c.kind, c.since)
    case (None, None, None) => true
    case (None, None, Some(t)) => t <= e.timestamp
    case (None, Some(k), None) => e.kind == k
    case (None, Some(k), Some(t)) => e.kind == k && t <= e.timestamp
    case (Some(r), None, None) => e.runId == r
    case (Some(r), None, Some(t)) => e.runId == r && t <= e.timestamp
    case (Some(r), Some(k), None) => e.runId == r && e.kind == k
    case (Some(r), Some(k), Some(t)) => e.runId == r && e.kind == k && t <= e.timestamp
  }

  function IsAskedFor(c: Criteria): AuditEntry -> bool { (e: AuditEntry) => AskedFor(e, c) }

  lemma {:induction false} FilterCongruent<T(!new)>(s: seq<T>, p: T -> bool, q: T -> bool)
    requires forall x :: x in s ==> p(x) == q(x)
    ensures Filter(s, p) == Filter(s, q)
  {
    if s != [] {
      assert s[0] in s;
      FilterCongruent(s[1..], p, q);
    }
  }

  /**
   * Every answered entry is in the log and was asked for; an answer below the limit holds all such entries; and
   * an answer is the first of them, in their order, as many as the limit lets through, at least one.
   */
  lemma QueryExactly(log: seq<AuditEntry>, c: Criteria, limit: int)
    ensures
      var r := Answer(log, c, limit);
      var all := Filter(log, IsAskedFor(c));
      && (forall e :: e in r ==> e in log && AskedFor(e, c))
      && (|r| < limit ==> forall e :: e in r <==> e in log && AskedFor(e, c))
      && (if |all| <= limit || |all| <= 1 then r == all
          else if limit <= 1 then r == all[..1]
          else r == all[..limit])
  {
    FilterCongruent(log, c.Test(), IsAskedFor(c));
    assert Filter(log, c.Test()) == Filter(log, IsAskedFor(c));
  }

  /** The indices whose entries are of the run, or all of them. */
  function IndicesOf(log: seq<AuditEntry>, runId: Option<string>): set<nat> {
    set i: nat | i < |log| && (runId == None || Some(log[i].runId) == runId)
  }

  lemma IndicesSnoc(log: seq<AuditEntry>, n: nat, runId: Option<string>)
    requires |log| == n + 1
    ensures |IndicesOf(log, runId)| ==
            |IndicesOf(log[..n], runId)| + if runId == None || Some(log[n].runId) == runId then 1 else 0
  {
    var before, after := IndicesOf(log[..n], runId), IndicesOf(log, runId);
    assert n !in before;
    forall i: nat | i < n ensures i in before <==> i in after {
      assert log[..n][i] == log[i];
    }
    if runId == None || Some(log[n].runId) == runId {
      assert after == before + {n};
    } else {
      assert after == before;
    }
  }

  /** `count` counts the entries of the run, or all. */
  lemma {:induction false} CountExactly(log: seq<AuditEntry>, runId: Option<string>)
    ensures Count(log, Criteria(runId, None, None).Test()) == |IndicesOf(log, runId)|
  {
    var c := Criteria(runId, None, None);
    if log == [] {
      assert IndicesOf(log, runId) == {};
    } else {
      hide IndicesOf, Filter;
      var n := |log| - 1;
      assert log[..n + 1] == log;
      CountExactly(log[..n], runId);
      FilterSnoc(log, n, c.Test());
      IndicesSnoc(log, n, runId);
    }
  }
}
