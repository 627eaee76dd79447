/** `select_policy_revision` of `examples/app_shapes/policy_evidence.py`: the latest effective revision, or none. */
module Policies {
  import opened Sequences
  import opened Text

  datatype Date = Date(year: nat, month: nat, day: nat)

  predicate Before(a: Date, b: Date) {
    || a.year < b.year
    || (a.year == b.year && (a.month < b.month || (a.month == b.month && a.day < b.day)))
  }

  datatype Policy = Policy(
    tenant: string, sourceId: string, approved: bool, effectiveFrom: string, effectiveTo: Option<string>,
    content: string)

  /** `parse` is `date.fromisoformat`, `None` standing for its `ValueError`. */
  datatype Request = Request(tenant: string, policyId: string, asOf: Date, parse: string -> Option<Date>)

  /** `s.split("@")[0]` */
  function BeforeAt(s: string): string {
    if s == [] || s[0] == '@' then [] else [s[0]] + BeforeAt(s[1..])
  }

  /** The policy id of a source id: the id itself, or what stands before its first '@'. */
  lemma {:induction false} BeforeAtExactly(s: string, id: string)
    ensures BeforeAt(s) == id <==> '@' !in id && (s == id || id + "@" <= s)
  {
    if s != [] && s[0] != '@' && id != [] && id[0] == s[0] {
      BeforeAtExactly(s[1..], id[1..]);
      assert s == [s[0]] + s[1..] && id == [id[0]] + id[1..];
      assert (id + "@")[1..] == id[1..] + "@";
      assert id + "@" <= s <==> id[1..] + "@" <= s[1..];
    }
  }

  datatype Verdict = Eligible | Ineligible | Malformed

  /** The tests of the comprehension, in its order: a date that is not reached is not parsed. */
  function Judge(p: Policy, q: Request): Verdict {
    if p.tenant != q.tenant || BeforeAt(p.sourceId) != q.policyId || !p.approved then Ineligible
    else match q.parse(p.effectiveFrom)
      case None => Malformed
      case Some(from) =>
        if Before(q.asOf, from) then Ineligible
        else if p.effectiveTo.None? then Eligible
        else match q.parse(p.effectiveTo.value)
          case None => Malformed
          case Some(to) => if Before(to, q.asOf) then Ineligible else Eligible
  }

  datatype Outcome = Chosen(policy: Policy) | NonePolicy | Conflict | Error

  function Greatest(s: seq<string>): string
    requires s != []
  {
    if |s| == 1 then s[0]
    else
      var rest := Greatest(s[1..]);
      if Less(s[0], rest) then rest else s[0]
  }

  /** `min(..., key=source_id)`: the first of the smallest. */
  function FirstBySource(s: seq<Policy>): Policy
    requires s != []
  {
    if |s| == 1 then s[0]
    else
      var rest := FirstBySource(s[1..]);
      if Less(rest.sourceId, s[0].sourceId) then rest else s[0]
  }

  function EligibleFor(q: Request): Policy -> bool { (p: Policy) => Judge(p, q) == Eligible }

  function Candidates(policies: seq<Policy>, q: Request): seq<Policy> { Filter(policies, EligibleFor(q)) }

  function Current(candidates: seq<Policy>): seq<Policy>
    requires candidates != []
  {
    var latest := Greatest(Map((p: Policy) => p.effectiveFrom, candidates));
    Filter(candidates, (p: Policy) => p.effectiveFrom == latest)
  }

  function Contents(s: seq<Policy>): set<string> { set p | p in s :: p.content }

  function Select(policies: seq<Policy>, q: Request): Outcome {
    if exists p :: p in policies && Judge(p, q) == Malformed then Error
    else
      var candidates := Candidates(policies, q);
      if candidates == [] then NonePolicy
      else
        var current := Current(candidates);
        if |Contents(current)| != 1 || current == [] then Conflict else Chosen(FirstBySource(current))
  }

  // ---- what is chosen ----

  lemma {:induction false} GreatestIsGreatest(s: seq<string>)
    requires s != []
    ensures Greatest(s) in s && forall x :: x in s ==> !Less(Greatest(s), x)
  {
    if |s| == 1 {
      LessAsymmetric(s[0], s[0]);
    } else {
      GreatestIsGreatest(s[1..]);
      LessIsOrder();
      var rest := Greatest(s[1..]);
      forall x | x in s ensures !Less(Greatest(s), x) {
        assert x == s[0] || x in s[1..];
      }
    }
  }

  lemma {:induction false} FirstBySourceIsLeast(s: seq<Policy>)
    requires s != []
    ensures FirstBySource(s) in s
    ensures forall p :: p in s ==> !Less(p.sourceId, FirstBySource(s).sourceId)
  {
    if |s| == 1 {
      LessAsymmetric(s[0].sourceId, s[0].sourceId);
    } else {
      FirstBySourceIsLeast(s[1..]);
      LessIsOrder();
      forall p | p in s ensures !Less(p.sourceId, FirstBySource(s).sourceId) {
        assert p == s[0] || p in s[1..];
      }
    }
  }

  /** `p` is eligible and nothing eligible has a greater effective date string. */
  ghost predicate Latest(p: Policy, policies: seq<Policy>, q: Request) {
    && p in policies && Judge(p, q) == Eligible
    && forall x :: x in policies && Judge(x, q) == Eligible ==> !Less(p.effectiveFrom, x.effectiveFrom)
  }

  lemma CurrentIsLatest(policies: seq<Policy>, q: Request)
    requires Candidates(policies, q) != []
    ensures Current(Candidates(policies, q)) != []
    ensures forall p :: p in Current(Candidates(policies, q)) <==> Latest(p, policies, q)
  {
    hide Judge;
    var candidates := Candidates(policies, q);
    var dates := Map((p: Policy) => p.effectiveFrom, candidates);
    var latest := Greatest(dates);
    GreatestIsGreatest(dates);
    hide Less, Greatest;
    var i :| 0 <= i < |dates| && dates[i] == latest;
    assert candidates[i] in Current(candidates);
    forall x | x in candidates ensures x.effectiveFrom in dates {
      var j :| 0 <= j < |candidates| && candidates[j] == x;
      assert dates[j] == x.effectiveFrom;
    }
    forall p ensures p in Current(candidates) <==> Latest(p, policies, q) {
      if Latest(p, policies, q) {
        assert p in candidates && !Less(p.effectiveFrom, candidates[i].effectiveFrom);
        LessTotal(p.effectiveFrom, latest);
      }
    }
  }

  lemma OneContent(s: seq<Policy>)
    requires s != []
    ensures |Contents(s)| == 1 <==> forall p, r :: p in s && r in s ==> p.content == r.content
  {
    var c := s[0].content;
    assert s[0] in s && c in Contents(s);
    if forall p, r :: p in s && r in s ==> p.content == r.content {
      assert Contents(s) == {c};
    } else {
      var p, r :| p in s && r in s && p.content != r.content;
      assert {p.content, r.content} <= Contents(s);
      AtLeastTwo(p.content, r.content, Contents(s));
    }
  }

  lemma AtLeastTwo(x: string, y: string, s: set<string>)
    requires x != y && {x, y} <= s
    ensures |s| >= 2
  {
    assert s == {x} + (s - {x}) && y in s - {x};
    assert |s - {x}| > 0;
  }

  ghost predicate Disagree(policies: seq<Policy>, q: Request) {
    exists p, r :: Latest(p, policies, q) && Latest(r, policies, q) && p.content != r.content
  }

  /** Unless a date is malformed, the choice abstains exactly when nothing is eligible or the latest disagree. */
  lemma AbstainsExactly(policies: seq<Policy>, q: Request)
    requires forall p :: p in policies ==> Judge(p, q) != Malformed
    ensures Select(policies, q) == NonePolicy <==> forall p :: p in policies ==> Judge(p, q) != Eligible
    ensures Select(policies, q) == Conflict <==> Disagree(policies, q)
    ensures Select(policies, q).Chosen? ==>
      var c := Select(policies, q).policy;
      Latest(c, policies, q) && forall p :: Latest(p, policies, q) ==> !Less(p.sourceId, c.sourceId)
  {
    hide Judge, Less, Latest, Current, Contents;
    var candidates := Candidates(policies, q);
    if candidates == [] {
      NothingIsLatest(policies, q);
    } else {
      assert candidates[0] in candidates;
      CurrentIsLatest(policies, q);
      OneContent(Current(candidates));
      FirstBySourceIsLeast(Current(candidates));
    }
  }

  lemma NothingIsLatest(policies: seq<Policy>, q: Request)
    requires Candidates(policies, q) == []
    ensures !Disagree(policies, q) && forall p :: p in policies ==> Judge(p, q) != Eligible
  {
    hide Judge;
    forall p | p in policies ensures Judge(p, q) != Eligible {
      assert Judge(p, q) == Eligible ==> p in Candidates(policies, q);
    }
  }

  // ---- what the choice does not depend on ----

  /** The order of the policies decides neither whether there is an answer nor its source or content. */
  lemma OrderDecidesNothing(a: seq<Policy>, b: seq<Policy>, q: Request)
    requires multiset(a) == multiset(b)
    ensures Select(a, q) == Select(b, q) ||
      (Select(a, q).Chosen? && Select(b, q).Chosen?
       && Select(a, q).policy.content == Select(b, q).policy.content
       && Select(a, q).policy.sourceId == Select(b, q).policy.sourceId)
  {
    hide Judge, Less, Select;
    SameElements(a, b);
    if exists p :: p in a && Judge(p, q) == Malformed {
      MalformedIsError(a, q);
      MalformedIsError(b, q);
    } else {
      AbstainsExactly(a, q);
      AbstainsExactly(b, q);
      NoError(a, q);
      NoError(b, q);
      SameLatest(a, b, q);
      if Select(a, q).Chosen? {
        var c, d := Select(a, q).policy, Select(b, q).policy;
        assert Latest(c, a, q) && Latest(d, a, q);
        LessTotal(c.sourceId, d.sourceId);
      }
    }
  }

  lemma MalformedIsError(policies: seq<Policy>, q: Request)
    requires exists p :: p in policies && Judge(p, q) == Malformed
    ensures Select(policies, q) == Error
  {
  }

  lemma NoError(policies: seq<Policy>, q: Request)
    requires forall p :: p in policies ==> Judge(p, q) != Malformed
    ensures Select(policies, q) != Error
  {
    hide Judge, Current, Contents;
  }

  lemma SameLatest(a: seq<Policy>, b: seq<Policy>, q: Request)
    requires forall p :: p in a <==> p in b
    ensures forall p :: Latest(p, a, q) <==> Latest(p, b, q)
  {
    hide Judge, Less;
  }

  /** An ineligible policy changes nothing, wherever it stands in the list. */
  lemma IneligibleDecidesNothing(a: seq<Policy>, p: Policy, b: seq<Policy>, q: Request)
    requires Judge(p, q) == Ineligible
    ensures Select(a + [p] + b, q) == Select(a + b, q)
  {
    hide Judge, Current, Contents, Filter;
    assert a + [p] + b == a + ([p] + b);
    FilterConcat(a, [p] + b, EligibleFor(q));
    FilterCons(p, b, EligibleFor(q));
    FilterConcat(a, b, EligibleFor(q));
    assert [] + Filter(b, EligibleFor(q)) == Filter(b, EligibleFor(q));
    assert Candidates(a + [p] + b, q) == Candidates(a + b, q);
    hide Candidates, EligibleFor;
    forall x ensures x in a + [p] + b && Judge(x, q) == Malformed <==> x in a + b && Judge(x, q) == Malformed { }
  }

  // ---- eligibility without its definition ----

  /** The tenant's approved revision of the policy: its source id is the policy id, alone or before an '@'. */
  ghost predicate Concerns(p: Policy, q: Request) {
    && p.tenant == q.tenant && p.approved
    && '@' !in q.policyId && (p.sourceId == q.policyId || q.policyId + "@" <= p.sourceId)
  }

  /** The revision has started by the date of the request, its first day included. */
  ghost predicate Started(p: Policy, q: Request) {
    var from := q.parse(p.effectiveFrom);
    from.Some? && (from.value == q.asOf || Before(from.value, q.asOf))
  }

  /** Eligible is a started revision without an end, or one that ends on that date or later. */
  lemma EligibleExactly(p: Policy, q: Request)
    ensures Judge(p, q) == Eligible <==>
      && Concerns(p, q) && Started(p, q)
      && (p.effectiveTo == None
          || exists to :: q.parse(p.effectiveTo.value) == Some(to) && (to == q.asOf || Before(q.asOf, to)))
    ensures Judge(p, q) == Malformed <==>
      && Concerns(p, q)
      && (q.parse(p.effectiveFrom) == None
          || (Started(p, q) && p.effectiveTo.Some? && q.parse(p.effectiveTo.value) == None))
  {
    BeforeAtExactly(p.sourceId, q.policyId);
    hide BeforeAt;
  }

  /** A single policy is chosen, is an error, or is no answer, by just these tests. */
  lemma AloneExactly(p: Policy, q: Request)
    ensures Select([p], q) == match Judge(p, q)
      case Eligible => Chosen(p)
      case Ineligible => NonePolicy
      case Malformed => Error
  {
    hide Judge, Less;
    assert [p][0] == p && p in [p];
    if Judge(p, q) == Malformed {
      MalformedIsError([p], q);
    } else {
      NoError([p], q);
      AbstainsExactly([p], q);
      if Judge(p, q) == Eligible {
        hide Select;
        assert !Disagree([p], q);
      }
    }
  }
}
