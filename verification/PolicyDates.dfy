/** The choice of a policy revision compares date strings; this is where that is the order of the dates. */
module PolicyDates {
  import opened Sequences
  import opened Text
  import opened Policies

  // ---- the two calendar notations ----

  predicate IsLeap(year: nat) { year % 4 == 0 && (year % 100 != 0 || year % 400 == 0) }

  function DaysIn(year: nat, month: nat): nat {
    if month == 2 then (if IsLeap(year) then 29 else 28) else if month in {4, 6, 9, 11} then 30 else 31
  }

  predicate InCalendar(d: Date) { d.year >= 1 && 1 <= d.month <= 12 && 1 <= d.day <= DaysIn(d.year, d.month) }

  predicate AllDigits(s: string) { forall c :: c in s ==> IsDigit(c) }

  function DateFrom(year: string, month: string, day: string): Date
    requires AllDigits(year) && AllDigits(month) && AllDigits(day)
  {
    Date(FromDecimal(year), FromDecimal(month), FromDecimal(day))
  }

  predicate HasFullDate(s: string) {
    |s| == 10 && s[4] == '-' && s[7] == '-' && AllDigits(s[..4]) && AllDigits(s[5..7]) && AllDigits(s[8..])
  }

  /** `YYYY-MM-DD`, the full-date of RFC 3339, section 5.1. */
  predicate IsFullDate(s: string) { HasFullDate(s) && InCalendar(DateFrom(s[..4], s[5..7], s[8..])) }

  function FullDate(s: string): Date requires IsFullDate(s) { DateFrom(s[..4], s[5..7], s[8..]) }

  predicate HasBasicDate(s: string) {
    |s| == 8 && AllDigits(s[..4]) && AllDigits(s[4..6]) && AllDigits(s[6..])
  }

  /** `YYYYMMDD`, which `fromisoformat` reads as well. */
  predicate IsBasicDate(s: string) { HasBasicDate(s) && InCalendar(DateFrom(s[..4], s[4..6], s[6..])) }

  function BasicDate(s: string): Date requires IsBasicDate(s) { DateFrom(s[..4], s[4..6], s[6..]) }

  lemma {:induction false} LessConcat(a: string, b: string, x: string, y: string)
    requires |a| == |b|
    ensures Less(a + x, b + y) <==> Less(a, b) || (a == b && Less(x, y))
  {
    if a == [] {
      assert a + x == x && b + y == y;
    } else {
      assert (a + x)[1..] == a[1..] + x && (b + y)[1..] == b[1..] + y;
      LessConcat(a[1..], b[1..], x, y);
      assert a == [a[0]] + a[1..] && b == [b[0]] + b[1..];
    }
  }

  /** Digit strings of one length compare as their numbers do. */
  lemma {:induction false} LessIsNumeric(a: string, b: string)
    requires |a| == |b| && AllDigits(a) && AllDigits(b)
    ensures Less(a, b) <==> FromDecimal(a) < FromDecimal(b)
    ensures a == b <==> FromDecimal(a) == FromDecimal(b)
  {
    if a != [] {
      var n := |a| - 1;
      assert a[n] in a && b[n] in b;
      LessIsNumeric(a[..n], b[..n]);
      LessConcat(a[..n], b[..n], [a[n]], [b[n]]);
      assert a == a[..n] + [a[n]] && b == b[..n] + [b[n]];
      assert Less([a[n]], [b[n]]) <==> a[n] < b[n];
      hide Less;
    }
  }

  /** On full dates the string order the code compares by is the order of the dates. */
  lemma FullDatesCompareAsStrings(a: string, b: string)
    requires IsFullDate(a) && IsFullDate(b)
    ensures Less(a, b) <==> Before(FullDate(a), FullDate(b))
  {
    assert a == a[..4] + ("-" + (a[5..7] + ("-" + a[8..])));
    assert b == b[..4] + ("-" + (b[5..7] + ("-" + b[8..])));
    LessIsNumeric(a[..4], b[..4]);
    LessIsNumeric(a[5..7], b[5..7]);
    LessIsNumeric(a[8..], b[8..]);
    LessConcat(a[..4], b[..4], "-" + (a[5..7] + ("-" + a[8..])), "-" + (b[5..7] + ("-" + b[8..])));
    LessConcat("-", "-", a[5..7] + ("-" + a[8..]), b[5..7] + ("-" + b[8..]));
    LessConcat(a[5..7], b[5..7], "-" + a[8..], "-" + b[8..]);
    LessConcat("-", "-", a[8..], b[8..]);
    LessAsymmetric("-", "-");
    hide Less, FromDecimal, AllDigits, InCalendar;
  }

  /** And so it is on basic dates. */
  lemma BasicDatesCompareAsStrings(a: string, b: string)
    requires IsBasicDate(a) && IsBasicDate(b)
    ensures Less(a, b) <==> Before(BasicDate(a), BasicDate(b))
  {
    assert a == a[..4] + (a[4..6] + a[6..]);
    assert b == b[..4] + (b[4..6] + b[6..]);
    LessIsNumeric(a[..4], b[..4]);
    LessIsNumeric(a[4..6], b[4..6]);
    LessIsNumeric(a[6..], b[6..]);
    LessConcat(a[..4], b[..4], a[4..6] + a[6..], b[4..6] + b[6..]);
    LessConcat(a[4..6], b[4..6], a[6..], b[6..]);
    hide Less, FromDecimal, AllDigits, InCalendar;
  }

  // ---- deciding by date ----

  function DateOf(p: Policy, q: Request): Date {
    match q.parse(p.effectiveFrom) case Some(d) => d case None => Date(0, 0, 0)
  }

  /** `p` is eligible and nothing eligible takes effect on a later day. */
  ghost predicate LatestByDate(p: Policy, policies: seq<Policy>, q: Request) {
    && p in policies && Judge(p, q) == Eligible
    && forall x :: x in policies && Judge(x, q) == Eligible ==> !Before(DateOf(p, q), DateOf(x, q))
  }

  ghost predicate DisagreeByDate(policies: seq<Policy>, q: Request) {
    exists p, r :: LatestByDate(p, policies, q) && LatestByDate(r, policies, q) && p.content != r.content
  }

  /** What the code promises: the latest approved effective revision, and abstention if those of that day differ. */
  ghost predicate DecidedByDate(policies: seq<Policy>, q: Request) {
    && (Select(policies, q) == Conflict <==> DisagreeByDate(policies, q))
    && (Select(policies, q).Chosen? ==> LatestByDate(Select(policies, q).policy, policies, q))
  }

  predicate WellFormed(policies: seq<Policy>, q: Request) { forall p :: p in policies ==> Judge(p, q) != Malformed }

  /** Two date strings, if they are dates, compare as the dates do. */
  predicate Agree(a: string, b: string, parse: string -> Option<Date>) {
    parse(a).Some? && parse(b).Some? ==> (Less(a, b) <==> Before(parse(a).value, parse(b).value))
  }

  lemma EligibleHasDate(p: Policy, q: Request)
    requires Judge(p, q) == Eligible
    ensures q.parse(p.effectiveFrom) == Some(DateOf(p, q))
  {
  }

  /** Where the strings of the eligible policies compare as their dates, the choice is the one by date. */
  lemma DecidedWhereStringsAgree(policies: seq<Policy>, q: Request)
    requires WellFormed(policies, q)
    requires forall p, r :: p in policies && r in policies && Judge(p, q) == Eligible && Judge(r, q) == Eligible ==>
      Agree(p.effectiveFrom, r.effectiveFrom, q.parse)
    ensures DecidedByDate(policies, q)
  {
    hide Judge, Less, Before, Select;
    forall p ensures Latest(p, policies, q) <==> LatestByDate(p, policies, q) {
      forall x | p in policies && Judge(p, q) == Eligible && x in policies && Judge(x, q) == Eligible
        ensures Less(p.effectiveFrom, x.effectiveFrom) <==> Before(DateOf(p, q), DateOf(x, q)) {
        EligibleHasDate(p, q);
        EligibleHasDate(x, q);
        assert Agree(p.effectiveFrom, x.effectiveFrom, q.parse);
      }
    }
    AbstainsExactly(policies, q);
    hide Latest, LatestByDate;
  }

  /** On every list dated with these strings, whatever is asked for, the choice is the one by date. */
  ghost predicate AlwaysByDate(allowed: string -> bool, parse: string -> Option<Date>) {
    forall policies: seq<Policy>, q: Request ::
      q.parse == parse && (forall p :: p in policies ==> allowed(p.effectiveFrom)) && WellFormed(policies, q) ==>
        DecidedByDate(policies, q)
  }

  ghost predicate StringsAgree(allowed: string -> bool, parse: string -> Option<Date>) {
    forall a, b :: allowed(a) && allowed(b) ==> Agree(a, b, parse)
  }

  /** Any set of date strings: the choice is always the one by date exactly if the strings compare as the dates. */
  lemma AlwaysByDateExactly(allowed: string -> bool, parse: string -> Option<Date>)
    ensures AlwaysByDate(allowed, parse) <==> StringsAgree(allowed, parse)
  {
    if StringsAgree(allowed, parse) {
      forall policies: seq<Policy>, q: Request |
        q.parse == parse && (forall p :: p in policies ==> allowed(p.effectiveFrom)) && WellFormed(policies, q)
        ensures DecidedByDate(policies, q) {
        DecidedWhereStringsAgree(policies, q);
      }
    } else {
      var a, b :| allowed(a) && allowed(b) && !Agree(a, b, parse);
      LessTotal(a, b);
      LessAsymmetric(a, b);
      if Less(a, b) {
        Misordered(allowed, parse, a, b);
      } else {
        Misordered(allowed, parse, b, a);
      }
    }
  }

  /** An open-ended approved revision of tenant "t", policy "p". */
  function Revision(effectiveFrom: string, content: string): Policy {
    Policy("t", "p", true, effectiveFrom, None, content)
  }

  lemma RevisionIsEligible(r: Policy, q: Request)
    requires r == Revision(r.effectiveFrom, r.content) && q.tenant == "t" && q.policyId == "p"
    requires q.parse(r.effectiveFrom).Some? && !Before(q.asOf, q.parse(r.effectiveFrom).value)
    ensures Judge(r, q) == Eligible
  {
    assert BeforeAt("") == "" && "p"[1..] == "";
  }

  /** Of two eligible revisions with different contents the one with the greater string is chosen. */
  lemma GreaterStringWins(low: Policy, high: Policy, q: Request)
    requires Judge(low, q) == Eligible && Judge(high, q) == Eligible && low.content != high.content
    requires Less(low.effectiveFrom, high.effectiveFrom)
    ensures Select([low, high], q) == Chosen(high) && WellFormed([low, high], q)
  {
    hide Judge, Less;
    var policies := [low, high];
    AbstainsExactly(policies, q);
    NoError(policies, q);
    LessAsymmetric(low.effectiveFrom, high.effectiveFrom);
    LessAsymmetric(high.effectiveFrom, high.effectiveFrom);
    hide Select;
    assert low in policies && high in policies;
    assert Latest(high, policies, q) && !Latest(low, policies, q);
  }

  /** A greater string of a day that is not later: chosen over a later revision, or over one of the same day. */
  lemma Misordered(allowed: string -> bool, parse: string -> Option<Date>, low: string, high: string)
    requires allowed(low) && allowed(high) && parse(low).Some? && parse(high).Some?
    requires Less(low, high) && !Before(parse(low).value, parse(high).value)
    ensures !AlwaysByDate(allowed, parse)
  {
    var q := Request("t", "p", parse(low).value, parse);
    var x, y := Revision(low, "x"), Revision(high, "y");
    RevisionIsEligible(x, q);
    RevisionIsEligible(y, q);
    GreaterStringWins(x, y, q);
    hide Judge, Less, Before;
    NotByDate(x, y, q);
    hide DecidedByDate, Select;
    assert forall p :: p in [x, y] ==> allowed(p.effectiveFrom);
    assert !DecidedByDate([x, y], q);
  }

  lemma NotByDate(x: Policy, y: Policy, q: Request)
    requires Judge(x, q) == Eligible && Judge(y, q) == Eligible && Select([x, y], q) == Chosen(y)
    requires x.content != y.content && !Before(DateOf(x, q), DateOf(y, q))
    ensures !DecidedByDate([x, y], q)
  {
    hide Judge, Select, DateOf;
    var policies := [x, y];
    assert x in policies && y in policies;
    if Before(DateOf(y, q), DateOf(x, q)) {
      assert !LatestByDate(y, policies, q);
    } else {
      assert LatestByDate(x, policies, q) && LatestByDate(y, policies, q);
    }
  }

  // ---- the notations of the calendar ----

  function Notations(full: bool, basic: bool): string -> bool {
    (s: string) => (full && IsFullDate(s)) || (basic && IsBasicDate(s))
  }

  /** `parse` reads both notations as `fromisoformat` does; what else it reads does not matter. */
  ghost predicate ReadsDates(parse: string -> Option<Date>) {
    && (forall s :: IsFullDate(s) ==> parse(s) == Some(FullDate(s)))
    && (forall s :: IsBasicDate(s) ==> parse(s) == Some(BasicDate(s)))
  }

  /** Latest by date, and abstaining on a disagreement of one day, exactly unless both notations are in use. */
  lemma ByDateUnlessMixed(full: bool, basic: bool, parse: string -> Option<Date>)
    requires ReadsDates(parse)
    ensures AlwaysByDate(Notations(full, basic), parse) <==> !(full && basic)
  {
    hide AlwaysByDate, IsFullDate, IsBasicDate, Less, FullDate, BasicDate, Before;
    AlwaysByDateExactly(Notations(full, basic), parse);
    if full && basic {
      OneDayTwice();
      assert !Agree("2026-01-01", "20260101", parse);
    } else {
      forall a, b | Notations(full, basic)(a) && Notations(full, basic)(b) ensures Agree(a, b, parse) {
        if full { FullDatesCompareAsStrings(a, b); }
        if basic { BasicDatesCompareAsStrings(a, b); }
      }
    }
  }

  lemma FromTwo(s: string)
    requires |s| == 2 && AllDigits(s)
    ensures s[0] in s && s[1] in s && FromDecimal(s) == 10 * DigitValue(s[0]) + DigitValue(s[1])
  {
    var t := s[..1];
    assert t[0] == s[0] && t[0] in s && t[..0] == [];
    assert FromDecimal(t) == DigitValue(t[0]);
  }

  lemma FromFour(s: string)
    requires |s| == 4 && AllDigits(s)
    ensures FromDecimal(s) == 100 * FromDecimal(s[..2]) + FromDecimal(s[2..])
  {
    FromTwo(s[2..]);
    assert s[..3][..2] == s[..2] && s[..3][2] == s[2..][0] && s[3] == s[2..][1];
  }

  lemma NewYear()
    ensures AllDigits("2026") && AllDigits("01")
    ensures DateFrom("2026", "01", "01") == Date(2026, 1, 1) && InCalendar(Date(2026, 1, 1))
  {
    FromFour("2026");
    FromTwo("2026"[..2]);
    FromTwo("2026"[2..]);
    FromTwo("01");
  }

  /** One day in both notations: the strings differ, the dates do not. */
  lemma OneDayTwice()
    ensures IsFullDate("2026-01-01") && IsBasicDate("20260101")
    ensures FullDate("2026-01-01") == BasicDate("20260101") == Date(2026, 1, 1)
    ensures Less("2026-01-01", "20260101") && !Before(Date(2026, 1, 1), Date(2026, 1, 1))
  {
    NewYear();
    hide AllDigits, DateFrom, InCalendar;
    var a, b := "2026-01-01", "20260101";
    assert a[..4] == "2026" && a[5..7] == "01" && a[8..] == "01";
    assert b[..4] == "2026" && b[4..6] == "01" && b[6..] == "01";
    assert a == "2026" + "-01-01" && b == "2026" + "0101";
    LessConcat("2026", "2026", "-01-01", "0101");
  }

  /** If every eligible policy is dated by a full date, the choice is the one by date. */
  lemma FullDatesAreDecidedByDate(policies: seq<Policy>, q: Request)
    requires WellFormed(policies, q)
    requires forall x :: x in policies && Judge(x, q) == Eligible ==>
      IsFullDate(x.effectiveFrom) && q.parse(x.effectiveFrom) == Some(FullDate(x.effectiveFrom))
    ensures DecidedByDate(policies, q)
  {
    hide Judge, Less, Before, FullDate, IsFullDate, DecidedByDate;
    forall p, r | p in policies && r in policies && Judge(p, q) == Eligible && Judge(r, q) == Eligible
      ensures Agree(p.effectiveFrom, r.effectiveFrom, q.parse) {
      FullDatesCompareAsStrings(p.effectiveFrom, r.effectiveFrom);
    }
    DecidedWhereStringsAgree(policies, q);
  }

  // ---- what goes wrong between the notations ----

  /** Over a newer revision in the other notation, the older one is chosen. */
  lemma BasicFormatMisleads(q: Request)
    requires q.tenant == "t" && q.policyId == "p" && q.asOf == Date(2027, 1, 1)
    requires q.parse("20260101") == Some(Date(2026, 1, 1)) && q.parse("2026-12-31") == Some(Date(2026, 12, 31))
    ensures
      var older, newer := Revision("20260101", "old"), Revision("2026-12-31", "new");
      Select([newer, older], q) == Chosen(older) && Before(DateOf(older, q), DateOf(newer, q))
  {
    var older, newer := Revision("20260101", "old"), Revision("2026-12-31", "new");
    RevisionIsEligible(older, q);
    RevisionIsEligible(newer, q);
    assert "2026-12-31" == "2026" + "-12-31" && "20260101" == "2026" + "0101";
    LessConcat("2026", "2026", "-12-31", "0101");
    hide Judge;
    GreaterStringWins(newer, older, q);
  }

  /** Two different revisions of one day are no conflict if they are written differently. */
  lemma OneDayIsNoConflict(q: Request)
    requires q.tenant == "t" && q.policyId == "p" && q.asOf == Date(2027, 1, 1) && ReadsDates(q.parse)
    ensures
      var x, y := Revision("2026-01-01", "x"), Revision("20260101", "y");
      Select([x, y], q) == Chosen(y) && DateOf(x, q) == DateOf(y, q)
  {
    hide IsFullDate, IsBasicDate, Less;
    OneDayTwice();
    var x, y := Revision("2026-01-01", "x"), Revision("20260101", "y");
    RevisionIsEligible(x, q);
    RevisionIsEligible(y, q);
    hide Judge;
    GreaterStringWins(x, y, q);
  }
}
