/** Fitting a conversation into a character budget: truncation, tail preservation, anchor plus tail. */
module Compaction {
  import opened Sequences
  import opened Lines
  import opened Anchors

  function Line(t: Turn): string { "[" + t.role + "] " + t.content }

  function Text(turns: seq<Turn>): string { Join(Map(Line, turns)) }

  // ---- flat truncation ----

  /** `blob[: limit - 3] + "..."` where the text is longer than the limit; the cut may be negative. */
  function Truncate(text: string, limit: int): string {
    if |text| > limit then Cut(text, limit - 3) + "..." else text
  }

  function M1(turns: seq<Turn>, budget: int): string { Truncate(Text(turns), budget) }

  /** The limit is respected unless it is too small for the dots and there is something to cut. */
  lemma TruncateFitsExactly(text: string, limit: int)
    ensures |Truncate(text, limit)| <= limit <==> |text| <= limit || limit >= 3
  {
  }

  lemma M1FitsExactly(turns: seq<Turn>, budget: int)
    ensures |M1(turns, budget)| <= budget <==> |Text(turns)| <= budget || budget >= 3
  {
    TruncateFitsExactly(Text(turns), budget);
  }

  // ---- tail preservation ----

  function Cost(t: Turn): nat { |t.content| + 20 }

  function CostOf(turns: seq<Turn>): nat {
    if turns == [] then 0 else Cost(turns[0]) + CostOf(turns[1..])
  }

  /** Walk back from the last turn as long as the next one still fits. */
  function Tail(turns: seq<Turn>, budget: int): seq<Turn> {
    if turns == [] || Cost(turns[|turns| - 1]) > budget then []
    else
      var n := |turns| - 1;
      Tail(turns[..n], budget - Cost(turns[n])) + [turns[n]]
  }

  function M2(turns: seq<Turn>, budget: int): string { Text(Tail(turns, budget)) }

  function Reverse<T>(s: seq<T>): (r: seq<T>)
    ensures |r| == |s| && forall i :: 0 <= i < |s| ==> r[i] == s[|s| - 1 - i]
  {
    if s == [] then [] else [s[|s| - 1]] + Reverse(s[..|s| - 1])
  }

  lemma ReverseSnoc<T>(s: seq<T>, x: T)
    ensures Reverse(s + [x]) == [x] + Reverse(s)
  {
  }

  lemma TailStep(turns: seq<Turn>, i: nat, budget: int)
    requires i < |turns|
    ensures Tail(turns[..i + 1], budget) ==
            if Cost(turns[i]) > budget then []
            else Tail(turns[..i], budget - Cost(turns[i])) + [turns[i]]
  {
    assert turns[..i + 1][..i] == turns[..i];
  }

  lemma TailOfNothing(budget: int)
    ensures Tail([], budget) == []
  {
  }

  method M2Compact(turns: seq<Turn>, budget: int) returns (text: string)
    ensures text == M2(turns, budget)
  {
    hide Tail, Reverse, Line;
    var kept: seq<Turn>, used, i := [], 0, |turns|;
    assert turns[..i] == turns;
    while i > 0
      invariant 0 <= i <= |turns| && Reverse(kept) == turns[i..]
      invariant Tail(turns, budget) == Tail(turns[..i], budget - used) + turns[i..]
    {
      var t := turns[i - 1];
      var cost := |t.content| + 20;
      if used + cost > budget {
        TailStep(turns, i - 1, budget - used);
        break;
      }
      TailStep(turns, i - 1, budget - used);
      ReverseSnoc(kept, t);
      assert turns[i - 1..] == [t] + turns[i..];
      kept := kept + [t];
      used := used + cost;
      i := i - 1;
    }
    assert Tail(turns[..i], budget - used) == [] by {
      if i == 0 {
        TailOfNothing(budget - used);
        assert turns[..0] == [];
      }
    }
    kept := Reverse(kept);
    assert kept == Tail(turns, budget);
    return Join(Map(Line, kept));
  }

  lemma {:induction false} CostConcat(a: seq<Turn>, b: seq<Turn>)
    ensures CostOf(a + b) == CostOf(a) + CostOf(b)
  {
    if a == [] {
      assert a + b == b;
    } else {
      assert (a + b)[0] == a[0] && (a + b)[1..] == a[1..] + b;
      CostConcat(a[1..], b);
    }
  }

  lemma CostSnoc(turns: seq<Turn>, t: Turn)
    ensures CostOf(turns + [t]) == CostOf(turns) + Cost(t)
  {
    CostConcat(turns, [t]);
    assert [t][1..] == [];
  }

  /** The tail is a suffix that fits. */
  lemma {:induction false} TailIsSuffix(turns: seq<Turn>, budget: int)
    ensures |Tail(turns, budget)| <= |turns| && Tail(turns, budget) == turns[|turns| - |Tail(turns, budget)|..]
    ensures budget >= 0 ==> CostOf(Tail(turns, budget)) <= budget
  {
    if turns != [] && Cost(turns[|turns| - 1]) <= budget {
      var n := |turns| - 1;
      var tail := Tail(turns[..n], budget - Cost(turns[n]));
      assert Tail(turns, budget) == tail + [turns[n]];
      TailIsSuffix(turns[..n], budget - Cost(turns[n]));
      CostSnoc(tail, turns[n]);
      hide CostOf, Tail;
      assert turns[n - |tail|..] == turns[..n][n - |tail|..] + [turns[n]];
    }
  }

  /** No longer suffix fits. */
  lemma {:induction false} TailIsLongest(turns: seq<Turn>, budget: int, j: nat)
    requires j <= |turns| && CostOf(turns[j..]) <= budget
    ensures |turns| - j <= |Tail(turns, budget)|
  {
    if j < |turns| {
      var n := |turns| - 1;
      CostSnoc(turns[..n][j..], turns[n]);
      assert turns[j..] == turns[..n][j..] + [turns[n]];
      TailIsLongest(turns[..n], budget - Cost(turns[n]), j);
    }
  }

  lemma {:induction false} TextLength(turns: seq<Turn>, limit: nat)
    requires turns != [] && forall t :: t in turns ==> |t.role| <= limit <= 16
    ensures |Text(turns)| + 1 <= CostOf(turns)
  {
    if |turns| == 1 {
      assert turns[0] in turns;
    } else {
      assert turns[0] in turns;
      TextLength(turns[1..], limit);
      assert Map(Line, turns)[1..] == Map(Line, turns[1..]);
      assert Map(Line, turns)[0] == Line(turns[0]);
    }
  }

  ghost predicate RolesWithin(turns: seq<Turn>, limit: nat) { forall t :: t in turns ==> |t.role| <= limit }

  /** The rendered tail leaves at least one character of a budget it uses at all. */
  lemma M2Fits(turns: seq<Turn>, budget: int)
    requires RolesWithin(turns, 16)
    ensures |M2(turns, budget)| <= if budget < 20 then 0 else budget - 1
  {
    hide CostOf, Text;
    TailIsSuffix(turns, budget);
    var tail := Tail(turns, budget);
    if tail == [] {
      NoText();
    } else {
      TextLength(tail, 16);
    }
  }

  lemma NoText()
    ensures Text([]) == ""
  {
  }

  /** Twenty characters per turn pay for the role tag and the newline exactly up to this role length. */
  lemma OverheadCoversRoles(limit: nat)
    ensures (forall turns, budget :: budget >= 0 && RolesWithin(turns, limit) ==> |M2(turns, budget)| <= budget)
       <==> limit <= 16
  {
    if limit <= 16 {
      forall turns, budget | budget >= 0 && RolesWithin(turns, limit) ensures |M2(turns, budget)| <= budget {
        M2Fits(turns, budget);
      }
    } else {
      var t := Turn(seq(17, _ => 'r'), "");
      TwoLongRoles(t);
      assert RolesWithin([t, t], limit);
    }
  }

  lemma JoinTwo(a: string, b: string)
    ensures Join([a, b]) == a + "\n" + b
  {
    assert [a, b][1..] == [b];
  }

  lemma TextOfTwo(t: Turn)
    ensures |Text([t, t])| == 2 * |Line(t)| + 1
  {
    var line := Line(t);
    hide Line;
    assert Map(Line, [t, t]) == [line, line];
    JoinTwo(line, line);
  }

  lemma TwoLongRoles(t: Turn)
    requires |t.role| == 17 && t.content == ""
    ensures |M2([t, t], 40)| == 41
  {
    hide Tail, Text;
    assert [t, t][..2] == [t, t] && [t, t][..1] == [t] && [t, t][..0] == [];
    TailStep([t, t], 1, 40);
    TailStep([t, t], 0, 20);
    TailOfNothing(0);
    assert Tail([t, t], 40) == [t, t];
    TextOfTwo(t);
  }

  // ---- anchor and tail ----

  const DEFAULT_FRACTION := 0.25

  /** `int(budget * fraction)`, rounding towards zero. */
  function Share(budget: int, fraction: real): int {
    var x := budget as real * fraction;
    if x >= 0.0 then x.Floor else -((-x).Floor)
  }

  function M3(turns: seq<Turn>, budget: int, fraction: real, prior: string, find: Turn -> seq<Finding>): string {
    var tail := M2(turns, Share(budget, fraction));
    var anchor := Truncate(Render(Extract(turns, prior, find)), budget - |tail| - 50);
    "# Anchored Summary\n" + anchor + "\n\n# Recent Turns (verbatim)\n" + tail
  }

  method M3Compact(turns: seq<Turn>, budget: int, fraction: real, prior: Option<string>, find: Turn -> seq<Finding>)
    returns (text: string)
    ensures text == M3(turns, budget, fraction, if prior.Some? then prior.value else "", find)
  {
    hide M2, Extract, Render;
    var tail := M2Compact(turns, Share(budget, fraction));
    var sections := ExtractAnchor(turns, prior, find);
    var anchor := RenderAnchor(sections);
    var anchorBudget := budget - |tail| - 50;
    if |anchor| > anchorBudget { anchor := Cut(anchor, anchorBudget - 3) + "..."; }
    return "# Anchored Summary\n" + anchor + "\n\n# Recent Turns (verbatim)\n" + tail;
  }

  lemma FirstBlock(s: Sections)
    ensures Blocks(s) == Block(Name(0), s[0]) + Blocks(s, 1)
  {
  }

  lemma RenderIsLong(s: Sections)
    ensures |Render(s)| > 3
  {
    hide NAMES;
    var first, rest := Block(Name(0), s[0]), Blocks(s, 1);
    hide Blocks, Name, ItemLine;
    var name := "## " + Name(0);
    assert |first| >= 2 && first[0] == name;
    assert Blocks(s) == first + rest by { FirstBlock(s); }
    assert |Join(first + rest)| >= |name| + 1;
  }

  /**
   * Whatever the fraction and the roles: the summary stays three below the budget exactly if its anchor fits
   * what the tail leaves, or the tail leaves at least three characters for a cut one.
   */
  lemma M3FitsWhere(turns: seq<Turn>, budget: int, fraction: real, prior: string, find: Turn -> seq<Finding>)
    ensures
      var left := budget - |M2(turns, Share(budget, fraction))| - 50;
      |M3(turns, budget, fraction, prior, find)| <= budget - 3 <==>
        left >= 3 || |Render(Extract(turns, prior, find))| <= left
  {
    hide M2, Extract, Render, Share;
    var tail, text := M2(turns, Share(budget, fraction)), Render(Extract(turns, prior, find));
    TruncateFitsExactly(text, budget - |tail| - 50);
    assert |M3(turns, budget, fraction, prior, find)| == 47 + |Truncate(text, budget - |tail| - 50)| + |tail|;
  }

  lemma QuarterShare(budget: int)
    ensures budget >= 0 ==> Share(budget, DEFAULT_FRACTION) == budget / 4
    ensures budget < 0 ==> Share(budget, DEFAULT_FRACTION) <= 0
  {
    var x := budget as real * DEFAULT_FRACTION;
    if budget >= 0 {
      assert x == (budget / 4) as real + (budget % 4) as real * DEFAULT_FRACTION;
    }
  }

  /** At the default fraction that is the case for exactly the budgets from 53 up, for roles of usual length. */
  lemma M3FitsExactly(turns: seq<Turn>, budget: int, prior: string, find: Turn -> seq<Finding>)
    requires RolesWithin(turns, 16)
    ensures |M3(turns, budget, DEFAULT_FRACTION, prior, find)| <= budget - 3 <==> budget >= 53
  {
    hide M2, Extract, Render, Share, M3;
    M2Fits(turns, Share(budget, DEFAULT_FRACTION));
    QuarterShare(budget);
    RenderIsLong(Extract(turns, prior, find));
    M3FitsWhere(turns, budget, DEFAULT_FRACTION, prior, find);
  }

  // ---- the summaries without their definitions ----

  /** A turn's line is its role in brackets, a space, and its content. */
  lemma LineExactly(t: Turn)
    ensures Line(t) == ['['] + t.role + [']', ' '] + t.content
  {
  }

  lemma BracketAt(t: Turn, i: nat)
    requires ']' !in t.role && i <= |t.role|
    ensures Line(t)[i + 1] == ']' <==> i == |t.role|
  {
    if i < |t.role| { assert Line(t)[i + 1] == t.role[i]; }
  }

  lemma LineTellsApart(a: Turn, b: Turn)
    requires ']' !in a.role && ']' !in b.role && Line(a) == Line(b)
    ensures a == b
  {
    BracketAt(a, |a.role|);
    BracketAt(b, |b.role|);
    if |a.role| < |b.role| { BracketAt(b, |a.role|); }
    if |b.role| < |a.role| { BracketAt(a, |b.role|); }
    var line := Line(a);
    assert line[1..|a.role| + 1] == a.role && line[|a.role| + 3..] == a.content;
    assert line[1..|b.role| + 1] == b.role && line[|b.role| + 3..] == b.content;
  }

  ghost predicate OneLineTurn(t: Turn) { ']' !in t.role && NoBreaks(t.role) && NoBreaks(t.content) }

  /** A text of one-line turns splits into their lines, and no other one-line turns have the same text. */
  lemma TextRoundTrip(a: seq<Turn>, b: seq<Turn>)
    requires forall t :: t in a || t in b ==> OneLineTurn(t)
    ensures SplitLines(Text(a)) == Map(Line, a)
    ensures Text(a) == Text(b) ==> a == b
  {
    TextSplits(a);
    TextSplits(b);
    hide Line, Text, NoBreaks;
    if Text(a) == Text(b) {
      forall i | 0 <= i < |a| ensures a[i] == b[i] {
        assert Map(Line, a)[i] == Map(Line, b)[i];
        assert a[i] in a && b[i] in b;
        LineTellsApart(a[i], b[i]);
      }
    }
  }

  lemma LineHasNoBreaks(t: Turn)
    requires OneLineTurn(t)
    ensures NoBreaks(Line(t)) && Line(t) != ""
  {
    assert !IsBreak('[') && !IsBreak(']') && !IsBreak(' ');
    hide IsBreak;
    var line := Line(t);
    forall i | 0 <= i < |line| ensures !IsBreak(line[i]) {
      if 1 <= i <= |t.role| {
        assert line[i] == t.role[i - 1];
      } else if i > |t.role| + 2 {
        assert line[i] == t.content[i - |t.role| - 3];
      }
    }
  }

  lemma TextSplits(turns: seq<Turn>)
    requires forall t :: t in turns ==> OneLineTurn(t)
    ensures SplitLines(Text(turns)) == Map(Line, turns)
  {
    hide Line, OneLineTurn, NoBreaks, SplitLines, Join;
    var lines := Map(Line, turns);
    forall i | 0 <= i < |turns| ensures NoBreaks(lines[i]) && lines[i] != "" {
      assert turns[i] in turns;
      LineHasNoBreaks(turns[i]);
    }
    SplitJoin(lines);
  }

  /** A text over the limit keeps all but three of the characters the limit has, or is cut from the end. */
  lemma TruncateExactly(text: string, limit: int)
    ensures
      var r := Truncate(text, limit);
      && (|text| <= limit ==> r == text)
      && (|text| > limit >= 3 ==> r == text[..limit - 3] + "...")
      && (|text| > limit && limit < 3 ==>
            r == (if |text| >= 3 - limit then text[..|text| - (3 - limit)] else "") + "...")
  {
  }

  /** `int` of a product rounds towards zero. */
  lemma ShareExactly(budget: int, fraction: real, n: int)
    ensures
      var x := budget as real * fraction;
      n == Share(budget, fraction) <==>
        (x >= 0.0 && n as real <= x < n as real + 1.0) || (x <= 0.0 && n as real - 1.0 < x <= n as real)
  {
    var x := budget as real * fraction;
    assert x.Floor == n <==> n as real <= x < n as real + 1.0;
    assert (-x).Floor == -n <==> -n as real <= -x < -n as real + 1.0;
  }

  /** The cost of turns is their content and twenty characters each. */
  lemma CostExactly(turns: seq<Turn>, t: Turn)
    ensures CostOf([]) == 0
    ensures CostOf(turns + [t]) == CostOf(turns) + |t.content| + 20
  {
    CostSnoc(turns, t);
  }

  /** The tail is the text of the turns from some `k` on: they fit, and with the one before they would not. */
  lemma M2Exactly(turns: seq<Turn>, budget: int) returns (k: nat)
    ensures k <= |turns| && M2(turns, budget) == Text(turns[k..])
    ensures k < |turns| ==> CostOf(turns[k..]) <= budget
    ensures k > 0 ==> CostOf(turns[k - 1..]) > budget
  {
    var tail := Tail(turns, budget);
    assert budget < 0 ==> tail == [];
    hide CostOf, Text, Tail;
    TailIsSuffix(turns, budget);
    k := |turns| - |tail|;
    if k > 0 && CostOf(turns[k - 1..]) <= budget {
      TailIsLongest(turns, budget, k - 1);
      assert false;
    }
  }

  /** The summary is the anchor, whole where it fits and cut where it does not, and the tail, each under its heading. */
  lemma M3Exactly(turns: seq<Turn>, budget: int, fraction: real, prior: string, find: Turn -> seq<Finding>)
    returns (shown: string)
    ensures
      var tail, full := M2(turns, Share(budget, fraction)), Render(Extract(turns, prior, find));
      var left := budget - |tail| - 50;
      && M3(turns, budget, fraction, prior, find)
           == "# Anchored Summary\n" + shown + "\n\n# Recent Turns (verbatim)\n" + tail
      && (|full| <= left ==> shown == full)
      && (|full| > left >= 3 ==> shown == full[..left - 3] + "...")
      && (|full| > left && left < 3 ==>
            shown == (if |full| >= 3 - left then full[..|full| - (3 - left)] else "") + "...")
  {
    hide M2, Extract, Render, Share, Truncate;
    var tail, full := M2(turns, Share(budget, fraction)), Render(Extract(turns, prior, find));
    shown := Truncate(full, budget - |tail| - 50);
    TruncateExactly(full, budget - |tail| - 50);
  }
}
