/**
 * Printed anchors line by line, whatever the items contain: the patterns let a newline follow their keyword,
 * so an item can be printed on several lines, and the later ones are read as lines of their own.
 */
module AnchorItems {
  import opened Sequences
  import opened Lines
  import opened Anchors

  // ---- lines of the text and lines of the list ----

  /** The lines that are read where this one was printed. */
  function Physical(line: string): seq<string> { SplitLines(line + "\n") }

  function AllPhysical(lines: seq<string>): seq<string> {
    if lines == [] then [] else Physical(lines[0]) + AllPhysical(lines[1..])
  }

  lemma OneLineIsPhysical(line: string)
    requires NoBreaks(line)
    ensures Physical(line) == SplitLines(line + "\n") == [line]
  {
    SplitFirst(line, "");
    assert line + "\n" + "" == line + "\n";
    assert SplitLines("") == [];
  }

  lemma FirstBreakOf(s: string, t: string)
    requires FirstBreak(s) < |s|
    ensures FirstBreak(s + t) == FirstBreak(s)
  {
    if !IsBreak(s[0]) {
      assert (s + t)[1..] == s[1..] + t;
      FirstBreakOf(s[1..], t);
    }
  }

  /** Appended text does not move the first line, unless it completes a boundary at the end. */
  lemma BreakOf(s: string, t: string)
    requires FirstBreak(s) < |s| && (s[|s| - 1] == '\r' ==> FirstBreak(s) < |s| - 1)
    ensures FirstBreak(s + t) == FirstBreak(s) && AfterBreak(s + t) == AfterBreak(s)
    ensures (s + t)[..FirstBreak(s)] == s[..FirstBreak(s)]
    ensures (s + t)[AfterBreak(s)..] == s[AfterBreak(s)..] + t
  {
    FirstBreakOf(s, t);
    hide FirstBreak;
    var n := FirstBreak(s);
    assert (s + t)[n] == s[n] && (n + 1 < |s| ==> (s + t)[n + 1] == s[n + 1]);
  }

  lemma SplitStep(s: string)
    requires FirstBreak(s) < |s|
    ensures SplitLines(s) == [s[..FirstBreak(s)]] + SplitLines(s[AfterBreak(s)..])
  {
  }

  lemma EndsInBreak(s: string)
    requires s != "" && s[|s| - 1] == '\n'
    ensures FirstBreak(s) < |s|
  {
    assert IsBreak(s[|s| - 1]);
  }

  lemma NothingToSplit()
    ensures SplitLines("") == []
  {
  }

  lemma FirstLineAppend(s: string, t: string) returns (head: string, rest: string)
    requires s != "" && s[|s| - 1] == '\n'
    ensures |rest| < |s| && (rest != "" ==> rest[|rest| - 1] == '\n')
    ensures SplitLines(s) == [head] + SplitLines(rest) && SplitLines(s + t) == [head] + SplitLines(rest + t)
  {
    EndsInBreak(s);
    BreakOf(s, t);
    SplitStep(s);
    SplitStep(s + t);
    hide SplitLines, FirstBreak, AfterBreak;
    head, rest := s[..FirstBreak(s)], s[AfterBreak(s)..];
  }

  /** Text that ends in a newline is split on its own. */
  lemma {:induction false} SplitAppend(s: string, t: string)
    requires s != "" ==> s[|s| - 1] == '\n'
    ensures SplitLines(s + t) == SplitLines(s) + SplitLines(t)
    decreases |s|
  {
    hide SplitLines;
    if s == "" {
      NothingToSplit();
      assert s + t == t;
    } else {
      var head, rest := FirstLineAppend(s, t);
      SplitAppend(rest, t);
      assert [head] + (SplitLines(rest) + SplitLines(t)) == [head] + SplitLines(rest) + SplitLines(t);
    }
  }

  lemma ReadBlankLine(r: Reader)
    ensures ReadLine(r, "") == r
  {
  }

  /** The text ends without a newline; with one it would read the same. */
  lemma {:induction false} FinalNewline(s: string, r: Reader)
    ensures ReadLines(r, SplitLines(s + "\n")) == ReadLines(r, SplitLines(s))
    decreases |s|
  {
    if s == "" || FirstBreak(s) == |s| {
      OneLineIsPhysical(s);
      ReadBlankLine(r);
      hide ReadLine, FirstBreak;
      assert [s][1..] == [];
    } else if s[|s| - 1] == '\r' && FirstBreak(s) == |s| - 1 {
      CarriageReturn(s);
    } else {
      BreakOf(s, "\n");
      SplitStep(s);
      SplitStep(s + "\n");
      hide SplitLines, FirstBreak, AfterBreak, ReadLine;
      FinalNewline(s[AfterBreak(s)..], ReadLine(r, s[..FirstBreak(s)]));
    }
  }

  lemma CarriageReturn(s: string)
    requires s != "" && s[|s| - 1] == '\r' && FirstBreak(s) == |s| - 1
    ensures SplitLines(s + "\n") == SplitLines(s)
  {
    FirstBreakOf(s, "\n");
    SplitStep(s);
    SplitStep(s + "\n");
    hide FirstBreak;
    var n, t := |s| - 1, s + "\n";
    assert t[n] == '\r' && t[n + 1] == '\n' && t[..n] == s[..n];
    assert AfterBreak(t) == |t| && t[|t|..] == "" && AfterBreak(s) == |s| && s[|s|..] == "";
  }

  lemma {:induction false} JoinIsPhysical(lines: seq<string>)
    requires lines != []
    ensures SplitLines(Join(lines) + "\n") == AllPhysical(lines)
  {
    if |lines| == 1 {
      assert AllPhysical(lines[1..]) == [];
    } else {
      var head, rest := lines[0] + "\n", Join(lines[1..]) + "\n";
      JoinIsPhysical(lines[1..]);
      SplitAppend(head, rest);
      assert Join(lines) + "\n" == head + rest;
    }
  }

  lemma BlocksNotEmpty(s: Sections)
    ensures Blocks(s) != []
  {
    assert Blocks(s) == Block(Name(0), s[0]) + Blocks(s, 1);
  }

  /** Any printed anchor is read block by block, line by physical line. */
  lemma ReadAnyRender(s: Sections)
    ensures ReadAnchor(Render(s)) == ReadLines(Reader(NO_ITEMS, None), AllPhysical(Blocks(s))).sections
  {
    BlocksNotEmpty(s);
    hide SplitLines, ReadLines, Blocks;
    FinalNewline(Render(s), Reader(NO_ITEMS, None));
    JoinIsPhysical(Blocks(s));
  }

  lemma {:induction false} PhysicalConcat(a: seq<string>, b: seq<string>)
    ensures AllPhysical(a + b) == AllPhysical(a) + AllPhysical(b)
  {
    hide Physical;
    if a == [] {
      assert a + b == b;
    } else {
      assert (a + b)[1..] == a[1..] + b;
      PhysicalConcat(a[1..], b);
    }
  }

  // ---- reading never takes anything away ----

  lemma {:induction false} ReadingGrows(r: Reader, lines: seq<string>, k: Index)
    ensures r.sections[k] <= ReadLines(r, lines).sections[k]
    decreases |lines|
  {
    if lines != [] {
      assert r.sections[k] <= ReadLine(r, lines[0]).sections[k] by { hide Strip, Normal, SectionNamed; }
      hide ReadLine;
      ReadingGrows(ReadLine(r, lines[0]), lines[1..], k);
    }
  }

  /** `base` and whatever of `more` is not in it. */
  function Merge(base: seq<string>, more: seq<string>): seq<string> {
    if more == [] then base
    else
      var n := |more| - 1;
      var rest := Merge(base, more[..n]);
      if more[n] in rest then rest else rest + [more[n]]
  }

  lemma {:induction false} MergeContents(base: seq<string>, more: seq<string>)
    ensures base <= Merge(base, more) && |Merge(base, more)| <= |base| + |more|
    ensures forall x :: x in Merge(base, more) <==> x in base || x in more
  {
    if more != [] {
      var n := |more| - 1;
      MergeContents(base, more[..n]);
      assert more == more[..n] + [more[n]];
    }
  }

  lemma MergeAdd(base: seq<string>, more: seq<string>, value: string)
    ensures AddUnique(Merge(base, more), value) == Merge(base, AddUnique(more, value))
  {
    hide Normal;
    MergeContents(base, more);
    var v := Normal(value);
    if v != "" && v !in more {
      assert (more + [v])[..|more|] == more;
    }
  }

  /** Reading from `r` is reading from nothing, merged into what `r` has. */
  ghost predicate Follows(r: Reader, e: Reader, base: Sections) {
    r.current == e.current && forall k: Index :: r.sections[k] == Merge(base[k], e.sections[k])
  }

  lemma FollowsLine(r: Reader, e: Reader, base: Sections, line: string)
    requires Follows(r, e, base)
    ensures Follows(ReadLine(r, line), ReadLine(e, line), base)
  {
    hide Strip, SectionNamed, AddUnique, Merge;
    var stripped := Strip(line);
    if e.current.Some? && |stripped| >= 2 {
      MergeAdd(base[e.current.value], e.sections[e.current.value], stripped[2..]);
    }
  }

  lemma {:induction false} FollowsLines(r: Reader, e: Reader, base: Sections, lines: seq<string>)
    requires Follows(r, e, base)
    ensures Follows(ReadLines(r, lines), ReadLines(e, lines), base)
    decreases |lines|
  {
    hide Follows, ReadLine;
    if lines != [] {
      FollowsLine(r, e, base, lines[0]);
      FollowsLines(ReadLine(r, lines[0]), ReadLine(e, lines[0]), base, lines[1..]);
    }
  }

  // ---- items that leave the others alone ----

  /** What is read from one printed item of section `k`, with nothing read before. */
  function Alone(y: string, k: Index): Reader {
    ReadLines(Reader(NO_ITEMS, Some(k)), Physical(ItemLine(y)))
  }

  /** It takes at most one place in its own section, none in a later one, and does not leave the section. */
  predicate Harmless(y: string, k: Index) {
    var e := Alone(y, k);
    e.current == Some(k) && |e.sections[k]| <= 1 && forall j: Index :: j > k ==> e.sections[j] == []
  }

  lemma ReadOneItem(r: Reader, y: string, k: Index)
    requires r.current == Some(k)
    ensures Follows(ReadLines(r, Physical(ItemLine(y))), Alone(y, k), r.sections)
  {
    hide ReadLines, Physical;
    assert Follows(r, Reader(NO_ITEMS, Some(k)), r.sections);
    FollowsLines(r, Reader(NO_ITEMS, Some(k)), r.sections, Physical(ItemLine(y)));
  }

  lemma ReadHarmless(r: Reader, y: string, k: Index)
    requires r.current == Some(k) && Harmless(y, k)
    ensures
      var r' := ReadLines(r, Physical(ItemLine(y)));
      r'.current == Some(k) && |r'.sections[k]| <= |r.sections[k]| + 1
      && forall j: Index :: j > k ==> r'.sections[j] == r.sections[j]
  {
    hide ReadLines, Physical, Alone;
    ReadOneItem(r, y, k);
    MergeContents(r.sections[k], Alone(y, k).sections[k]);
  }

  lemma OneLineIsRead(r: Reader, y: string, k: Index)
    requires r.current == Some(k) && NoBreaks(y)
    ensures ReadLines(r, Physical(ItemLine(y))) ==
            r.(sections := r.sections[k := ReadBack(r.sections[k], y)])
  {
    assert NoBreaks(ItemLine(y));
    OneLineIsPhysical(ItemLine(y));
    ReadItemLine(r, k, y);
    hide ReadLine, ReadBack, Physical;
    assert [ItemLine(y)][1..] == [];
  }

  lemma OneLineIsHarmless(y: string, k: Index)
    requires NoBreaks(y)
    ensures Harmless(y, k)
  {
    OneLineIsRead(Reader(NO_ITEMS, Some(k)), y, k);
    hide ReadLines, Physical, NoBreaks, Strip, Normal;
  }

  /** A line that is neither a heading nor an item is skipped. */
  predicate Plain(line: string) { !StartsWith(Strip(line), "## ") && !StartsWith(Strip(line), "- ") }

  lemma {:induction false} PlainIsSkipped(r: Reader, lines: seq<string>)
    requires forall l :: l in lines ==> Plain(l)
    ensures ReadLines(r, lines) == r
    decreases |lines|
  {
    hide Strip;
    if lines != [] {
      assert Plain(lines[0]);
      PlainIsSkipped(r, lines[1..]);
    }
  }

  /** The first line of a printed item belongs to it; the others are its continuation. */
  lemma FirstLineOfItem(y: string)
    ensures Physical(ItemLine(y)) != []
    ensures ItemLine("") <= Physical(ItemLine(y))[0] && NoBreaks(Physical(ItemLine(y))[0])
  {
    var s := ItemLine(y) + "\n";
    assert s[0] == '-' && s[1] == ' ' && !IsBreak(s[0]) && !IsBreak(s[1]) && IsBreak(s[|s| - 1]);
    assert FirstBreak(s) >= 2;
    SplitHasNoBreaks(s);
  }

  /** An item whose continuation lines are plain is harmless: "Current task:", newline, "write writer.py". */
  lemma PlainIsHarmless(y: string, k: Index)
    requires forall l :: l in Physical(ItemLine(y))[1..] ==> Plain(l)
    ensures Harmless(y, k)
  {
    FirstLineOfItem(y);
    hide Physical, Plain, NoBreaks;
    var lines := Physical(ItemLine(y));
    var first := lines[0][2..];
    assert lines[0] == ItemLine(first);
    var r := Reader(NO_ITEMS, Some(k));
    ReadItemLine(r, k, first);
    PlainIsSkipped(ReadLine(r, lines[0]), lines[1..]);
    ReadBackAllGrows([], [first]);
    assert ReadBackAll([], [first]) == ReadBack([], first) by { assert [first][1..] == []; }
    hide ReadLine, ReadBack;
  }

  /** Whatever the item: it is read back as it is exactly when it is clean and was not there. */
  lemma PrintedItemIsReadExactly(r: Reader, k: Index, x: string)
    requires r.current == Some(k)
    ensures ReadLines(r, Physical(ItemLine(x))).sections[k] == r.sections[k] + [x] <==> Clean(x) && x !in r.sections[k]
  {
    hide ReadLines, Physical, Clean, ReadBack, Merge;
    var after := ReadLines(r, Physical(ItemLine(x))).sections[k];
    if after == r.sections[k] + [x] {
      ReadOneItem(r, x, k);
      MergeLast(r.sections[k], Alone(x, k).sections[k], x);
      AloneHasNoBreaks(x, k);
    }
    if Clean(x) { CleanHasNoBreaks([x], x); }
    if NoBreaks(x) {
      OneLineIsRead(r, x, k);
      ReadBackExactly(r.sections[k], x);
    }
  }

  lemma {:induction false} MergeLast(base: seq<string>, more: seq<string>, x: string)
    requires Merge(base, more) == base + [x]
    ensures x in more
  {
    MergeExtends(base, more);
    assert Merge(base, more)[|base|] == x;
  }

  lemma {:induction false} MergeExtends(base: seq<string>, more: seq<string>)
    ensures base <= Merge(base, more)
    ensures forall i :: |base| <= i < |Merge(base, more)| ==> Merge(base, more)[i] in more
  {
    if more != [] {
      MergeExtends(base, more[..|more| - 1]);
      assert more == more[..|more| - 1] + [more[|more| - 1]];
    }
  }

  lemma AloneHasNoBreaks(y: string, k: Index)
    ensures forall j: Index, x :: x in Alone(y, k).sections[j] ==> NoBreaks(x)
  {
    SplitHasNoBreaks(ItemLine(y) + "\n");
    forall j: Index ensures forall x :: x in Alone(y, k).sections[j] ==> NoBreaks(x) {
      ItemsHaveNoBreaks(Reader(NO_ITEMS, Some(k)), Physical(ItemLine(y)), j);
    }
  }
}
