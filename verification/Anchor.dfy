/** The anchored summary: extracted from turns and the previous summary, and printed as Markdown. */
module Anchors {
  import opened Sequences
  import opened Lines

  const NAMES: seq<string> := [
    "Goal", "Constraints", "Progress", "Decisions", "Next Steps", "Critical Context", "Relevant Files"]
  const FILES := 6

  type Index = k: nat | k < 7

  /** One list of items per name, in the order of `NAMES`. */
  type Sections = s: seq<seq<string>> | |s| == 7 witness [[], [], [], [], [], [], []]

  const NO_ITEMS: Sections := [[], [], [], [], [], [], []]

  function Name(k: Index): string { NAMES[k] }

  datatype Turn = Turn(role: string, content: string)

  /** What the patterns find in a turn, in the order the loop visits it. */
  datatype Finding = Goal(text: string) | Constraint(text: string) | Decision(text: string)
                   | NextStep(text: string) | File(name: string)

  // ---- extraction ----

  function Normal(value: string): string { RStripDots(Strip(value)) }

  function AddUnique(items: seq<string>, value: string): seq<string> {
    var v := Normal(value);
    if v != "" && v !in items then items + [v] else items
  }

  function SectionNamed(name: string, k: nat := 0): Option<Index>
    requires k <= 7
    decreases 7 - k
  {
    if k == 7 then None else if Name(k) == name then Some(k) else SectionNamed(name, k + 1)
  }

  datatype Reader = Reader(sections: Sections, current: Option<Index>)

  function ReadLine(r: Reader, line: string): Reader {
    var stripped := Strip(line);
    if StartsWith(stripped, "## ") then
      r.(current := SectionNamed(Strip(stripped[3..])))
    else if r.current.Some? && StartsWith(stripped, "- ") && stripped != "- (none)" then
      var k := r.current.value;
      r.(sections := r.sections[k := AddUnique(r.sections[k], stripped[2..])])
    else r
  }

  function ReadLines(r: Reader, lines: seq<string>): Reader
    decreases |lines|
  {
    if lines == [] then r else ReadLines(ReadLine(r, lines[0]), lines[1..])
  }

  function ReadAnchor(text: string): Sections { ReadLines(Reader(NO_ITEMS, None), SplitLines(text)).sections }

  datatype Gathered = Gathered(sections: Sections, seenFiles: set<string>)

  function Add(g: Gathered, k: Index, value: string): Gathered {
    g.(sections := g.sections[k := AddUnique(g.sections[k], value)])
  }

  function Gather(g: Gathered, f: Finding): Gathered {
    match f
    case Goal(v) => Add(g, 0, v)
    case Constraint(v) => Add(g, 1, v)
    case Decision(v) => Add(g, 3, v)
    case NextStep(v) => Add(g, 4, v)
    case File(name) =>
      if name in g.seenFiles then g
      else Gathered(g.sections[FILES := g.sections[FILES] + [name]], g.seenFiles + {name})
  }

  function GatherAll(g: Gathered, found: seq<Finding>): Gathered
    decreases |found|
  {
    if found == [] then g else GatherAll(Gather(g, found[0]), found[1..])
  }

  function Findings(turns: seq<Turn>, find: Turn -> seq<Finding>): seq<Finding> {
    if turns == [] then [] else find(turns[0]) + Findings(turns[1..], find)
  }

  /** `prior` is the previous summary's text, empty for none. */
  function Extract(turns: seq<Turn>, prior: string, find: Turn -> seq<Finding>): Sections {
    GatherAll(Gathered(ReadAnchor(prior), {}), Findings(turns, find)).sections
  }

  lemma {:induction false} GatherConcat(g: Gathered, a: seq<Finding>, b: seq<Finding>)
    ensures GatherAll(g, a + b) == GatherAll(GatherAll(g, a), b)
    decreases |a|
  {
    hide Gather;
    if a == [] {
      assert a + b == b;
    } else {
      assert (a + b)[0] == a[0] && (a + b)[1..] == a[1..] + b;
      GatherConcat(Gather(g, a[0]), a[1..], b);
    }
  }

  method ExtractAnchor(turns: seq<Turn>, prior: Option<string>, find: Turn -> seq<Finding>)
    returns (sections: Sections)
    ensures sections == Extract(turns, if prior.Some? then prior.value else "", find)
  {
    hide ReadLine, Gather;
    var r := Reader(NO_ITEMS, None);
    if prior.Some? {
      var lines := SplitLines(prior.value);
      for i := 0 to |lines|
        invariant ReadLines(Reader(NO_ITEMS, None), lines) == ReadLines(r, lines[i..])
      {
        assert lines[i..][0] == lines[i] && lines[i..][1..] == lines[i + 1..];
        r := ReadLine(r, lines[i]);
      }
    }
    assert r.sections == ReadAnchor(if prior.Some? then prior.value else "");
    var g := Gathered(r.sections, {});
    ghost var start := g;
    for i := 0 to |turns|
      invariant GatherAll(start, Findings(turns, find)) == GatherAll(g, Findings(turns[i..], find))
    {
      assert turns[i..][0] == turns[i] && turns[i..][1..] == turns[i + 1..];
      var found := find(turns[i]);
      ghost var before := g;
      for j := 0 to |found|
        invariant GatherAll(before, found) == GatherAll(g, found[j..])
      {
        assert found[j..][0] == found[j] && found[j..][1..] == found[j + 1..];
        g := Gather(g, found[j]);
      }
      GatherConcat(before, found, Findings(turns[i + 1..], find));
    }
    return g.sections;
  }

  // ---- printing ----

  function FirstTen(items: seq<string>): seq<string> { if |items| > 10 then items[..10] else items }

  function ItemLine(item: string): string { "- " + item }

  function Block(name: string, items: seq<string>): seq<string> {
    ["## " + name] + if items == [] then ["- (none)"] else Map(ItemLine, FirstTen(items))
  }

  function Blocks(s: Sections, k: nat := 0): seq<string>
    requires k <= 7
    decreases 7 - k
  {
    if k == 7 then [] else Block(Name(k), s[k]) + Blocks(s, k + 1)
  }

  function Render(s: Sections): string { Join(Blocks(s)) }

  method RenderSection(name: string, items: seq<string>) returns (parts: seq<string>)
    ensures parts == Block(name, items)
  {
    parts := ["## " + name];
    if items == [] { return parts + ["- (none)"]; }
    var shown := FirstTen(items);
    for i := 0 to |shown|
      invariant parts == ["## " + name] + Map(ItemLine, shown[..i])
    {
      assert Map(ItemLine, shown[..i + 1]) == Map(ItemLine, shown[..i]) + [ItemLine(shown[i])];
      parts := parts + ["- " + shown[i]];
    }
    assert shown[..|shown|] == shown;
  }

  method RenderAnchor(sections: Sections) returns (text: string)
    ensures text == Render(sections)
  {
    hide Block;
    var parts: seq<string> := [];
    for k := 0 to 7
      invariant parts + Blocks(sections, k) == Blocks(sections)
    {
      var section := RenderSection(Name(k), sections[k]);
      assert parts + (section + Blocks(sections, k + 1)) == parts + section + Blocks(sections, k + 1);
      parts := parts + section;
    }
    assert parts + [] == parts;
    return Join(parts);
  }

  /** A section prints its heading and up to ten items, each behind a dash, or the marker of an empty one. */
  lemma BlockExactly(name: string, items: seq<string>)
    ensures items == [] ==> Block(name, items) == ["## " + name, "- (none)"]
    ensures items != [] ==>
      var r := Block(name, items);
      && |r| == (if |items| <= 10 then |items| else 10) + 1 && r[0] == "## " + name
      && forall i :: 1 <= i < |r| ==> r[i] == "- " + items[i - 1]
  {
  }

  lemma LaterBlocks(s: Sections)
    ensures Blocks(s, 4) ==
            Block("Next Steps", s[4]) + (Block("Critical Context", s[5]) + (Block("Relevant Files", s[6]) + []))
  {
    hide Block;
    assert Blocks(s, 6) == Block("Relevant Files", s[6]) + [];
    assert Blocks(s, 5) == Block("Critical Context", s[5]) + Blocks(s, 6);
  }

  lemma AllBlocks(s: Sections)
    ensures Blocks(s) ==
            Block("Goal", s[0])
            + (Block("Constraints", s[1]) + (Block("Progress", s[2]) + (Block("Decisions", s[3]) + Blocks(s, 4))))
  {
    hide Block;
    assert Blocks(s, 3) == Block("Decisions", s[3]) + Blocks(s, 4);
    assert Blocks(s, 2) == Block("Progress", s[2]) + Blocks(s, 3);
    assert Blocks(s, 1) == Block("Constraints", s[1]) + Blocks(s, 2);
  }

  /** The seven sections are printed under these names, in this order. */
  lemma RenderExactly(s: Sections)
    ensures Render(s) == Join(
      Block("Goal", s[0]) + (Block("Constraints", s[1]) + (Block("Progress", s[2]) + (Block("Decisions", s[3])
      + (Block("Next Steps", s[4]) + (Block("Critical Context", s[5]) + Block("Relevant Files", s[6])))))))
  {
    AllBlocks(s);
    LaterBlocks(s);
    hide Block, Blocks, Join;
    assert Block("Relevant Files", s[6]) + [] == Block("Relevant Files", s[6]);
  }

  // ---- items that survive printing ----

  /** An item that the printed form can carry: one line, trimmed, no final dot, not the empty marker. */
  ghost predicate Clean(x: string) {
    && x != "" && NoBreaks(x) && !IsSpace(x[0]) && !IsSpace(x[|x| - 1])
    && x[|x| - 1] != '.' && x != "(none)"
  }

  lemma NormalOfClean(x: string)
    requires Clean(x)
    ensures Normal(x) == x
  {
    StripOfTrimmed(x);
  }

  /** Normalising trims the front and every final dot, but a dot can hide a space behind it. */
  lemma NormalTrims(v: string)
    ensures Normal(v) == "" || (!IsSpace(Normal(v)[0]) && Normal(v)[|Normal(v)| - 1] != '.')
    ensures |Normal(v)| <= |v| && (NoBreaks(v) ==> NoBreaks(Normal(v)))
  {
    hide Strip, RStripDots, IsSpace, IsBreak;
    StripTrims(v);
    RStripDotsWithin(Strip(v));
  }

  lemma NormalFixpoint(n: string)
    requires n == "" || (!IsSpace(n[0]) && n[|n| - 1] != '.')
    ensures Normal(n) == n <==> n == "" || !IsSpace(n[|n| - 1])
  {
    hide IsSpace;
    if n != "" && IsSpace(n[|n| - 1]) {
      StripTrims(n);
      RStripDotsWithin(Strip(n));
      hide Strip, RStripDots;
    } else if n != "" {
      StripOfTrimmed(n);
      hide Strip;
    }
  }

  /** So normalising twice is normalising once exactly when the first time left no space at the end. */
  lemma NormalIsIdempotent(v: string)
    ensures Normal(Normal(v)) == Normal(v) <==> Normal(v) == "" || !IsSpace(Normal(v)[|Normal(v)| - 1])
  {
    NormalTrims(v);
    NormalFixpoint(Normal(v));
  }

  lemma ItemLineIsTrimmed(x: string)
    requires Clean(x)
    ensures Strip(ItemLine(x)) == ItemLine(x) && ItemLine(x)[2..] == x
    ensures ItemLine(x) != "- (none)" && NoBreaks(ItemLine(x))
  {
    assert ItemLine(x)[|x| + 1] == x[|x| - 1];
    StripOfTrimmed(ItemLine(x));
    assert ItemLine(x)[2..] == x;
  }

  /** What reading the printed line of `x` does to the items read so far. */
  function ReadBack(items: seq<string>, x: string): seq<string> {
    var stripped := Strip(ItemLine(x));
    if StartsWith(stripped, "- ") && stripped != "- (none)" then AddUnique(items, stripped[2..]) else items
  }

  function ReadBackAll(items: seq<string>, printed: seq<string>): seq<string>
    decreases |printed|
  {
    if printed == [] then items else ReadBackAll(ReadBack(items, printed[0]), printed[1..])
  }

  lemma CleanIsReadBack(items: seq<string>, x: string)
    requires Clean(x)
    ensures ReadBack(items, x) == if x in items then items else items + [x]
  {
    ItemLineIsTrimmed(x);
    NormalOfClean(x);
    hide Strip, Normal;
  }

  /** Reading a printed item gives it back, as a new one, exactly when it is clean and was not there. */
  lemma ReadBackExactly(items: seq<string>, x: string)
    requires NoBreaks(x)
    ensures ReadBack(items, x) == items + [x] <==> Clean(x) && x !in items
  {
    if Clean(x) { CleanIsReadBack(items, x); }
    if ReadBack(items, x) == items + [x] {
      var line := ItemLine(x);
      var stripped := Strip(line);
      StripTrims(line);
      assert ReadBack(items, x)[|items|] == x;
      NormalTrims(stripped[2..]);
      hide Strip, Normal, IsSpace;
      assert |x| <= |stripped| - 2;
      assert stripped == line && line[|line| - 1] == x[|x| - 1];
    }
  }

  lemma {:induction false} ReadBackAllGrows(items: seq<string>, printed: seq<string>)
    ensures items <= ReadBackAll(items, printed) && |ReadBackAll(items, printed)| <= |items| + |printed|
    decreases |printed|
  {
    hide Strip, Normal;
    if printed != [] { ReadBackAllGrows(ReadBack(items, printed[0]), printed[1..]); }
  }

  lemma DistinctCons(x: string, rest: seq<string>)
    ensures Distinct([x] + rest) <==> Distinct(rest) && x !in rest
  {
    var s := [x] + rest;
    if Distinct(s) {
      forall i, j | 0 <= i < j < |rest| ensures rest[i] != rest[j] { assert s[i + 1] != s[j + 1]; }
      forall i | 0 <= i < |rest| ensures rest[i] != x { assert s[0] != s[i + 1]; }
    }
  }

  lemma FirstIsReadBack(items: seq<string>, x: string, rest: seq<string>)
    requires ReadBackAll(items, [x] + rest) == items + ([x] + rest)
    ensures ReadBack(items, x) == items + [x]
  {
    var next, all := ReadBack(items, x), ReadBackAll(items, [x] + rest);
    assert ([x] + rest)[1..] == rest && [x][1..] == [];
    assert all == ReadBackAll(next, rest);
    ReadBackAllGrows(items, [x]);
    assert items <= next && |next| <= |items| + 1;
    ReadBackAllGrows(next, rest);
    hide ReadBackAll, ReadBack;
    assert next[..|items|] == items;
    assert next[|items|] == all[|items|] == x;
  }

  /** Item by item: a list is read back as it was printed exactly when its items are clean and distinct. */
  lemma {:induction false} ReadBackAllExactly(items: seq<string>, printed: seq<string>)
    requires forall x :: x in printed ==> NoBreaks(x)
    ensures ReadBackAll(items, printed) == items + printed <==>
      Distinct(printed) && forall x :: x in printed ==> Clean(x) && x !in items
    decreases |printed|
  {
    if printed == [] {
      assert items + printed == items;
    } else {
      var x, rest := printed[0], printed[1..];
      ReadBackExactly(items, x);
      DistinctCons(x, rest);
      assert printed == [x] + rest && items + printed == (items + [x]) + rest;
      hide NoBreaks, Clean, ReadBack, Distinct;
      if ReadBackAll(items, printed) == items + printed { FirstIsReadBack(items, x, rest); }
      if ReadBack(items, x) == items + [x] { ReadBackAllExactly(items + [x], rest); }
    }
  }

  lemma ReadLineHasNoBreaks(r: Reader, line: string, k: Index)
    requires NoBreaks(line) && forall x :: x in r.sections[k] ==> NoBreaks(x)
    ensures forall x :: x in ReadLine(r, line).sections[k] ==> NoBreaks(x)
  {
    StripTrims(line);
    var stripped := Strip(line);
    if |stripped| >= 2 {
      assert NoBreaks(stripped[2..]);
      NormalTrims(stripped[2..]);
    }
    hide NoBreaks, Strip, Normal, SectionNamed;
  }

  lemma {:induction false} ItemsHaveNoBreaks(r: Reader, lines: seq<string>, k: Index)
    requires forall i :: 0 <= i < |lines| ==> NoBreaks(lines[i])
    requires forall x :: x in r.sections[k] ==> NoBreaks(x)
    ensures forall x :: x in ReadLines(r, lines).sections[k] ==> NoBreaks(x)
    decreases |lines|
  {
    hide ReadLine;
    if lines != [] {
      ReadLineHasNoBreaks(r, lines[0], k);
      ItemsHaveNoBreaks(ReadLine(r, lines[0]), lines[1..], k);
    }
  }

  // ---- printed text read back ----

  lemma {:induction false} ReadConcat(r: Reader, a: seq<string>, b: seq<string>)
    ensures ReadLines(r, a + b) == ReadLines(ReadLines(r, a), b)
    decreases |a|
  {
    hide ReadLine;
    if a == [] {
      assert a + b == b;
    } else {
      assert (a + b)[0] == a[0] && (a + b)[1..] == a[1..] + b;
      ReadConcat(ReadLine(r, a[0]), a[1..], b);
    }
  }

  lemma NamesAreTrimmed(k: Index)
    ensures Name(k) != "" && !IsSpace(Name(k)[0]) && !IsSpace(Name(k)[|Name(k)| - 1]) && NoBreaks(Name(k))
  {
  }

  lemma NamesAreFound(k: Index)
    ensures SectionNamed(Name(k)) == Some(k)
  {
  }

  lemma ReadHeading(r: Reader, k: Index)
    ensures ReadLine(r, "## " + Name(k)) == r.(current := Some(k))
    ensures NoBreaks("## " + Name(k))
  {
    var name, line := Name(k), "## " + Name(k);
    NamesAreTrimmed(k);
    NamesAreFound(k);
    hide Name, SectionNamed;
    assert line[|line| - 1] == name[|name| - 1] && line[3..] == name;
    StripOfTrimmed(line);
    StripOfTrimmed(name);
  }

  lemma ReadItemLine(r: Reader, k: Index, x: string)
    requires r.current == Some(k)
    ensures ReadLine(r, ItemLine(x)) == r.(sections := r.sections[k := ReadBack(r.sections[k], x)])
  {
    StripOfDash(x);
    hide Strip, AddUnique;
  }

  lemma StripOfDash(x: string)
    ensures Strip(ItemLine(x)) <= ItemLine(x) && !StartsWith(Strip(ItemLine(x)), "## ")
  {
    RStripWithin(ItemLine(x));
    assert LStrip(ItemLine(x)) == ItemLine(x);
  }

  lemma {:induction false} ReadItems(r: Reader, k: Index, items: seq<string>)
    requires r.current == Some(k)
    ensures ReadLines(r, Map(ItemLine, items)) ==
            r.(sections := r.sections[k := ReadBackAll(r.sections[k], items)])
    decreases |items|
  {
    hide ReadLine, ReadBack;
    if items == [] {
      assert r.sections[k := r.sections[k]] == r.sections;
    } else {
      ReadItemLine(r, k, items[0]);
      var next := r.(sections := r.sections[k := ReadBack(r.sections[k], items[0])]);
      assert Map(ItemLine, items)[1..] == Map(ItemLine, items[1..]);
      ReadItems(next, k, items[1..]);
    }
  }

  lemma NoneIsSkipped(r: Reader)
    ensures ReadLines(r, ["- (none)"]) == r
  {
    StripOfTrimmed("- (none)");
    assert ["- (none)"][1..] == [];
  }

  lemma ReadBlock(r: Reader, k: Index, items: seq<string>)
    ensures ReadLines(r, Block(Name(k), items)) ==
            Reader(r.sections[k := ReadBackAll(r.sections[k], FirstTen(items))], Some(k))
  {
    ReadHeading(r, k);
    hide ReadLine, Name;
    var heading, next := ["## " + Name(k)], r.(current := Some(k));
    assert heading[1..] == [];
    assert ReadLines(r, heading) == next;
    if items == [] {
      NoneIsSkipped(next);
      ReadConcat(r, heading, ["- (none)"]);
      assert r.sections[k := r.sections[k]] == r.sections;
    } else {
      ReadItems(next, k, FirstTen(items));
      ReadConcat(r, heading, Map(ItemLine, FirstTen(items)));
    }
  }

  lemma {:induction false} ReadBlocks(r: Reader, s: Sections, k: nat)
    requires k <= 7
    ensures
      var t := ReadLines(r, Blocks(s, k)).sections;
      && (forall j :: 0 <= j < k ==> t[j] == r.sections[j])
      && (forall j :: k <= j < 7 ==> t[j] == ReadBackAll(r.sections[j], FirstTen(s[j])))
    decreases 7 - k
  {
    hide ReadLine, Block, ReadBackAll, Name;
    if k < 7 {
      ReadBlock(r, k, s[k]);
      ReadConcat(r, Block(Name(k), s[k]), Blocks(s, k + 1));
      ReadBlocks(ReadLines(r, Block(Name(k), s[k])), s, k + 1);
    }
  }

  ghost predicate OneLineItems(s: Sections) { forall k: Index, x :: x in s[k] ==> NoBreaks(x) }

  lemma BlockLines(k: Index, items: seq<string>)
    requires forall x :: x in items ==> NoBreaks(x)
    ensures forall i :: 0 <= i < |Block(Name(k), items)| ==> NoBreaks(Block(Name(k), items)[i])
    ensures |Block(Name(k), items)| >= 2 && Block(Name(k), items)[|Block(Name(k), items)| - 1] != ""
  {
    ReadHeading(Reader(NO_ITEMS, None), k);
    hide Name, ReadLine;
    forall x | x in items ensures NoBreaks(ItemLine(x)) { }
    forall i | 0 <= i < |FirstTen(items)| ensures NoBreaks(ItemLine(FirstTen(items)[i])) {
      assert FirstTen(items)[i] in items;
    }
    assert NoBreaks("- (none)");
    hide NoBreaks;
  }

  lemma {:induction false} BlocksLines(s: Sections, k: nat)
    requires k <= 7 && OneLineItems(s)
    ensures forall i :: 0 <= i < |Blocks(s, k)| ==> NoBreaks(Blocks(s, k)[i])
    ensures k < 7 ==> Blocks(s, k) != [] && Blocks(s, k)[|Blocks(s, k)| - 1] != ""
    decreases 7 - k
  {
    hide Block, NoBreaks, Name;
    if k < 7 {
      BlockLines(k, s[k]);
      BlocksLines(s, k + 1);
    }
  }

  /** What is read from a printed anchor, section by section. */
  lemma ReadRender(s: Sections)
    requires OneLineItems(s)
    ensures forall k: Index :: ReadAnchor(Render(s))[k] == ReadBackAll([], FirstTen(s[k]))
  {
    hide Block, Blocks, ReadLines, ReadBackAll, SplitLines, OneLineItems;
    BlocksLines(s, 0);
    SplitJoin(Blocks(s));
    ReadBlocks(Reader(NO_ITEMS, None), s, 0);
  }

  ghost predicate Printable(items: seq<string>) {
    |items| <= 10 && Distinct(items) && forall x :: x in items ==> Clean(x)
  }

  lemma CleanHasNoBreaks(items: seq<string>, x: string)
    requires x in items && forall y :: y in items ==> Clean(y)
    ensures NoBreaks(x)
  {
  }

  lemma SectionIsPrintable(items: seq<string>)
    requires forall x :: x in items ==> NoBreaks(x)
    requires items == ReadBackAll([], FirstTen(items))
    ensures Printable(items)
  {
    hide NoBreaks, Clean, ReadBackAll;
    ReadBackAllGrows([], FirstTen(items));
    assert FirstTen(items) == items && [] + items == items;
    ReadBackAllExactly([], items);
  }

  lemma PrintableIsReadBack(items: seq<string>)
    requires Printable(items)
    ensures ReadBackAll([], FirstTen(items)) == items
  {
    hide NoBreaks, ReadBackAll;
    forall x | x in items ensures NoBreaks(x) { CleanHasNoBreaks(items, x); }
    assert [] + items == items;
    ReadBackAllExactly([], items);
  }

  lemma ReadIsPrintable(s: Sections)
    requires ReadAnchor(Render(s)) == s
    ensures forall k: Index :: Printable(s[k])
  {
    hide ReadLines, Clean, Printable, Render, ReadBackAll;
    var lines := SplitLines(Render(s));
    SplitHasNoBreaks(Render(s));
    forall k: Index ensures forall x :: x in s[k] ==> NoBreaks(x) {
      ItemsHaveNoBreaks(Reader(NO_ITEMS, None), lines, k);
    }
    ReadRender(s);
    forall k: Index ensures Printable(s[k]) { SectionIsPrintable(s[k]); }
  }

  lemma PrintableIsRead(s: Sections)
    requires forall k: Index :: Printable(s[k])
    ensures ReadAnchor(Render(s)) == s
  {
    hide ReadAnchor, Clean, Render, ReadBackAll;
    forall k: Index, x | x in s[k] ensures NoBreaks(x) { CleanHasNoBreaks(s[k], x); }
    ReadRender(s);
    forall k: Index ensures ReadAnchor(Render(s))[k] == s[k] { PrintableIsReadBack(s[k]); }
  }

  /** Printing and reading an anchor gives it back exactly when every section is printable. */
  lemma RoundTripExactly(s: Sections, find: Turn -> seq<Finding>)
    ensures Extract([], Render(s), find) == s <==> forall k: Index :: Printable(s[k])
  {
    hide ReadAnchor, Render, Printable;
    assert Extract([], Render(s), find) == ReadAnchor(Render(s));
    if ReadAnchor(Render(s)) == s { ReadIsPrintable(s); }
    if forall k: Index :: Printable(s[k]) { PrintableIsRead(s); }
  }
}
