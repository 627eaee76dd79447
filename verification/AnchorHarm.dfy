/** Which printed items cost other items their place, and which leave every clean item printed. */
module AnchorHarm {
  import opened Sequences
  import opened Lines
  import opened Anchors
  import opened AnchorItems

  // ---- blocks of physical lines ----

  lemma ReadBlocksFrom(r: Reader, s: Sections, k: nat)
    requires k < 7
    ensures ReadLines(r, AllPhysical(Blocks(s, k))) ==
            ReadLines(ReadLines(r, AllPhysical(Block(Name(k), s[k]))), AllPhysical(Blocks(s, k + 1)))
  {
    hide ReadLines, Block, AllPhysical, Name;
    PhysicalConcat(Block(Name(k), s[k]), Blocks(s, k + 1));
    ReadConcat(r, AllPhysical(Block(Name(k), s[k])), AllPhysical(Blocks(s, k + 1)));
  }

  lemma PhysicalOne(line: string)
    ensures AllPhysical([line]) == Physical(line)
  {
    assert [line][1..] == [] && AllPhysical([]) == [];
    assert Physical(line) + [] == Physical(line);
  }

  /** After its heading, a section is its items or nothing. */
  lemma ReadPhysicalBlock(r: Reader, k: Index, items: seq<string>)
    ensures
      var next := r.(current := Some(k));
      ReadLines(r, AllPhysical(Block(Name(k), items))) ==
        if items == [] then next else ReadLines(next, AllPhysical(Map(ItemLine, FirstTen(items))))
  {
    var heading, next := "## " + Name(k), r.(current := Some(k));
    var rest := if items == [] then ["- (none)"] else Map(ItemLine, FirstTen(items));
    ReadHeading(r, k);
    OneLineIsPhysical(heading);
    PhysicalOne(heading);
    assert ReadLines(r, [heading]) == next by { assert [heading][1..] == []; }
    NoneIsSkipped(next);
    assert NoBreaks("- (none)");
    OneLineIsPhysical("- (none)");
    PhysicalOne("- (none)");
    hide ReadLines, AllPhysical, Physical, Name, ReadLine, NoBreaks;
    PhysicalConcat([heading], rest);
    ReadConcat(r, [heading], AllPhysical(rest));
  }

  lemma ReadFirstOf(r: Reader, items: seq<string>)
    requires items != []
    ensures ReadLines(r, AllPhysical(Map(ItemLine, items))) ==
            ReadLines(ReadLines(r, Physical(ItemLine(items[0]))), AllPhysical(Map(ItemLine, items[1..])))
  {
    assert Map(ItemLine, items)[1..] == Map(ItemLine, items[1..]);
    hide ReadLines, Physical;
    ReadConcat(r, Physical(ItemLine(items[0])), AllPhysical(Map(ItemLine, items[1..])));
  }

  // ---- harmless items leave every clean item its place ----

  lemma {:induction false} ReadHarmlessItems(r: Reader, k: Index, items: seq<string>)
    requires r.current == Some(k) && forall y :: y in items ==> Harmless(y, k)
    ensures
      var r' := ReadLines(r, AllPhysical(Map(ItemLine, items)));
      r'.current == Some(k) && |r'.sections[k]| <= |r.sections[k]| + |items|
      && forall j: Index :: j > k ==> r'.sections[j] == r.sections[j]
    decreases |items|
  {
    hide Physical, Harmless;
    if items != [] {
      hide ReadLines, AllPhysical;
      ReadFirstOf(r, items);
      ReadHarmless(r, items[0], k);
      ReadHarmlessItems(ReadLines(r, Physical(ItemLine(items[0]))), k, items[1..]);
    }
  }

  lemma CleanIsRead(r: Reader, k: Index, x: string)
    requires r.current == Some(k) && Clean(x)
    ensures x in ReadLines(r, Physical(ItemLine(x))).sections[k]
  {
    CleanHasNoBreaks([x], x);
    OneLineIsRead(r, x, k);
    CleanIsReadBack(r.sections[k], x);
    hide ReadLines, Physical, ReadBack, Clean;
  }

  lemma {:induction false} CleanIsAmongThem(r: Reader, k: Index, items: seq<string>, x: string)
    requires r.current == Some(k) && forall y :: y in items ==> Harmless(y, k)
    requires Clean(x) && x in items
    ensures x in ReadLines(r, AllPhysical(Map(ItemLine, items))).sections[k]
    decreases |items|
  {
    hide Physical, Harmless, ReadLines, AllPhysical, ReadBack;
    var next := ReadLines(r, Physical(ItemLine(items[0])));
    assert items == [items[0]] + items[1..];
    ReadFirstOf(r, items);
    ReadHarmless(r, items[0], k);
    if items[0] == x {
      CleanIsRead(r, k, x);
      ReadingGrows(next, AllPhysical(Map(ItemLine, items[1..])), k);
    } else {
      CleanIsAmongThem(next, k, items[1..], x);
    }
  }

  ghost predicate HarmlessItems(items: seq<string>, k: Index) { forall y :: y in FirstTen(items) ==> Harmless(y, k) }

  lemma PrefixFits(a: seq<string>, b: seq<string>, x: string)
    requires a <= b && |a| <= 10 && x in a
    ensures x in FirstTen(b)
  {
  }

  /** From the block of section `j` on, with nothing read into it or a later one so far. */
  lemma {:induction false} CleanKeepsPlace(r: Reader, s: Sections, j: nat, k: Index, x: string)
    requires j <= k && (forall i: Index :: j <= i ==> r.sections[i] == [])
    requires forall i: Index :: j <= i <= k ==> HarmlessItems(s[i], i)
    requires Clean(x) && x in FirstTen(s[k])
    ensures x in FirstTen(ReadLines(r, AllPhysical(Blocks(s, j))).sections[k])
    decreases k - j
  {
    hide ReadLines, AllPhysical, Blocks, Block, Clean, Harmless, Name;
    var next, items := r.(current := Some(j)), FirstTen(s[j]);
    var after := ReadLines(r, AllPhysical(Block(Name(j), s[j])));
    ReadBlocksFrom(r, s, j);
    ReadPhysicalBlock(r, j, s[j]);
    assert HarmlessItems(s[j], j);
    ReadHarmlessItems(next, j, items);
    if j == k {
      CleanIsAmongThem(next, k, items, x);
      ReadingGrows(after, AllPhysical(Blocks(s, j + 1)), k);
      PrefixFits(after.sections[k], ReadLines(after, AllPhysical(Blocks(s, j + 1))).sections[k], x);
    } else {
      CleanKeepsPlace(after, s, j + 1, k, x);
    }
  }

  /** A clean printed item is among the first ten read, if what is printed up to its section is harmless. */
  lemma CleanStaysPrinted(s: Sections, k: Index, x: string)
    requires forall i: Index :: i <= k ==> HarmlessItems(s[i], i)
    requires Clean(x) && x in FirstTen(s[k])
    ensures x in FirstTen(ReadAnchor(Render(s))[k])
  {
    hide HarmlessItems, ReadLines, AllPhysical, Blocks, Clean, FirstTen, ReadAnchor;
    ReadAnyRender(s);
    CleanKeepsPlace(Reader(NO_ITEMS, None), s, 0, k, x);
  }

  // ---- every other item costs some clean item its place ----

  function Letters(n: nat): string { seq(n, _ => 'a') }

  /** New clean items, longer than `n`. */
  function Fresh(n: nat, count: nat): (r: seq<string>)
    ensures |r| == count
  {
    seq(count, i requires 0 <= i => Letters(n + 1 + i))
  }

  lemma LettersAreClean(n: nat)
    requires n > 0
    ensures Clean(Letters(n)) && |Letters(n)| == n
  {
    var x := Letters(n);
    assert x[0] == 'a' && x[n - 1] == 'a' && NoBreaks(x);
  }

  function Longest(items: seq<string>): (n: nat)
    ensures forall x :: x in items ==> |x| <= n
  {
    if items == [] then 0
    else
      var n := Longest(items[1..]);
      if |items[0]| > n then |items[0]| else n
  }

  lemma FreshIsClean(n: nat, count: nat)
    ensures forall x :: x in Fresh(n, count) ==> Clean(x) && NoBreaks(x) && |x| > n
    ensures Distinct(Fresh(n, count))
  {
    var items := Fresh(n, count);
    forall i | 0 <= i < count ensures Clean(items[i]) && NoBreaks(items[i]) && |items[i]| == n + 1 + i {
      LettersAreClean(n + 1 + i);
    }
    hide Clean, NoBreaks, Fresh;
    assert forall i, j :: 0 <= i < j < count ==> |items[i]| != |items[j]|;
  }

  /** They go to the end of what was read. */
  lemma ReadFresh(r: Reader, k: Index, items: seq<string>)
    requires r.current == Some(k) && items == Fresh(Longest(r.sections[k]), |items|)
    ensures ReadLines(r, AllPhysical(Map(ItemLine, items))) == r.(sections := r.sections[k := r.sections[k] + items])
    ensures (forall x :: x in items ==> Clean(x) && NoBreaks(x) && x !in r.sections[k]) && Distinct(items)
  {
    FreshIsClean(Longest(r.sections[k]), |items|);
    hide Clean, NoBreaks, Fresh, ReadLines, Longest, Distinct, AllPhysical;
    OneLineItemsArePhysical(items);
    ReadItems(r, k, items);
    ReadBackAllExactly(r.sections[k], items);
  }

  lemma {:induction false} OneLineItemsArePhysical(items: seq<string>)
    requires forall x :: x in items ==> NoBreaks(x)
    ensures AllPhysical(Map(ItemLine, items)) == Map(ItemLine, items)
  {
    hide Physical;
    if items != [] {
      assert NoBreaks(items[0]) && NoBreaks(ItemLine(items[0]));
      OneLineIsPhysical(ItemLine(items[0]));
      assert Map(ItemLine, items)[1..] == Map(ItemLine, items[1..]);
      OneLineItemsArePhysical(items[1..]);
    }
  }

  lemma {:induction false} EmptyBlocks(r: Reader, s: Sections, i: nat, j: nat)
    requires i <= j <= 7 && forall m: Index :: i <= m < j ==> s[m] == []
    ensures
      var r' := if i == j then r else r.(current := Some(j - 1));
      ReadLines(r, AllPhysical(Blocks(s, i))) == ReadLines(r', AllPhysical(Blocks(s, j)))
    decreases j - i
  {
    hide ReadLines, AllPhysical, Blocks, Block, Name;
    if i < j {
      ReadBlocksFrom(r, s, i);
      ReadPhysicalBlock(r, i, s[i]);
      EmptyBlocks(r.(current := Some(i)), s, i + 1, j);
    }
  }

  lemma NothingLeft(r: Reader, s: Sections)
    ensures ReadLines(r, AllPhysical(Blocks(s, 7))) == r
  {
  }

  /** An anchor with one section in use, read from its items on. */
  lemma ReadOneSection(s: Sections, k: Index)
    requires s[k] != [] && forall m: Index :: m != k ==> s[m] == []
    ensures ReadAnchor(Render(s)) ==
            ReadLines(Reader(NO_ITEMS, Some(k)), AllPhysical(Map(ItemLine, FirstTen(s[k])))).sections
  {
    hide ReadLines, AllPhysical, Blocks, Block, Name, ReadAnchor;
    var r0 := Reader(NO_ITEMS, None);
    ReadAnyRender(s);
    EmptyBlocks(r0, s, 0, k);
    var r1 := if k == 0 then r0 else r0.(current := Some(k - 1));
    ReadBlocksFrom(r1, s, k);
    ReadPhysicalBlock(r1, k, s[k]);
    var r2 := ReadLines(Reader(NO_ITEMS, Some(k)), AllPhysical(Map(ItemLine, FirstTen(s[k]))));
    EmptyBlocks(r2, s, k + 1, 7);
    NothingLeft(r2, s);
    NothingLeft(r2.(current := Some(6)), s);
  }

  /** Over all anchors that print `y` in section `k`, beside one-line items, every clean printed item stays printed. */
  ghost predicate SparesOthers(y: string, k: Index) {
    forall s: Sections, j: Index, x ::
      PrintedBeside(s, y, k) && Clean(x) && x in FirstTen(s[j]) ==> x in FirstTen(ReadAnchor(Render(s))[j])
  }

  ghost predicate PrintedBeside(s: Sections, y: string, k: Index) {
    && y in FirstTen(s[k])
    && forall i: Index, z :: z in FirstTen(s[i]) ==> (i == k && z == y) || NoBreaks(z)
  }

  /** An item that leaves its section, and the item printed after it. */
  lemma LeavingLosesNext(y: string, k: Index, x: string)
    requires Alone(y, k).current != Some(k) && Clean(x) && x !in Alone(y, k).sections[k]
    ensures x !in ReadAnchor(Render(NO_ITEMS[k := [y, x]]))[k]
  {
    hide ReadLines, AllPhysical, Physical, ReadAnchor, Clean, ReadBack;
    var s: Sections := NO_ITEMS[k := [y, x]];
    var r := Reader(NO_ITEMS, Some(k));
    ReadOneSection(s, k);
    assert FirstTen(s[k]) == [y, x] && [y, x][1..] == [x] && [x][1..] == [];
    ReadFirstOf(r, [y, x]);
    ReadFirstOf(Alone(y, k), [x]);
    CleanHasNoBreaks([x], x);
    ReadElsewhere(Alone(y, k), x, k);
    assert AllPhysical(Map(ItemLine, [])) == [] by { NoItems(); }
    NoLines(ReadLines(Alone(y, k), Physical(ItemLine(x))));
  }

  lemma NoItems()
    ensures AllPhysical(Map(ItemLine, [])) == []
  {
  }

  lemma NoLines(r: Reader)
    ensures ReadLines(r, []) == r
  {
  }

  lemma ReadElsewhere(r: Reader, x: string, k: Index)
    requires NoBreaks(x) && r.current != Some(k)
    ensures ReadLines(r, Physical(ItemLine(x))).sections[k] == r.sections[k]
  {
    assert NoBreaks(ItemLine(x));
    OneLineIsPhysical(ItemLine(x));
    assert [ItemLine(x)][1..] == [];
    hide Physical, Strip, AddUnique, SectionNamed;
  }

  lemma LastFallsOff(before: seq<string>, items: seq<string>)
    requires items != [] && |before| + |items| > 10 && Distinct(items) && forall x :: x in items ==> x !in before
    ensures items[|items| - 1] !in FirstTen(before + items)
  {
    var all, x := before + items, items[|items| - 1];
    forall i | 0 <= i < 10 ensures all[i] != x {
      if i >= |before| { assert all[i] == items[i - |before|]; } else { assert all[i] in before && x in items; }
    }
  }

  /** An item that takes two places in its section, and nine others after it. */
  lemma TwoPlacesLoseLast(y: string, k: Index) returns (s: Sections, x: string)
    requires Alone(y, k).current == Some(k) && |Alone(y, k).sections[k]| >= 2
    ensures PrintedBeside(s, y, k) && Clean(x) && x in FirstTen(s[k]) && x !in FirstTen(ReadAnchor(Render(s))[k])
  {
    hide ReadLines, AllPhysical, Physical, ReadAnchor, Clean, NoBreaks, Fresh, Alone, Render;
    var e := Alone(y, k);
    var nine := Fresh(Longest(e.sections[k]), 9);
    var items := [y] + nine;
    s, x := NO_ITEMS[k := items], nine[8];
    ReadOneSection(s, k);
    assert FirstTen(s[k]) == items && items[1..] == nine;
    ReadFirstOf(Reader(NO_ITEMS, Some(k)), items);
    AloneIs(y, k);
    ReadFresh(e, k, nine);
    LastFallsOff(e.sections[k], nine);
    assert x in nine && x in items;
  }

  lemma AloneIs(y: string, k: Index)
    ensures Alone(y, k) == ReadLines(Reader(NO_ITEMS, Some(k)), Physical(ItemLine(y)))
  {
  }

  /** An item that takes a place in a later section, and ten others there. */
  lemma LaterPlaceLosesLast(y: string, k: Index, j: Index) returns (s: Sections, x: string)
    requires Alone(y, k).current == Some(k) && k < j && Alone(y, k).sections[j] != []
    ensures PrintedBeside(s, y, k) && Clean(x) && x in FirstTen(s[j]) && x !in FirstTen(ReadAnchor(Render(s))[j])
  {
    hide ReadLines, AllPhysical, Physical, ReadAnchor, Clean, NoBreaks, Fresh, Alone, Render;
    var e := Alone(y, k);
    var r := e.(current := Some(j));
    var ten := Fresh(Longest(e.sections[j]), 10);
    s, x := NO_ITEMS[k := [y]][j := ten], ten[9];
    ReadTwoSections(s, y, k, j);
    assert FirstTen(ten) == ten;
    ReadFresh(r, j, ten);
    LastFallsOff(e.sections[j], ten);
    assert x in ten;
  }

  lemma ReadTwoSections(s: Sections, y: string, k: Index, j: Index)
    requires k < j && s[k] == [y] && s[j] != [] && Alone(y, k).current == Some(k)
    requires forall m: Index :: m != k && m != j ==> s[m] == []
    ensures ReadAnchor(Render(s)) ==
            ReadLines(Alone(y, k).(current := Some(j)), AllPhysical(Map(ItemLine, FirstTen(s[j])))).sections
  {
    hide ReadLines, AllPhysical, Blocks, Block, Name, ReadAnchor, Physical, Alone, Render;
    var r0, e := Reader(NO_ITEMS, None), Alone(y, k);
    ReadAnyRender(s);
    EmptyBlocks(r0, s, 0, k);
    var r1 := if k == 0 then r0 else r0.(current := Some(k - 1));
    ReadBlocksFrom(r1, s, k);
    ReadPhysicalBlock(r1, k, s[k]);
    OneItem(y, k);
    EmptyBlocks(e, s, k + 1, j);
    var r2 := if k + 1 == j then e else e.(current := Some(j - 1));
    ReadBlocksFrom(r2, s, j);
    ReadPhysicalBlock(r2, j, s[j]);
    var r3 := ReadLines(e.(current := Some(j)), AllPhysical(Map(ItemLine, FirstTen(s[j]))));
    EmptyBlocks(r3, s, j + 1, 7);
    NothingLeft(r3, s);
    NothingLeft(r3.(current := Some(6)), s);
  }

  lemma OneItem(y: string, k: Index)
    ensures ReadLines(Reader(NO_ITEMS, Some(k)), AllPhysical(Map(ItemLine, FirstTen([y])))) == Alone(y, k)
  {
    hide ReadLines, AllPhysical, Physical;
    assert FirstTen([y]) == [y] && [y][1..] == [];
    ReadFirstOf(Reader(NO_ITEMS, Some(k)), [y]);
    NoItems();
    NoLines(Alone(y, k));
  }

  /**
   * One printed item, whatever is in it: over all anchors that print it beside one-line items, every clean
   * printed item stays printed exactly if it does not leave its section, takes at most one place in it, and
   * none in a later one.
   */
  lemma SparesOthersExactly(y: string, k: Index)
    ensures SparesOthers(y, k) <==> Harmless(y, k)
  {
    hide Alone, PrintedBeside, Clean, FirstTen, ReadAnchor, Render;
    if Harmless(y, k) {
      forall s: Sections, j: Index, x | PrintedBeside(s, y, k) && Clean(x) && x in FirstTen(s[j])
        ensures x in FirstTen(ReadAnchor(Render(s))[j]) {
        BesideHarmless(s, y, k);
        CleanStaysPrinted(s, j, x);
      }
    } else {
      NotSpared(y, k);
    }
  }

  lemma BesideHarmless(s: Sections, y: string, k: Index)
    requires PrintedBeside(s, y, k) && Harmless(y, k)
    ensures forall i: Index :: HarmlessItems(s[i], i)
  {
    hide Harmless, NoBreaks;
    forall i: Index, z | z in FirstTen(s[i]) ensures Harmless(z, i) {
      if NoBreaks(z) { OneLineIsHarmless(z, i); }
    }
  }

  lemma NotSpared(y: string, k: Index)
    requires !Harmless(y, k)
    ensures !SparesOthers(y, k)
  {
    hide Alone, Clean, ReadAnchor, Render;
    var e := Alone(y, k);
    if e.current != Some(k) {
      var x := Fresh(Longest(e.sections[k]), 1)[0];
      FreshIsClean(Longest(e.sections[k]), 1);
      LeavingLosesNext(y, k, x);
      var s: Sections := NO_ITEMS[k := [y, x]];
      assert PrintedBeside(s, y, k) && x in FirstTen(s[k]);
    } else if |e.sections[k]| > 1 {
      var s, x := TwoPlacesLoseLast(y, k);
    } else {
      var j: Index :| j > k && e.sections[j] != [];
      var s, x := LaterPlaceLosesLast(y, k, j);
    }
  }

  // ---- examples ----

  lemma TwoLines(first: string, second: string)
    requires NoBreaks(first) && NoBreaks(second)
    ensures Physical(ItemLine(first + "\n" + second)) == [ItemLine(first), second]
  {
    var line := ItemLine(first + "\n" + second) + "\n";
    assert NoBreaks(ItemLine(first));
    assert line == ItemLine(first) + "\n" + (second + "\n");
    SplitFirst(ItemLine(first), second + "\n");
    OneLineIsPhysical(second);
  }

  lemma ReadTwo(r: Reader, first: string, second: string)
    ensures ReadLines(r, [first, second]) == ReadLine(ReadLine(r, first), second)
  {
    hide ReadLine;
    var next := ReadLine(r, first);
    assert [first, second][1..] == [second] && [second][1..] == [];
    assert ReadLines(next, [second]) == ReadLine(next, second);
  }

  /** An item on two lines is its first line, followed by its second as a line of the text. */
  lemma AloneOnTwoLines(first: string, second: string, k: Index)
    requires NoBreaks(first) && NoBreaks(second)
    ensures Alone(first + "\n" + second, k) ==
            ReadLine(Reader(NO_ITEMS[k := ReadBack([], first)], Some(k)), second)
  {
    var r := Reader(NO_ITEMS, Some(k));
    TwoLines(first, second);
    ReadTwo(r, ItemLine(first), second);
    ReadItemLine(r, k, first);
    hide ReadLine, ReadBack, ReadLines, Physical;
  }

  /** What the decision pattern finds in "Decision:", newline, "## X": the item printed after it is lost. */
  lemma HeadingInItemLosesNext(find: Turn -> seq<Finding>)
    ensures
      var s: Sections := NO_ITEMS[3 := ["Decision:\n## X", "b"]];
      "b" in FirstTen(s[3]) && Clean("b") && "b" !in Extract([], Render(s), find)[3]
  {
    var y := "Decision:\n## X";
    DecisionWithHeading();
    hide Alone, Extract, Render;
    LeavingLosesNext(y, 3, "b");
    NoTurns(Render(NO_ITEMS[3 := [y, "b"]]), find);
  }

  lemma DecisionWithHeading()
    ensures Alone("Decision:\n## X", 3).current == None && "b" !in Alone("Decision:\n## X", 3).sections[3]
    ensures Clean("b")
  {
    assert "Decision:\n## X" == "Decision:" + "\n" + "## X";
    assert NoBreaks("Decision:") && NoBreaks("## X") && Clean("b");
    hide Alone, ReadBack, ReadLine, NoBreaks, Clean;
    AloneOnTwoLines("Decision:", "## X", 3);
    DecisionIsRead();
    UnknownHeading(Reader(NO_ITEMS[3 := ReadBack([], "Decision:")], Some(3)));
  }

  lemma UnknownHeading(r: Reader)
    ensures ReadLine(r, "## X") == r.(current := None)
  {
    StripOfTrimmed("## X");
    StripOfTrimmed("X");
    assert "## X"[3..] == "X";
  }

  lemma DecisionIsRead()
    ensures "b" !in ReadBack([], "Decision:")
  {
    assert NoBreaks("Decision:") && Clean("Decision:");
    CleanIsReadBack([], "Decision:");
  }

  lemma NoTurns(prior: string, find: Turn -> seq<Finding>)
    ensures Extract([], prior, find) == ReadAnchor(prior)
  {
    hide ReadAnchor;
  }

  /** A continuation line may add an item without harm, where the first line takes no place. */
  lemma HarmlessThoughRead(item: string, k: Index)
    requires Clean(item)
    ensures
      var y := "(none)" + "\n" + ItemLine(item);
      Harmless(y, k) && Alone(y, k) == Reader(NO_ITEMS[k := [item]], Some(k))
  {
    ItemLineIsTrimmed(item);
    NoneTakesNoPlace();
    NothingAnywhere(k);
    hide Alone, ReadBack, ReadLine, Clean, NoBreaks, ItemLine, NO_ITEMS;
    AloneOnTwoLines("(none)", ItemLine(item), k);
    ReadItemLine(Reader(NO_ITEMS, Some(k)), k, item);
    CleanIsReadBack([], item);
    assert [] + [item] == [item];
  }

  lemma NothingAnywhere(k: Index)
    ensures NO_ITEMS[k := []] == NO_ITEMS && forall j: Index :: NO_ITEMS[j] == []
  {
  }

  lemma NoneTakesNoPlace()
    ensures ReadBack([], "(none)") == [] && NoBreaks("(none)")
  {
    StripOfTrimmed("- (none)");
  }
}
