/** Anchors over many compactions: what was printed once stays printed, and which files are listed twice. */
module AnchorRounds {
  import opened Sequences
  import opened Lines
  import opened Anchors
  import opened AnchorItems
  import opened AnchorHarm

  /** What a pattern finds in a turn of this conversation is, once normalised, on one line. */
  ghost predicate OneLineFinding(f: Finding) { NoBreaks(if f.File? then f.name else Normal(f.text)) }

  ghost predicate OneLineTurns(turns: seq<Turn>, find: Turn -> seq<Finding>) {
    forall f :: f in Findings(turns, find) ==> OneLineFinding(f)
  }

  ghost predicate OneLine(items: seq<string>) { forall x :: x in items ==> NoBreaks(x) }

  /** The summary after compacting the turns of each round on top of the previous round's text. */
  function Rounds(s: Sections, history: seq<seq<Turn>>, find: Turn -> seq<Finding>): Sections
    decreases |history|
  {
    if history == [] then s else Rounds(Extract(history[0], Render(s), find), history[1..], find)
  }

  lemma GatherGrows(g: Gathered, f: Finding, k: Index)
    ensures g.sections[k] <= Gather(g, f).sections[k]
    ensures OneLineFinding(f) && OneLine(g.sections[k]) ==> OneLine(Gather(g, f).sections[k])
  {
    hide Normal, NoBreaks;
  }

  lemma {:induction false} GatherAllGrows(g: Gathered, found: seq<Finding>, k: Index)
    ensures g.sections[k] <= GatherAll(g, found).sections[k]
    ensures (forall f :: f in found ==> OneLineFinding(f)) && OneLine(g.sections[k]) ==>
      OneLine(GatherAll(g, found).sections[k])
    decreases |found|
  {
    hide Gather, OneLineFinding, OneLine;
    if found != [] {
      GatherGrows(g, found[0], k);
      GatherAllGrows(Gather(g, found[0]), found[1..], k);
    }
  }

  // ---- what an extraction contains ----

  /** The finding puts item `x` into the section called `name`. */
  predicate Carries(f: Finding, name: string, x: string) {
    match f
    case Goal(v) => name == "Goal" && x == Normal(v) != ""
    case Constraint(v) => name == "Constraints" && x == Normal(v) != ""
    case Decision(v) => name == "Decisions" && x == Normal(v) != ""
    case NextStep(v) => name == "Next Steps" && x == Normal(v) != ""
    case File(v) => name == "Relevant Files" && x == v
  }

  lemma GatherContents(g: Gathered, f: Finding, k: Index, x: string)
    requires g.seenFiles <= Elements(g.sections[FILES])
    ensures x in Gather(g, f).sections[k] <==> x in g.sections[k] || Carries(f, NAMES[k], x)
    ensures Gather(g, f).seenFiles <= Elements(Gather(g, f).sections[FILES])
  {
    hide Normal;
  }

  lemma {:induction false} GatherAllContents(g: Gathered, found: seq<Finding>, k: Index, x: string)
    requires g.seenFiles <= Elements(g.sections[FILES])
    ensures x in GatherAll(g, found).sections[k] <==>
      x in g.sections[k] || exists f :: f in found && Carries(f, NAMES[k], x)
    decreases |found|
  {
    hide Gather, Carries, Elements;
    if found != [] {
      GatherContents(g, found[0], k, x);
      GatherAllContents(Gather(g, found[0]), found[1..], k, x);
    }
  }

  /** A section holds what the previous summary had in it and what the turns add to it, and nothing else. */
  lemma ExtractContents(turns: seq<Turn>, prior: string, find: Turn -> seq<Finding>, k: Index, x: string)
    ensures x in Extract(turns, prior, find)[k] <==>
      x in ReadAnchor(prior)[k] || exists f :: f in Findings(turns, find) && Carries(f, NAMES[k], x)
  {
    hide ReadAnchor, GatherAll, Findings, Carries;
    GatherAllContents(Gathered(ReadAnchor(prior), {}), Findings(turns, find), k, x);
  }

  lemma {:induction false} FindingsSnoc(turns: seq<Turn>, t: Turn, find: Turn -> seq<Finding>)
    ensures Findings(turns + [t], find) == Findings(turns, find) + find(t)
  {
    if turns == [] {
      assert [] + [t] == [t] && [t][1..] == [] && find(t) + [] == [] + find(t);
    } else {
      assert (turns + [t])[0] == turns[0] && (turns + [t])[1..] == turns[1..] + [t];
      FindingsSnoc(turns[1..], t, find);
    }
  }

  /** One more turn adds to the end of each section what is found in it, and moves nothing that is there. */
  lemma ExtractSnoc(turns: seq<Turn>, t: Turn, prior: string, find: Turn -> seq<Finding>, k: Index, x: string)
    ensures Extract(turns, prior, find)[k] <= Extract(turns + [t], prior, find)[k]
    ensures x in Extract(turns + [t], prior, find)[k] <==>
      x in Extract(turns, prior, find)[k] || exists f :: f in find(t) && Carries(f, NAMES[k], x)
  {
    FindingsSnoc(turns, t, find);
    ExtractContents(turns, prior, find, k, x);
    ExtractContents(turns + [t], prior, find, k, x);
    hide ReadAnchor, Gather, Findings, Carries, GatherAll, NAMES, OneLineFinding, OneLine, Extract;
    var start := Gathered(ReadAnchor(prior), {});
    GatherConcat(start, Findings(turns, find), find(t));
    GatherAllGrows(GatherAll(start, Findings(turns, find)), find(t), k);
    ExtractIsGather(turns, prior, find);
    ExtractIsGather(turns + [t], prior, find);
  }

  lemma ExtractIsGather(turns: seq<Turn>, prior: string, find: Turn -> seq<Finding>)
    ensures Extract(turns, prior, find) ==
            GatherAll(Gathered(ReadAnchor(prior), {}), Findings(turns, find)).sections
  {
  }

  // ---- rounds ----

  lemma ReadIsOneLine(text: string, k: Index)
    ensures OneLine(ReadAnchor(text)[k])
  {
    SplitHasNoBreaks(text);
    ItemsHaveNoBreaks(Reader(NO_ITEMS, None), SplitLines(text), k);
  }

  lemma RoundIsOneLine(turns: seq<Turn>, prior: string, find: Turn -> seq<Finding>, k: Index)
    requires OneLineTurns(turns, find)
    ensures OneLine(Extract(turns, prior, find)[k])
  {
    hide ReadAnchor, GatherAll, Findings, OneLine, OneLineFinding;
    ReadIsOneLine(prior, k);
    GatherAllGrows(Gathered(ReadAnchor(prior), {}), Findings(turns, find), k);
  }

  /**
   * One round: a clean item that is printed is printed again, whatever the turns add, if the items printed in
   * its section and before it are harmless.
   */
  lemma RoundKeepsItem(s: Sections, turns: seq<Turn>, find: Turn -> seq<Finding>, k: Index, x: string)
    requires forall i: Index :: i <= k ==> HarmlessItems(s[i], i)
    requires Clean(x) && x in FirstTen(s[k])
    ensures x in FirstTen(Extract(turns, Render(s), find)[k])
  {
    hide HarmlessItems, Clean, Render, ReadAnchor, GatherAll, Findings;
    CleanStaysPrinted(s, k, x);
    GatherAllGrows(Gathered(ReadAnchor(Render(s)), {}), Findings(turns, find), k);
    StillFirstTen(ReadAnchor(Render(s))[k], Extract(turns, Render(s), find)[k], x);
  }

  lemma StillFirstTen(a: seq<string>, b: seq<string>, x: string)
    requires a <= b && x in FirstTen(a)
    ensures x in FirstTen(b)
  {
    var i :| 0 <= i < |FirstTen(a)| && FirstTen(a)[i] == x;
    assert FirstTen(b)[i] == x;
  }

  /** What the turns add up to section `k` is harmless where it is added. */
  ghost predicate HarmlessTurns(turns: seq<Turn>, find: Turn -> seq<Finding>, k: Index) {
    forall f, i: Index, x :: f in Findings(turns, find) && i <= k && Carries(f, NAMES[i], x) ==> Harmless(x, i)
  }

  /** What one round leaves is either read from lines, and so on one line, or added by the turns. */
  lemma RoundIsHarmless(turns: seq<Turn>, prior: string, find: Turn -> seq<Finding>, k: Index, i: Index)
    requires HarmlessTurns(turns, find, k) && i <= k
    ensures HarmlessItems(Extract(turns, prior, find)[i], i)
  {
    hide Harmless, ReadAnchor, Extract, Findings, Carries, NoBreaks;
    ReadIsOneLine(prior, i);
    forall x | x in FirstTen(Extract(turns, prior, find)[i]) ensures Harmless(x, i) {
      ExtractContents(turns, prior, find, i, x);
      if x in ReadAnchor(prior)[i] { OneLineIsHarmless(x, i); }
    }
  }

  /**
   * Over any number of rounds a clean item that was printed once stays printed, whatever else is beside it, as
   * long as what the turns of these rounds add up to its section is harmless.
   */
  lemma {:induction false} PrintedStaysPrinted(
    s: Sections, history: seq<seq<Turn>>, find: Turn -> seq<Finding>, k: Index, x: string)
    requires forall i: Index :: i <= k ==> HarmlessItems(s[i], i)
    requires forall turns :: turns in history ==> HarmlessTurns(turns, find, k)
    requires Clean(x) && x in FirstTen(s[k])
    ensures x in FirstTen(Rounds(s, history, find)[k])
    decreases |history|
  {
    hide Clean, FirstTen, Extract, HarmlessTurns, HarmlessItems, Render;
    if history != [] {
      var next := Extract(history[0], Render(s), find);
      assert history[0] in history;
      forall i: Index | i <= k ensures HarmlessItems(next[i], i) {
        RoundIsHarmless(history[0], Render(s), find, k, i);
      }
      RoundKeepsItem(s, history[0], find, k, x);
      PrintedStaysPrinted(next, history[1..], find, k, x);
    }
  }

  /** A run starts without a previous summary, which reads like an empty one. */
  lemma FirstRound(turns: seq<Turn>, find: Turn -> seq<Finding>)
    ensures forall i: Index :: HarmlessItems(NO_ITEMS[i], i)
    ensures Extract(turns, "", find) == Extract(turns, Render(NO_ITEMS), find)
  {
    hide Render, GatherAll, Findings, ReadLines;
    ReadRender(NO_ITEMS);
    assert ReadAnchor(Render(NO_ITEMS)) == NO_ITEMS;
    assert SplitLines("") == [];
    EmptyRead();
  }

  lemma EmptyRead()
    ensures ReadAnchor("") == NO_ITEMS
  {
  }

  // ---- relevant files ----

  lemma {:induction false} ReadIsDistinct(r: Reader, lines: seq<string>, k: Index)
    requires Distinct(r.sections[k])
    ensures Distinct(ReadLines(r, lines).sections[k])
    decreases |lines|
  {
    if lines != [] {
      hide Strip, Normal, SectionNamed;
      assert Distinct(ReadLine(r, lines[0]).sections[k]);
      ReadIsDistinct(ReadLine(r, lines[0]), lines[1..], k);
    }
  }

  lemma GatherFile(g: Gathered, f: Finding, prior: seq<string>, added: seq<string>) returns (more: seq<string>)
    requires g.sections[FILES] == prior + added && Distinct(added)
    requires forall x :: x in added <==> x in g.seenFiles
    ensures Gather(g, f).sections[FILES] == prior + more && Distinct(more)
    ensures forall x :: x in more <==> x in Gather(g, f).seenFiles
    ensures forall x :: x in more <==> x in added || f == File(x)
  {
    hide Normal;
    if f.File? && f.name !in g.seenFiles {
      more := added + [f.name];
      assert prior + added + [f.name] == prior + more;
    } else {
      more := added;
    }
  }

  lemma {:induction false} GatherFiles(g: Gathered, found: seq<Finding>, prior: seq<string>, added: seq<string>)
    returns (more: seq<string>)
    requires g.sections[FILES] == prior + added && Distinct(added)
    requires forall x :: x in added <==> x in g.seenFiles
    ensures GatherAll(g, found).sections[FILES] == prior + more && Distinct(more)
    ensures forall x :: x in more <==> x in added || File(x) in found
    decreases |found|
  {
    hide Gather, Distinct;
    if found == [] {
      more := added;
    } else {
      var next := GatherFile(g, found[0], prior, added);
      more := GatherFiles(Gather(g, found[0]), found[1..], prior, next);
    }
  }

  lemma DistinctConcat(a: seq<string>, b: seq<string>)
    requires Distinct(a) && Distinct(b)
    ensures Distinct(a + b) <==> forall x :: x in b ==> x !in a
  {
    var s := a + b;
    if Distinct(s) {
      forall i, j | 0 <= i < |a| && 0 <= j < |b| ensures a[i] != b[j] { assert s[i] != s[|a| + j]; }
    }
    if forall x :: x in b ==> x !in a {
      forall i, j | 0 <= i < j < |s| ensures s[i] != s[j] {
        assert i < |a| ==> s[i] in a;
        assert |a| <= j ==> s[j] == b[j - |a|];
        if |a| <= i { assert s[i] == b[i - |a|]; }
      }
    }
  }

  /** "Relevant Files" lists a file twice exactly when the turns mention one the previous summary listed. */
  lemma FilesDistinctExactly(turns: seq<Turn>, prior: string, find: Turn -> seq<Finding>)
    ensures Distinct(Extract(turns, prior, find)[FILES]) <==>
      forall x :: File(x) in Findings(turns, find) ==> x !in ReadAnchor(prior)[FILES]
  {
    hide ReadLines, GatherAll, Distinct, Findings;
    var before := ReadAnchor(prior);
    EmptyIsDistinct();
    ReadIsDistinct(Reader(NO_ITEMS, None), SplitLines(prior), FILES);
    assert before[FILES] + [] == before[FILES];
    var more := GatherFiles(Gathered(before, {}), Findings(turns, find), before[FILES], []);
    DistinctConcat(before[FILES], more);
  }

  lemma EmptyIsDistinct()
    ensures Distinct<string>([])
  {
  }
}
