/** `str.strip`, `str.rstrip(".")`, `str.splitlines`, `"\n".join` and slicing by a possibly negative end. */
module Lines {
  /** The line boundaries of `str.splitlines`. */
  predicate IsBreak(c: char) {
    var n := c as int;
    10 <= n <= 13 || 28 <= n <= 30 || n == 133 || n == 8232 || n == 8233
  }

  /** `str.isspace` of one character. */
  predicate IsSpace(c: char) {
    var n := c as int;
    || 9 <= n <= 13 || 28 <= n <= 32 || n == 133 || n == 160 || n == 5760
    || 8192 <= n <= 8202 || n == 8232 || n == 8233 || n == 8239 || n == 8287 || n == 12288
  }

  ghost predicate NoBreaks(s: string) { forall i :: 0 <= i < |s| ==> !IsBreak(s[i]) }

  function LStrip(s: string): string {
    if s != [] && IsSpace(s[0]) then LStrip(s[1..]) else s
  }

  function RStrip(s: string): string {
    if s != [] && IsSpace(s[|s| - 1]) then RStrip(s[..|s| - 1]) else s
  }

  function Strip(s: string): string { RStrip(LStrip(s)) }

  function RStripDots(s: string): string {
    if s != [] && s[|s| - 1] == '.' then RStripDots(s[..|s| - 1]) else s
  }

  predicate StartsWith(s: string, prefix: string) { prefix <= s }

  function Join(lines: seq<string>): string {
    if lines == [] then ""
    else if |lines| == 1 then lines[0]
    else lines[0] + "\n" + Join(lines[1..])
  }

  function FirstBreak(s: string): (n: nat)
    ensures n <= |s|
    ensures forall i :: 0 <= i < n ==> !IsBreak(s[i])
    ensures n < |s| ==> IsBreak(s[n])
  {
    if s == [] || IsBreak(s[0]) then 0 else 1 + FirstBreak(s[1..])
  }

  /** Where the next line starts; a carriage return followed by a line feed is one boundary. */
  function AfterBreak(s: string): (m: nat)
    requires FirstBreak(s) < |s|
    ensures FirstBreak(s) < m <= |s|
  {
    var n := FirstBreak(s);
    if s[n] == '\r' && n + 1 < |s| && s[n + 1] == '\n' then n + 2 else n + 1
  }

  /** A final boundary adds no empty line. */
  function SplitLines(s: string): seq<string>
    decreases |s|
  {
    var n := FirstBreak(s);
    if s == [] then []
    else if n == |s| then [s]
    else [s[..n]] + SplitLines(s[AfterBreak(s)..])
  }

  /** `s[:end]`, counting from the back when `end` is negative. */
  function Cut(s: string, end: int): string {
    if end >= |s| then s
    else if end >= 0 then s[..end]
    else if -end <= |s| then s[..|s| + end]
    else ""
  }

  // ---- joining and splitting ----

  lemma SplitFirst(line: string, rest: string)
    requires NoBreaks(line)
    ensures SplitLines(line + "\n" + rest) == [line] + SplitLines(rest)
  {
    var s := line + "\n" + rest;
    assert s[|line|] == '\n' && forall i :: 0 <= i < |line| ==> s[i] == line[i];
    assert FirstBreak(s) == |line|;
    assert s[..|line|] == line && s[|line| + 1..] == rest;
  }

  /** Lines without boundaries in them are read back from their join, unless the last one is empty. */
  lemma {:induction false} SplitJoin(lines: seq<string>)
    requires forall i :: 0 <= i < |lines| ==> NoBreaks(lines[i])
    requires lines != [] ==> lines[|lines| - 1] != ""
    ensures SplitLines(Join(lines)) == lines
  {
    if |lines| == 1 {
      assert NoBreaks(lines[0]);
      assert FirstBreak(lines[0]) == |lines[0]|;
    } else if |lines| > 1 {
      SplitJoin(lines[1..]);
      assert NoBreaks(lines[0]);
      SplitFirst(lines[0], Join(lines[1..]));
      assert lines == [lines[0]] + lines[1..];
    }
  }

  lemma {:induction false} SplitHasNoBreaks(s: string)
    ensures forall i :: 0 <= i < |SplitLines(s)| ==> NoBreaks(SplitLines(s)[i])
    decreases |s|
  {
    var n := FirstBreak(s);
    if s != [] && n < |s| { SplitHasNoBreaks(s[AfterBreak(s)..]); }
  }

  // ---- stripping ----

  lemma StripOfTrimmed(s: string)
    requires s != "" && !IsSpace(s[0]) && !IsSpace(s[|s| - 1])
    ensures Strip(s) == s
  {
  }

  lemma {:induction false} RStripWithin(s: string)
    ensures RStrip(s) <= s
    ensures RStrip(s) == "" || !IsSpace(RStrip(s)[|RStrip(s)| - 1])
  {
    if s != [] && IsSpace(s[|s| - 1]) {
      RStripWithin(s[..|s| - 1]);
    }
  }

  lemma {:induction false} LStripWithin(s: string)
    ensures |LStrip(s)| <= |s| && LStrip(s) == s[|s| - |LStrip(s)|..]
    ensures LStrip(s) == "" || !IsSpace(LStrip(s)[0])
  {
    if s != [] && IsSpace(s[0]) {
      LStripWithin(s[1..]);
    }
  }

  lemma {:induction false} RStripDotsWithin(s: string)
    ensures RStripDots(s) <= s
    ensures RStripDots(s) == "" || RStripDots(s)[|RStripDots(s)| - 1] != '.'
  {
    if s != [] && s[|s| - 1] == '.' {
      RStripDotsWithin(s[..|s| - 1]);
    }
  }

  /** What stripping leaves has no space at either end, and no line boundary that was not there before. */
  lemma StripTrims(s: string)
    ensures Strip(s) == "" || (!IsSpace(Strip(s)[0]) && !IsSpace(Strip(s)[|Strip(s)| - 1]))
    ensures |Strip(s)| < |s| || Strip(s) == s
    ensures NoBreaks(s) ==> NoBreaks(Strip(s))
  {
    hide LStrip, RStrip, IsSpace, IsBreak;
    LStripWithin(s);
    RStripWithin(LStrip(s));
  }

  // ---- stripping without recursion ----

  ghost predicate AllSpace(s: string) { forall i :: 0 <= i < |s| ==> IsSpace(s[i]) }

  ghost predicate Trimmed(s: string) { s == "" || (!IsSpace(s[0]) && !IsSpace(s[|s| - 1])) }

  lemma {:induction false} LStripCuts(s: string)
    ensures |LStrip(s)| <= |s| && AllSpace(s[..|s| - |LStrip(s)|])
  {
    if s != [] && IsSpace(s[0]) {
      LStripCuts(s[1..]);
      var n := |s| - |LStrip(s)|;
      assert s[1..][..n - 1] == s[..n][1..];
    }
  }

  lemma {:induction false} RStripCuts(s: string)
    ensures |RStrip(s)| <= |s| && AllSpace(s[|RStrip(s)|..])
  {
    if s != [] && IsSpace(s[|s| - 1]) {
      RStripCuts(s[..|s| - 1]);
      var n := |RStrip(s)|;
      assert s[n..] == s[..|s| - 1][n..] + [s[|s| - 1]];
    }
  }

  lemma {:induction false} LStripOf(a: string, s: string)
    requires AllSpace(a) && (s == "" || !IsSpace(s[0]))
    ensures LStrip(a + s) == s
  {
    if a == "" {
      assert a + s == s;
    } else {
      assert (a + s)[1..] == a[1..] + s && (a + s)[0] == a[0];
      LStripOf(a[1..], s);
    }
  }

  lemma {:induction false} RStripOf(s: string, b: string)
    requires AllSpace(b) && (s == "" || !IsSpace(s[|s| - 1]))
    ensures RStrip(s + b) == s
  {
    if b == "" {
      assert s + b == s;
    } else {
      var n := |b| - 1;
      assert (s + b)[..|s + b| - 1] == s + b[..n] && (s + b)[|s + b| - 1] == b[n];
      RStripOf(s, b[..n]);
    }
  }

  /** Stripping cuts the spaces at both ends, all of them and nothing else. */
  lemma StripExactly(s: string, r: string)
    ensures r == Strip(s) <==> Trimmed(r) && exists a, b :: AllSpace(a) && AllSpace(b) && s == a + r + b
  {
    hide LStrip, RStrip, IsSpace;
    if r == Strip(s) {
      var t := LStrip(s);
      LStripWithin(s);
      LStripCuts(s);
      RStripWithin(t);
      RStripCuts(t);
      var a, b := s[..|s| - |t|], t[|r|..];
      assert s == a + r + b;
    }
    if a, b :| Trimmed(r) && AllSpace(a) && AllSpace(b) && s == a + r + b {
      StripOf(a, r, b);
    }
  }

  lemma StripOf(a: string, r: string, b: string)
    requires Trimmed(r) && AllSpace(a) && AllSpace(b)
    ensures Strip(a + r + b) == r
  {
    hide LStrip, RStrip, IsSpace;
    if r == "" {
      assert a + r + b == (a + b) + "";
      LStripOf(a + b, "");
      assert "" + "" == "";
      RStripOf("", "");
    } else {
      assert a + r + b == a + (r + b);
      LStripOf(a, r + b);
      RStripOf(r, b);
    }
  }

  /** `rstrip(".")` cuts the final dots, all of them and nothing else. */
  lemma {:induction false} RStripDotsExactly(s: string, r: string)
    ensures r == RStripDots(s) <==>
      (r == "" || r[|r| - 1] != '.') && r <= s && forall i :: |r| <= i < |s| ==> s[i] == '.'
  {
    if s != [] {
      var front := s[..|s| - 1];
      if s[|s| - 1] == '.' {
        RStripDotsExactly(front, r);
        assert r <= s && r != s ==> r <= front;
      } else if r <= s && r != s {
        assert |r| <= |s| - 1;
      }
    }
  }
}
