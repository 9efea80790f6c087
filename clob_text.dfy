/**
 * Materialisation of a CLOB read through `BufferedReader.readLine`: the lines are joined with
 * a single "\n" between consecutive lines and nothing after the last one.
 * The character stream is given as the lines `readLine` would return, each already stripped
 * of its terminator.
 */
module ClobText {
  import opened Wrappers

  /** The lines separated by "\n", with no terminator after the last line; no lines give "". */
  function JoinLines(lines: seq<string>): string
    decreases |lines|
  {
    if |lines| == 0 then ""
    else if |lines| == 1 then lines[0]
    else JoinLines(lines[..|lines| - 1]) + "\n" + lines[|lines| - 1]
  }

  /** The reference inverse: cut a string at every "\n". */
  function SplitLines(s: string): (r: seq<string>)
    ensures |r| >= 1
    decreases |s|
  {
    if |s| == 0 then [""]
    else
      var rest := SplitLines(s[1..]);
      if s[0] == '\n' then [""] + rest else [[s[0]] + rest[0]] + rest[1..]
  }

  function CountNewlines(s: string): nat
    decreases |s|
  {
    if |s| == 0 then 0 else CountNewlines(s[1..]) + (if s[0] == '\n' then 1 else 0)
  }

  /** What `readLine` returns when the reader has already handed out `pos` lines. */
  function ReadLine(lines: seq<string>, pos: nat): (r: Option<string>)
    ensures r.Some? <==> pos < |lines|
    ensures r.Some? ==> r.value == lines[pos]
  {
    if pos < |lines| then Some(lines[pos]) else None
  }

  /** The CLOB loop: `line` is read ahead; each iteration reads `next`, appends `line` followed by
      "\n" unless `next` is null, and moves on. */
  method MaterializeClob(lines: seq<string>) returns (s: string)
    ensures s == JoinLines(lines)
  {
    var sb := "";
    var pos := 0;
    var line := ReadLine(lines, pos);
    pos := pos + 1;
    var last := line.None?;
    while !last
      invariant 1 <= pos <= |lines| + 1
      invariant last <==> pos > |lines|
      invariant !last ==> line == Some(lines[pos - 1])
      invariant !last ==> sb == if pos == 1 then "" else JoinLines(lines[..pos - 1]) + "\n"
      invariant last ==> sb == JoinLines(lines)
      decreases |lines| + 1 - pos
    {
      var next := ReadLine(lines, pos);
      pos := pos + 1;
      last := next.None?;
      assert lines[..pos - 1][..pos - 2] == lines[..pos - 2];
      if last {
        assert lines[..pos - 1] == lines;
        sb := sb + line.value;
      } else {
        sb := sb + line.value + "\n";
      }
      line := next;
    }
    s := sb;
  }

  predicate NoNewline(l: string) {
    forall i :: 0 <= i < |l| ==> l[i] != '\n'
  }

  lemma {:induction false} SplitLinesOfLine(l: string)
    requires NoNewline(l)
    ensures SplitLines(l) == [l]
    decreases |l|
  {
    if |l| > 0 {
      SplitLinesOfLine(l[1..]);
      assert [l[0]] + l[1..] == l;
    }
  }

  lemma {:induction false} SplitLinesAtNewline(a: string, b: string)
    ensures SplitLines(a + "\n" + b) == SplitLines(a) + SplitLines(b)
    decreases |a|
  {
    if |a| == 0 {
      assert a + "\n" + b == "\n" + b;
      assert ("\n" + b)[1..] == b;
    } else {
      assert (a + "\n" + b)[0] == a[0];
      assert (a + "\n" + b)[1..] == a[1..] + "\n" + b;
      SplitLinesAtNewline(a[1..], b);
    }
  }

  /** Joining is inverted by splitting: for at least one line, none holding "\n", the lines
      are recovered exactly. */
  lemma {:induction false} SplitJoinLines(lines: seq<string>)
    requires |lines| >= 1
    requires forall k :: 0 <= k < |lines| ==> NoNewline(lines[k])
    ensures SplitLines(JoinLines(lines)) == lines
    decreases |lines|
  {
    var n := |lines|;
    if n == 1 {
      SplitLinesOfLine(lines[0]);
    } else {
      var init := lines[..n - 1];
      SplitJoinLines(init);
      SplitLinesAtNewline(JoinLines(init), lines[n - 1]);
      SplitLinesOfLine(lines[n - 1]);
      assert init + [lines[n - 1]] == lines;
    }
  }

  lemma {:induction false} CountNewlinesAppend(a: string, b: string)
    ensures CountNewlines(a + b) == CountNewlines(a) + CountNewlines(b)
    decreases |a|
  {
    if |a| > 0 {
      assert (a + b)[1..] == a[1..] + b;
      CountNewlinesAppend(a[1..], b);
    } else {
      assert a + b == b;
    }
  }

  lemma {:induction false} CountNewlinesOfLine(l: string)
    requires NoNewline(l)
    ensures CountNewlines(l) == 0
    decreases |l|
  {
    if |l| > 0 {
      CountNewlinesOfLine(l[1..]);
    }
  }

  /** k >= 1 lines without "\n" give exactly k - 1 separators. */
  lemma {:induction false} JoinLinesSeparators(lines: seq<string>)
    requires |lines| >= 1
    requires forall k :: 0 <= k < |lines| ==> NoNewline(lines[k])
    ensures CountNewlines(JoinLines(lines)) == |lines| - 1
    decreases |lines|
  {
    var n := |lines|;
    if n == 1 {
      CountNewlinesOfLine(lines[0]);
    } else {
      var init := lines[..n - 1];
      JoinLinesSeparators(init);
      CountNewlinesAppend(JoinLines(init), "\n");
      CountNewlinesAppend(JoinLines(init) + "\n", lines[n - 1]);
      CountNewlinesOfLine(lines[n - 1]);
    }
  }

  /** No terminator is added after the final line: the result ends with the last line itself, so
      it ends with "\n" only if that line is empty. */
  lemma NoTrailingNewline(lines: seq<string>)
    requires |lines| >= 1
    ensures var s := JoinLines(lines); var l := lines[|lines| - 1];
      |l| <= |s| && s[|s| - |l|..] == l
    ensures var s := JoinLines(lines); var l := lines[|lines| - 1];
      |l| > 0 && NoNewline(l) ==> s[|s| - 1] != '\n'
  {
  }

  /** Zero lines and one empty line both materialise as "", the only collision of joining. */
  lemma EmptyClob()
    ensures JoinLines([]) == "" && JoinLines([""]) == ""
    ensures SplitLines("") == [""]
  {
  }

  /** A three-line stream gives exactly two separators and ends with its last line. */
  lemma ThreeLineClob(a: string, b: string, c: string)
    requires NoNewline(a) && NoNewline(b) && NoNewline(c)
    ensures JoinLines([a, b, c]) == a + "\n" + b + "\n" + c
    ensures CountNewlines(JoinLines([a, b, c])) == 2
  {
    assert [a, b, c][..2] == [a, b];
    assert [a, b][..1] == [a];
    assert JoinLines([a, b]) == a + "\n" + b;
    assert JoinLines([a, b, c]) == JoinLines([a, b]) + "\n" + c;
    JoinLinesSeparators([a, b, c]);
  }
}
