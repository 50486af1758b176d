/** `MultiStepReasoner` (research_agent/reasoning.py): splitting a query into
    subtasks, and the numbered explanation of those subtasks. */
module Reasoning {
  import opened Text

  /** The characters of the pattern `[.;]`. */
  const Separators: set<char> := {'.', ';'}

  /** `[t.strip() for t in fragments if t.strip()]`. */
  function Kept(fragments: seq<string>): seq<string> {
    if fragments == [] then []
    else
      var t := Strip(fragments[0]);
      (if t == [] then [] else [t]) + Kept(fragments[1..])
  }

  /** `break_down_query` (reasoning.py:3-8): split on every `.` and `;`,
      strip each fragment, drop the blank ones. There is no fallback: a
      query with nothing but separators and whitespace gives no task. */
  function BreakDownQuery(query: string): seq<string> {
    Kept(SplitOn(query, Separators))
  }

  /** A well-formed subtask: non-empty, stripped, free of separators. */
  predicate IsTask(t: string) {
    t != [] && IsStripped(t) && '.' !in t && ';' !in t
  }

  // ---------------------------------------------------------------------
  // Lemmas about the split

  lemma {:induction false} KeptClean(fragments: seq<string>)
    requires forall i, j :: 0 <= i < |fragments| && 0 <= j < |fragments[i]| ==> fragments[i][j] !in Separators
    ensures forall i :: 0 <= i < |Kept(fragments)| ==> IsTask(Kept(fragments)[i])
  {
    if fragments != [] {
      KeptClean(fragments[1..]);
      var f := fragments[0];
      StripContract(f);
      assert '.' !in f && ';' !in f by {
        forall j | 0 <= j < |f| ensures f[j] != '.' && f[j] != ';' {
          assert f[j] !in Separators;
        }
      }
    }
  }

  /** Every task is non-empty, has no whitespace at either end and holds no
      `.` or `;`. */
  lemma BreakDownTasksClean(query: string)
    ensures forall i :: 0 <= i < |BreakDownQuery(query)| ==> IsTask(BreakDownQuery(query)[i])
  {
    SplitOnPiecesClean(query, Separators);
    KeptClean(SplitOn(query, Separators));
  }

  /** Filtering is done fragment by fragment: the tasks of an earlier part of
      the split all come before those of a later part. */
  lemma {:induction false} KeptAppend(a: seq<string>, b: seq<string>)
    ensures Kept(a + b) == Kept(a) + Kept(b)
  {
    if a == [] {
      assert a + b == b;
    } else {
      assert (a + b)[0] == a[0];
      assert (a + b)[1..] == a[1..] + b;
      KeptAppend(a[1..], b);
    }
  }

  lemma {:induction false} KeptAtMost(fragments: seq<string>)
    ensures |Kept(fragments)| <= |fragments|
  {
    if fragments != [] {
      KeptAtMost(fragments[1..]);
    }
  }

  /** The tasks of `query` are those of its prefix up to and including a
      separator, followed by those of the rest: the order of the query is kept. */
  lemma BreakDownInOrder(prefix: string, query: string)
    requires prefix != [] && prefix[|prefix| - 1] in Separators
    ensures BreakDownQuery(prefix + query) ==
      Kept(SplitOn(prefix, Separators)[..|SplitOn(prefix, Separators)| - 1]) + BreakDownQuery(query)
  {
    SplitOnAfterSeparator(prefix, query);
    var parts := SplitOn(prefix, Separators);
    KeptAppend(parts[..|parts| - 1], SplitOn(query, Separators));
  }

  /** Splitting a string that ends with a separator and then more text: the
      pieces of the first part (its empty last piece dropped) followed by the
      pieces of the rest. */
  lemma {:induction false} SplitOnAfterSeparator(prefix: string, query: string)
    requires prefix != [] && prefix[|prefix| - 1] in Separators
    ensures SplitOn(prefix + query, Separators) ==
      SplitOn(prefix, Separators)[..|SplitOn(prefix, Separators)| - 1] + SplitOn(query, Separators)
  {
    var c, p := prefix[0], prefix[1..];
    assert prefix == [c] + p;
    assert prefix + query == [c] + (p + query);
    SplitOnCons(c, p + query, Separators);
    SplitOnCons(c, p, Separators);
    if p == [] {
      assert p + query == query;
    } else {
      assert p[|p| - 1] == prefix[|prefix| - 1];
      SplitOnAfterSeparator(p, query);
      CountInLast(p, Separators);
      var rest := SplitOn(p, Separators);
      if c in Separators {
        SepHeadAppend(rest, SplitOn(query, Separators));
      } else {
        CharHeadAppend(c, rest, SplitOn(query, Separators));
      }
    }
  }

  /** One step of a split, on a string given as its first character and the rest. */
  lemma SplitOnCons(c: char, t: string, seps: set<char>)
    ensures SplitOn([c] + t, seps) ==
      if c in seps then [[]] + SplitOn(t, seps)
      else [[c] + SplitOn(t, seps)[0]] + SplitOn(t, seps)[1..]
  {
    assert ([c] + t)[1..] == t;
  }

  lemma SepHeadAppend(rest: seq<string>, q: seq<string>)
    requires rest != []
    ensures [[]] + (rest[..|rest| - 1] + q) == ([[]] + rest)[..|rest|] + q
  {
    assert ([[]] + rest)[..|rest|] == [[]] + rest[..|rest| - 1];
  }

  lemma CharHeadAppend(c: char, rest: seq<string>, q: seq<string>)
    requires |rest| >= 2
    ensures var t := rest[..|rest| - 1] + q; var r := [[c] + rest[0]] + rest[1..];
      [[c] + t[0]] + t[1..] == r[..|r| - 1] + q
  {
    var t := rest[..|rest| - 1] + q;
    var r := [[c] + rest[0]] + rest[1..];
    assert t[0] == rest[0];
    assert t[1..] == rest[1..|rest| - 1] + q;
    assert r[..|r| - 1] == [[c] + rest[0]] + rest[1..|rest| - 1];
  }

  /** At most one task per separator, plus one. */
  lemma BreakDownCount(query: string)
    ensures |BreakDownQuery(query)| <= CountIn(query, Separators) + 1
  {
    KeptAtMost(SplitOn(query, Separators));
  }

  /** A query with no separator and some non-blank character gives exactly
      its stripped self. */
  lemma BreakDownSingle(query: string)
    requires CountIn(query, Separators) == 0 && !AllSpace(query)
    ensures BreakDownQuery(query) == [Strip(query)]
  {
    SplitOnNone(query, Separators);
    StripContract(query);
    assert Kept([query]) == [Strip(query)] + Kept([]);
  }

  lemma {:induction false} KeptBlank(fragments: seq<string>)
    requires forall i :: 0 <= i < |fragments| ==> AllSpace(fragments[i])
    ensures Kept(fragments) == []
  {
    if fragments != [] {
      StripContract(fragments[0]);
      KeptBlank(fragments[1..]);
    }
  }

  /** A query of separators and whitespace only gives no task at all. */
  lemma BreakDownBlank(query: string)
    requires forall i :: 0 <= i < |query| ==> query[i] in Separators || IsSpace(query[i])
    ensures BreakDownQuery(query) == []
  {
    SplitOnBlank(query, Separators);
    KeptBlank(SplitOn(query, Separators));
  }

  /** A well-formed task breaks down into itself alone. */
  lemma TaskBreaksToItself(t: string)
    requires IsTask(t)
    ensures BreakDownQuery(t) == [t]
  {
    forall i | 0 <= i < |t| ensures t[i] !in Separators {
      assert t[i] in t;
    }
    CountInZero(t, Separators);
    assert !AllSpace(t) by {
      assert !IsSpace(t[0]);
    }
    BreakDownSingle(t);
    StripStripped(t);
  }

  /** Breaking down a task again gives back that task alone. */
  lemma BreakDownIdempotent(query: string)
    ensures forall i :: 0 <= i < |BreakDownQuery(query)| ==>
      BreakDownQuery(BreakDownQuery(query)[i]) == [BreakDownQuery(query)[i]]
  {
    BreakDownTasksClean(query);
    forall i | 0 <= i < |BreakDownQuery(query)|
      ensures BreakDownQuery(BreakDownQuery(query)[i]) == [BreakDownQuery(query)[i]]
    {
      TaskBreaksToItself(BreakDownQuery(query)[i]);
    }
  }

  // ---------------------------------------------------------------------
  // explain_reasoning

  /** The first line of every explanation, without its newline: one sentence,
      "The query is broken down into subtasks to process each aspect
      separately:". It is written as four pieces only so that the verifier
      checks each piece on its own (`ChunkClean1`, `ChunkClean2`). */
  const HeaderLine := "The query is broken" + " down into subtasks" + " to process each" + " aspect separately:"

  /** Line `n` of an explanation, without its newline. */
  function TaskLine(n: nat, t: string): string {
    Decimal(n) + ". " + t
  }

  /** The explanation of `tasks`, as the loop of reasoning.py:11-14 builds it. */
  function Explanation(tasks: seq<string>): string {
    if tasks == [] then HeaderLine + "\n"
    else Explanation(tasks[..|tasks| - 1]) + TaskLine(|tasks|, tasks[|tasks| - 1]) + "\n"
  }

  /** The numbered lines, `1. t1` to `n. tn`. */
  function NumberedLines(tasks: seq<string>): seq<string> {
    seq(|tasks|, i requires 0 <= i < |tasks| => TaskLine(i + 1, tasks[i]))
  }

  method ExplainReasoning(tasks: seq<string>) returns (explanation: string)
    ensures explanation == Explanation(tasks)
  {
    explanation := HeaderLine + "\n";
    for i := 0 to |tasks|
      invariant explanation == Explanation(tasks[..i])
    {
      assert tasks[..i + 1][..i] == tasks[..i];
      explanation := explanation + Decimal(i + 1) + ". " + tasks[i] + "\n";
    }
    assert tasks[..|tasks|] == tasks;
  }

  /** An explanation is the header followed by one numbered line per task, in
      order and numbered from 1, each ended by a newline. */
  lemma {:induction false} ExplanationLines(tasks: seq<string>)
    ensures Explanation(tasks) == Terminated([HeaderLine] + NumberedLines(tasks))
  {
    if tasks == [] {
      assert [HeaderLine] + NumberedLines(tasks) == [HeaderLine];
    } else {
      var init := tasks[..|tasks| - 1];
      ExplanationLines(init);
      var line := TaskLine(|tasks|, tasks[|tasks| - 1]);
      assert NumberedLines(tasks) == NumberedLines(init) + [line];
      assert [HeaderLine] + NumberedLines(tasks) == ([HeaderLine] + NumberedLines(init)) + [line];
      TerminatedSnoc([HeaderLine] + NumberedLines(init), line);
    }
  }

  /** When no task holds a line boundary, splitting the explanation into lines
      gives back the header and then `i. task` for every task. */
  lemma ExplanationSplitsBack(tasks: seq<string>)
    requires forall i :: 0 <= i < |tasks| ==> NoLineBoundary(tasks[i])
    ensures SplitLines(Explanation(tasks)) == [HeaderLine] + NumberedLines(tasks)
  {
    ExplanationLines(tasks);
    var numbered := NumberedLines(tasks);
    assert ([HeaderLine] + numbered)[1..] == numbered;
    assert Terminated([HeaderLine] + numbered) == HeaderLine + "\n" + Terminated(numbered);
    HeaderLineClean();
    NumberedLinesClean(tasks);
    SplitLinesOfLine(HeaderLine, Terminated(numbered));
    SplitLinesTerminated(numbered);
  }

  lemma NumberedLinesClean(tasks: seq<string>)
    requires forall i :: 0 <= i < |tasks| ==> NoLineBoundary(tasks[i])
    ensures forall i :: 0 <= i < |tasks| ==> NoLineBoundary(NumberedLines(tasks)[i])
  {
    forall i | 0 <= i < |tasks| ensures NoLineBoundary(NumberedLines(tasks)[i]) {
      TaskLineClean(i + 1, tasks[i]);
    }
  }

  lemma HeaderLineClean()
    ensures NoLineBoundary(HeaderLine)
  {
    var a, b, c, d := "The query is broken", " down into subtasks", " to process each", " aspect separately:";
    ChunkClean1();
    ChunkClean2();
    NoLineBoundaryConcat(a, b);
    NoLineBoundaryConcat(a + b, c);
    NoLineBoundaryConcat(a + b + c, d);
  }

  lemma ChunkClean1()
    ensures NoLineBoundary("The query is broken") && NoLineBoundary(" down into subtasks")
  {
  }

  lemma ChunkClean2()
    ensures NoLineBoundary(" to process each") && NoLineBoundary(" aspect separately:")
  {
  }

  lemma TaskLineClean(n: nat, t: string)
    requires NoLineBoundary(t)
    ensures NoLineBoundary(TaskLine(n, t))
  {
    DecimalNoLineBoundary(n);
    assert NoLineBoundary(". ");
    NoLineBoundaryConcat(Decimal(n), ". ");
    NoLineBoundaryConcat(Decimal(n) + ". ", t);
  }
}
