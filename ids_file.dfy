/** The id file of the vector store (`ids.txt`): the ids of the stored rows,
    written as one newline-joined string and read back with `splitlines()`,
    blank lines dropped (research_agent/storage.py:46-53). */
module IdsFile {
  import opened Text

  /** An id the file gives back as it was written: non-empty, with no line
      boundary inside it. */
  predicate ValidId(id: string) {
    id != [] && NoLineBoundary(id)
  }

  /** `[i for i in lines if i]`. */
  function NonEmpty(lines: seq<string>): seq<string> {
    if lines == [] then []
    else (if lines[0] == [] then [] else [lines[0]]) + NonEmpty(lines[1..])
  }

  /** `_save_ids`: the text written to the id file. */
  function SaveIds(ids: seq<string>): string {
    Join(ids, "\n")
  }

  /** `_load_ids`: the ids read back from the file's text. */
  function LoadIds(text: string): seq<string> {
    NonEmpty(SplitLines(text))
  }

  lemma {:induction false} NonEmptyAppend(a: seq<string>, b: seq<string>)
    ensures NonEmpty(a + b) == NonEmpty(a) + NonEmpty(b)
  {
    if a == [] {
      assert a + b == b;
    } else {
      var head := if a[0] == [] then [] else [a[0]];
      assert (a + b)[0] == a[0];
      assert (a + b)[1..] == a[1..] + b;
      NonEmptyAppend(a[1..], b);
      calc {
        NonEmpty(a + b);
        head + NonEmpty(a[1..] + b);
        head + (NonEmpty(a[1..]) + NonEmpty(b));
        (head + NonEmpty(a[1..])) + NonEmpty(b);
      }
    }
  }

  /** Filtering a list without blanks keeps it as it is. */
  lemma {:induction false} NonEmptyKeepsNonBlank(ids: seq<string>)
    requires forall i :: 0 <= i < |ids| ==> ids[i] != []
    ensures NonEmpty(ids) == ids
  {
    if ids != [] {
      NonEmptyKeepsNonBlank(ids[1..]);
      assert ids == [ids[0]] + ids[1..];
    }
  }

  /** Each line `splitlines()` returns is free of line boundaries. */
  lemma {:induction false} SplitLinesLinesClean(s: string)
    ensures forall i :: 0 <= i < |SplitLines(s)| ==> NoLineBoundary(SplitLines(s)[i])
    decreases |s|
  {
    if s != [] {
      var n := FirstBoundary(s);
      if n < |s| {
        if s[n] == '\r' && n + 1 < |s| && s[n + 1] == '\n' {
          SplitLinesLinesClean(s[n + 2..]);
        } else {
          SplitLinesLinesClean(s[n + 1..]);
        }
      }
    }
  }

  lemma {:induction false} NonEmptyValid(lines: seq<string>)
    requires forall i :: 0 <= i < |lines| ==> NoLineBoundary(lines[i])
    ensures forall i :: 0 <= i < |NonEmpty(lines)| ==> ValidId(NonEmpty(lines)[i])
  {
    if lines != [] {
      NonEmptyValid(lines[1..]);
    }
  }

  /** Whatever the file holds, every id loaded from it is valid. */
  lemma LoadIdsValid(text: string)
    ensures forall i :: 0 <= i < |LoadIds(text)| ==> ValidId(LoadIds(text)[i])
  {
    SplitLinesLinesClean(text);
    NonEmptyValid(SplitLines(text));
  }

  /** Saving and loading drops the empty ids and keeps the others, in order,
      provided no id holds a line boundary. */
  lemma {:induction false} IdsRoundTripDropsBlank(ids: seq<string>)
    requires forall i :: 0 <= i < |ids| ==> NoLineBoundary(ids[i])
    ensures LoadIds(SaveIds(ids)) == NonEmpty(ids)
  {
    if |ids| == 1 {
      assert SaveIds(ids) == ids[0];
      SplitLinesNoBoundary(ids[0]);
      assert ids[1..] == [];
      assert NonEmpty(ids) == (if ids[0] == [] then [] else [ids[0]]) + NonEmpty([]);
      assert NonEmpty([ids[0]]) == NonEmpty(ids);
    } else if |ids| > 1 {
      IdsRoundTripDropsBlank(ids[1..]);
      SplitLinesOfLine(ids[0], Join(ids[1..], "\n"));
      assert SplitLines(SaveIds(ids)) == [ids[0]] + SplitLines(SaveIds(ids[1..]));
      NonEmptyAppend([ids[0]], SplitLines(SaveIds(ids[1..])));
      NonEmptyAppend([ids[0]], ids[1..]);
      assert ids == [ids[0]] + ids[1..];
    }
  }

  /** The id file round-trips every list of valid ids exactly. */
  lemma IdsRoundTrip(ids: seq<string>)
    requires forall i :: 0 <= i < |ids| ==> ValidId(ids[i])
    ensures LoadIds(SaveIds(ids)) == ids
  {
    IdsRoundTripDropsBlank(ids);
    NonEmptyKeepsNonBlank(ids);
  }

  /** What goes wrong with invalid ids: an empty id vanishes, and an id with a
      newline inside comes back as two ids. */
  lemma IdsRoundTripCounterexamples()
    ensures LoadIds(SaveIds(["", "x"])) == ["x"]
    ensures LoadIds(SaveIds(["x", ""])) == ["x"]
    ensures LoadIds(SaveIds(["a\nb"])) == ["a", "b"]
  {
    BlankFirstVanishes();
    BlankLastVanishes();
    NewlineSplitsId();
  }

  lemma BlankFirstVanishes()
    ensures LoadIds(SaveIds(["", "x"])) == ["x"]
  {
    assert SaveIds(["", "x"]) == "\nx";
    assert SplitLines("\nx") == [""] + SplitLines("x");
  }

  lemma BlankLastVanishes()
    ensures LoadIds(SaveIds(["x", ""])) == ["x"]
  {
    assert SaveIds(["x", ""]) == "x\n";
    SplitLinesOfLine("x", "");
    assert "x\n" == "x" + "\n" + "";
  }

  lemma NewlineSplitsId()
    ensures LoadIds(SaveIds(["a\nb"])) == ["a", "b"]
  {
    SplitLinesOfLine("a", "b");
    assert "a\nb" == "a" + "\n" + "b";
    SplitLinesNoBoundary("b");
  }
}
