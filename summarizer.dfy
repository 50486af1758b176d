/** `ExtractiveSummarizer` (research_agent/summarizer.py): one line per
    retrieved document, `- ` followed by Python's rendering of the list that
    `content.split(".")` returns, then `.`; a fixed sentence when there is
    nothing to summarize. */
module Summarizer {
  import opened Text
  import opened Storage

  const NoContent := "No content to summarize."

  // ---------------------------------------------------------------------
  // `repr` of a `str`, as `str(list)` renders each element

  function HexDigit(d: nat): (c: char)
    requires d < 16
    ensures ('0' <= c <= '9' || 'a' <= c <= 'f')
  {
    if d < 10 then (d + '0' as int) as char else (d - 10 + 'a' as int) as char
  }

  function HexDigitValue(c: char): nat {
    if '0' <= c <= '9' then c as int - '0' as int
    else if 'a' <= c <= 'f' then c as int - 'a' as int + 10
    else 0
  }

  /** `n` in `width` lower-case hexadecimal digits, most significant first. */
  function Hex(n: nat, width: nat): (r: string)
    ensures |r| == width
    ensures forall i :: 0 <= i < |r| ==> ('0' <= r[i] <= '9' || 'a' <= r[i] <= 'f')
  {
    if width == 0 then [] else Hex(n / 16, width - 1) + [HexDigit(n % 16)]
  }

  /** The number a string of hexadecimal digits denotes. */
  function HexValue(h: string): nat {
    if h == [] then 0 else HexValue(h[..|h| - 1]) * 16 + HexDigitValue(h[|h| - 1])
  }

  function Pow16(w: nat): nat {
    if w == 0 then 1 else 16 * Pow16(w - 1)
  }

  /** Characters `repr` writes as they are: printable ASCII, and the
      non-ASCII characters other than whitespace, the common format controls
      and the private-use areas. */
  predicate Printable(c: char) {
    var n := c as int;
    if n < 0x7f then n >= 0x20
    else if n < 0xa0 then false
    else !IsSpace(c) && !IsHiddenFormat(n)
  }

  /** Format controls (category Cf) and private-use code points (Co). */
  predicate IsHiddenFormat(n: int) {
    n == 0xAD || (0x200B <= n <= 0x200F) || (0x202A <= n <= 0x202E)
    || (0x2060 <= n <= 0x2064) || n == 0xFEFF || (0xE000 <= n <= 0xF8FF)
    || n == 0xE0001 || (0xE0020 <= n <= 0xE007F) || n >= 0xF0000
  }

  /** How `repr` writes one character inside quotes `q`. */
  function EscapeChar(c: char, q: char): string {
    if c == q || c == '\\' then ['\\', c]
    else if c == '\t' then "\\t"
    else if c == '\n' then "\\n"
    else if c == '\r' then "\\r"
    else if Printable(c) then [c]
    else if c as int < 0x100 then "\\x" + Hex(c as int, 2)
    else if c as int < 0x10000 then "\\u" + Hex(c as int, 4)
    else "\\U" + Hex(c as int, 8)
  }

  function Escaped(s: string, q: char): string {
    if s == [] then [] else EscapeChar(s[0], q) + Escaped(s[1..], q)
  }

  /** Double quotes when the string holds a single quote and no double quote,
      single quotes otherwise. */
  function Quote(s: string): char {
    if '\'' in s && '"' !in s then '"' else '\''
  }

  function Repr(s: string): string {
    [Quote(s)] + Escaped(s, Quote(s)) + [Quote(s)]
  }

  /** `str(parts)` for a list of strings. */
  function ListRepr(parts: seq<string>): string {
    "[" + Join(seq(|parts|, i requires 0 <= i < |parts| => Repr(parts[i])), ", ") + "]"
  }

  /** Reading a string literal's body back: the inverse of `Escaped`. */
  function Unescape(t: string): string
    decreases |t|
  {
    if t == [] then []
    else if t[0] == '\\' && |t| >= 2 then
      var e := t[1];
      if e == 't' then "\t" + Unescape(t[2..])
      else if e == 'n' then "\n" + Unescape(t[2..])
      else if e == 'r' then "\r" + Unescape(t[2..])
      else if e == 'x' && |t| >= 4 then [CodeChar(HexValue(t[2..4]))] + Unescape(t[4..])
      else if e == 'u' && |t| >= 6 then [CodeChar(HexValue(t[2..6]))] + Unescape(t[6..])
      else if e == 'U' && |t| >= 10 then [CodeChar(HexValue(t[2..10]))] + Unescape(t[10..])
      else [e] + Unescape(t[2..])
    else [t[0]] + Unescape(t[1..])
  }

  /** The character of code point `n`, or `?` when `n` is none. */
  function CodeChar(n: nat): char {
    if n < 0xD800 || 0xE000 <= n < 0x110000 then n as char else '?'
  }

  // ---------------------------------------------------------------------
  // summarize

  /** The line written for one document, without its newline. */
  function SummaryLine(d: Hit): string {
    "- " + ListRepr(SplitOn(d.content, {'.'})) + "."
  }

  /** The lines of all documents, with their newlines, as the loop of
      summarizer.py:6-8 builds them. */
  function Lines(docs: seq<Hit>): string {
    if docs == [] then ""
    else Lines(docs[..|docs| - 1]) + SummaryLine(docs[|docs| - 1]) + "\n"
  }

  function Summary(docs: seq<Hit>): string {
    var s := Lines(docs);
    if s == "" then NoContent else s
  }

  function SummaryLines(docs: seq<Hit>): seq<string> {
    seq(|docs|, i requires 0 <= i < |docs| => SummaryLine(docs[i]))
  }

  method Summarize(docs: seq<Hit>) returns (r: string)
    ensures r == Summary(docs)
  {
    var summary := "";
    for i := 0 to |docs|
      invariant summary == Lines(docs[..i])
    {
      assert docs[..i + 1][..i] == docs[..i];
      var content := SplitOn(docs[i].content, {'.'});
      summary := summary + "- " + ListRepr(content) + ".\n";
    }
    assert docs[..|docs|] == docs;
    r := if summary != "" then summary else NoContent;
  }

  // ---------------------------------------------------------------------
  // Lemmas about repr

  lemma {:induction false} HexRoundTrip(n: nat, w: nat)
    requires n < Pow16(w)
    ensures HexValue(Hex(n, w)) == n
  {
    if w > 0 {
      var h := Hex(n, w);
      assert h[..|h| - 1] == Hex(n / 16, w - 1);
      assert n / 16 < Pow16(w - 1);
      HexRoundTrip(n / 16, w - 1);
      assert HexDigitValue(HexDigit(n % 16)) == n % 16;
    }
  }

  lemma CodeCharOf(c: char)
    ensures CodeChar(c as int) == c
  {
  }

  lemma UnescapeHex(c: char, e: char, w: nat, rest: string)
    requires (e == 'x' && w == 2) || (e == 'u' && w == 4) || (e == 'U' && w == 8)
    requires c as int < Pow16(w)
    ensures Unescape(['\\', e] + Hex(c as int, w) + rest) == [c] + Unescape(rest)
  {
    var t := ['\\', e] + Hex(c as int, w) + rest;
    assert t[0] == '\\' && t[1] == e;
    assert t[2..2 + w] == Hex(c as int, w) && t[2 + w..] == rest;
    HexRoundTrip(c as int, w);
    CodeCharOf(c);
  }

  lemma UnescapePair(e: char, rest: string)
    requires e !in {'t', 'n', 'r', 'x', 'u', 'U'}
    ensures Unescape(['\\', e] + rest) == [e] + Unescape(rest)
  {
    var t := ['\\', e] + rest;
    assert t[0] == '\\' && t[1] == e && t[2..] == rest;
  }

  /** Reading back one escaped character, whatever follows it. */
  lemma EscapeCharRoundTrip(c: char, q: char, rest: string)
    requires q == '\'' || q == '"'
    ensures Unescape(EscapeChar(c, q) + rest) == [c] + Unescape(rest)
  {
    var n := c as int;
    if c == q || c == '\\' {
      UnescapePair(c, rest);
    } else if c == '\t' || c == '\n' || c == '\r' {
      var t := EscapeChar(c, q) + rest;
      assert t[0] == '\\' && t[2..] == rest;
    } else if Printable(c) {
      var t := EscapeChar(c, q) + rest;
      assert t[0] == c && t[1..] == rest;
    } else if n < 0x100 {
      assert Pow16(2) == 0x100;
      UnescapeHex(c, 'x', 2, rest);
    } else if n < 0x10000 {
      assert Pow16(4) == 0x10000;
      UnescapeHex(c, 'u', 4, rest);
    } else {
      assert Pow16(8) == 0x1_0000_0000;
      UnescapeHex(c, 'U', 8, rest);
    }
  }

  lemma {:induction false} EscapedRoundTrip(s: string, q: char)
    requires q == '\'' || q == '"'
    ensures Unescape(Escaped(s, q)) == s
  {
    if s != [] {
      EscapedRoundTrip(s[1..], q);
      EscapeCharRoundTrip(s[0], q, Escaped(s[1..], q));
      assert s == [s[0]] + s[1..];
    }
  }

  /** `repr` is quoted, and the text between the quotes reads back as the
      string itself. */
  lemma ReprRoundTrip(s: string)
    ensures |Repr(s)| >= 2 && Repr(s)[0] == Repr(s)[|Repr(s)| - 1] == Quote(s)
    ensures Unescape(Repr(s)[1..|Repr(s)| - 1]) == s
  {
    var r := Repr(s);
    assert r[1..|r| - 1] == Escaped(s, Quote(s));
    EscapedRoundTrip(s, Quote(s));
  }

  /** A string with only printable characters, no quote and no backslash is
      rendered as itself between single quotes. */
  lemma {:induction false} ReprPlain(s: string)
    requires forall i :: 0 <= i < |s| ==> Printable(s[i]) && s[i] != '\'' && s[i] != '"' && s[i] != '\\'
    ensures Escaped(s, '\'') == s
    ensures Repr(s) == "'" + s + "'"
  {
    if s != [] {
      ReprPlain(s[1..]);
      assert s == [s[0]] + s[1..];
    }
    assert '\'' !in s by {
      forall i | 0 <= i < |s| ensures s[i] != '\'' { }
    }
  }

  lemma EscapeCharNoLineBoundary(c: char, q: char)
    requires !IsLineBoundary(q)
    ensures NoLineBoundary(EscapeChar(c, q))
  {
    var n := c as int;
    if c == q || c == '\\' {
      assert EscapeChar(c, q) == ['\\', c];
    } else if !Printable(c) && c != '\t' && c != '\n' && c != '\r' {
      if n < 0x100 {
        NoLineBoundaryConcat("\\x", Hex(n, 2));
      } else if n < 0x10000 {
        NoLineBoundaryConcat("\\u", Hex(n, 4));
      } else {
        NoLineBoundaryConcat("\\U", Hex(n, 8));
      }
    }
  }

  lemma {:induction false} EscapedNoLineBoundary(s: string, q: char)
    requires !IsLineBoundary(q)
    ensures NoLineBoundary(Escaped(s, q))
  {
    if s != [] {
      EscapeCharNoLineBoundary(s[0], q);
      EscapedNoLineBoundary(s[1..], q);
      NoLineBoundaryConcat(EscapeChar(s[0], q), Escaped(s[1..], q));
    }
  }

  /** `repr` never yields a line boundary: every one is escaped. */
  lemma ReprNoLineBoundary(s: string)
    ensures NoLineBoundary(Repr(s))
  {
    EscapedNoLineBoundary(s, Quote(s));
    NoLineBoundaryConcat([Quote(s)], Escaped(s, Quote(s)));
    NoLineBoundaryConcat([Quote(s)] + Escaped(s, Quote(s)), [Quote(s)]);
  }

  lemma SummaryLineNoLineBoundary(d: Hit)
    ensures NoLineBoundary(SummaryLine(d))
  {
    var parts := SplitOn(d.content, {'.'});
    var reprs := seq(|parts|, i requires 0 <= i < |parts| => Repr(parts[i]));
    forall i | 0 <= i < |reprs| ensures NoLineBoundary(reprs[i]) {
      ReprNoLineBoundary(parts[i]);
    }
    JoinNoLineBoundary(reprs, ", ");
    NoLineBoundaryConcat("- [", Join(reprs, ", "));
    NoLineBoundaryConcat("- [" + Join(reprs, ", "), "].");
    assert SummaryLine(d) == "- [" + Join(reprs, ", ") + "].";
  }

  // ---------------------------------------------------------------------
  // Lemmas about summarize

  /** No document: the fixed sentence. */
  lemma SummaryEmpty()
    ensures Summary([]) == NoContent
  {
  }

  /** The lines of the documents, in input order, one `line + "\n"` each. */
  lemma {:induction false} LinesTerminated(docs: seq<Hit>)
    ensures Lines(docs) == Terminated(SummaryLines(docs))
  {
    if docs != [] {
      var init := docs[..|docs| - 1];
      LinesTerminated(init);
      assert SummaryLines(docs) == SummaryLines(init) + [SummaryLine(docs[|docs| - 1])];
      TerminatedSnoc(SummaryLines(init), SummaryLine(docs[|docs| - 1]));
    }
  }

  /** Some documents: the lines themselves, starting with `- `, so never the
      fixed sentence. */
  lemma SummaryNonEmpty(docs: seq<Hit>)
    requires docs != []
    ensures Summary(docs) == Terminated(SummaryLines(docs))
    ensures |Summary(docs)| >= 2 && Summary(docs)[..2] == "- "
    ensures Summary(docs) != NoContent
  {
    LinesTerminated(docs);
    var lines := SummaryLines(docs);
    var s := Terminated(lines);
    assert s == lines[0] + "\n" + Terminated(lines[1..]);
    assert lines[0][..2] == "- ";
    assert s[..2] == lines[0][..2];
    assert NoContent[..2] == "No";
  }

  /** Splitting the summary into lines gives one line per document, in order. */
  lemma SummarySplitsBack(docs: seq<Hit>)
    requires docs != []
    ensures SplitLines(Summary(docs)) == SummaryLines(docs)
  {
    SummaryNonEmpty(docs);
    forall i | 0 <= i < |docs| ensures NoLineBoundary(SummaryLines(docs)[i]) {
      SummaryLineNoLineBoundary(docs[i]);
    }
    SplitLinesTerminated(SummaryLines(docs));
  }

  /** The pieces of a document line: one more than the dots of the content,
      and joined with `.` they give the content back. */
  lemma SummaryPieces(content: string)
    ensures |SplitOn(content, {'.'})| == CountIn(content, {'.'}) + 1
    ensures Join(SplitOn(content, {'.'}), ".") == content
  {
    JoinSplitOn(content, '.');
  }

  /** Only the content of each document matters. */
  lemma {:induction false} SummaryReadsContent(a: seq<Hit>, b: seq<Hit>)
    requires |a| == |b|
    requires forall i :: 0 <= i < |a| ==> a[i].content == b[i].content
    ensures Lines(a) == Lines(b) && Summary(a) == Summary(b)
  {
    if a != [] {
      SummaryReadsContent(a[..|a| - 1], b[..|b| - 1]);
      assert SummaryLine(a[|a| - 1]) == SummaryLine(b[|b| - 1]);
    }
  }
}
