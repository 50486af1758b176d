/** The parts of Python's `str` that the modelled code relies on: whitespace
    stripping, splitting on a character class (as `re.split(r'[.;]', s)` and
    `s.split(".")` do), joining, `splitlines()` and the decimal rendering of a
    natural number in an f-string. Strings are sequences of Unicode code
    points, as Python's are. */
module Text {

  /** Python's `str.isspace()` for one character: what `strip()` removes. */
  predicate IsSpace(c: char) {
    var n := c as int;
    (9 <= n <= 13) || (28 <= n <= 32) || n == 0x85 || n == 0xA0 || n == 0x1680
    || (0x2000 <= n <= 0x200A) || n == 0x2028 || n == 0x2029 || n == 0x202F
    || n == 0x205F || n == 0x3000
  }

  /** The characters at which `str.splitlines()` ends a line. */
  predicate IsLineBoundary(c: char) {
    var n := c as int;
    (10 <= n <= 13) || (28 <= n <= 30) || n == 0x85 || n == 0x2028 || n == 0x2029
  }

  predicate NoLineBoundary(s: string) {
    forall i :: 0 <= i < |s| ==> !IsLineBoundary(s[i])
  }

  lemma NoLineBoundaryConcat(a: string, b: string)
    requires NoLineBoundary(a) && NoLineBoundary(b)
    ensures NoLineBoundary(a + b)
  {
    assert forall i :: |a| <= i < |a + b| ==> (a + b)[i] == b[i - |a|];
  }

  // ---------------------------------------------------------------------
  // strip()

  /** `s.lstrip()`: the longest suffix of `s` that does not start with whitespace. */
  function TrimStart(s: string): string {
    if s != [] && IsSpace(s[0]) then TrimStart(s[1..]) else s
  }

  /** `lstrip()` keeps a suffix, drops only whitespace, and what it keeps does
      not start with whitespace. */
  lemma {:induction false} TrimStartContract(s: string)
    ensures |TrimStart(s)| <= |s| && TrimStart(s) == s[|s| - |TrimStart(s)|..]
    ensures forall i :: 0 <= i < |s| - |TrimStart(s)| ==> IsSpace(s[i])
    ensures TrimStart(s) == [] || !IsSpace(TrimStart(s)[0])
  {
    if s != [] && IsSpace(s[0]) {
      TrimStartContract(s[1..]);
      assert forall i :: 1 <= i < |s| ==> s[i] == s[1..][i - 1];
    }
  }

  /** `s.rstrip()`: the longest prefix of `s` that does not end with whitespace. */
  function TrimEnd(s: string): string {
    if s != [] && IsSpace(s[|s| - 1]) then TrimEnd(s[..|s| - 1]) else s
  }

  /** `rstrip()` keeps a prefix, drops only whitespace, and what it keeps does
      not end with whitespace. */
  lemma {:induction false} TrimEndContract(s: string)
    ensures |TrimEnd(s)| <= |s| && TrimEnd(s) == s[..|TrimEnd(s)|]
    ensures forall i :: |TrimEnd(s)| <= i < |s| ==> IsSpace(s[i])
    ensures TrimEnd(s) == [] || !IsSpace(TrimEnd(s)[|TrimEnd(s)| - 1])
  {
    if s != [] && IsSpace(s[|s| - 1]) {
      TrimEndContract(s[..|s| - 1]);
    }
  }

  /** `s.strip()` with no argument. */
  function Strip(s: string): string {
    TrimEnd(TrimStart(s))
  }

  /** Neither end of `s` is whitespace. */
  predicate IsStripped(s: string) {
    s == [] || (!IsSpace(s[0]) && !IsSpace(s[|s| - 1]))
  }

  predicate AllSpace(s: string) {
    forall i :: 0 <= i < |s| ==> IsSpace(s[i])
  }

  /** What `strip()` promises: both ends are non-blank, only whitespace was
      removed, nothing is left exactly when the input was all whitespace, and
      no character appears that was not in the input. */
  lemma StripContract(s: string)
    ensures IsStripped(Strip(s))
    ensures Strip(s) == [] <==> AllSpace(s)
    ensures forall c :: c in Strip(s) ==> c in s
  {
    var t := TrimStart(s);
    var r := TrimEnd(t);
    TrimStartContract(s);
    TrimEndContract(t);
    assert r == Strip(s);
    if r != [] {
      assert r[0] == t[0];
    }
    if t != [] {
      assert t[0] == s[|s| - |t|];
      assert r != [];
    }
    forall c | c in r ensures c in s {
      var j :| 0 <= j < |r| && r[j] == c;
      assert t[j] == c;
      assert s[|s| - |t| + j] == c;
    }
  }

  /** Stripping a stripped string changes nothing. */
  lemma StripStripped(s: string)
    requires IsStripped(s)
    ensures Strip(s) == s
  {
  }

  // ---------------------------------------------------------------------
  // Splitting on a set of single-character separators

  /** How many characters of `s` are separators. */
  function CountIn(s: string, seps: set<char>): nat {
    if s == [] then 0 else (if s[0] in seps then 1 else 0) + CountIn(s[1..], seps)
  }

  /** No separator is counted exactly when none occurs. */
  lemma {:induction false} CountInZero(s: string, seps: set<char>)
    ensures CountIn(s, seps) == 0 <==> forall i :: 0 <= i < |s| ==> s[i] !in seps
  {
    if s != [] {
      CountInZero(s[1..], seps);
      assert forall i :: 1 <= i < |s| ==> s[i] == s[1..][i - 1];
    }
  }

  /** `re.split` with a one-character class, and `str.split(c)` for `seps == {c}`:
      the maximal separator-free pieces between separators, empty ones included. */
  function SplitOn(s: string, seps: set<char>): (r: seq<string>)
    ensures |r| == CountIn(s, seps) + 1
  {
    if s == [] then [[]]
    else
      var rest := SplitOn(s[1..], seps);
      if s[0] in seps then [[]] + rest
      else [[s[0]] + rest[0]] + rest[1..]
  }

  /** No piece of a split holds a separator. */
  lemma {:induction false} SplitOnPiecesClean(s: string, seps: set<char>)
    ensures forall i, j :: 0 <= i < |SplitOn(s, seps)| && 0 <= j < |SplitOn(s, seps)[i]| ==>
      SplitOn(s, seps)[i][j] !in seps
  {
    if s != [] {
      SplitOnPiecesClean(s[1..], seps);
    }
  }

  /** `sep.join(parts)`. */
  function Join(parts: seq<string>, sep: string): string {
    if parts == [] then ""
    else if |parts| == 1 then parts[0]
    else parts[0] + sep + Join(parts[1..], sep)
  }

  /** Joining boundary-free parts with a boundary-free separator gives a
      boundary-free string. */
  lemma {:induction false} JoinNoLineBoundary(parts: seq<string>, sep: string)
    requires NoLineBoundary(sep)
    requires forall i :: 0 <= i < |parts| ==> NoLineBoundary(parts[i])
    ensures NoLineBoundary(Join(parts, sep))
  {
    if |parts| > 1 {
      JoinNoLineBoundary(parts[1..], sep);
      NoLineBoundaryConcat(parts[0], sep);
      NoLineBoundaryConcat(parts[0] + sep, Join(parts[1..], sep));
    }
  }

  /** A string that ends with a separator holds at least one. */
  lemma {:induction false} CountInLast(s: string, seps: set<char>)
    requires s != [] && s[|s| - 1] in seps
    ensures CountIn(s, seps) >= 1
  {
    if |s| > 1 {
      assert s[1..][|s[1..]| - 1] == s[|s| - 1];
      CountInLast(s[1..], seps);
    }
  }

  /** Joining the pieces of a split on `c` with `c` gives back the input. */
  lemma {:induction false} JoinSplitOn(s: string, c: char)
    ensures Join(SplitOn(s, {c}), [c]) == s
  {
    if s != [] {
      var rest := SplitOn(s[1..], {c});
      JoinSplitOn(s[1..], c);
      if s[0] == c {
        assert SplitOn(s, {c}) == [[]] + rest;
        assert Join([[]] + rest, [c]) == [] + [c] + Join(rest, [c]);
        assert s == [c] + s[1..];
      } else if |rest| == 1 {
        assert SplitOn(s, {c}) == [[s[0]] + rest[0]];
        assert s == [s[0]] + s[1..];
      } else {
        var pieces := SplitOn(s, {c});
        assert pieces == [[s[0]] + rest[0]] + rest[1..];
        assert pieces[1..] == rest[1..];
        assert Join(pieces, [c]) == [s[0]] + rest[0] + [c] + Join(rest[1..], [c]);
        assert Join(rest, [c]) == rest[0] + [c] + Join(rest[1..], [c]);
        assert s == [s[0]] + s[1..];
      }
    }
  }

  /** A string with no separator is split into itself alone. */
  lemma {:induction false} SplitOnNone(s: string, seps: set<char>)
    requires CountIn(s, seps) == 0
    ensures SplitOn(s, seps) == [s]
  {
    if s != [] {
      SplitOnNone(s[1..], seps);
      assert s == [s[0]] + s[1..];
    }
  }

  /** A string made only of separators and whitespace splits into blank pieces. */
  lemma {:induction false} SplitOnBlank(s: string, seps: set<char>)
    requires forall i :: 0 <= i < |s| ==> s[i] in seps || IsSpace(s[i])
    ensures forall i :: 0 <= i < |SplitOn(s, seps)| ==> AllSpace(SplitOn(s, seps)[i])
  {
    if s != [] {
      SplitOnBlank(s[1..], seps);
      var rest := SplitOn(s[1..], seps);
      if s[0] !in seps {
        var first := [s[0]] + rest[0];
        assert AllSpace(rest[0]);
        assert forall j :: 1 <= j < |first| ==> first[j] == rest[0][j - 1];
      }
    }
  }

  // ---------------------------------------------------------------------
  // splitlines()

  /** The index of the first line boundary of `s`, or `|s|` when there is none. */
  function FirstBoundary(s: string): (n: nat)
    ensures n <= |s|
    ensures forall i :: 0 <= i < n ==> !IsLineBoundary(s[i])
    ensures n < |s| ==> IsLineBoundary(s[n])
  {
    if s == [] || IsLineBoundary(s[0]) then 0 else 1 + FirstBoundary(s[1..])
  }

  /** `s.splitlines()`: the lines of `s` without their boundaries; `"\r\n"` is
      one boundary, and a boundary at the very end does not open a new line. */
  function SplitLines(s: string): seq<string>
    decreases |s|
  {
    if s == [] then []
    else
      var n := FirstBoundary(s);
      if n == |s| then [s]
      else if s[n] == '\r' && n + 1 < |s| && s[n + 1] == '\n' then [s[..n]] + SplitLines(s[n + 2..])
      else [s[..n]] + SplitLines(s[n + 1..])
  }

  /** A line with no boundary in it, ended by a newline, is split off whole. */
  lemma SplitLinesOfLine(b: string, rest: string)
    requires NoLineBoundary(b)
    ensures SplitLines(b + "\n" + rest) == [b] + SplitLines(rest)
  {
    var s := b + "\n" + rest;
    var n := FirstBoundary(s);
    assert forall i :: 0 <= i < |b| ==> s[i] == b[i];
    assert s[|b|] == '\n';
    assert n == |b|;
    assert s[..n] == b;
    assert s[n + 1..] == rest;
  }

  /** A boundary-free string is one line, or none when it is empty. */
  lemma SplitLinesNoBoundary(b: string)
    requires NoLineBoundary(b)
    ensures SplitLines(b) == if b == [] then [] else [b]
  {
  }

  /** The concatenation of `b + "\n"` over the bodies, in order. */
  function Terminated(bodies: seq<string>): string {
    if bodies == [] then "" else bodies[0] + "\n" + Terminated(bodies[1..])
  }

  lemma {:induction false} TerminatedSnoc(bodies: seq<string>, b: string)
    ensures Terminated(bodies + [b]) == Terminated(bodies) + b + "\n"
  {
    if bodies != [] {
      assert (bodies + [b])[1..] == bodies[1..] + [b];
      TerminatedSnoc(bodies[1..], b);
    }
  }

  /** Text written as newline-terminated lines splits back into exactly those
      lines, provided no line carries a boundary character of its own. */
  lemma {:induction false} SplitLinesTerminated(bodies: seq<string>)
    requires forall i :: 0 <= i < |bodies| ==> NoLineBoundary(bodies[i])
    ensures SplitLines(Terminated(bodies)) == bodies
  {
    if bodies != [] {
      SplitLinesTerminated(bodies[1..]);
      SplitLinesOfLine(bodies[0], Terminated(bodies[1..]));
      assert bodies == [bodies[0]] + bodies[1..];
    }
  }

  // ---------------------------------------------------------------------
  // Decimal rendering of a natural number, as `f"{n}"`

  function Digit(d: nat): (c: char)
    requires d < 10
    ensures '0' <= c <= '9' && c as int - '0' as int == d
  {
    (d + '0' as int) as char
  }

  function Decimal(n: nat): (r: string)
    ensures |r| >= 1
    ensures forall i :: 0 <= i < |r| ==> '0' <= r[i] <= '9'
  {
    if n < 10 then [Digit(n)] else Decimal(n / 10) + [Digit(n % 10)]
  }

  /** The number a string of decimal digits denotes. */
  function DecimalValue(s: string): nat {
    if s == [] then 0
    else
      var d := s[|s| - 1] as int - '0' as int;
      DecimalValue(s[..|s| - 1]) * 10 + (if 0 <= d then d else 0)
  }

  /** The rendering can be read back: it denotes `n`, and only zero starts with `0`. */
  lemma {:induction false} DecimalRoundTrip(n: nat)
    ensures DecimalValue(Decimal(n)) == n
    ensures Decimal(n)[0] == '0' <==> n == 0
  {
    if n >= 10 {
      DecimalRoundTrip(n / 10);
      var r := Decimal(n);
      assert r[..|r| - 1] == Decimal(n / 10);
      assert r[0] == Decimal(n / 10)[0];
    }
  }

  /** Decimal text has no line boundary. */
  lemma DecimalNoLineBoundary(n: nat)
    ensures NoLineBoundary(Decimal(n))
  {
  }
}
