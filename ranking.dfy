/** The ranking step of `retrieve_similar` (research_agent/storage.py:67-72):
    one `(score, index)` tuple per stored row, sorted in reverse with Python's
    tuple order, then cut to the first `k`. The cosine score is abstracted as
    any function `sim` from a query vector and a row to a real number. */
module Ranking {

  type Vec = seq<real>

  /** A `(score, index)` tuple. */
  type Scored = (real, nat)

  /** Python's `a > b` on `(score, index)` tuples: by score, then by index. */
  predicate Above(a: Scored, b: Scored) {
    a.0 > b.0 || (a.0 == b.0 && a.1 > b.1)
  }

  predicate StrictlyDescending(s: seq<Scored>) {
    forall i, j :: 0 <= i < j < |s| ==> Above(s[i], s[j])
  }

  predicate Distinct(s: seq<Scored>) {
    forall i, j :: 0 <= i < j < |s| ==> s[i] != s[j]
  }

  /** The tuples built by the first loop of `retrieve_similar`. */
  function Scores(sim: (Vec, Vec) -> real, q: Vec, rows: seq<Vec>): seq<Scored> {
    seq(|rows|, i requires 0 <= i < |rows| => (sim(q, rows[i]), i))
  }

  /** Inserts `x` in front of the first element it is not below. */
  function Insert(x: Scored, t: seq<Scored>): (r: seq<Scored>)
    ensures multiset(r) == multiset(t) + multiset{x}
  {
    if t == [] || !Above(t[0], x) then [x] + t
    else
      assert t == [t[0]] + t[1..];
      [t[0]] + Insert(x, t[1..])
  }

  /** `list.sort(reverse=True)` on the tuples: an insertion sort. */
  function SortDescending(s: seq<Scored>): (r: seq<Scored>)
    ensures multiset(r) == multiset(s)
  {
    if s == [] then []
    else
      assert s == [s[0]] + s[1..];
      Insert(s[0], SortDescending(s[1..]))
  }

  /** `s[:k]` in Python: `k` items or all of them, and for a negative `k`
      all but the last `-k`. */
  function SliceEnd(n: nat, k: int): (e: nat)
    ensures e <= n
  {
    if k >= 0 then (if k < n then k else n) else (if n + k > 0 then n + k else 0)
  }

  function Take<T>(s: seq<T>, k: int): seq<T> {
    s[..SliceEnd(|s|, k)]
  }

  /** `s[:k]` is a prefix of `s`, and item `i` is in it exactly when it is
      among the first `k` (for `k >= 0`) or not among the last `-k` (for
      `k < 0`). */
  lemma TakeContract<T>(s: seq<T>, k: int)
    ensures Take(s, k) == s[..|Take(s, k)|]
    ensures forall i :: 0 <= i < |s| ==>
      (Taken(s, k, i) <==> (k >= 0 && i < k) || (k < 0 && i < |s| + k))
  {
  }

  /** Item `i` of `s` survives `s[:k]`. */
  predicate Taken<T>(s: seq<T>, k: int, i: int) {
    0 <= i < |Take(s, k)|
  }

  /** Every stored row, best first. */
  function Ranked(sim: (Vec, Vec) -> real, q: Vec, rows: seq<Vec>): seq<Scored> {
    SortDescending(Scores(sim, q, rows))
  }

  /** The `top_k` list of `retrieve_similar`. */
  function TopK(sim: (Vec, Vec) -> real, q: Vec, rows: seq<Vec>, k: int): seq<Scored> {
    Take(Ranked(sim, q, rows), k)
  }

  // ---------------------------------------------------------------------
  // The order on tuples

  lemma AboveTransitive(a: Scored, b: Scored, c: Scored)
    requires Above(a, b) && Above(b, c)
    ensures Above(a, c)
  {
  }

  lemma AboveTotal(a: Scored, b: Scored)
    requires a != b
    ensures Above(a, b) || Above(b, a)
  {
  }

  // ---------------------------------------------------------------------
  // The sort

  lemma {:induction false} InsertDescending(x: Scored, t: seq<Scored>)
    requires StrictlyDescending(t) && x !in t
    ensures StrictlyDescending(Insert(x, t))
  {
    if t == [] {
    } else if !Above(t[0], x) {
      assert x != t[0];
      AboveTotal(x, t[0]);
      forall j | 1 <= j < |t| ensures Above(x, t[j]) {
        AboveTransitive(x, t[0], t[j]);
      }
    } else {
      var rest := Insert(x, t[1..]);
      InsertDescending(x, t[1..]);
      forall y | y in rest ensures Above(t[0], y) {
        assert y in multiset(rest);
        if y != x {
          assert y in multiset(t[1..]);
          var j :| 0 <= j < |t[1..]| && t[1..][j] == y;
          assert t[j + 1] == y;
        }
      }
      var r := [t[0]] + rest;
      forall i, j | 0 <= i < j < |r| ensures Above(r[i], r[j]) {
        if i == 0 {
          assert r[j] == rest[j - 1];
          assert rest[j - 1] in rest;
        } else {
          assert r[i] == rest[i - 1] && r[j] == rest[j - 1];
        }
      }
    }
  }

  /** Sorting tuples that are pairwise different gives a strictly descending
      list. */
  lemma {:induction false} SortDescendingSorts(s: seq<Scored>)
    requires Distinct(s)
    ensures StrictlyDescending(SortDescending(s))
  {
    if s != [] {
      var rest := SortDescending(s[1..]);
      assert Distinct(s[1..]) by {
        forall i, j | 0 <= i < j < |s[1..]| ensures s[1..][i] != s[1..][j] {
          assert s[1..][i] == s[i + 1] && s[1..][j] == s[j + 1];
        }
      }
      SortDescendingSorts(s[1..]);
      assert s[0] !in s[1..] by {
        forall j | 0 <= j < |s[1..]| ensures s[1..][j] != s[0] {
          assert s[1..][j] == s[j + 1];
        }
      }
      assert s[0] !in multiset(rest);
      InsertDescending(s[0], rest);
    }
  }

  /** The head of a strictly descending list is above every other element. */
  lemma HeadIsFirst(s: seq<Scored>, x: Scored)
    requires StrictlyDescending(s) && x in s
    ensures x == s[0] || Above(s[0], x)
  {
  }

  /** A strictly descending list is fixed by its elements: however Python's
      sort proceeds, its result is the list that `SortDescending` computes. */
  lemma {:induction false} DescendingUnique(a: seq<Scored>, b: seq<Scored>)
    requires StrictlyDescending(a) && StrictlyDescending(b)
    requires multiset(a) == multiset(b)
    ensures a == b
  {
    assert |a| == |multiset(a)| == |multiset(b)| == |b|;
    if a != [] {
      assert a[0] in multiset(b) && b[0] in multiset(a);
      HeadIsFirst(b, a[0]);
      HeadIsFirst(a, b[0]);
      assert b[0] == a[0];
      TailRemovesHead(a);
      TailRemovesHead(b);
      TailDescending(a);
      TailDescending(b);
      DescendingUnique(a[1..], b[1..]);
      assert a == [a[0]] + a[1..] && b == [b[0]] + b[1..];
    }
  }

  lemma TailRemovesHead(s: seq<Scored>)
    requires s != []
    ensures multiset(s[1..]) == multiset(s) - multiset{s[0]}
  {
    assert s == [s[0]] + s[1..];
  }

  lemma TailDescending(s: seq<Scored>)
    requires s != [] && StrictlyDescending(s)
    ensures StrictlyDescending(s[1..])
  {
    forall i, j | 0 <= i < j < |s[1..]| ensures Above(s[1..][i], s[1..][j]) {
      assert s[1..][i] == s[i + 1] && s[1..][j] == s[j + 1];
    }
  }

  // ---------------------------------------------------------------------
  // What the ranking promises

  lemma ScoresDistinct(sim: (Vec, Vec) -> real, q: Vec, rows: seq<Vec>)
    ensures Distinct(Scores(sim, q, rows))
  {
  }

  /** Every row of the store is ranked exactly once, with its own score, best
      first; equal scores put the higher store index first. */
  lemma RankedContract(sim: (Vec, Vec) -> real, q: Vec, rows: seq<Vec>)
    ensures |Ranked(sim, q, rows)| == |rows|
    ensures StrictlyDescending(Ranked(sim, q, rows))
    ensures forall j :: 0 <= j < |Ranked(sim, q, rows)| ==>
      Ranked(sim, q, rows)[j].1 < |rows| &&
      Ranked(sim, q, rows)[j].0 == sim(q, rows[Ranked(sim, q, rows)[j].1])
    ensures forall i :: 0 <= i < |rows| ==> (sim(q, rows[i]), i) in Ranked(sim, q, rows)
  {
    var s := Scores(sim, q, rows);
    var r := Ranked(sim, q, rows);
    ScoresDistinct(sim, q, rows);
    SortDescendingSorts(s);
    assert |r| == |multiset(r)| == |multiset(s)| == |s|;
    forall j | 0 <= j < |r|
      ensures r[j].1 < |rows| && r[j].0 == sim(q, rows[r[j].1])
    {
      assert r[j] in multiset(s);
      var i :| 0 <= i < |s| && s[i] == r[j];
    }
    forall i | 0 <= i < |rows| ensures (sim(q, rows[i]), i) in r {
      assert s[i] in multiset(r);
    }
  }

  /** The store indices of the `k` chosen rows, best first. */
  function TopIndices(sim: (Vec, Vec) -> real, q: Vec, rows: seq<Vec>, k: int): seq<nat> {
    var top := TopK(sim, q, rows, k);
    seq(|top|, j requires 0 <= j < |top| => top[j].1)
  }

  lemma TopIndexAt(sim: (Vec, Vec) -> real, q: Vec, rows: seq<Vec>, k: int, p: nat)
    ensures p < |TopK(sim, q, rows, k)| ==>
      TopK(sim, q, rows, k)[p] == Ranked(sim, q, rows)[p] &&
      TopK(sim, q, rows, k)[p].1 in TopIndices(sim, q, rows, k)
  {
    if p < |TopK(sim, q, rows, k)| {
      assert TopIndices(sim, q, rows, k)[p] == TopK(sim, q, rows, k)[p].1;
    }
  }

  /** The contract of the top-k cut: `min(k, N)` rows for `k >= 0`, each with
      its own score; non-increasing scores, the higher index first among
      equal ones; distinct rows; and no row left out scores above a chosen one. */
  lemma TopKContract(sim: (Vec, Vec) -> real, q: Vec, rows: seq<Vec>, k: int)
    ensures |TopK(sim, q, rows, k)| == SliceEnd(|rows|, k)
    ensures forall j :: 0 <= j < |TopK(sim, q, rows, k)| ==>
      TopK(sim, q, rows, k)[j].1 < |rows| &&
      TopK(sim, q, rows, k)[j].0 == sim(q, rows[TopK(sim, q, rows, k)[j].1])
    ensures forall a, b :: 0 <= a < b < |TopK(sim, q, rows, k)| ==>
      TopK(sim, q, rows, k)[a].0 >= TopK(sim, q, rows, k)[b].0 &&
      (TopK(sim, q, rows, k)[a].0 == TopK(sim, q, rows, k)[b].0 ==>
         TopK(sim, q, rows, k)[a].1 > TopK(sim, q, rows, k)[b].1)
    ensures forall a, i :: (0 <= a < |TopK(sim, q, rows, k)| && 0 <= i < |rows| &&
      i !in TopIndices(sim, q, rows, k)) ==> sim(q, rows[i]) <= TopK(sim, q, rows, k)[a].0
  {
    var r := Ranked(sim, q, rows);
    var top := TopK(sim, q, rows, k);
    var idx := TopIndices(sim, q, rows, k);
    RankedContract(sim, q, rows);
    assert top == r[..SliceEnd(|rows|, k)];
    forall a, b | 0 <= a < b < |top|
      ensures top[a].0 >= top[b].0 && (top[a].0 == top[b].0 ==> top[a].1 > top[b].1)
    {
      assert Above(r[a], r[b]);
    }
    forall a, i | 0 <= a < |top| && 0 <= i < |rows| && i !in idx
      ensures sim(q, rows[i]) <= top[a].0
    {
      assert (sim(q, rows[i]), i) in r;
      var p :| 0 <= p < |r| && r[p] == (sim(q, rows[i]), i);
      TopIndexAt(sim, q, rows, k, p);
      assert Above(r[a], r[p]);
    }
  }
}
