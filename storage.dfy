/** `VectorStorage` (research_agent/storage.py): documents by id, a matrix of
    embeddings and the parallel list of ids of its rows. The three files the
    source keeps on disk are held in memory; the id list is the one the id
    file gives back, so every write of it goes through `SaveIds` and
    `LoadIds` as the source's does. */
module Storage {
  import opened Results
  import opened Text
  import opened IdsFile
  import opened Ranking

  /** A document's metadata: an open JSON object. */
  type Metadata = map<string, string>

  /** The record `documents.json` keeps for one id. */
  datatype Doc = Doc(content: string, metadata: Metadata)

  /** One result of `retrieve_similar`. */
  datatype Hit = Hit(id: string, content: string, metadata: Metadata, score: real)

  /** The three stored files: the documents, the embedding rows, the row ids. */
  datatype StoreState = StoreState(docs: map<string, Doc>, embeddings: seq<Vec>, ids: seq<string>)

  /** A freshly created storage directory. */
  const Empty: StoreState := StoreState(map[], [], [])

  /** numpy's `size` of the embedding matrix: the number of stored numbers. */
  function Size(rows: seq<Vec>): nat {
    if rows == [] then 0 else |rows[0]| + Size(rows[1..])
  }

  /** A numpy matrix: every row as long as the first. */
  predicate Rectangular(rows: seq<Vec>) {
    forall i :: 0 <= i < |rows| ==> |rows[i]| == |rows[0]|
  }

  /** The invariant of a well-formed store: one id per embedding row, each id
      valid in the id file and a key of the documents, and the rows a matrix
      of positive width. */
  predicate Valid(st: StoreState) {
    && |st.embeddings| == |st.ids|
    && (forall i :: 0 <= i < |st.ids| ==> ValidId(st.ids[i]) && st.ids[i] in st.docs)
    && Rectangular(st.embeddings)
    && (forall i :: 0 <= i < |st.embeddings| ==> st.embeddings[i] != [])
  }

  /** `store_document` (storage.py:23-44): the documents entry is written
      first; then the row is appended, unless the matrix is still empty (it is
      replaced by the one row) or the row's width differs (numpy's `vstack`
      raises, after the documents were written); last the id file is
      rewritten with `doc_id` appended. */
  function Stored(st: StoreState, id: string, content: string, metadata: Metadata, embedding: Vec)
    : (StoreState, Option<Exception>)
  {
    var docs := st.docs[id := Doc(content, metadata)];
    if Size(st.embeddings) == 0 then
      (StoreState(docs, [embedding], LoadIds(SaveIds(st.ids + [id]))), None)
    else if |embedding| != |st.embeddings[0]| then
      (StoreState(docs, st.embeddings, st.ids), Some(DimensionMismatch(|st.embeddings[0]|, |embedding|)))
    else
      (StoreState(docs, st.embeddings + [embedding], LoadIds(SaveIds(st.ids + [id]))), None)
  }

  /** The result row for store index `i`. */
  function RowHit(st: StoreState, i: nat, score: real): Hit
    requires i < |st.ids| && st.ids[i] in st.docs
  {
    Hit(st.ids[i], st.docs[st.ids[i]].content, st.docs[st.ids[i]].metadata, score)
  }

  /** The second loop of `retrieve_similar` (storage.py:74-83): each chosen
      `(score, idx)` looks up `ids[idx]` (an `IndexError` past the end) and
      then that id's document (a `KeyError` if it has none). */
  function Lookup(st: StoreState, top: seq<Scored>): Result<seq<Hit>, Exception>
    decreases |top|
  {
    if top == [] then Ok([])
    else
      match Lookup(st, top[..|top| - 1])
      case Err(e) => Err(e)
      case Ok(hits) =>
        var (score, idx) := top[|top| - 1];
        if idx >= |st.ids| then Err(IndexError(idx))
        else if st.ids[idx] !in st.docs then Err(KeyError(st.ids[idx]))
        else Ok(hits + [RowHit(st, idx, score)])
  }

  /** `retrieve_similar(query_embedding, k)` (storage.py:55-83). */
  function Retrieve(st: StoreState, sim: (Vec, Vec) -> real, q: Vec, k: int): Result<seq<Hit>, Exception> {
    if Size(st.embeddings) == 0 then Ok([]) else Lookup(st, TopK(sim, q, st.embeddings, k))
  }

  // ---------------------------------------------------------------------
  // The store

  class VectorStorage {
    /** The similarity of a query vector and a stored row (storage.py:69). */
    const sim: (Vec, Vec) -> real
    var docs: map<string, Doc>
    var embeddings: seq<Vec>
    var ids: seq<string>

    function State(): StoreState
      reads this
    {
      StoreState(docs, embeddings, ids)
    }

    /** `VectorStorage.__init__` on a new storage directory (storage.py:7-21). */
    constructor (sim: (Vec, Vec) -> real)
      ensures this.sim == sim
      ensures State() == Empty && Valid(State())
    {
      this.sim := sim;
      docs := map[];
      embeddings := [];
      ids := [];
    }

    method StoreDocument(id: string, content: string, metadata: Metadata, embedding: Vec)
      returns (err: Option<Exception>)
      modifies this
      ensures (State(), err) == Stored(old(State()), id, content, metadata, embedding)
    {
      docs := docs[id := Doc(content, metadata)];
      if Size(embeddings) == 0 {
        embeddings := [embedding];
      } else if |embedding| != |embeddings[0]| {
        err := Some(DimensionMismatch(|embeddings[0]|, |embedding|));
        return;
      } else {
        embeddings := embeddings + [embedding];
      }
      ids := LoadIds(SaveIds(ids + [id]));
      err := None;
    }

    method RetrieveSimilar(q: Vec, k: int) returns (r: Result<seq<Hit>, Exception>)
      ensures r == Retrieve(State(), sim, q, k)
    {
      if Size(embeddings) == 0 {
        return Ok([]);
      }
      var sims: seq<Scored> := [];
      var i := 0;
      while i < |embeddings|
        invariant 0 <= i <= |embeddings|
        invariant sims == Scores(sim, q, embeddings)[..i]
      {
        sims := sims + [(sim(q, embeddings[i]), i)];
        i := i + 1;
      }
      assert sims == Scores(sim, q, embeddings);
      sims := SortDescending(sims);
      var top := Take(sims, k);
      assert top == TopK(sim, q, embeddings, k);
      var results: seq<Hit> := [];
      var j := 0;
      while j < |top|
        invariant 0 <= j <= |top|
        invariant Lookup(State(), top[..j]) == Ok(results)
      {
        var (score, idx) := top[j];
        assert top[..j + 1][..j] == top[..j];
        if idx >= |ids| {
          LookupFailureStays(State(), top, j + 1);
          return Err(IndexError(idx));
        }
        var docId := ids[idx];
        if docId !in docs {
          LookupFailureStays(State(), top, j + 1);
          return Err(KeyError(docId));
        }
        results := results + [Hit(docId, docs[docId].content, docs[docId].metadata, score)];
        j := j + 1;
      }
      assert top[..|top|] == top;
      r := Ok(results);
    }
  }

  // ---------------------------------------------------------------------
  // Lemmas about storing

  lemma {:induction false} SizeZero(rows: seq<Vec>)
    ensures Size(rows) == 0 <==> forall i :: 0 <= i < |rows| ==> rows[i] == []
  {
    if rows != [] {
      SizeZero(rows[1..]);
      assert forall i :: 1 <= i < |rows| ==> rows[i] == rows[1..][i - 1];
    }
  }

  /** A valid store has no numbers exactly when it has no rows. */
  lemma ValidSizeZero(st: StoreState)
    requires Valid(st)
    ensures Size(st.embeddings) == 0 <==> st.embeddings == []
  {
    SizeZero(st.embeddings);
  }

  lemma EmptyValid()
    ensures Valid(Empty)
  {
  }

  /** Storing writes the documents entry of `id`, overwriting any earlier
      one, and leaves every other entry as it was; this holds even when the
      call then fails. */
  lemma StoredDocs(st: StoreState, id: string, content: string, metadata: Metadata, embedding: Vec)
    ensures var st' := Stored(st, id, content, metadata, embedding).0;
      id in st'.docs && st'.docs[id] == Doc(content, metadata) &&
      st'.docs.Keys == st.docs.Keys + {id} &&
      forall key :: key in st.docs && key != id ==> st'.docs[key] == st.docs[key]
  {
  }

  /** On a valid store with a valid id, storing fails exactly when the row's
      width disagrees with the matrix; on success the row and the id are both
      appended at the end and nothing before them moves; on failure the rows
      and ids are untouched. */
  lemma StoredAppends(st: StoreState, id: string, content: string, metadata: Metadata, embedding: Vec)
    requires Valid(st) && ValidId(id)
    ensures var (st', err) := Stored(st, id, content, metadata, embedding);
      && (err.None? <==> st.embeddings == [] || |embedding| == |st.embeddings[0]|)
      && (err.None? ==> st'.embeddings == st.embeddings + [embedding] && st'.ids == st.ids + [id])
      && (err.Some? ==>
            st'.embeddings == st.embeddings && st'.ids == st.ids &&
            err == Some(DimensionMismatch(|st.embeddings[0]|, |embedding|)))
  {
    ValidSizeZero(st);
    IdsRoundTrip(st.ids + [id]);
  }

  /** Storing a valid id with a non-empty row keeps the store valid. */
  lemma StoredPreservesValid(st: StoreState, id: string, content: string, metadata: Metadata, embedding: Vec)
    requires Valid(st) && ValidId(id) && embedding != []
    ensures Valid(Stored(st, id, content, metadata, embedding).0)
  {
    StoredAppends(st, id, content, metadata, embedding);
    var (st', err) := Stored(st, id, content, metadata, embedding);
    if err.None? {
      forall i | 0 <= i < |st'.ids| ensures ValidId(st'.ids[i]) && st'.ids[i] in st'.docs {
        if i < |st.ids| {
          assert st'.ids[i] == st.ids[i];
        }
      }
      assert Rectangular(st'.embeddings) by {
        forall i | 0 <= i < |st'.embeddings| ensures |st'.embeddings[i]| == |st'.embeddings[0]| {
          if i < |st.embeddings| {
            assert st'.embeddings[i] == st.embeddings[i];
          }
        }
      }
    }
  }

  /** Whatever the id, the embedding rows stay a matrix. */
  lemma StoredKeepsMatrix(st: StoreState, id: string, content: string, metadata: Metadata, embedding: Vec)
    requires Rectangular(st.embeddings)
    ensures Rectangular(Stored(st, id, content, metadata, embedding).0.embeddings)
  {
    var rows := Stored(st, id, content, metadata, embedding).0.embeddings;
    if Size(st.embeddings) != 0 && |embedding| == |st.embeddings[0]| {
      assert forall i :: 0 <= i < |st.embeddings| ==> rows[i] == st.embeddings[i];
    }
  }

  /** No deduplication: storing an id twice leaves it on two consecutive rows,
      and both rows resolve to the newer document. */
  lemma StoredTwice(st: StoreState, id: string, c1: string, m1: Metadata, e1: Vec,
                    c2: string, m2: Metadata, e2: Vec)
    requires Valid(st) && ValidId(id) && e1 != [] && |e2| == |e1|
    requires st.embeddings == [] || |e1| == |st.embeddings[0]|
    ensures var (s1, err1) := Stored(st, id, c1, m1, e1);
      var (s2, err2) := Stored(s1, id, c2, m2, e2);
      && err1.None? && err2.None?
      && s2.ids == st.ids + [id, id]
      && s2.embeddings == st.embeddings + [e1, e2]
      && s2.docs[s2.ids[|st.ids|]] == s2.docs[s2.ids[|st.ids| + 1]] == Doc(c2, m2)
  {
    StoredAppends(st, id, c1, m1, e1);
    StoredPreservesValid(st, id, c1, m1, e1);
    var s1 := Stored(st, id, c1, m1, e1).0;
    assert s1.embeddings[0] == (st.embeddings + [e1])[0];
    StoredAppends(s1, id, c2, m2, e2);
  }

  /** An empty id breaks the parallel lists: the row is appended but the id
      file drops the blank id, so the rows outnumber the ids by one. */
  lemma StoredBlankId(st: StoreState, content: string, metadata: Metadata, embedding: Vec)
    requires Valid(st)
    requires st.embeddings == [] || |embedding| == |st.embeddings[0]|
    ensures var (st', err) := Stored(st, "", content, metadata, embedding);
      err.None? && st'.ids == st.ids && |st'.embeddings| == |st'.ids| + 1
  {
    ValidSizeZero(st);
    IdsRoundTripDropsBlank(st.ids + [""]);
    NonEmptyAppend(st.ids, [""]);
    NonEmptyKeepsNonBlank(st.ids);
    assert NonEmpty([""]) == [];
  }

  /** An id with a newline inside is split by the id file into two ids that
      name no document, and the next retrieval raises `KeyError`. */
  lemma StoredMultilineId(sim: (Vec, Vec) -> real, q: Vec, content: string, metadata: Metadata, embedding: Vec)
    requires embedding != []
    ensures var (st', err) := Stored(Empty, "a\nb", content, metadata, embedding);
      && err.None? && st'.ids == ["a", "b"] && "a" !in st'.docs
      && Retrieve(st', sim, q, 5) == Err(KeyError("a"))
  {
    var st' := Stored(Empty, "a\nb", content, metadata, embedding).0;
    IdsRoundTripCounterexamples();
    assert [] + ["a\nb"] == ["a\nb"];
    assert st'.ids == ["a", "b"];
    assert Size(st'.embeddings) == |embedding|;
    assert "a" != "a\nb";
    assert "a" !in st'.docs;
    TopKContract(sim, q, st'.embeddings, 5);
    var top := TopK(sim, q, st'.embeddings, 5);
    assert |top| == 1 && top[0].1 == 0;
    assert top[..0] == [];
    assert Lookup(st', top) == Err(KeyError("a"));
  }

  // ---------------------------------------------------------------------
  // Lemmas about retrieval

  /** Once a lookup has failed on a prefix, the whole lookup fails the same way. */
  lemma {:induction false} LookupFailureStays(st: StoreState, top: seq<Scored>, m: nat)
    requires m <= |top| && Lookup(st, top[..m]).Err?
    ensures Lookup(st, top) == Lookup(st, top[..m])
    decreases |top|
  {
    if m < |top| {
      var init := top[..|top| - 1];
      assert init[..m] == top[..m];
      LookupFailureStays(st, init, m);
    } else {
      assert top[..m] == top;
    }
  }

  /** A lookup that succeeds yields one result per chosen tuple. */
  lemma {:induction false} LookupLength(st: StoreState, top: seq<Scored>)
    ensures Lookup(st, top).Ok? ==> |Lookup(st, top).value| == |top|
    decreases |top|
  {
    if top != [] {
      LookupLength(st, top[..|top| - 1]);
    }
  }

  /** On a valid store every in-range index resolves: the lookup succeeds and
      result `j` is row `top[j].1` with the score `top[j].0`. */
  lemma {:induction false} LookupValid(st: StoreState, top: seq<Scored>)
    requires Valid(st)
    requires forall j :: 0 <= j < |top| ==> top[j].1 < |st.ids|
    ensures Lookup(st, top).Ok?
    ensures |Lookup(st, top).value| == |top|
    ensures forall j :: 0 <= j < |top| ==> Lookup(st, top).value[j] == RowHit(st, top[j].1, top[j].0)
    decreases |top|
  {
    if top != [] {
      var init := top[..|top| - 1];
      LookupValid(st, init);
      var hits := Lookup(st, init).value;
      var last := top[|top| - 1];
      assert Lookup(st, top).value == hits + [RowHit(st, last.1, last.0)];
    }
  }

  /** An empty store retrieves nothing, and raises nothing. */
  lemma RetrieveEmptyStore(st: StoreState, sim: (Vec, Vec) -> real, q: Vec, k: int)
    requires st.embeddings == []
    ensures Retrieve(st, sim, q, k) == Ok([])
  {
  }

  /** On a valid store retrieval succeeds with `min(k, N)` results for
      `k >= 0` (all but the last `-k` ranked rows for `k < 0`); result `j` is
      the id, content, metadata and score of the `j`-th chosen row. */
  lemma RetrieveHits(st: StoreState, sim: (Vec, Vec) -> real, q: Vec, k: int)
    requires Valid(st)
    ensures Retrieve(st, sim, q, k).Ok?
    ensures var hits := Retrieve(st, sim, q, k).value;
      var idx := TopIndices(sim, q, st.embeddings, k);
      && |hits| == |idx| == SliceEnd(|st.embeddings|, k)
      && forall j :: 0 <= j < |hits| ==>
           idx[j] < |st.ids| && hits[j] == RowHit(st, idx[j], sim(q, st.embeddings[idx[j]]))
  {
    ValidSizeZero(st);
    TopKContract(sim, q, st.embeddings, k);
    var top := TopK(sim, q, st.embeddings, k);
    if st.embeddings != [] {
      LookupValid(st, top);
    }
  }

  /** The ranking contract of the results: scores never increase, the higher
      store index comes first among equal scores, and no row left out scores
      above a returned one. */
  lemma RetrieveRanked(st: StoreState, sim: (Vec, Vec) -> real, q: Vec, k: int)
    requires Valid(st)
    ensures Retrieve(st, sim, q, k).Ok?
    ensures var hits := Retrieve(st, sim, q, k).value;
      var idx := TopIndices(sim, q, st.embeddings, k);
      && |hits| == |idx|
      && (forall a, b :: 0 <= a < b < |hits| ==>
            hits[a].score >= hits[b].score && (hits[a].score == hits[b].score ==> idx[a] > idx[b]))
      && (forall a, i :: 0 <= a < |hits| && 0 <= i < |st.embeddings| && i !in idx ==>
            sim(q, st.embeddings[i]) <= hits[a].score)
  {
    RetrieveHits(st, sim, q, k);
    TopKContract(sim, q, st.embeddings, k);
  }

  /** Whatever the state, a successful retrieval returns at most `k` results. */
  lemma RetrieveAtMostK(st: StoreState, sim: (Vec, Vec) -> real, q: Vec, k: nat)
    ensures Retrieve(st, sim, q, k).Ok? ==> |Retrieve(st, sim, q, k).value| <= k
  {
    if Size(st.embeddings) != 0 {
      LookupLength(st, TopK(sim, q, st.embeddings, k));
    }
  }
}
