/** `ResearchAgent` (research_agent/agent.py): ingesting documents into the
    vector store, and answering a query by splitting it into subtasks, letting
    the user refine them, retrieving five documents per subtask and writing
    the report. The embedder, the score formatter and the user's answers are
    parameters of the model. */
module Agent {
  import opened Results
  import opened Text
  import opened Ranking
  import opened IdsFile
  import opened Storage
  import opened Reasoning
  import opened Summarizer

  /** One element of the list given to `add_documents`; `metadata` is the
      optional key of the dictionary. */
  datatype InputDoc = InputDoc(id: string, content: string, metadata: Option<Metadata>)

  /** One entry of `task_results`. */
  datatype TaskResult = TaskResult(task: string, docs: seq<Hit>)

  /** The exporter call that `export_report` makes. */
  datatype Exported = ExportedPdf(text: string) | ExportedMd(text: string)

  /** The number of documents retrieved per subtask (agent.py:47). */
  const TopDocs := 5

  const NoDocsLine := "No relevant documents found.\n"

  const TraceHeader := "Detailed Reasoning Steps:\n"

  /** `doc.get("metadata", {})`. */
  function MetadataOf(d: InputDoc): Metadata {
    match d.metadata
    case None => map[]
    case Some(m) => m
  }

  // ---------------------------------------------------------------------
  // add_documents

  /** The store after `add_documents` (agent.py:18-21): every document is
      stored in order, and the first exception ends the call. */
  function StoreAll(st: StoreState, docs: seq<InputDoc>, embed: string -> Vec): (StoreState, Option<Exception>)
    decreases |docs|
  {
    if docs == [] then (st, None)
    else
      var (s, err) := StoreAll(st, docs[..|docs| - 1], embed);
      if err.Some? then (s, err)
      else
        var d := docs[|docs| - 1];
        Stored(s, d.id, d.content, MetadataOf(d), embed(d.content))
  }

  /** The ids of the documents, in order. */
  function IdsOf(docs: seq<InputDoc>): (r: seq<string>)
    ensures |r| == |docs|
  {
    if docs == [] then [] else IdsOf(docs[..|docs| - 1]) + [docs[|docs| - 1].id]
  }

  /** The embeddings of the documents' contents, in order. */
  function RowsOf(docs: seq<InputDoc>, embed: string -> Vec): (r: seq<Vec>)
    ensures |r| == |docs|
  {
    if docs == [] then [] else RowsOf(docs[..|docs| - 1], embed) + [embed(docs[|docs| - 1].content)]
  }

  // ---------------------------------------------------------------------
  // Interactive refinement

  /** `user_input.lower() == "skip"`: the only characters whose lower case is
      one of `s`, `k`, `i`, `p` are those letters, their capitals and the
      Kelvin sign. */
  predicate IsSkip(s: string) {
    && |s| == 4
    && (s[0] == 's' || s[0] == 'S')
    && (s[1] == 'k' || s[1] == 'K' || s[1] == '\U{212A}')
    && (s[2] == 'i' || s[2] == 'I')
    && (s[3] == 'p' || s[3] == 'P')
  }

  /** The user's lines as the loop reads them: `input(...).strip()`. */
  function Answers(responses: seq<string>): (r: seq<string>)
    ensures |r| == |responses|
  {
    if responses == [] then []
    else Answers(responses[..|responses| - 1]) + [Strip(responses[|responses| - 1])]
  }

  /** What one stripped answer does to its subtask (agent.py:34-39): `skip`
      drops it, another non-empty answer replaces it, an empty one keeps it. */
  function Decide(task: string, answer: string): seq<string> {
    if IsSkip(answer) then []
    else if answer != [] then [answer]
    else [task]
  }

  /** The subtask kept for an answer that is not `skip`. */
  function Chosen(task: string, answer: string): string {
    if answer != [] then answer else task
  }

  /** The `refined_tasks` list after the loop, one answer per task. */
  function Refined(tasks: seq<string>, answers: seq<string>): seq<string>
    requires |answers| == |tasks|
  {
    if tasks == [] then []
    else Refined(tasks[..|tasks| - 1], answers[..|tasks| - 1]) + Decide(tasks[|tasks| - 1], answers[|tasks| - 1])
  }

  /** The subtasks that get processed (agent.py:29-41): the answers are read
      one per subtask, `input()` raises `EOFError` when they run out, and the
      original subtasks are kept if every one was skipped. */
  function Refinement(tasks: seq<string>, responses: seq<string>): Result<seq<string>, Exception> {
    if |responses| < |tasks| then Err(EOFError)
    else
      var refined := Refined(tasks, Answers(responses[..|tasks|]));
      Ok(if refined == [] then tasks else refined)
  }

  // ---------------------------------------------------------------------
  // Retrieval, trace, report

  /** `task_results` (agent.py:44-48): five documents retrieved per subtask,
      in order; an exception of the store ends the query. */
  function RetrieveAll(st: StoreState, sim: (Vec, Vec) -> real, embed: string -> Vec, tasks: seq<string>)
    : Result<seq<TaskResult>, Exception>
    decreases |tasks|
  {
    if tasks == [] then Ok([])
    else
      match RetrieveAll(st, sim, embed, tasks[..|tasks| - 1])
      case Err(e) => Err(e)
      case Ok(results) =>
        var task := tasks[|tasks| - 1];
        match Retrieve(st, sim, embed(task), TopDocs)
        case Err(e) => Err(e)
        case Ok(docs) => Ok(results + [TaskResult(task, docs)])
  }

  /** `doc['content'][:120]`. */
  function Preview(content: string): string {
    Take(content, 120)
  }

  function DocLine(formatScore: real -> string, h: Hit): string {
    "- (" + formatScore(h.score) + ") " + Preview(h.content) + "...\n"
  }

  function DocLines(formatScore: real -> string, docs: seq<Hit>): string {
    if docs == [] then ""
    else DocLines(formatScore, docs[..|docs| - 1]) + DocLine(formatScore, docs[|docs| - 1])
  }

  function BlockHead(n: nat, task: string): string {
    "\nSubtask " + Decimal(n) + ": " + task + "\n"
  }

  /** The part of the trace for the `n`-th result (agent.py:53-59). */
  function Block(formatScore: real -> string, n: nat, r: TaskResult): string {
    BlockHead(n, r.task) +
    if r.docs != [] then "Relevant documents considered:\n" + DocLines(formatScore, r.docs)
    else NoDocsLine
  }

  /** `reasoning_details` (agent.py:51-59). */
  function Trace(formatScore: real -> string, results: seq<TaskResult>): string {
    if results == [] then TraceHeader
    else Trace(formatScore, results[..|results| - 1]) + Block(formatScore, |results|, results[|results| - 1])
  }

  /** `all_docs` (agent.py:62): the documents of every result, in order. */
  function AllDocs(results: seq<TaskResult>): seq<Hit> {
    if results == [] then [] else AllDocs(results[..|results| - 1]) + results[|results| - 1].docs
  }

  /** `final_report` (agent.py:66). */
  function Report(query: string, explanation: string, trace: string, summary: string): string {
    "Query: " + query + "\n\nInitial Reasoning:\n" + explanation + "\n\n" + trace + "\nSummary:\n" + summary
  }

  /** What `process_query` returns: the report and the task results. The
      explanation is that of the subtasks before refinement. */
  function Answer(st: StoreState, sim: (Vec, Vec) -> real, embed: string -> Vec, formatScore: real -> string,
                  query: string, responses: seq<string>): Result<(string, seq<TaskResult>), Exception>
  {
    var tasks := BreakDownQuery(query);
    match Refinement(tasks, responses)
    case Err(e) => Err(e)
    case Ok(refined) =>
      match RetrieveAll(st, sim, embed, refined)
      case Err(e) => Err(e)
      case Ok(results) =>
        var report := Report(query, Explanation(tasks), Trace(formatScore, results), Summary(AllDocs(results)));
        Ok((report, results))
  }

  /** `export_report(text, format)` (agent.py:69-75). */
  function ExportReport(text: string, format: string := "pdf"): (r: Result<Exported, Exception>)
    ensures r.Ok? <==> format == "pdf" || format == "md"
  {
    if format == "pdf" then Ok(ExportedPdf(text))
    else if format == "md" then Ok(ExportedMd(text))
    else Err(ValueError("Format must be 'pdf' or 'md'"))
  }

  // ---------------------------------------------------------------------
  // The agent

  class ResearchAgent {
    /** `embedding_engine.generate_embedding`. */
    const embed: string -> Vec
    /** `f"{score:.3f}"`. */
    const formatScore: real -> string
    const storage: VectorStorage

    /** `ResearchAgent.__init__` (agent.py:11-16) on a new storage directory. */
    constructor (embed: string -> Vec, formatScore: real -> string, sim: (Vec, Vec) -> real)
      ensures this.embed == embed && this.formatScore == formatScore
      ensures fresh(storage) && storage.sim == sim && storage.State() == Empty
    {
      this.embed := embed;
      this.formatScore := formatScore;
      storage := new VectorStorage(sim);
    }

    method AddDocuments(documents: seq<InputDoc>) returns (err: Option<Exception>)
      modifies storage
      ensures (storage.State(), err) == StoreAll(old(storage.State()), documents, embed)
    {
      for i := 0 to |documents|
        invariant (storage.State(), None) == StoreAll(old(storage.State()), documents[..i], embed)
      {
        var doc := documents[i];
        var emb := embed(doc.content);
        StoreAllStep(old(storage.State()), documents, embed, i);
        err := storage.StoreDocument(doc.id, doc.content, MetadataOf(doc), emb);
        if err.Some? {
          StoreAllFailureStays(old(storage.State()), documents, embed, i + 1);
          return;
        }
      }
      assert documents[..|documents|] == documents;
      err := None;
    }

    /** The retrieval loop of `process_query` (agent.py:44-48). */
    method RetrieveTasks(tasks: seq<string>) returns (r: Result<seq<TaskResult>, Exception>)
      ensures r == RetrieveAll(storage.State(), storage.sim, embed, tasks)
    {
      var results: seq<TaskResult> := [];
      for i := 0 to |tasks|
        invariant RetrieveAll(storage.State(), storage.sim, embed, tasks[..i]) == Ok(results)
      {
        assert tasks[..i + 1][..i] == tasks[..i];
        var task := tasks[i];
        var docs := storage.RetrieveSimilar(embed(task), TopDocs);
        if docs.Err? {
          RetrieveAllFailureStays(storage.State(), storage.sim, embed, tasks, i + 1);
          return Err(docs.error);
        }
        results := results + [TaskResult(task, docs.value)];
      }
      assert tasks[..|tasks|] == tasks;
      r := Ok(results);
    }

    /** `process_query(query)` (agent.py:23-67), with `responses` the lines the
        user types, in order. */
    method ProcessQuery(query: string, responses: seq<string>)
      returns (r: Result<(string, seq<TaskResult>), Exception>)
      ensures r == Answer(storage.State(), storage.sim, embed, formatScore, query, responses)
    {
      var tasks := BreakDownQuery(query);
      var explanation := ExplainReasoning(tasks);
      var refined := RefineTasks(tasks, responses);
      if refined.Err? {
        return Err(refined.error);
      }
      var results := RetrieveTasks(refined.value);
      if results.Err? {
        return Err(results.error);
      }
      var details := ReasoningDetails(formatScore, results.value);
      var summary := Summarize(AllDocs(results.value));
      var report := "Query: " + query + "\n\nInitial Reasoning:\n" + explanation + "\n\n" + details + "\nSummary:\n" + summary;
      r := Ok((report, results.value));
    }
  }

  /** The refinement loop of `process_query` (agent.py:29-41). */
  method RefineTasks(tasks: seq<string>, responses: seq<string>) returns (r: Result<seq<string>, Exception>)
    ensures r == Refinement(tasks, responses)
  {
    var refined: seq<string> := [];
    for i := 0 to |tasks|
      invariant i <= |responses|
      invariant refined == Refined(tasks[..i], Answers(responses[..i]))
    {
      if i >= |responses| {
        return Err(EOFError);
      }
      RefinedStep(tasks, responses, i);
      var answer := Strip(responses[i]);
      if IsSkip(answer) {
        continue;
      } else if answer != [] {
        refined := refined + [answer];
      } else {
        refined := refined + [tasks[i]];
      }
    }
    assert tasks[..|tasks|] == tasks;
    if refined == [] {
      refined := tasks;
    }
    r := Ok(refined);
  }

  /** The trace loop of `process_query` (agent.py:51-59). */
  method ReasoningDetails(formatScore: real -> string, results: seq<TaskResult>) returns (details: string)
    ensures details == Trace(formatScore, results)
  {
    details := "Detailed Reasoning Steps:\n";
    for idx := 0 to |results|
      invariant details == Trace(formatScore, results[..idx])
    {
      assert results[..idx + 1][..idx] == results[..idx];
      var res := results[idx];
      var block := "\nSubtask " + Decimal(idx + 1) + ": " + res.task + "\n";
      if res.docs != [] {
        var lines := ConsideredDocuments(formatScore, res.docs);
        block := block + "Relevant documents considered:\n" + lines;
      } else {
        block := block + "No relevant documents found.\n";
      }
      assert block == Block(formatScore, idx + 1, res);
      details := details + block;
    }
    assert results[..|results|] == results;
  }

  /** The inner loop of the trace (agent.py:56-57). */
  method ConsideredDocuments(formatScore: real -> string, docs: seq<Hit>) returns (lines: string)
    ensures lines == DocLines(formatScore, docs)
  {
    lines := "";
    for j := 0 to |docs|
      invariant lines == DocLines(formatScore, docs[..j])
    {
      assert docs[..j + 1][..j] == docs[..j];
      lines := lines + "- (" + formatScore(docs[j].score) + ") " + docs[j].content[..SliceEnd(|docs[j].content|, 120)] + "...\n";
    }
    assert docs[..|docs|] == docs;
  }

  // ---------------------------------------------------------------------
  // Lemmas about add_documents

  /** One more document after a run of successful stores is stored on the
      state they left. */
  lemma StoreAllStep(st: StoreState, docs: seq<InputDoc>, embed: string -> Vec, i: nat)
    requires i < |docs| && StoreAll(st, docs[..i], embed).1.None?
    ensures StoreAll(st, docs[..i + 1], embed) ==
      Stored(StoreAll(st, docs[..i], embed).0, docs[i].id, docs[i].content, MetadataOf(docs[i]), embed(docs[i].content))
  {
    assert docs[..i + 1][..i] == docs[..i];
  }

  /** Once a store has failed, the rest of the documents are not stored. */
  lemma {:induction false} StoreAllFailureStays(st: StoreState, docs: seq<InputDoc>, embed: string -> Vec, m: nat)
    requires m <= |docs| && StoreAll(st, docs[..m], embed).1.Some?
    ensures StoreAll(st, docs, embed) == StoreAll(st, docs[..m], embed)
    decreases |docs|
  {
    if m < |docs| {
      var init := docs[..|docs| - 1];
      assert init[..m] == docs[..m];
      StoreAllFailureStays(st, init, embed, m);
    } else {
      assert docs[..m] == docs;
    }
  }

  /** Ingesting documents with valid ids whose embeddings all have the
      store's width: nothing fails, the store stays valid, and the rows and
      the ids are appended in input order. */
  lemma {:induction false} StoreAllAppends(st: StoreState, docs: seq<InputDoc>, embed: string -> Vec, w: nat)
    requires Valid(st) && w > 0
    requires st.embeddings == [] || |st.embeddings[0]| == w
    requires forall i :: 0 <= i < |docs| ==> ValidId(docs[i].id) && |embed(docs[i].content)| == w
    ensures var (st', err) := StoreAll(st, docs, embed);
      && err.None? && Valid(st')
      && (st'.embeddings == [] || |st'.embeddings[0]| == w)
      && st'.embeddings == st.embeddings + RowsOf(docs, embed)
      && st'.ids == st.ids + IdsOf(docs)
    decreases |docs|
  {
    if docs != [] {
      var init := docs[..|docs| - 1];
      var d := docs[|docs| - 1];
      assert forall i :: 0 <= i < |init| ==> init[i] == docs[i];
      StoreAllAppends(st, init, embed, w);
      var s := StoreAll(st, init, embed).0;
      var e := embed(d.content);
      StoredAppends(s, d.id, d.content, MetadataOf(d), e);
      StoredPreservesValid(s, d.id, d.content, MetadataOf(d), e);
      var st' := StoreAll(st, docs, embed).0;
      assert st'.embeddings == s.embeddings + [e];
      assert s.embeddings != [] ==> st'.embeddings[0] == s.embeddings[0];
    }
  }

  /** When ingesting succeeds, every id names a document, the last document
      given for an id is the one kept, and documents whose id is not ingested
      are untouched. */
  lemma {:induction false} StoreAllDocs(st: StoreState, docs: seq<InputDoc>, embed: string -> Vec)
    requires StoreAll(st, docs, embed).1.None?
    ensures var st' := StoreAll(st, docs, embed).0;
      && (forall i :: 0 <= i < |docs| ==> docs[i].id in st'.docs)
      && (forall i :: 0 <= i < |docs| && (forall j :: i < j < |docs| ==> docs[j].id != docs[i].id) ==>
            st'.docs[docs[i].id] == Doc(docs[i].content, MetadataOf(docs[i])))
      && (forall key :: key in st.docs && key !in IdsOf(docs) ==> key in st'.docs && st'.docs[key] == st.docs[key])
    decreases |docs|
  {
    if docs != [] {
      var n := |docs| - 1;
      var init := docs[..n];
      var d := docs[n];
      StoreAllDocs(st, init, embed);
      var s := StoreAll(st, init, embed).0;
      var st' := StoreAll(st, docs, embed).0;
      StoredDocs(s, d.id, d.content, MetadataOf(d), embed(d.content));
      assert st'.docs == s.docs[d.id := Doc(d.content, MetadataOf(d))];
      forall i | 0 <= i < |docs| ensures docs[i].id in st'.docs {
        if i < n {
          assert docs[i].id == init[i].id;
        }
      }
      forall i | 0 <= i < |docs| && (forall j :: i < j < |docs| ==> docs[j].id != docs[i].id)
        ensures st'.docs[docs[i].id] == Doc(docs[i].content, MetadataOf(docs[i]))
      {
        if i < n {
          assert docs[n].id != docs[i].id;
          assert docs[i] == init[i];
          assert forall j :: i < j < n ==> init[j] == docs[j];
        }
      }
      forall key | key in st.docs && key !in IdsOf(docs)
        ensures key in st'.docs && st'.docs[key] == st.docs[key]
      {
        assert key !in IdsOf(init);
      }
    }
  }

  // ---------------------------------------------------------------------
  // Lemmas about refinement

  /** Answer `i` is line `i` stripped. */
  lemma {:induction false} AnswersAt(responses: seq<string>, i: nat)
    requires i < |responses|
    ensures Answers(responses)[i] == Strip(responses[i])
    decreases |responses|
  {
    var n := |responses| - 1;
    if i < n {
      AnswersAt(responses[..n], i);
      assert Answers(responses)[i] == Answers(responses[..n])[i];
    }
  }

  /** One more turn of the refinement loop. */
  lemma RefinedStep(tasks: seq<string>, responses: seq<string>, i: nat)
    requires i < |tasks| && i < |responses|
    ensures Refined(tasks[..i + 1], Answers(responses[..i + 1])) ==
      Refined(tasks[..i], Answers(responses[..i])) + Decide(tasks[i], Strip(responses[i]))
  {
    var prev := Answers(responses[..i]);
    assert responses[..i + 1][..i] == responses[..i];
    var next := Answers(responses[..i + 1]);
    assert next == prev + [Strip(responses[i])];
    assert next[..i] == prev && next[i] == Strip(responses[i]);
    assert tasks[..i + 1][..i] == tasks[..i];
  }

  /** A `skip` answer drops its subtask; any other answer keeps one subtask,
      the answer itself if it is not blank and the suggestion otherwise. */
  lemma DecideCases(task: string, answer: string)
    ensures Decide(task, answer) == [] <==> IsSkip(answer)
    ensures !IsSkip(answer) ==> Decide(task, answer) == [Chosen(task, answer)]
    ensures Chosen(task, answer) == answer <==> answer != [] || task == []
  {
  }

  /** Refinement never adds a subtask; each refined subtask is the suggested
      one or an answer. */
  lemma {:induction false} RefinedShape(tasks: seq<string>, answers: seq<string>)
    requires |answers| == |tasks|
    ensures |Refined(tasks, answers)| <= |tasks|
    ensures forall t :: t in Refined(tasks, answers) ==> t in tasks || t in answers
  {
    if tasks != [] {
      var n := |tasks| - 1;
      RefinedShape(tasks[..n], answers[..n]);
      forall t | t in Refined(tasks, answers) ensures t in tasks || t in answers {
        if t in Refined(tasks[..n], answers[..n]) {
          if t in tasks[..n] {
            var j :| 0 <= j < n && tasks[..n][j] == t;
            assert tasks[j] == t;
          } else {
            var j :| 0 <= j < n && answers[..n][j] == t;
            assert answers[j] == t;
          }
        } else {
          assert t in Decide(tasks[n], answers[n]);
        }
      }
    }
  }

  /** With no `skip` among the answers, the order and the number of subtasks
      are kept: subtask `i` is answer `i`, or the suggestion if that answer
      was blank. */
  lemma {:induction false} RefinedNoSkip(tasks: seq<string>, answers: seq<string>)
    requires |answers| == |tasks|
    requires forall i :: 0 <= i < |answers| ==> !IsSkip(answers[i])
    ensures Refined(tasks, answers) == seq(|tasks|, i requires 0 <= i < |tasks| => Chosen(tasks[i], answers[i]))
  {
    if tasks != [] {
      var n := |tasks| - 1;
      assert forall i :: 0 <= i < n ==> answers[..n][i] == answers[i];
      RefinedNoSkip(tasks[..n], answers[..n]);
      var all := seq(|tasks|, i requires 0 <= i < |tasks| => Chosen(tasks[i], answers[i]));
      var init := seq(n, i requires 0 <= i < n => Chosen(tasks[..n][i], answers[..n][i]));
      assert all == init + [Chosen(tasks[n], answers[n])];
    }
  }

  /** Skipping every subtask leaves none. */
  lemma {:induction false} RefinedAllSkipped(tasks: seq<string>, answers: seq<string>)
    requires |answers| == |tasks|
    requires forall i :: 0 <= i < |answers| ==> IsSkip(answers[i])
    ensures Refined(tasks, answers) == []
  {
    if tasks != [] {
      var n := |tasks| - 1;
      assert forall i :: 0 <= i < n ==> answers[..n][i] == answers[i];
      RefinedAllSkipped(tasks[..n], answers[..n]);
    }
  }

  /** The refinement step: an `EOFError` exactly when there are fewer lines
      than subtasks; the suggested subtasks when every one was skipped; and
      never an empty list unless the query gave no subtask. */
  lemma RefinementContract(tasks: seq<string>, responses: seq<string>)
    ensures Refinement(tasks, responses).Err? <==> |responses| < |tasks|
    ensures Refinement(tasks, responses).Err? ==> Refinement(tasks, responses).error == EOFError
    ensures (|responses| >= |tasks| && forall i :: 0 <= i < |tasks| ==> IsSkip(Strip(responses[i]))) ==>
      Refinement(tasks, responses) == Ok(tasks)
    ensures Refinement(tasks, responses).Ok? && tasks != [] ==> Refinement(tasks, responses).value != []
  {
    if |responses| >= |tasks| && (forall i :: 0 <= i < |tasks| ==> IsSkip(Strip(responses[i]))) {
      AnswersPrefix(responses, |tasks|);
      RefinedAllSkipped(tasks, Answers(responses[..|tasks|]));
    }
  }

  /** No line is `skip`: every subtask is kept, in order, replaced by its
      stripped line unless that line is blank. */
  lemma RefinementNoSkip(tasks: seq<string>, responses: seq<string>)
    requires |responses| >= |tasks|
    requires forall i :: 0 <= i < |tasks| ==> !IsSkip(Strip(responses[i]))
    ensures Refinement(tasks, responses).Ok?
    ensures |Refinement(tasks, responses).value| == |tasks|
    ensures forall i :: 0 <= i < |tasks| ==> Refinement(tasks, responses).value[i] == Chosen(tasks[i], Strip(responses[i]))
  {
    var answers := Answers(responses[..|tasks|]);
    AnswersPrefix(responses, |tasks|);
    RefinedNoSkip(tasks, answers);
  }

  /** The answers of the first `n` lines are the first `n` lines stripped. */
  lemma AnswersPrefix(responses: seq<string>, n: nat)
    requires n <= |responses|
    ensures forall i :: 0 <= i < n ==> Answers(responses[..n])[i] == Strip(responses[i])
  {
    forall i | 0 <= i < n ensures Answers(responses[..n])[i] == Strip(responses[i]) {
      AnswersAt(responses[..n], i);
      assert responses[..n][i] == responses[i];
    }
  }

  // ---------------------------------------------------------------------
  // Lemmas about retrieval and the report

  lemma {:induction false} RetrieveAllFailureStays(st: StoreState, sim: (Vec, Vec) -> real, embed: string -> Vec,
                                                   tasks: seq<string>, m: nat)
    requires m <= |tasks| && RetrieveAll(st, sim, embed, tasks[..m]).Err?
    ensures RetrieveAll(st, sim, embed, tasks) == RetrieveAll(st, sim, embed, tasks[..m])
    decreases |tasks|
  {
    if m < |tasks| {
      var init := tasks[..|tasks| - 1];
      assert init[..m] == tasks[..m];
      RetrieveAllFailureStays(st, sim, embed, init, m);
    } else {
      assert tasks[..m] == tasks;
    }
  }

  /** On a valid store: one result per subtask, in order, each holding the
      documents `retrieve_similar` returns for it with `k = 5`, so
      `min(5, N)` of them. */
  lemma {:induction false} RetrieveAllContract(st: StoreState, sim: (Vec, Vec) -> real, embed: string -> Vec,
                                               tasks: seq<string>)
    requires Valid(st)
    ensures RetrieveAll(st, sim, embed, tasks).Ok?
    ensures var results := RetrieveAll(st, sim, embed, tasks).value;
      && |results| == |tasks|
      && forall i :: 0 <= i < |tasks| ==>
           && results[i].task == tasks[i]
           && Retrieve(st, sim, embed(tasks[i]), TopDocs) == Ok(results[i].docs)
           && |results[i].docs| == if |st.embeddings| < TopDocs then |st.embeddings| else TopDocs
    decreases |tasks|
  {
    if tasks != [] {
      var n := |tasks| - 1;
      RetrieveAllContract(st, sim, embed, tasks[..n]);
      RetrieveHits(st, sim, embed(tasks[n]), TopDocs);
      var prev := RetrieveAll(st, sim, embed, tasks[..n]).value;
      var results := RetrieveAll(st, sim, embed, tasks).value;
      forall i | 0 <= i < |tasks|
        ensures && results[i].task == tasks[i]
                && Retrieve(st, sim, embed(tasks[i]), TopDocs) == Ok(results[i].docs)
                && |results[i].docs| == if |st.embeddings| < TopDocs then |st.embeddings| else TopDocs
      {
        if i < n {
          assert results[i] == prev[i] && tasks[..n][i] == tasks[i];
        }
        RetrieveHits(st, sim, embed(tasks[i]), TopDocs);
      }
    }
  }

  /** Whatever the store, each successful result holds at most five documents. */
  lemma {:induction false} RetrieveAllAtMostFive(st: StoreState, sim: (Vec, Vec) -> real, embed: string -> Vec,
                                                 tasks: seq<string>)
    ensures RetrieveAll(st, sim, embed, tasks).Ok? ==>
      var results := RetrieveAll(st, sim, embed, tasks).value;
      |results| == |tasks| && forall i :: 0 <= i < |results| ==> results[i].task == tasks[i] && |results[i].docs| <= TopDocs
    decreases |tasks|
  {
    if tasks != [] {
      var n := |tasks| - 1;
      RetrieveAllAtMostFive(st, sim, embed, tasks[..n]);
      RetrieveAtMostK(st, sim, embed(tasks[n]), TopDocs);
      if RetrieveAll(st, sim, embed, tasks).Ok? {
        var prev := RetrieveAll(st, sim, embed, tasks[..n]).value;
        var results := RetrieveAll(st, sim, embed, tasks).value;
        assert results == prev + [results[n]];
        forall i | 0 <= i < |results| ensures results[i].task == tasks[i] && |results[i].docs| <= TopDocs {
          if i < n {
            assert results[i] == prev[i] && tasks[..n][i] == tasks[i];
          }
        }
      }
    }
  }

  /** A document line shows at most the first 120 characters of the content. */
  lemma PreviewContract(content: string)
    ensures |Preview(content)| == if |content| < 120 then |content| else 120
    ensures Preview(content) == content[..|Preview(content)|]
  {
  }

  /** A block opens with its numbered subtask line and ends with the
      no-documents line exactly when its result has no document. */
  lemma BlockContract(formatScore: real -> string, n: nat, r: TaskResult)
    ensures var b := Block(formatScore, n, r);
      && b[..|BlockHead(n, r.task)|] == "\nSubtask " + Decimal(n) + ": " + r.task + "\n"
      && (r.docs == [] <==> |b| >= |NoDocsLine| && b[|b| - |NoDocsLine|..] == NoDocsLine)
  {
    var b := Block(formatScore, n, r);
    var head := BlockHead(n, r.task);
    if r.docs != [] {
      var prefix := head + "Relevant documents considered:\n" + DocLines(formatScore, r.docs[..|r.docs| - 1]);
      var last := DocLine(formatScore, r.docs[|r.docs| - 1]);
      assert b == prefix + last;
      assert last[|last| - 4] == '.';
      if |b| >= |NoDocsLine| {
        assert b[|b| - 4] == last[|last| - 4];
        assert b[|b| - |NoDocsLine|..][|NoDocsLine| - 4] == b[|b| - 4];
        assert NoDocsLine[|NoDocsLine| - 4] == 'n';
      }
    }
  }

  /** `all_docs` keeps every document of every result, in order, with no
      deduplication across subtasks. */
  lemma {:induction false} AllDocsAppend(a: seq<TaskResult>, b: seq<TaskResult>)
    ensures AllDocs(a + b) == AllDocs(a) + AllDocs(b)
    decreases |b|
  {
    if b == [] {
      assert a + b == a;
    } else {
      var init := b[..|b| - 1];
      assert (a + b)[..|a + b| - 1] == a + init;
      AllDocsAppend(a, init);
    }
  }

  /** With at most five documents per result, `all_docs` holds at most five
      per subtask. */
  lemma {:induction false} AllDocsLength(results: seq<TaskResult>)
    requires forall i :: 0 <= i < |results| ==> |results[i].docs| <= TopDocs
    ensures |AllDocs(results)| <= TopDocs * |results|
    decreases |results|
  {
    if results != [] {
      var init := results[..|results| - 1];
      assert forall i :: 0 <= i < |init| ==> init[i] == results[i];
      AllDocsLength(init);
    }
  }

  /** A query with no subtask: nothing is asked, nothing is retrieved, and the
      report holds the bare explanation header, the bare trace header and the
      no-content summary. */
  lemma AnswerNoTasks(st: StoreState, sim: (Vec, Vec) -> real, embed: string -> Vec, formatScore: real -> string,
                      query: string, responses: seq<string>)
    requires forall i :: 0 <= i < |query| ==> query[i] in Separators || IsSpace(query[i])
    ensures Answer(st, sim, embed, formatScore, query, responses) ==
      Ok((Report(query, HeaderLine + "\n", TraceHeader, NoContent), []))
  {
    BreakDownBlank(query);
    assert Refinement([], responses) == Ok([]);
    assert RetrieveAll(st, sim, embed, []) == Ok([]);
    assert AllDocs([]) == [];
    SummaryEmpty();
  }

  /** On a valid store with an answer for every subtask, the query succeeds;
      its results are the refined subtasks in order, each with its retrieved
      documents, and the report is assembled from them. */
  lemma AnswerContract(st: StoreState, sim: (Vec, Vec) -> real, embed: string -> Vec, formatScore: real -> string,
                       query: string, responses: seq<string>)
    requires Valid(st) && |responses| >= |BreakDownQuery(query)|
    ensures var tasks := BreakDownQuery(query);
      var answer := Answer(st, sim, embed, formatScore, query, responses);
      var refined := Refinement(tasks, responses);
      && refined.Ok? && answer.Ok?
      && |answer.value.1| == |refined.value|
      && (forall i :: 0 <= i < |refined.value| ==>
            answer.value.1[i].task == refined.value[i] &&
            Retrieve(st, sim, embed(refined.value[i]), TopDocs) == Ok(answer.value.1[i].docs))
      && answer.value.0 == Report(query, Explanation(tasks), Trace(formatScore, answer.value.1),
                                  Summary(AllDocs(answer.value.1)))
  {
    var tasks := BreakDownQuery(query);
    RefinementContract(tasks, responses);
    RetrieveAllContract(st, sim, embed, Refinement(tasks, responses).value);
  }

  /** `export_report`: `pdf` and `md` go to the exporter, anything else raises
      `ValueError`. */
  lemma ExportDispatch(text: string, format: string)
    ensures ExportReport(text, format) == Ok(ExportedPdf(text)) <==> format == "pdf"
    ensures ExportReport(text, format) == Ok(ExportedMd(text)) <==> format == "md"
    ensures ExportReport(text, format).Err? <==>
      ExportReport(text, format) == Err(ValueError("Format must be 'pdf' or 'md'"))
    ensures ExportReport(text) == Ok(ExportedPdf(text))
  {
  }
}
