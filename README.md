# A verified model of the Deep Researcher Agent core

The Deep Researcher Agent is a local research assistant. It embeds
documents, keeps them in a small on-disk vector store, splits a research
query into subtasks, lets the user refine those subtasks, retrieves the five
most similar documents for each one, and writes a report with a reasoning
trace and an extractive summary. This Dafny project models the four
pieces of that pipeline and proves what each one promises:

- `VectorStorage` (`research_agent/storage.py`) is `Storage.VectorStorage`, a class. It has:
  - `docs: map<string, Doc>`;
  - `embeddings: seq<Vec>`;
  - `ids: seq<string>`, the parallel list of row ids.

  Storing a document overwrites the map entry and appends one row and one
  id. The ids always pass through the id file's text form
  (`IdsFile.SaveIds`, then `IdsFile.LoadIds`), as the source does on every
  call. Storing models the failing `vstack` on a row of another width
  exactly: the documents entry is already written, the matrix and the ids
  stay as they were. Retrieval handles two pieces of the source exactly:
  - the numpy `size == 0` test;
  - the reverse sort of `(score, index)` tuples, so the higher index wins a
    tie.

  The cosine score is an arbitrary function `sim` fixed at construction.
- `MultiStepReasoner` (`research_agent/reasoning.py`) is the `Reasoning` module:
  - `BreakDownQuery` is the regex split on `.` and `;`, then strip, then
    drop blanks;
  - `ExplainReasoning` is the numbered explanation, built by a loop.
- `ExtractiveSummarizer` (`research_agent/summarizer.py`) is the `Summarizer`
  module. It produces one line `- <str(list)>.` per document, where the list
  comes from `content.split(".")`. It includes Python's `repr` of a string,
  so the rendered line is the one the program prints.
- `ResearchAgent` (`research_agent/agent.py`) is `Agent.ResearchAgent`:
  - the ingest loop;
  - the skip/replace/accept refinement with its fallback;
  - the k = 5 retrieval loop;
  - the trace, the flattened document list and the report;
  - the export dispatch.

  The user's typed lines, the embedder and the score formatter are
  parameters.

`Text` holds the Python string operations the code relies on:
- `str.isspace`, `strip`;
- `re.split` on a character class, `str.join`;
- `str.splitlines` with all of its line boundaries;
- decimal rendering of integers.

`Ranking` holds the sort and the slice. `Results` holds the `Option`/`Result`
types and the exceptions that escape.

Where the program's own description and its code differ, the model follows
the code:
- There is no id deduplication. A second store of an id adds a second row
  whose id resolves to the newer document (`Storage.StoredTwice`).
- Ties are not broken by insertion order. The higher store index comes first
  (`Storage.RetrieveRanked`).
- Splitting uses `.` and `;` only, with no fallback. A query of separators
  and spaces yields no subtask (`Reasoning.BreakDownBlank`).
- The summarizer does not score sentences. Its comment says "first sentence
  of each doc" (summarizer.py:4), but the code renders the whole split list.

Two consequences of the code as written are proved rather than corrected,
because each follows from inputs the program does not check:
- An empty id is dropped by the id file, so the matrix gains a row without
  an id (`Storage.StoredBlankId`).
- An id with a newline inside is split by the id file. Stored into an empty
  store, the id `"a\nb"` comes back as the ids `a` and `b`, neither of which
  names a document, and the next retrieval raises `KeyError`
  (`Storage.StoredMultilineId`). In a store that already holds documents the
  pieces may name older documents, and a retrieval fails only when it picks
  a misaligned row; the model proves only the empty-store case.

## Model

| member | source | states |
|---|---|---|
| `Text.IsSpace` | research_agent/reasoning.py:7 | the definition of `str.isspace()` for one character: the Unicode whitespace `strip()` removes, including `\x1c`-`\x1f`, `\x85` and `\u3000` |
| `Text.Strip` | research_agent/reasoning.py:7 | the definition of `strip()` as `rstrip` of `lstrip`; what it keeps is stated by `Text.StripContract` |
| `Text.TrimStartContract` | research_agent/reasoning.py:7 | the result is a suffix of the input, everything dropped is whitespace, and it starts with a non-space |
| `Text.TrimEndContract` | research_agent/reasoning.py:7 | the result is a prefix, everything dropped is whitespace, and it ends with a non-space |
| `Text.StripContract` | research_agent/reasoning.py:7 | `strip()` has no whitespace at either end, is empty exactly for all-whitespace input, and keeps only input characters |
| `Text.StripStripped` | research_agent/reasoning.py:7 | stripping a stripped string changes nothing |
| `Text.SplitOn` | research_agent/reasoning.py:6 | `re.split` on a character class gives as many pieces as separators, plus one |
| `Text.SplitOnPiecesClean` | research_agent/reasoning.py:6 | no piece of the split holds a separator |
| `Text.CountInZero` | research_agent/reasoning.py:6 | a string has no separator exactly when its separator count is 0 |
| `Text.Join` | research_agent/storage.py:53 | the definition of `sep.join(parts)`: no separator for zero or one part; `Text.JoinSplitOn` and `IdsFile.IdsRoundTrip` are its partners |
| `Text.JoinSplitOn` | research_agent/summarizer.py:7 | joining the pieces of a split on `c` with `c` gives the string back |
| `Text.SplitOnNone` | research_agent/reasoning.py:6 | without a separator the split is the string alone |
| `Text.SplitOnBlank` | research_agent/reasoning.py:6 | a string of separators and spaces splits into blank pieces only |
| `Text.JoinNoLineBoundary` | research_agent/storage.py:53 | joining boundary-free parts with a boundary-free separator adds no line boundary |
| `Text.SplitLines` | research_agent/storage.py:48 | the definition of `splitlines()`: all Unicode line boundaries, `\r\n` as one, no empty line after a final boundary; its behaviour is stated by the three lemmas below |
| `Text.SplitLinesOfLine` | research_agent/storage.py:48 | `splitlines` of `b + "\n" + rest` is `b` followed by the lines of `rest` |
| `Text.SplitLinesNoBoundary` | research_agent/storage.py:48 | a boundary-free string is one line, or none when empty |
| `Text.SplitLinesTerminated` | research_agent/storage.py:48 | newline-terminated boundary-free lines split back into exactly those lines |
| `Text.Decimal` | research_agent/reasoning.py:13 | `f"{n}"` is a non-empty string of decimal digits |
| `Text.DecimalRoundTrip` | research_agent/reasoning.py:13 | the digits denote `n`, and only 0 starts with `0` |
| `IdsFile.SaveIds` | research_agent/storage.py:51-53 | the definition of `_save_ids`: the ids joined by `\n`; `IdsFile.IdsRoundTrip` is its partner |
| `IdsFile.LoadIds` | research_agent/storage.py:46-49 | the definition of `_load_ids`: `splitlines()` of the file then blank lines dropped; `IdsFile.LoadIdsValid` states what it returns |
| `IdsFile.NonEmpty` | research_agent/storage.py:49 | the definition of `[i for i in ids if i]`, keeping order; `IdsFile.NonEmptyAppend` is its law |
| `IdsFile.IdsRoundTrip` | research_agent/storage.py:46-53 | `_load_ids(_save_ids(ids)) == ids` when every id is non-empty and boundary-free |
| `IdsFile.IdsRoundTripDropsBlank` | research_agent/storage.py:46-53 | with boundary-free ids, the round trip drops exactly the empty ids and keeps the rest in order |
| `IdsFile.IdsRoundTripCounterexamples` | research_agent/storage.py:46-53 | `["", "x"]` and `["x", ""]` come back as `["x"]`, and `["a\nb"]` as `["a", "b"]` |
| `IdsFile.LoadIdsValid` | research_agent/storage.py:46-49 | every id loaded from any file text is non-empty and boundary-free |
| `IdsFile.NonEmptyAppend` | research_agent/storage.py:49 | filtering blanks distributes over concatenation |
| `Ranking.Insert` | research_agent/storage.py:71 | inserting adds exactly one element (as a multiset) |
| `Ranking.SortDescending` | research_agent/storage.py:71 | the sort is a permutation of its input |
| `Ranking.SortDescendingSorts` | research_agent/storage.py:71 | on pairwise-distinct tuples the sort is strictly descending in Python's tuple order |
| `Ranking.DescendingUnique` | research_agent/storage.py:71 | two strictly descending permutations of one multiset are equal, so any correct `list.sort(reverse=True)` gives this result |
| `Ranking.TakeContract` | research_agent/storage.py:72 | `s[:k]` is a prefix of `s`; item `i` is kept exactly when `i < k` for `k >= 0`, or when it is not among the last `-k` items for `k < 0` |
| `Ranking.RankedContract` | research_agent/storage.py:67-71 | every row is ranked exactly once with its own score, in strictly descending `(score, index)` order |
| `Ranking.TopKContract` | research_agent/storage.py:67-72 | `top_k` has `SliceEnd(N, k)` tuples with their own scores, non-increasing, the higher index first in a tie, and no omitted row scores above a chosen one |
| `Storage.Stored` | research_agent/storage.py:23-44 | the definition of `store_document` on the state: the documents entry written first; the matrix replaced by the row when its size is 0, else the row appended, or `vstack`'s error with rows and ids unchanged; the id file rewritten with the id appended. Its laws are the `Storage.Stored*` lemmas |
| `Storage.Lookup` | research_agent/storage.py:74-83 | the definition of the result loop: each chosen pair looks up `ids[idx]` (`IndexError` past the end), then the document (`KeyError`); `Storage.LookupValid` and `Storage.LookupFailureStays` are its laws |
| `Storage.Retrieve` | research_agent/storage.py:64-83 | the definition of `retrieve_similar`: `[]` for a matrix of size 0, else `Lookup` of the top `k` ranked pairs; `Storage.RetrieveHits`, `Storage.RetrieveRanked` and `Storage.RetrieveAtMostK` state what it returns |
| `Storage.VectorStorage.constructor` | research_agent/storage.py:7-21 | a new store is empty and valid |
| `Storage.VectorStorage.StoreDocument` | research_agent/storage.py:23-44 | the new state and error are those of `Stored`: the map entry written first, then the row appended (or the matrix replaced when its size is 0, or `DimensionMismatch`), then the ids reloaded after `ids + [doc_id]` is saved |
| `Storage.VectorStorage.RetrieveSimilar` | research_agent/storage.py:55-83 | the result equals `Retrieve` on the current state: `[]` on an empty matrix, or the lookup of every chosen `(score, idx)` with `IndexError`/`KeyError` when a row has no id or document |
| `Storage.StoredDocs` | research_agent/storage.py:24-28 | storing sets `docs[id]` to the new document, overwriting, and leaves every other key unchanged, even when the call then fails |
| `Storage.StoredAppends` | research_agent/storage.py:38-44 | on a valid store with a valid id it fails exactly on a width mismatch; success appends the row and the id at the end, failure leaves rows and ids alone |
| `Storage.StoredPreservesValid` | research_agent/storage.py:26 | storing a valid id with a non-empty row keeps `|embeddings| == |ids|`, every id a key of `docs`, and a rectangular matrix |
| `Storage.StoredKeepsMatrix` | research_agent/storage.py:38-41 | whatever the id, the rows stay a matrix |
| `Storage.StoredTwice` | research_agent/storage.py:26 | storing an id twice leaves it on two rows, both resolving to the newer document |
| `Storage.StoredBlankId` | research_agent/storage.py:44 | an empty id is dropped by the id file, so the rows outnumber the ids by one |
| `Storage.StoredMultilineId` | research_agent/storage.py:44 | the id `"a\nb"` becomes the ids `a` and `b`, and retrieval with k=5 raises `KeyError("a")` |
| `Storage.ValidSizeZero` | research_agent/storage.py:64 | on a valid store, numpy's size is 0 exactly when there are no rows |
| `Storage.LookupValid` | research_agent/storage.py:74-83 | on a valid store with in-range indices, the result loop succeeds with one hit per tuple of the row's id, content, metadata and score |
| `Storage.LookupFailureStays` | research_agent/storage.py:75-80 | once a lookup fails on a prefix, the whole lookup fails the same way |
| `Storage.RetrieveEmptyStore` | research_agent/storage.py:64-65 | a store with no rows returns `[]` |
| `Storage.RetrieveHits` | research_agent/storage.py:72-83 | on a valid store retrieval succeeds with `min(k, N)` results for `k >= 0`, each carrying `ids[idx]`, that document's content and metadata, and the row's score |
| `Storage.RetrieveRanked` | research_agent/storage.py:67-72 | results are in non-increasing score order, the higher store index first in a tie, and every returned score is at least every omitted one |
| `Storage.RetrieveAtMostK` | research_agent/storage.py:72 | a successful retrieval returns at most `k` results |
| `Reasoning.Kept` | research_agent/reasoning.py:7 | the definition of `[t.strip() for t in tasks if t.strip()]`, keeping order; `Reasoning.KeptAppend` is its law |
| `Reasoning.BreakDownQuery` | research_agent/reasoning.py:3-8 | the definition of `break_down_query`: the split on `[.;]`, then `Kept`; its properties are the `Reasoning.BreakDown*` lemmas |
| `Reasoning.BreakDownTasksClean` | research_agent/reasoning.py:6-7 | every task is non-empty, stripped, and free of `.` and `;` |
| `Reasoning.BreakDownInOrder` | research_agent/reasoning.py:6-7 | the tasks of a prefix ending in a separator come before the tasks of the rest, so the query's order is kept |
| `Reasoning.BreakDownCount` | research_agent/reasoning.py:6-7 | there are at most (number of `.` and `;`) + 1 tasks |
| `Reasoning.BreakDownSingle` | research_agent/reasoning.py:6-8 | a non-blank query with no separator gives exactly `[query.strip()]` |
| `Reasoning.BreakDownBlank` | research_agent/reasoning.py:6-8 | a query of separators and whitespace gives `[]`, with no fallback |
| `Reasoning.TaskBreaksToItself` | research_agent/reasoning.py:6-7 | a well-formed task breaks down into itself alone |
| `Reasoning.BreakDownIdempotent` | research_agent/reasoning.py:6-7 | every returned task `t` satisfies `break_down_query(t) == [t]` |
| `Reasoning.Explanation` | research_agent/reasoning.py:10-14 | the definition of the explanation text: the header line, then `i. task` per task; `Reasoning.ExplanationLines` and `Reasoning.ExplanationSplitsBack` state its lines |
| `Reasoning.ExplainReasoning` | research_agent/reasoning.py:10-14 | the loop builds `Explanation(tasks)` |
| `Reasoning.ExplanationLines` | research_agent/reasoning.py:11-14 | the explanation is the header line and then `i. t` for each task from 1, each ended by a newline; no tasks means the header only |
| `Reasoning.ExplanationSplitsBack` | research_agent/reasoning.py:11-14 | with boundary-free tasks, the explanation's lines are exactly the header and the numbered tasks |
| `Summarizer.Hex` | research_agent/summarizer.py:8 | `width` lower-case hexadecimal digits |
| `Summarizer.HexRoundTrip` | research_agent/summarizer.py:8 | the hexadecimal digits denote the number |
| `Summarizer.EscapeCharRoundTrip` | research_agent/summarizer.py:8 | every escape `repr` writes for a character reads back as that character |
| `Summarizer.EscapedRoundTrip` | research_agent/summarizer.py:8 | the body of a `repr` reads back as the string |
| `Summarizer.ReprRoundTrip` | research_agent/summarizer.py:8 | `repr(s)` is quoted at both ends and unescapes to `s` |
| `Summarizer.ReprPlain` | research_agent/summarizer.py:8 | printable text without quotes or backslashes is rendered as itself in single quotes |
| `Summarizer.ReprNoLineBoundary` | research_agent/summarizer.py:8 | `repr` never writes a line boundary |
| `Summarizer.Repr` | research_agent/summarizer.py:8 | the definition of `repr(s)` for a `str`: the quote choice and the escapes; `Summarizer.ReprRoundTrip` is its inverse |
| `Summarizer.ListRepr` | research_agent/summarizer.py:8 | the definition of `str(list)` for a list of strings: `[`, the reprs joined by `, `, `]` |
| `Summarizer.SummaryLine` | research_agent/summarizer.py:7-8 | the definition of one document's line, `- ` then `str(content.split("."))` then `.`; `Summarizer.SummaryPieces` and `Summarizer.ReprNoLineBoundary` are its laws |
| `Summarizer.Summary` | research_agent/summarizer.py:3-9 | the definition of `summarize`: the lines of all documents, or the fixed sentence when there are none; its shape is stated by the `Summarizer.Summary*` lemmas |
| `Summarizer.Summarize` | research_agent/summarizer.py:3-9 | the loop computes `Summary(docs)` |
| `Summarizer.SummaryEmpty` | research_agent/summarizer.py:9 | no documents give exactly `"No content to summarize."` |
| `Summarizer.LinesTerminated` | research_agent/summarizer.py:6-8 | the output is one `- <split list>.` line per document, in input order, each ended by a newline |
| `Summarizer.SummaryNonEmpty` | research_agent/summarizer.py:8-9 | with documents, the output is those lines, starts with `- ` and never equals the fixed sentence |
| `Summarizer.SummarySplitsBack` | research_agent/summarizer.py:6-8 | splitting the output into lines gives exactly one line per document |
| `Summarizer.SummaryPieces` | research_agent/summarizer.py:7 | `content.split(".")` has count(`.`) + 1 pieces, and joining them with `.` gives the content |
| `Summarizer.SummaryReadsContent` | research_agent/summarizer.py:7 | only `doc["content"]` is read: documents with equal contents give equal output |
| `Agent.StoreAll` | research_agent/agent.py:18-21 | the definition of `add_documents` on the state: `store_document` per document in order, metadata defaulting to `{}`, the first exception ending the call; its laws are the `Agent.StoreAll*` lemmas |
| `Agent.ResearchAgent.constructor` | research_agent/agent.py:11-16 | the agent owns a fresh, empty store |
| `Agent.ResearchAgent.AddDocuments` | research_agent/agent.py:18-21 | the store ends as `StoreAll`: each document stored in input order with metadata defaulting to `{}`, the first exception ending the call |
| `Agent.StoreAllStep` | research_agent/agent.py:19-21 | after successful stores, the next document is stored on the state they left |
| `Agent.StoreAllFailureStays` | research_agent/agent.py:19-21 | after a failed store no later document is stored |
| `Agent.StoreAllAppends` | research_agent/agent.py:19-21 | valid ids of one positive width: no failure, the store stays valid, rows and ids appended in input order |
| `Agent.StoreAllDocs` | research_agent/agent.py:19-21 | after a successful ingest every id names a document, the last document given for an id is kept, and other documents are untouched |
| `Agent.IdsOf` | research_agent/agent.py:21 | one id per document |
| `Agent.Answers` | research_agent/agent.py:33 | one stripped answer per typed line |
| `Agent.AnswersAt` | research_agent/agent.py:33 | answer `i` is line `i` stripped |
| `Agent.IsSkip` | research_agent/agent.py:34 | the definition of `user_input.lower() == "skip"`, including the Kelvin sign that lowers to `k` |
| `Agent.Decide` | research_agent/agent.py:34-39 | the definition of one turn: `skip` drops the task, a non-empty answer replaces it, an empty one keeps it; `Agent.DecideCases` states the cases |
| `Agent.Refinement` | research_agent/agent.py:29-41 | the definition of the refinement: `EOFError` when lines run out, else the decisions in order with the fallback to all tasks; `Agent.RefinementContract` states what it returns |
| `Agent.RefineTasks` | research_agent/agent.py:29-41 | the loop computes `Refinement`: `EOFError` when lines run out, else the refined tasks or, if none is left, the suggested ones |
| `Agent.RefinedStep` | research_agent/agent.py:31-39 | one turn of the loop adds exactly the decision for its task and answer |
| `Agent.DecideCases` | research_agent/agent.py:34-39 | `skip` in any letter case drops the task; any other answer keeps one task, the answer if non-empty and the suggestion otherwise |
| `Agent.RefinedShape` | research_agent/agent.py:31-39 | refinement never adds a task, and each refined task is a suggestion or an answer |
| `Agent.RefinedNoSkip` | research_agent/agent.py:31-39 | without `skip`, task `i` is answer `i`, or the suggestion when the answer is blank, in order |
| `Agent.RefinedAllSkipped` | research_agent/agent.py:31-39 | skipping every task leaves none |
| `Agent.RefinementContract` | research_agent/agent.py:31-41 | `EOFError` exactly when there are fewer lines than tasks; all skipped gives the original tasks; the result is empty only when the query gave no task |
| `Agent.RefinementNoSkip` | research_agent/agent.py:31-41 | with no `skip` line, task `i` becomes its stripped line, or stays when that line is blank |
| `Agent.RetrieveAll` | research_agent/agent.py:44-48 | the definition of `task_results`: one k=5 retrieval per task in order, the first exception ending it; `Agent.RetrieveAllContract` states what it returns |
| `Agent.ResearchAgent.RetrieveTasks` | research_agent/agent.py:44-48 | the loop computes `RetrieveAll`: one k=5 retrieval per refined task, the first exception ending it |
| `Agent.RetrieveAllFailureStays` | research_agent/agent.py:45-48 | a failed retrieval ends the whole loop with its exception |
| `Agent.RetrieveAllContract` | research_agent/agent.py:44-48 | on a valid store there is one result per refined task, in order, holding that task's k=5 retrieval, so `min(5, N)` documents |
| `Agent.RetrieveAllAtMostFive` | research_agent/agent.py:44-48 | whatever the store, a successful loop gives one result per task with at most 5 documents each |
| `Agent.DocLine` | research_agent/agent.py:57 | the definition of one document's trace line: `- (score) ` then the 120-character preview then `...` |
| `Agent.Block` | research_agent/agent.py:53-59 | the definition of one subtask's part of the trace; `Agent.BlockContract` states its shape |
| `Agent.Trace` | research_agent/agent.py:51-59 | the definition of `reasoning_details`: the header, then a block per result numbered from 1 |
| `Agent.ReasoningDetails` | research_agent/agent.py:51-59 | the loop builds `Trace`: the header, then one block per result numbered from 1 |
| `Agent.ConsideredDocuments` | research_agent/agent.py:56-57 | the inner loop builds one `- (score) preview...` line per document, in order |
| `Agent.PreviewContract` | research_agent/agent.py:57 | the preview is the first `min(120, len)` characters of the content |
| `Agent.BlockContract` | research_agent/agent.py:53-59 | a block opens with `Subtask n: task` and ends with `No relevant documents found.` exactly when its result has no document |
| `Agent.AllDocs` | research_agent/agent.py:62 | the definition of `all_docs`, the flattened documents in order; `Agent.AllDocsAppend` and `Agent.AllDocsLength` are its laws |
| `Agent.AllDocsAppend` | research_agent/agent.py:62 | `all_docs` is the in-order concatenation of the results' documents, with no deduplication across subtasks |
| `Agent.AllDocsLength` | research_agent/agent.py:62 | with at most 5 documents per result, `all_docs` has at most 5 per subtask |
| `Agent.Report` | research_agent/agent.py:66 | the definition of `final_report`: query, explanation, trace and summary with the source's fixed separators |
| `Agent.Answer` | research_agent/agent.py:23-67 | the definition of `process_query`'s result: the explanation of the unrefined tasks, refinement, retrieval, trace, summary, report, every exception passed on; `Agent.AnswerContract` and `Agent.AnswerNoTasks` state what it returns |
| `Agent.ResearchAgent.ProcessQuery` | research_agent/agent.py:23-67 | the method returns `Answer`: the explanation of the suggested tasks, then refinement, retrieval, trace, summary and report, with every exception passed on |
| `Agent.AnswerContract` | research_agent/agent.py:23-67 | on a valid store with a line for every task, the query succeeds, its results are the refined tasks in order with their k=5 documents, and the report is assembled from them |
| `Agent.AnswerNoTasks` | research_agent/agent.py:23-67 | a query without tasks reads no line, retrieves nothing, and reports the bare header, the bare trace and the no-content sentence |
| `Agent.ExportReport` | research_agent/agent.py:69-75 | export succeeds exactly for `pdf` and `md` |
| `Agent.ExportDispatch` | research_agent/agent.py:69-75 | `pdf` goes to the PDF exporter, `md` to the Markdown one, anything else raises `ValueError("Format must be 'pdf' or 'md'")`; the default format is `pdf` |

## Left out

- Disk persistence: the JSON, `.npy` and `ids.txt` reads and writes are modelled as the in-memory state, not as files. The bare `except` paths that reset or return `[]` when a file cannot be read (storage.py:31-36, 56-62) are not modelled.
- Storage.VectorStorage.constructor: models a new, empty storage directory only. Reopening a directory that already holds files would keep their contents.
- Storage.VectorStorage.RetrieveSimilar: the score is an arbitrary real function `sim`, total on vectors of any widths. The cosine formula, floating point, and the NaN/inf values of a zero-norm vector are not modelled, so neither is how NaN orders in the sort. Nor is the `ValueError` that `np.dot` raises (storage.py:69) when the query's width differs from the rows' width: the model scores such a query, so `Storage.RetrieveHits`, `Agent.RetrieveAllContract` and `Agent.AnswerContract` promise success on a valid store whatever the query's width.
- JSON metadata is a `map<string, string>`. Nested JSON values and the JSON round trip of keys and values are not modelled.
- Agent.ResearchAgent.ProcessQuery: `print` is left out. `input()` is the list of lines the user types, and running out of lines is `EOFError`.
- Agent.ConsideredDocuments: `:.3f` score formatting is the `formatScore` parameter, not modelled digit by digit.
- The embedding engine (research_agent/embedding.py) is the function `embed`. The exporter (research_agent/exporter.py) is only the call made (`ExportedPdf`/`ExportedMd`), because rendering and file writes are a foreign library and I/O.
- Agent.ResearchAgent.AddDocuments: a document without `id` or `content` raises `KeyError` in the source. That cannot happen with the typed input record.
- Summarizer.Printable: approximates Python's `str.isprintable` for non-ASCII characters. Whitespace, common format controls and private-use code points are treated as non-printable. Unassigned code points and the rarer format controls count as printable, although Python escapes them.
- The Streamlit front end (streamlit_app.py) and the package re-exports (research_agent/__init__.py) are not part of this model.
- Concurrency and locking: the source has none, and the model has none.
