# Local-first assistant core, modelled in Dafny

This project models the deterministic core of a local-first personal assistant. The assistant answers questions from a folder of text notes (the vault), and its request handler `ask` works in these steps:

1. Re-scan the vault when it is missing or has changed.
2. Classify the question as factual, continuation or casual.
3. Answer a casual question directly through a chat model.
4. Otherwise retrieve the best keyword-matching chunks, rewriting pronouns first for a continuation.
5. Ask a model which sentences of those chunks are relevant (grounding).
6. Synthesise an answer from them.
7. Record factual answers in a small conversation history.

The model covers these parts:

- **Conversation store** (`ContextStore`, `context_manager.dfy`). The class `ContextManager` keeps its history as a `seq<Turn>` field and is updated through `modifies` methods. Each method is tied to a pure function on the old history (`AppendTrimmed`, `WithPreviousQuestion`, `WithLastAnswer`, `SummaryLines`), and those functions carry the lemmas.
- **Vault ingestion** (`Ingest`, `ingest.dfy`):
  - `chunk_text`: word windows of `chunk_size` words (300 by default), joined by spaces;
  - `normalize`;
  - the keyword retrieval `retrieve_relevant_chunks`. It scores each chunk by how many query words occur in it as substrings, keeps chunks scoring at least 2, stable-sorts by descending score and cuts at the limit.
- **Router helpers** (`Router`, `router.dfy`):
  - the intent label table;
  - `normalize_chunks`;
  - acceptance of a pronoun rewrite;
  - the post-processing of the grounding model's reply: strip, split into lines, drop blanks, drop enumeration markers, keep lines longer than 10 characters, deduplicate in first-occurrence order;
  - the vault staleness test;
  - the choice of the continuation directive.
- **The `ask` state machine** (`Pipeline`, `pipeline.dfy`). `AskStep` is a pure function from the old state, the question and the results of every outside call (`Oracles`) to the response and the new state. The class `Assistant` holds the context store, the vault snapshot and the modification-time watermark. Its method `Ask` is proved to produce exactly what `AskStep` computes, and the lemmas about `ask` are stated on `AskStep`.
- **Evidence serialiser** (`Sufficiency`, `scorer.dfy`). `_format_input` builds a three-line header and then numbered evidence lines.
- `PyStr` (`pystr.dfy`) gives Python's string semantics where the code relies on them: slices with negative bounds, `isspace`, `strip`, `split()`, `split('\n')`, `join`, substring `in`, `str(int)` and ASCII `lower`. `Wrappers` (`wrappers.dfy`) holds `Option`, and `Outcome`, which stands for a call that returns or raises.

All language-model replies, the classifier's predicted id, the vault modification time (or the exception reading it raised) and the result of a sync are inputs. Everything else is computed.

Some behaviour of the code a reader might not expect:

- There is one global context with no sessions and no expiry.
- A query word counts once per occurrence in the query. It matches a chunk when it occurs anywhere in the chunk text as a substring, not only as a whole word.
- `normalize` keeps whitespace and drops every other non-`[a-z0-9]` character.
- The classifier can raise, which leads to the apology answer.
- `retrieve_relevant_chunks` defaults to 3 results. `ask` always passes 5, and that is the limit modelled (`Router.RetrievalLimit`).
- A continuation with no previous question gets the no-information answer, without `sync_performed`, even when a sync ran.
- As written, `_internal_sync` reads the keys `empty_files` and `indexed_files`, and `scan_vault` never returns them. A sync in the code as written therefore ends in the `InfoRaised` outcome: the snapshot and watermark are stored, and the turn apologises.

## Model

| member | source | states |
|---|---|---|
| ContextStore.ContextManager.constructor | backend/context_manager.py:7-11 | a new store has an empty history and no active subject, and satisfies the bound `Valid` (at most 3 turns) |
| ContextStore.AppendTrimmed | backend/context_manager.py:13-22 | the trimmed history holds 1 to 3 turns, ends with the new turn, and before it holds the newest old turns in order, as many as fit |
| ContextStore.ContextManager.AddTurn | backend/context_manager.py:13-22 | the history becomes `AppendTrimmed` of the old history and the answered turn; the subject is unchanged; the bound `Valid` holds afterwards |
| ContextStore.ContextManager.GetHistory | backend/context_manager.py:24-28 | the result is the history newest first; `None` and `0` give all of it, a positive limit the newest `min(limit, n)`, a negative limit drops that many of the oldest |
| ContextStore.LastQuestion | backend/context_manager.py:30-34 | absent exactly for an empty history, otherwise the question of the newest turn |
| ContextStore.ContextManager.GetPreviousQuestion | backend/context_manager.py:30-34 | absent exactly for an empty history, otherwise the newest turn's question |
| ContextStore.ContextManager.GetLastNQuestions | backend/context_manager.py:36-38 | the questions of the newest turns, newest first, with Python's `[-n:]` count for zero, positive and negative `n` |
| ContextStore.WithPreviousQuestion | backend/context_manager.py:40-54 | the last turn then asks `q`; nothing changes when it already did, otherwise a pending turn is appended and the history trimmed |
| ContextStore.SetPreviousQuestionIdempotent | backend/context_manager.py:40-54 | remembering the same question twice equals remembering it once |
| ContextStore.ContextManager.SetPreviousQuestion | backend/context_manager.py:40-54 | the history becomes `WithPreviousQuestion` of the old one; the subject is unchanged; the bound `Valid` is kept |
| ContextStore.WithLastAnswer | backend/context_manager.py:56-59 | the length, the earlier turns and the last question are kept; only a pending last answer is filled in |
| ContextStore.UpdateLastAnswerOnce | backend/context_manager.py:56-59 | once the last answer is set, a second update changes nothing |
| ContextStore.ContextManager.UpdateLastAnswer | backend/context_manager.py:56-59 | the history becomes `WithLastAnswer` of the old one; the subject is unchanged; the bound `Valid` is kept |
| ContextStore.ContextManager.SetActiveSubject | backend/context_manager.py:61-63 | the subject becomes the given one and the history is unchanged |
| ContextStore.ContextManager.GetActiveSubject | backend/context_manager.py:65-67 | the stored subject: the one `SetActiveSubject` last set, absent initially and after `ClearSession` (whose contracts are stated through it) |
| ContextStore.ContextManager.ClearSession | backend/context_manager.py:69-72 | history empty, subject absent, and no previous question afterwards |
| ContextStore.SummaryLines | backend/context_manager.py:79-91 | one line per turn plus one per turn with a truthy answer |
| ContextStore.SummaryLinesStep | backend/context_manager.py:80-91 | one more turn appends exactly its own lines |
| ContextStore.SummaryLinesAt | backend/context_manager.py:80-91 | turn `k` (newest first) starts at line `k + answered-before-k` with `Q{k+1}: question`, followed by `A{k+1}: ...` when its answer is truthy |
| ContextStore.SummaryLinesLineFree | backend/context_manager.py:87-93 | turns without line breaks give summary lines without line breaks |
| ContextStore.SummaryStartsWithMostRecent | backend/context_manager.py:84-88 | the first summary line is `Q1: ` and the newest question |
| ContextStore.ContextManager.GetContextSummary | backend/context_manager.py:74-93 | the summary is the summary lines joined by `\n`, empty for an empty history, and splits back into exactly those lines when no turn contains a line break |
| PyStr.LStripShape | backend/assistant/router.py:132 | `lstrip` removes a leading run of whitespace and stops at a non-space character |
| PyStr.RStripShape | backend/assistant/router.py:132 | `rstrip` removes a trailing run of whitespace and stops at a non-space character |
| PyStr.StripShape | backend/assistant/router.py:132 | a stripped string has no whitespace at either end and is empty exactly when the input is all whitespace |
| PyStr.StripIdempotent | backend/assistant/router.py:132 | stripping twice equals stripping once |
| PyStr.WordsEmptyIffBlank | backend/vault/ingest.py:20 | `split()` gives no words exactly for blank text |
| PyStr.WordsOfJoin | backend/vault/ingest.py:24 | splitting space-joined words gives back those words |
| PyStr.SplitOfJoin | backend/context_manager.py:93 | splitting a `\n`-join of line-free parts gives back the parts |
| PyStr.JoinConcat | backend/models/sufficiency_models/scorer.py:31 | joining two non-empty lists is joining each, with one separator between |
| PyStr.ContainsAt | backend/vault/ingest.py:92 | substring `in` holds exactly when the needle occurs at some position |
| PyStr.IntToStringSingleDigit | backend/assistant/router.py:82 | `str(i)` is the single digit `d` exactly when `i == d` |
| Ingest.Normalize | backend/vault/ingest.py:30-31 | the result keeps only `[a-z0-9]` and whitespace and is no longer than the input |
| Ingest.NormalizeLowers | backend/vault/ingest.py:31 | text whose characters are all kept once lower-cased normalises to exactly its lower-case form |
| Ingest.NormalizeIgnoresCase | backend/vault/ingest.py:31 | lower-casing before normalising changes nothing: normalisation is case-insensitive |
| Ingest.NormalizeDropsUnkept | backend/vault/ingest.py:31 | text none of whose characters is an ASCII letter, a digit or whitespace once lower-cased normalises to the empty string |
| Ingest.NormalizeKeepsKept | backend/vault/ingest.py:30-31 | text made only of kept characters is unchanged |
| Ingest.NormalizeIdempotent | backend/vault/ingest.py:30-31 | normalising twice equals normalising once |
| Ingest.NormalizeOfConcat | backend/vault/ingest.py:30-31 | normalisation distributes over concatenation |
| Ingest.WindowsShape | backend/vault/ingest.py:23-24 | every window has 1 to `size` words, all but the last exactly `size`; there are `ceil(n / size)` windows, and together, in order, they are the words |
| Ingest.WindowsAreWords | backend/vault/ingest.py:20-24 | every word in a window is a word of `split()` |
| Ingest.ChunksKeepWords | backend/vault/ingest.py:19-27 | re-splitting the chunks in order gives back `text.split()`: no word is lost, split or reordered |
| Ingest.ChunksOfBlank | backend/vault/ingest.py:19-27 | chunking gives no chunks exactly for blank text |
| Ingest.WindowsFrom | backend/vault/ingest.py:23-25 | the chunks from word `i` are the join of `words[i:i+size]` followed by the chunks from `i + size` |
| Ingest.ChunkText | backend/vault/ingest.py:19-27 | a zero chunk size raises (as `range` does), a negative one gives no chunks, a positive one gives `Chunks(text, size)` |
| Ingest.ScoreExtremes | backend/vault/ingest.py:92 | the score is 0 exactly when no query word occurs, and the word count exactly when all do |
| Ingest.ScoreOfConcat | backend/vault/ingest.py:92 | scores add up over concatenated query word lists |
| Ingest.ChunkMatchesWellScored | backend/vault/ingest.py:88-96 | every match of a file carries its chunk's score, at least 2, and names that file and one of its chunks |
| Ingest.ChunkMatchesComplete | backend/vault/ingest.py:88-96 | conversely, every chunk of the file scoring at least 2 yields its match |
| Ingest.ChunkMatchesStep | backend/vault/ingest.py:88-96 | scanning one more chunk appends at most its own match |
| Ingest.CandidatesStep | backend/vault/ingest.py:87-96 | scanning one more file appends that file's matches |
| Ingest.CandidatesWellScored | backend/vault/ingest.py:87-96 | every collected match carries its chunk's score, at least 2 |
| Ingest.CandidatesComplete | backend/vault/ingest.py:87-96 | every chunk of every file scoring at least 2 is among the collected matches, with its score and file name |
| Ingest.CollectFileMatches | backend/vault/ingest.py:88-96 | the inner loop appends exactly one file's matches, in chunk order |
| Ingest.InsertByScorePermutes | backend/vault/ingest.py:99 | insertion adds exactly the inserted match |
| Ingest.InsertAtMost | backend/vault/ingest.py:99 | insertion keeps a common score bound |
| Ingest.SortedCons | backend/vault/ingest.py:99 | a match no lower than the scores of a sorted list can go in front |
| Ingest.InsertByScoreSorted | backend/vault/ingest.py:99 | insertion into a sorted list keeps it sorted by descending score |
| Ingest.InsertByScoreStable | backend/vault/ingest.py:99 | insertion puts a new match first among the matches of its score |
| Ingest.SortByScoreCorrect | backend/vault/ingest.py:99 | the sort is a permutation, orders by descending score, and is stable: each score's matches keep scan order |
| Ingest.WellScoredPermuted | backend/vault/ingest.py:99-108 | any prefix of a permutation of well-scored matches is well scored |
| Ingest.WellScoredNeedsTwoWords | backend/vault/ingest.py:92-96 | a query with fewer than two words retrieves nothing |
| Ingest.RankedShape | backend/vault/ingest.py:82-109 | the result is well scored, sorted, holds exactly `min(limit, n)` of the `n` matches for a non-negative limit and `n - min(-limit, n)` for a negative one, and is empty without files and for fewer than two query words |
| Ingest.RetrieveRelevantChunks | backend/vault/ingest.py:82-109 | the loops compute `Ranked`: well scored, sorted, exactly `min(limit, n)` of the `n` matches for a non-negative limit (3 by default), empty without files or without two query words |
| Ingest.RankedIsStablePrefix | backend/vault/ingest.py:98-108 | the result is the prefix of length `min(limit, n)` of the stable descending sort of all `n` scan-order matches, and all of it when the limit covers every match |
| Router.IntentOfPredictionTable | backend/assistant/router.py:82 | id 1 exactly is continuation, id 2 exactly is casual, every other id is factual |
| Router.KeptChunksKeepsAll | backend/assistant/router.py:54-61 | no item is dropped exactly when every item is a dict with a chunk or a string |
| Router.KeptChunksOfConcat | backend/assistant/router.py:54-61 | normalising distributes over concatenation: items are kept one by one, in order |
| Router.NormalizeChunks | backend/assistant/router.py:54-61 | the loop keeps exactly the chunk texts of dict items with a chunk and of string items, in order |
| Router.RetrievalQueryChoice | backend/assistant/router.py:94-134 | without a consulted rewrite the query is the question; a different query is the stripped reply, longer than 3 and already stripped; such a reply is always accepted |
| Router.MarkerEnd | backend/assistant/router.py:213 | the run of `[\d\-\*\.]` characters is maximal |
| Router.StripMarker | backend/assistant/router.py:213 | the result is a suffix; a line not starting with a marker is unchanged; from any other line exactly the maximal marker run and the maximal whitespace run after it are removed |
| Router.NonBlankStrippedOfConcat | backend/assistant/router.py:210 | stripping and dropping blank lines keeps the remaining lines in their original order: it distributes over concatenation |
| Router.LongOnlyKeepsLong | backend/assistant/router.py:216 | the kept lines are exactly those longer than 10 characters |
| Router.LongOnlyOfConcat | backend/assistant/router.py:216 | the length filter keeps the long lines in their original order: it distributes over concatenation |
| Router.FirstIndex | backend/assistant/router.py:216 | the first position holding the element, or the length when absent |
| Router.FirstIndexInPrefix | backend/assistant/router.py:216 | appending never moves the first occurrence of an element already present |
| Router.DedupMembers | backend/assistant/router.py:216 | `dict.fromkeys` keeps exactly the elements of its input |
| Router.DedupNoDuplicates | backend/assistant/router.py:216 | `dict.fromkeys` keeps each element once |
| Router.DedupOrderAt | backend/assistant/router.py:216 | of two kept elements, the earlier one occurs first in the input |
| Router.DedupFirstOccurrenceOrder | backend/assistant/router.py:216 | the kept elements are in first-occurrence order |
| Router.GroundingShape | backend/assistant/router.py:148-216 | no chunks, the `NONE` sentinel or a blank reply give no evidence; otherwise every processed line appears exactly once, each longer than 10 characters, in first-occurrence order |
| Router.VaultHasChanged | backend/assistant/router.py:231-242 | no watermark means changed; no current time means unchanged; otherwise changed exactly when newer |
| Router.DirectiveChoice | backend/assistant/router.py:350-359 | WHY exactly for a continuation whose lower-cased previous question starts with "why", HOW exactly when it starts with "how" instead, the follow-up naming the question for any other continuation, none for every other turn; the directive only goes into the answer model's prompt, which is not modelled, so `Pipeline.Answer` and `GroundAndAnswer` do not use it |
| Router.DirectiveIgnoresCase | backend/assistant/router.py:353-358 | previous questions that are equal after lower-casing select the same directive, except a follow-up line, which names the question as written |
| Pipeline.AnswerEffect | backend/assistant/router.py:336-404 | only a factual turn with metadata and an answer other than the fixed one appends a turn; metadata means at least one chunk and one grounded sentence, with counts, the intent and the stripped answer; the other responses are the apology or the no-information answer |
| Pipeline.RetrievalBounded | backend/assistant/router.py:136 | retrieval yields at most 5 chunks |
| Pipeline.DispatchKeepsNonFactual | backend/assistant/router.py:298-404 | once classified, a continuation or casual turn leaves the state unchanged |
| Pipeline.DispatchFactual | backend/assistant/router.py:304-388 | a factual turn clears the subject and leaves at most the turn it answered: that turn exactly when it produced metadata and an answer other than the fixed one |
| Pipeline.DispatchMetadata | backend/assistant/router.py:390-402 | metadata only for a non-casual turn with at least one chunk and one sentence, with the stripped answer; `sync_performed` is the given report |
| Pipeline.SyncGate | backend/assistant/router.py:287-291 | the gate passes exactly when no sync was due or it succeeded, and a sync that raises gives the apology; a staleness test that raises gives the apology and changes nothing; `sync_performed` appears only after a successful sync and carries its report; afterwards a snapshot exists |
| Pipeline.NoResyncWhenUnchanged | backend/assistant/router.py:290 | with a snapshot and a watermark no older than the vault, no sync runs and the turn does not depend on what a sync would return |
| Pipeline.InfoFailureRecovers | backend/assistant/router.py:248-268 | a failing report still stores snapshot and watermark and apologises; the next turn on an unchanged vault does not resync, without a watermark it does, and if reading the modification time raises it apologises without change |
| Pipeline.ClassifierFailureApologises | backend/assistant/router.py:406-408 | a raising classifier gives the apology and changes only the sync state |
| Pipeline.ModelFailureApologises | backend/assistant/router.py:309-408 | after the gate and the classifier, a raising chat model on a casual turn, or a raising rewrite, retrieval, grounding or (with evidence) answer model on a turn past the continuation guard, gives the apology |
| Pipeline.ContinuationNeedsAntecedent | backend/assistant/router.py:299-302 | a continuation without previous question gets the fixed answer, no metadata and no sync report, and does not consult any model |
| Pipeline.CasualShortCut | backend/assistant/router.py:309-325 | a casual turn answers with the stripped chat reply, keeps the context, carries no metadata and ignores the rewrite, grounding and answer models |
| Pipeline.OnlyFactualChangesContext | backend/assistant/router.py:283-408 | every non-factual turn, and every turn whose classifier raised, keeps history and subject |
| Pipeline.FactualStartsFresh | backend/assistant/router.py:304-388 | a factual turn clears the subject and leaves an empty history or exactly the turn it answered |
| Pipeline.HistoryStaysShort | backend/assistant/router.py:283-408 | starting from at most one turn, `ask` never leaves more than one turn |
| Pipeline.MetadataMeansEvidence | backend/assistant/router.py:390-398 | metadata means 1 to 5 chunks, at least one sentence and a non-casual intent that the classifier returned |
| Pipeline.NoEvidenceAnswer | backend/assistant/router.py:327-343 | with no chunks or no grounded sentence the turn gets the fixed answer without metadata, keeps the context as the reset left it, and reports a sync exactly when one ran |
| Pipeline.FixedAnswerNeverStored | backend/assistant/router.py:385-388 | an answer equal to the fixed one is never stored |
| Pipeline.Assistant.constructor | backend/assistant/router.py:17-18 | no snapshot and no watermark at start |
| Pipeline.Assistant.InternalSync | backend/assistant/router.py:248-268 | the new snapshot, watermark and report are those of `SyncEffect` for the outcome |
| Pipeline.Assistant.RetrieveForQuestion | backend/assistant/router.py:89-137 | the chunks are `Retrieval` of the current history, at most 5 |
| Pipeline.Assistant.GroundAndAnswer | backend/assistant/router.py:336-404 | response and new state are `Answer` of the old state |
| Pipeline.Assistant.Respond | backend/assistant/router.py:298-404 | response and new state are `Dispatch` of the old state |
| Pipeline.Assistant.Ask | backend/assistant/router.py:283-408 | response and new state are exactly `AskStep` of the old state, the question and the outside results |
| Sufficiency.FormatInput | backend/models/sufficiency_models/scorer.py:23-31 | the loop builds the header and numbered lines and joins them by `\n` |
| Sufficiency.FormatInputHeader | backend/models/sufficiency_models/scorer.py:24-28 | the text starts with the three header lines; with no sentences it is exactly them, otherwise `\n` and the numbered evidence follow |
| Sufficiency.FormatInputLines | backend/models/sufficiency_models/scorer.py:29-31 | without line breaks in the inputs the text has exactly `3 + len(sentences)` lines: the header, then line `3 + i` is `{i}. {sentences[i-1]}` |

## Left out

- Language-model calls (`ollama.generate`): their replies are inputs (`Oracles.rewrite`, `grounding`, `chat`, `synthesis`), and the prompt texts are not modelled. The one exception is the choice of the continuation directive (`ContinuationDirective`).
- The intent classifier's tokenizer, network and argmax are not modelled. Only the predicted id, or the exception, is an input.
- The training script, the reference ranker, the sufficiency network and `SufficiencyScorer.__init__`/`score` are not part of this model: they are neural networks with floating-point scores.
- The vector store (faiss and sentence embeddings) is not part of this model, and nothing in `ask` reads it.
- File-system access and the clock (`scan_vault`, `read_text_file`, `get_latest_vault_mtime`, `time.time()`) are inputs:
  - the newest modification time is an `Option<int>`, since only its order matters and the float value does not. At the gate it is an `Outcome`, because the folder scan in `get_latest_vault_mtime` may raise;
  - a sync run is one of the four `SyncOutcome` cases;
  - `last_indexed` is an integer field of `SyncInfo`.
- `scan_vault`'s dictionary is modelled only as the optional list of files with their names and chunks. The other keys are not modelled.
- `Pipeline.Response` models the response dictionary's keys as fields. The `chunk` value of a search result dict is assumed to be a string.
- `Ingest.Normalize` models `str.lower` on ASCII letters only. Python also lowers a few non-ASCII characters to ASCII letters (the Kelvin sign to `k`, capital I with dot to `i` plus a combining dot); the model drops them.
- `Router.StripMarker` treats `\d` as the ASCII digits. Python's `\d` also matches other Unicode decimal digits.
- `Pipeline.Metadata` carries the classified `Intent` value rather than its name string (`"factual"`, `"continuation"`, `"casual"`); the two correspond one to one.
- History entries and scan results are Python dictionaries shared by reference; the model uses values instead. The only in-place change the code makes to one is `update_last_answer` on the last history entry, and `ContextStore.WithLastAnswer` models that change.
- HTTP wiring, the `/sync` endpoint, the request model, `print` logging and the React UI are not part of this model.
- Concurrency is not modelled: the code is single-threaded and uses one global context store.
- Session keys and the idle expiry of contexts are not modelled, because the code has neither.
