# Vres-OS in Dafny

A Dafny model of the algorithms and protocols at the heart of Vres-OS, with proofs of what they promise. Vres-OS is a
Python/PostgreSQL runtime that keeps project knowledge, lets a coding agent work in disposable worktrees, and composes
"experience packs" for it. Each part below is a group of modules; the state that the program changes step by step is changed
step by step here too, and is proved against functions about which the properties are stated.

- **Experience packs** (`PackModel`, `PackEvaluate`, `PackItems`, `PackEvaluator`, `PackSettle`, `PackSelect`, `PackFates`,
  `PackCompose`, `PackGuarantees`, `PackOrder`, `PackTurns`, `PackTexts`, `PackRepeats`, `PackRows`, `PackStages`,
  `PackAccounting`, `PackConflicts`, `PackNovelty`, `PackComposer`, `ExperiencePack`, `PackAnswer`, `PackCases`,
  `ConflictKeys`, `PackFiling`, `Sorting`): from gated candidates to the bounded result. Conflict sets that stay live are
  shown whole from admission to the byte trim; when the order of candidates and relations cannot matter; every budget holds;
  every candidate is accounted for; what is dropped ranks below what is shown.
- **Governed handoff** (`GitStatus`, `WriteScope`, `Promotion`, `HandoffRuns`, `HandoffSteps`): the NUL-stream parser is the
  inverse of its printer; scope declarations and checks are exact; the promotion transaction for every choice of failing call; all
  interleavings of executions of one Vres-OS task.
- **Credential broker** (`CredentialStores`, `CredentialEffects`, `CredentialBroker`, `CredentialCalls`): what each request
  leaves in the two stores, and their exact agreement over all runs with failures at every call.
- **Knowledge lifecycle** (`KnowledgeModel`, `KnowledgeService`, `KnowledgeActions`, `KnowledgeRuns`, `Supersession`): when each
  action is applied and what it leaves behind, idempotent replay, exact reinstatement, supersession chains that end.
- **Embedding leases** (`EmbeddingJobs`, `EmbeddingSteps`, `EmbeddingRuns`, `EmbeddingCases`): fencing by attempt number, and
  revocation and changes of status racing the workers.
- **Dependency graphs** (`Walks`, `Order`, `DependencyCycles`, `AlignmentPlan`, `PlanContract`, `PlanFields`, `PlanCheck`, `Json`):
  two depth-first searches, sound and complete, and the plan contract built on one of them.
- **Text** (`Wrappers`, `Text`, `Chunking`, `ChunkWindows`, `JsonPointer`): the overlapping chunker, and JSON Pointer resolution
  (RFC 6901).

## Where the code does not do all that is promised

Each item names the lemmas with the exact condition under which the promise holds, and a run or an input where it does not.

- A promotion that is rolled back is documented to leave the validation status pending. It does not if another writer records
  a pass after the rollback released its locks and before the repair, which is then refused, nor if the repair itself fails
  (`Promotion.PassRecordedMeanwhile`, `Promotion.RepairRaises`; the condition is in the contract of `Promotion.Site.Promote`).
- "A conflict set is shown whole or not at all" (`experience_retrieval.py:963` and `:1022`) holds of the sets that stay live.
  A set that is refused for lack of room can still be shown in part, through members it shares with a set that was admitted:
  with room for two, of {a, b} and {b, c} one appears as b alone (`PackCases.SharedMemberIsShownAlone`, from candidates and
  relations to what is shown). The exact condition is that of `PackConflicts.SplitAtAdmissionExactlyWhen`; it cannot happen when
  conflicts overlap only if they have the same members, or when all of them fit together (`PackConflicts.WholeOrAbsentWhen`).
- evaluate is documented to be deterministic and to leave no conflict with a winner. But the key of a conflict set is hashed
  from a text in which case and white space are folded and members are joined by bars (`experience_retrieval.py:865-866`), and
  of two sets with one key only the first is filed (`:894-897`): the members of the other are not demoted. Of two challenged
  candidates "Lesson-1" and "lesson-1" the one listed first becomes the conflict and the other remains an instruction, so the
  order of the candidates shows in the result (`PackCases.CaseDecidesThePack`). Every conflict is filed, and the order of
  candidates and of relations cannot matter, exactly under the conditions of `PackFiling.AllFiledExactlyWhen`,
  `PackFiling.ItemOrderCannotMatterExactlyWhen` and `PackFiling.RelationOrderCannotMatterExactlyWhen`; memory keys without bars
  and spaces that differ in more than case are enough for the first two (`PackCases.PlainKeysFileAll`).
- Two relations that mark the same pair of items give one conflict, whose evidence is that of whichever comes first
  (`experience_retrieval.py:896-909`), so evidence lists, and with them the encoded size, can depend on the order of the
  relations (`PackCases.FirstMarkerIsTheEvidence`), exactly when the two have different markers
  (`PackEvaluate.EvidenceFixedExactlyWhen`). The reader sorts relations by id (`experience_retrieval.py:1615`), so only the
  order in which they were inserted can show.
- The registry write can raise after `os.replace`. The vault is then rolled back while the new registry stays; they still agree
  exactly for requests that name the same entries as before (`CredentialStores.TornWriteAgreesExactlyWhen`,
  `CredentialStores.TornFirstSave`).
- Nothing locks the two stores between reading the registry and writing it. Agreement is kept by requests that come one after
  the other; of two at a time the second can overwrite what the first has registered (`CredentialStores.TwoSavesAtOnce`,
  `CredentialStores.LateRequestAgreesExactlyWhen`).
- `KnowledgeService.supersede` lacks the lifecycle service's look at the replacement's status and can close a cycle
  (`Supersession.LegacyCanCloseACycle`, `Supersession.LegacySettledExactlyWhen`).
- "A stale worker must never overwrite" holds only until a finished job is queued again, because that puts its attempts back
  to zero: after the model was changed and changed back, or after a retirement and a reinstatement, an old claim can have the
  number of the new one (`EmbeddingCases.StaleAfterModelSwitch`, `EmbeddingRuns.StaleWorkerCanPublish`,
  `EmbeddingRuns.OvertakenRowPassesExactlyWhenRestarted`).
- A chunk whose owner may not be used keeps its vector when the owner was retired, challenged, rejected or superseded, since
  only revocation invalidates; the tests of the lifecycle service ask for just that
  (`EmbeddingRuns.IneligibleChunkCanHoldVector`, `EmbeddingRuns.IneligibleHoldsVectorExactlyWhen`). This concerns chunks of
  knowledge items, which the tables and every query provide for but which no code writes yet: `sources.py:180` writes chunks of
  sources.
- The byte bound of a pack relies on a four-digit token count. What the trim accepts is sure to fit exactly for limits below
  40000; policies stop at 32768 (`PackCompose.AllAcceptedFitExactlyWhen`, `PackCompose.PackExceedsFrom40000`,
  `PackCases.OneByteTooMany`).
- `check_alignment_plan` accepts `true` as version 1, as Python compares them, raises a TypeError for a list or object as
  disposition, and a UnicodeEncodeError for a text with a lone surrogate (`PlanCheck.CheckAlignmentPlan`,
  `PlanCheck.ListAsDisposition`).
- resolve_pointer takes strings that are no JSON Pointer: "foo" is the whole document, and a stray tilde stands for itself
  (`JsonPointer.NoPointerIsRefused`, `JsonPointer.TakenAsIsExactlyWhen`).

## How the outside world appears

- A database transaction under its row locks is one atomic step. Subprocesses, the keyring, the file system, the clock, the
  redactor and the encoder are parameters: what they answer, and whether and when they fail, is arbitrary.
- Hashes that serve as identity stand for what is hashed: a resource id for its service identity, a request digest for its
  parts. The idempotency key and the conflict key keep their texts, because the text is where keys can collide; case folding is
  an arbitrary function of the characters, and hashes are taken to be injective where that is said.
- An uninterpreted size function stands for the encoded pack without the digits of its token count.
- Conflict membership and the mark of it on the item (`_conflict_keys`) are one thing, because evaluate sets the one from the
  other. Present subjects, polarities and groups are non-empty.
- `epochs` and `leases` in `EmbeddingRuns` are history that the tables do not hold.

## Model

| member | source | states |
|---|---|---|
| `DependencyCycles.Cycles` | `src/vres_os/architecture_governance.py:289-321` | The reported tuples are genuine simple cycles, each in its one rotation-minimal form and none twice, sorted; every component of two or more mutually reachable owners holds one; the report is empty iff there is no such cycle |
| `DependencyCycles.SearchAll` | `src/vres_os/architecture_governance.py:317-320` | The whole search reports only genuine cycles and covers every component |
| `DependencyCycles.VisitAll` | `src/vres_os/architecture_governance.py:317-320` | After the outer loop every node has been finished and the stack is empty |
| `DependencyCycles.CycleSearch.Visit` | `src/vres_os/architecture_governance.py:301-315` | One call leaves stack and active set as they were, keeps every finished edge explained (earlier finish or reported cycle) and finishes the node or reports its back edge |
| `DependencyCycles.CycleSearch.Enter` | `src/vres_os/architecture_governance.py:310-311` | Pushing a node keeps the stack a walk of distinct active nodes |
| `DependencyCycles.CycleSearch.VisitTargets` | `src/vres_os/architecture_governance.py:312-313` | After the loop over sorted targets every edge of the node on top is dealt with |
| `DependencyCycles.CycleSearch.Leave` | `src/vres_os/architecture_governance.py:314-316` | Popping a node whose edges are dealt with keeps all finished edges explained |
| `DependencyCycles.CycleSearch.ReportBackEdge` | `src/vres_os/architecture_governance.py:302-307` | A back edge adds the canonical rotation of the cycle it closes, and only real cycles are added |
| `DependencyCycles.Canonical` | `src/vres_os/architecture_governance.py:296-299` | Returns the rotation that min() picks |
| `DependencyCycles.BuildGraph` | `src/vres_os/architecture_governance.py:290-293` | The adjacency map has exactly the given edges and every target as a node |
| `DependencyCycles.CanonicalIsMinimal` | `src/vres_os/architecture_governance.py:296-299` | The canonical form is minimal among its own rotations |
| `DependencyCycles.MinimalRotationUnique` | `src/vres_os/architecture_governance.py:296-299` | Two rotation-minimal forms of one cycle are the same tuple |
| `DependencyCycles.RotatePreserves` | `src/vres_os/architecture_governance.py:296-299` | Turning a ring keeps it a cycle with the same edges |
| `DependencyCycles.ExplainedIsComplete` | `src/vres_os/architecture_governance.py:301-321` | When every finished edge is explained, each pair of mutually reachable owners shares its component with a reported cycle |
| `DependencyCycles.EmptyMeansAcyclic` | `src/vres_os/architecture_governance.py:321` | An empty report means an acyclic graph |
| `Sorting.SortedUnique` | `src/vres_os/architecture_governance.py:321` | sorted() on distinct elements has one possible result |
| `Order.TupleLessStrictTotal` | `src/vres_os/architecture_governance.py:299` | Python's order on tuples of strings is a strict total order |
| `AlignmentPlan.DependencyCycle` | `src/vres_os/architecture_plan.py:52-80` | Returns None iff the tranches admit an order in which every known dependency comes first; otherwise a real closed walk |
| `AlignmentPlan.DependencySearch.Visit` | `src/vres_os/architecture_plan.py:59-75` | Either a closed walk on the active stack, or every dependency of the node is finished before it |
| `AlignmentPlan.DependencySearch.StackClosesCycle` | `src/vres_os/architecture_plan.py:60-62` | A node met while active yields the closed walk from its place on the stack |
| `AlignmentPlan.OrderExcludesCycles` | `src/vres_os/architecture_plan.py:52-80` | No closed walk exists in an orderable dependency map |
| `AlignmentPlan.FinishOrders` | `src/vres_os/architecture_plan.py:72-75` | Finishing a node after all its dependencies keeps the order topological |
| `PlanCheck.CheckAlignmentPlan` | `src/vres_os/architecture_plan.py:83-321` | contract_valid exactly for the plans that meet the whole contract and can be encoded; not an object exactly for what is none; raises exactly when the canonical text exists but cannot be encoded (line 117), or a disposition cannot be hashed |
| `PlanCheck.ListAsDisposition` | `src/vres_os/architecture_plan.py:239-264` | A plan with a list as disposition: the check raises |
| `PlanCheck.ReadTranches` | `src/vres_os/architecture_plan.py:167-224` | The tranche loop reports nothing iff keys, texts, lists and addresses of all tranches are in order |
| `PlanCheck.CheckDependencies` | `src/vres_os/architecture_plan.py:226-237` | No error iff no tranche depends on itself or on an unknown one, and no cycle |
| `PlanCheck.ReadExceptions` | `src/vres_os/architecture_plan.py:239-264` | The exception loop reports nothing iff every entry is complete and no finding is deferred twice |
| `PlanCheck.CheckFindings` | `src/vres_os/architecture_plan.py:266-296` | No error iff all references are known and every material finding is in exactly one of addressed and deferred |
| `PlanCheck.CheckHeader` | `src/vres_os/architecture_plan.py:101-134` | No error iff the top-level fields, versions and digest agree |
| `PlanCheck.CheckProfiles` | `src/vres_os/architecture_plan.py:136-158` | No error iff the profiles are known, distinct and include every detected one |
| `PlanContract.AcceptedPlanIsExecutable` | `src/vres_os/architecture_plan.py:158-298` | A valid plan's tranches can be executed in an order that respects all dependencies; no finding is addressed by two tranches; every material finding is in exactly one of addressed and deferred |
| `PlanContract.TranchesInOrder` | `src/vres_os/architecture_plan.py:226-237` | The order is one of the tranches themselves, each once |
| `PlanContract.AddressedOnce` | `src/vres_os/architecture_plan.py:211-224` | A finding addressed in two places makes the plan invalid |
| `PlanFields.PlanMeans` | `src/vres_os/architecture_plan.py:83-321` | A plan meets the contract iff its own fields do, every tranche and exception does, and they do together: keys and addresses at different places differ, dependencies are keys of other tranches and can be ranked, every material finding is dealt with once |
| `PlanFields.EntriesMean` | `src/vres_os/architecture_plan.py:167-264` | Tranches and exceptions, field by field |
| `PlanFields.TranchesMean` | `src/vres_os/architecture_plan.py:167-237` | The tranches together: each key and each address at one place, dependencies that exist and can be ranked |
| `PlanFields.FindingsMean` | `src/vres_os/architecture_plan.py:266-296` | Named findings are those of the audit, and each material one is addressed or deferred, not both |
| `PlanFields.HeaderMeans` | `src/vres_os/architecture_plan.py:101-158` | The fields of the plan itself |
| `JsonPointer.ResolvePointer` | `src/vres_os/experience_consolidation.py:129-140` | The loop resolves the unescaped tokens one by one, and fails where a token names no child |
| `JsonPointer.TakenAsIsExactlyWhen` | `src/vres_os/experience_consolidation.py:132-133` | A string is taken for itself iff it has the syntax of RFC 6901, section 3; any other is taken for the pointer without what precedes its first slash and with its stray tildes escaped |
| `JsonPointer.ResolvesAsTaken` | `src/vres_os/experience_consolidation.py:132-133` | What a string is taken for is a JSON Pointer with the same tokens, hence with the same resolution in every document |
| `JsonPointer.ResolveInvertsPrint` | `src/vres_os/experience_consolidation.py:129-140` | For every document and every key/index path valid in it, resolving the escaped pointer of RFC 6901 gives the value at that path |
| `JsonPointer.ResolvesIffPath` | `src/vres_os/experience_consolidation.py:129-140` | A pointer resolves to a value iff its tokens spell a path of the document to that value |
| `JsonPointer.UnescapeEscape` | `src/vres_os/experience_consolidation.py:133-133` | Unescaping ~1 and then ~0 undoes the escaping of RFC 6901, section 3 |
| `JsonPointer.TokensOfPrint` | `src/vres_os/experience_consolidation.py:132-133` | Splitting a printed pointer gives back the texts of its path |
| `JsonPointer.ResolvedIsPath` | `src/vres_os/experience_consolidation.py:134-140` | Whatever resolves is reached by a path of keys and indexes |
| `JsonPointer.IndexIsDecimal` | `src/vres_os/experience_consolidation.py:136-137` | An accepted array index is the decimal numeral of a number, without leading zeros |
| `Chunking.ChunkText` | `src/vres_os/chunking.py:15-50` | Rejects exactly the bad parameters; otherwise the chunks are the expected pieces of the cleaned text, numbered, with token estimates |
| `Chunking.ChunksCoverText` | `src/vres_os/chunking.py:22-46` | Every non-space character of the cleaned text is in a chunk, chunks are non-empty with at most target characters, and their number is bounded by the guaranteed advance |
| `Chunking.WindowsTile` | `src/vres_os/chunking.py:26-41` | The windows tile the text: no gap, bounded width, starts that grow by at least floor(0.6*target)+2-overlap when that is positive, else by one |
| `Chunking.CollectPieces` | `src/vres_os/chunking.py:24-41` | The while loop collects exactly the pieces of those windows |
| `Chunking.FindEnd` | `src/vres_os/chunking.py:29-35` | A window ends at the last paragraph boundary late enough, else at the hard end |
| `Chunking.TilesAreFew` | `src/vres_os/chunking.py:26-41` | The number of windows times the advance is bounded by the length |
| `Chunking.PiecesCover` | `src/vres_os/chunking.py:36-38` | Stripping a window loses no readable character |
| `Chunking.Numbered` | `src/vres_os/chunking.py:43-49` | The check for oversized chunks never fires; ordinals and estimates are as given |
| `Chunking.StripIsExact` | `src/vres_os/chunking.py:21-21` | strip() takes a blank prefix and a blank suffix, no more, and once is enough |
| `Chunking.UnixUndoesDos` | `src/vres_os/chunking.py:21-21` | A text with DOS line ends is cleaned to the same text with Unix line ends |
| `ChunkWindows.EndMeans` | `src/vres_os/chunking.py:28-34` | A window reaches the end of the text if that is within the target; otherwise it ends behind the last blank line that begins at or after 60 percent of the target, or at the target if there is none |
| `ChunkWindows.WindowsMean` | `src/vres_os/chunking.py:25-41` | The first window starts at 0, each next one the overlap before the end of the last but at least one character on, and only the last reaches the end of the text |
| `ChunkWindows.PiecesMean` | `src/vres_os/chunking.py:36-38` | Every window that is not blank gives one piece, its stripped text, in order |
| `ChunkWindows.UnixMeans` | `src/vres_os/chunking.py:21-21` | Exactly the carriage returns directly before a line feed go |
| `ChunkWindows.EstimateMeans` | `src/vres_os/chunking.py:48-48` | A quarter of the length to the nearest whole number, halves to the even one, at least one |
| `ChunkWindows.SpacesAre` | `src/vres_os/chunking.py:21-21` | The code points that count as white space |
| `GitStatus.ParsePorcelain` | `src/vres_os/codex_handoff.py:323-400` | The index-driven parser computes the token-wise meaning |
| `GitStatus.ParseLoop` | `src/vres_os/codex_handoff.py:340-400` | The loop over the token index, branch by branch |
| `GitStatus.ParserInvertsPrinter` | `src/vres_os/codex_handoff.py:323-400` | Every list of well-formed records, printed NUL-terminated, is read back with exactly its changed, renamed and ignored paths |
| `GitStatus.AcceptsExactlyTheFormat` | `src/vres_os/codex_handoff.py:323-400` | A stream is accepted iff it is the print of well-formed records; wrong field counts and unknown leading characters are rejected |
| `GitStatus.ParsedIsPrinted` | `src/vres_os/codex_handoff.py:323-400` | Whatever is accepted is a list of well-formed records whose tokens are those read |
| `GitStatus.MeaningIsExact` | `src/vres_os/codex_handoff.py:348-400` | The changed paths are those of entries and both names of every rename; ignored paths are never changed ones |
| `GitStatus.FormatMeans` | `src/vres_os/codex_handoff.py:348-392` | The record types by the number of their columns: 8, 9, 10 and 1 |
| `GitStatus.ReadsPrinted` | `src/vres_os/codex_handoff.py:348-400` | A printed record is read back whatever follows it, even if its path looks like a record header |
| `WriteScope.NormalizeIsExact` | `src/vres_os/codex_handoff.py:250-266` | Normalization accepts exactly the project-relative file names and is idempotent |
| `WriteScope.DeclaresMeans` | `src/vres_os/codex_handoff.py:250-304` | A declared scope: at most fifty paths, each the declared one with slashes, relative, without a .. segment and naming a file; none twice under path identity; the required ones among them |
| `WriteScope.BuildWriteScope` | `src/vres_os/codex_handoff.py:274-304` | Accepts exactly the declarations of a scope (bounded, normal, distinct under path identity, required ones declared) and returns that scope |
| `WriteScope.CollectIdentities` | `src/vres_os/codex_handoff.py:291-296` | The duplicate loop accepts iff all path identities differ |
| `WriteScope.CheckWriteScope` | `src/vres_os/codex_handoff.py:982-1018` | Passes iff nothing is ignored, every change is in scope and every required path changed, under path identity; failures name a real offender |
| `Promotion.Site.ApplyAndVerify` | `src/vres_os/codex_handoff.py:1440-1463` | Succeeds exactly when apply, status and postconditions do and the primary then differs from HEAD in exactly the expected paths; raises exactly when one of those calls does |
| `Promotion.Site.Guards` | `src/vres_os/codex_handoff.py:1890-1957` | Lets a promotion through exactly when the task is active, bound and fresh, the primary clean, the row not passed, and all calls up to the pending write return; otherwise its answer is that of the first call or guard that says no |
| `Promotion.Site.LockedWindow` | `src/vres_os/codex_handoff.py:1885-1972` | The pending write is made exactly when the guards let it; the transaction raises exactly when a later call does; what row and primary then hold, for every failure point; the logical failure exactly when apply or its verification fails |
| `Promotion.Site.ForcePendingAfterRollback` | `src/vres_os/codex_handoff.py:1990-2012` | The repair makes the row pending exactly when the row is not passed and its commit reaches the disk, whether or not it raises then; it reports which |
| `Promotion.Site.Promote` | `src/vres_os/codex_handoff.py:1847-1988` | The one answer that its calls, HEAD, the primary and the row decide (`Promotion.Answer`, see the lemmas below); once the pending write is made the row ends pending iff there is no rollback, or the repair finds it pending, or the repair finds no pass and its commit reaches the disk |
| `Promotion.PromoteUndisturbed` | `src/vres_os/codex_handoff.py:1973-2012` | With a repair that can run and nobody else writing in between, the row ends pending exactly when the pending write was made, and is unchanged otherwise |
| `Promotion.PassRecordedMeanwhile` | `src/vres_os/codex_handoff.py:1990-2012` | A run of Promote: apply --check raises, a pass is recorded before the repair, and the row ends passed |
| `Promotion.RepairRaises` | `src/vres_os/codex_handoff.py:1990-2012` | A run of Promote: apply --check raises, the repair raises, and the row keeps its old status |
| `Promotion.ChangedMeans` | `src/vres_os/codex_handoff.py:1440-1463` | A changed path was added, removed or has other contents |
| `Promotion.RowMeans` | `src/vres_os/codex_handoff.py:1958-2012` | What a failed transaction leaves in the row, and when the repair writes pending, told by the calls |
| `Promotion.RefusedExactlyWhen` | `src/vres_os/codex_handoff.py:1890-1970` | A refusal is answered exactly when its own guard or call is the first that does not pass and says no; an exception exactly when the first that does not pass raises it |
| `Promotion.GuardAnswers` | `src/vres_os/codex_handoff.py:1890-1945` | Each refusal before the pending write, guard by guard, iff: inactive task, rebound session, missing state, changed fingerprint, moved HEAD, dirty primary, passed row |
| `Promotion.GuardRaises` | `src/vres_os/codex_handoff.py:1890-1957` | An exception before the pending write is answered iff one of those calls raises it and all before it let through; no other refusal occurs |
| `Promotion.ThrownExactlyWhen` | `src/vres_os/codex_handoff.py:1958-1972` | What the transaction of the window throws, call by call, commit included |
| `Promotion.WindowAnswers` | `src/vres_os/codex_handoff.py:1958-1972` | Each logical failure of apply --check, apply, changed paths and postconditions, iff it is the first |
| `Promotion.AnswerMeans` | `src/vres_os/codex_handoff.py:1973-1988` | After the pending write: an unexpected error iff the window raised an ordinary exception and the repair was made; a failed repair iff the repair raises one or finds a pass; an interrupt of the window or of the repair comes out as itself |
| `HandoffRuns.PromotesExactlyWhen` | `src/vres_os/codex_handoff.py:1847-1988` | The guard of the promotion step in runs holds exactly when Promote succeeds for some answers of the outside world |
| `HandoffRuns.TaskLog.ClaimStarted` | `src/vres_os/codex_handoff.py:1721-1754` | Claims iff no STARTED, EXECUTED or FAILED event of the key exists, and then appends exactly one STARTED |
| `HandoffRuns.StepKeepsInv` | `src/vres_os/codex_handoff.py:2016-2199` | Every step of every execution keeps: one claim, one end, ends only after claims, exclusive holders, successes in scope |
| `HandoffRuns.RunKeepsInv` | `src/vres_os/codex_handoff.py:2016-2199` | The same in every state of every run |
| `HandoffRuns.OneClaimOneEnd` | `src/vres_os/codex_handoff.py:1721-1754` | Over all interleavings a key gets at most one STARTED, at most one terminal event, and that only after its STARTED |
| `HandoffRuns.ExecutedMeansPromotedInScope` | `src/vres_os/codex_handoff.py:2016-2199` | EXECUTED implies an earlier promotion of exactly the recorded paths into a primary that was clean, on the HEAD the handoff was prepared at and that was HEAD then, within the prepared scope and covering all required paths |
| `HandoffRuns.RemovalOnlyAfterSuccess` | `src/vres_os/codex_handoff.py:1504-1546` | A worktree disappears only in the cleanup of an execution whose EXECUTED event is in the log |
| `HandoffRuns.FailureIsFinal` | `src/vres_os/codex_handoff.py:1756-1777` | A handoff that failed is never executed and none of its worktrees is force-removed |
| `HandoffRuns.AllExplained` | `src/vres_os/codex_handoff.py:2113-2180` | Every EXECUTED event and every execution about to record one goes back to its own promotion step |
| `HandoffRuns.EachPreparedOnce` | `src/vres_os/codex_handoff.py:1668-1690` | In every run a handoff key is prepared once, so its scope and HEAD are fixed |
| `HandoffRuns.OnlyVerifiedTouchThePrimary` | `src/vres_os/codex_handoff.py:2016-2199` | Besides the user, only an execution whose changes were verified to lie in its scope touches the primary |
| `HandoffSteps.StepMeans` | `src/vres_os/codex_handoff.py:2016-2199` | What each step adds to the log, and what becomes of HEAD, primary and worktrees |
| `HandoffSteps.ExecutionMeans` | `src/vres_os/codex_handoff.py:2016-2199` | A step moves only its own execution, which keeps its handoff |
| `HandoffSteps.NothingIsStuck` | `src/vres_os/codex_handoff.py:2016-2199` | An execution that is not over can go on, fail or die |
| `HandoffSteps.CanBePromoted` | `src/vres_os/codex_handoff.py:2016-2199` | Work within the scope can be verified and promoted while HEAD stays and the primary is clean |
| `CredentialStores.RunsAgree` | `src/vres_os/credential_broker.py:447-722` | From empty stores, after any requests, one after the other, with failures at any vault call or the registry write (rollbacks confirmed), the vault holds precisely the entries the registry names and the registry is well-formed |
| `CredentialStores.FailuresLeaveNoTrace` | `src/vres_os/credential_broker.py:447-464` | A failed request leaves the vault as it was, and the registry too unless its write raised after the replacement |
| `CredentialStores.DoneKeepsAgreement` | `src/vres_os/credential_broker.py:497-722` | A request that is carried out keeps both stores in exact agreement |
| `CredentialStores.TornWriteAgreesExactlyWhen` | `src/vres_os/credential_broker.py:292-305` | If the registry write raises after os.replace, the stores still agree iff the request names no new and drops no old entry |
| `CredentialStores.TornFirstSave` | `src/vres_os/credential_broker.py:292-305` | The first save of all with such a write: the registry names a secret that the vault does not hold |
| `CredentialStores.LateRequestAgreesExactlyWhen` | `src/vres_os/credential_broker.py:497-524` | A request planned before another one was carried out restores agreement iff the other changed no names but those of entries it writes itself |
| `CredentialStores.TwoSavesAtOnce` | `src/vres_os/credential_broker.py:497-524` | Two first saves planned on the same empty registry: both done, and the stores do not agree |
| `CredentialStores.OthersUntouched` | `src/vres_os/credential_broker.py:451-464` | However an attempt ends, even unconfirmed, entries of other resources and captures keep their values |
| `CredentialStores.ConfirmMovesValues` | `src/vres_os/credential_broker.py:666-722` | A confirmation moves every captured value unchanged to the resource and leaves nothing of the capture |
| `CredentialStores.SavedIsReadBack` | `src/vres_os/credential_broker.py:497-577` | What was saved with a binding is what the project reads back |
| `CredentialStores.BoundFieldsAreAvailable` | `src/vres_os/credential_broker.py:555-577` | While the stores agree, a registered field of a bound resource is never unavailable |
| `CredentialStores.SaveFollows` | `src/vres_os/credential_broker.py:497-524` | A save changes vault keys and named entries in step, and names something new iff a field was not registered |
| `CredentialStores.DeleteFollows` | `src/vres_os/credential_broker.py:596-610` | A deletion removes a resource's entries, links and emptied project rows together |
| `CredentialStores.CaptureFollows` | `src/vres_os/credential_broker.py:612-641` | A capture with a new id adds exactly its own entries |
| `CredentialStores.ConfirmFollows` | `src/vres_os/credential_broker.py:666-722` | A confirmation keeps named entries and vault keys in step |
| `CredentialStores.AsMapHolds` | `src/vres_os/credential_broker.py:502-508` | The normalized fields hold every given value and nothing else |
| `CredentialEffects.UnlinkMeans` | `src/vres_os/credential_broker.py:537-553` | After an unlink the project reads no field of the resource; every other link is there with its date; the project keeps its row iff it is linked to another resource; nothing else changes |
| `CredentialEffects.BindMeans` | `src/vres_os/credential_broker.py:489-535` | The link is there with its earlier date or with the present one, name and root of the row are refreshed, every other link keeps its date |
| `CredentialEffects.DeleteMeans` | `src/vres_os/credential_broker.py:596-610` | Neither the resource nor a value, a link or an emptied row of it is left; all others are as before |
| `CredentialEffects.SaveMeans` | `src/vres_os/credential_broker.py:497-524` | The resource has its old and new fields and its first date of creation, each given value is stored under its field, and no other entry, resource or link changes |
| `CredentialEffects.CaptureMeans` | `src/vres_os/credential_broker.py:612-641` | The capture row holds fields, date, project and a complete hint; its values and no others are written |
| `CredentialEffects.DiscardMeans` | `src/vres_os/credential_broker.py:654-664` | Nothing of the capture is left; all else is as before |
| `CredentialEffects.ConfirmMeans` | `src/vres_os/credential_broker.py:666-722` | The capture is gone, the resource has its fields, and the project is linked iff asked |
| `CredentialEffects.ConfirmMoves` | `src/vres_os/credential_broker.py:686-722` | Every value moves from the capture to the resource, and no other value moves |
| `CredentialEffects.RefusedExactlyWhen` | `src/vres_os/credential_broker.py:497-722` | The reason of every refusal, iff: authority, then input, then registry, then what the registry or the captured values lack |
| `CredentialEffects.NothingExactlyWhen` | `src/vres_os/credential_broker.py:537-664` | Unlink, delete and discard do nothing iff link, resource or capture is not there |
| `CredentialEffects.NotDoneMeans` | `src/vres_os/credential_broker.py:451-464` | What is not carried out leaves the vault as it was unless the undoing failed too, and the registry unless its write raised after the replacement |
| `CredentialBroker.Broker.VaultChange` | `src/vres_os/credential_broker.py:451-464` | Unreadable exactly when a snapshot read raises; done exactly when every write and the registry write return; otherwise rolled back exactly when every restoring write returns, else unconfirmed; and what both stores hold in each case |
| `CredentialBroker.SucceedsWhenCallsDo` | `src/vres_os/credential_broker.py:451-464` | If no call raises, a request ends as it plans: refused, unchanged or done |
| `CredentialBroker.RolledBackWhenOnlyTheWriteFails` | `src/vres_os/credential_broker.py:457-464` | If only the registry write raises, the request is rolled back |
| `CredentialCalls.ChangeEndMeans` | `src/vres_os/credential_broker.py:451-464` | Unreadable iff one of the first n calls raises, done iff none of 2n does and the registry write returns; else rolled back iff the n calls after the first write that raises, or after all of them, return |
| `CredentialCalls.RequestEndMeans` | `src/vres_os/credential_broker.py:497-722` | Refused at once for authority or input whatever the stores are like; unreadable if registry or captured values cannot be read; else what plan and calls come to |
| `CredentialBroker.Broker.WriteAll` | `src/vres_os/credential_broker.py:447-449` | The write loop of _vault_change and _restore: succeeds exactly when every call does, and then all is written; a stop touches nothing else |
| `CredentialBroker.Broker.Snapshot` | `src/vres_os/credential_broker.py:452-452` | Succeeds exactly when every read does, and then holds the present value, or absence, of every key |
| `CredentialBroker.Broker.WriteRegistry` | `src/vres_os/credential_broker.py:292-305` | The registry changes at os.replace, whatever raises after it |
| `CredentialBroker.Broker.Save` | `src/vres_os/credential_broker.py:497-524` | Has the one result that its plan and its failing calls decide (refused, unchanged, unreadable, done, rolled back or unconfirmed), and leaves both stores as that result says, for a save |
| `CredentialBroker.Broker.Bind` | `src/vres_os/credential_broker.py:526-535` | Has the one result that its plan and its failing calls decide (refused, unchanged, unreadable, done, rolled back or unconfirmed), and leaves both stores as that result says, for a binding |
| `CredentialBroker.Broker.Unlink` | `src/vres_os/credential_broker.py:537-553` | Has the one result that its plan and its failing calls decide (refused, unchanged, unreadable, done, rolled back or unconfirmed), and leaves both stores as that result says, for an unlink |
| `CredentialBroker.Broker.DeleteResource` | `src/vres_os/credential_broker.py:596-610` | Has the one result that its plan and its failing calls decide (refused, unchanged, unreadable, done, rolled back or unconfirmed), and leaves both stores as that result says, for a deletion |
| `CredentialBroker.Broker.CaptureDetection` | `src/vres_os/credential_broker.py:612-641` | Has the one result that its plan and its failing calls decide (refused, unchanged, unreadable, done, rolled back or unconfirmed), and leaves both stores as that result says, for a capture |
| `CredentialBroker.Broker.DiscardPending` | `src/vres_os/credential_broker.py:654-664` | Has the one result that its plan and its failing calls decide (refused, unchanged, unreadable, done, rolled back or unconfirmed), and leaves both stores as that result says, for a discard |
| `CredentialBroker.Broker.ConfirmPending` | `src/vres_os/credential_broker.py:666-722` | Has the one result that its plan and its failing calls decide (refused, unchanged, unreadable, done, rolled back or unconfirmed), and leaves both stores as that result says, for a confirmation |
| `CredentialBroker.Broker.ReadCapture` | `src/vres_os/credential_broker.py:686-692` | Readable exactly when every read returns; then all captured values, or the finding that the capture is incomplete |
| `CredentialBroker.CollectFields` | `src/vres_os/credential_broker.py:501-510` | Accepts iff all values are bounded (for save) and no field gets two values |
| `CredentialBroker.UnlinkEverywhere` | `src/vres_os/credential_broker.py:605-608` | The loop over project rows drops the resource and the rows left empty |
| `KnowledgeService.KnowledgeBase.Run` | `src/vres_os/experience_lifecycle.py:190-254` | One request: the decided outcome and exactly its row and event, or nothing |
| `KnowledgeService.KnowledgeBase.ApplyReinstate` | `src/vres_os/experience_lifecycle.py:264-276` | Restores the status held by the latest retire event, or refuses |
| `KnowledgeService.KnowledgeBase.ApplySupersede` | `src/vres_os/experience_lifecycle.py:286-292` | Supersedes only by a row that is neither rejected nor superseded |
| `KnowledgeService.KnowledgeBase.ApplyRefresh` | `src/vres_os/experience_lifecycle.py:295-309` | Refreshes live rows that have the evidence their type needs |
| `KnowledgeService.KnowledgeBase.LatestRetire` | `src/vres_os/experience_lifecycle.py:267-270` | The newest retire event of the item |
| `KnowledgeService.KnowledgeBase.Recorded` | `src/vres_os/experience_lifecycle.py:235-237` | The event recorded under an idempotency key |
| `KnowledgeService.KnowledgeBase.Update` | `src/vres_os/knowledge.py:265-338` | The edit, or the first error, of the older service |
| `KnowledgeService.KnowledgeBase.Supersede` | `src/vres_os/knowledge.py:340-347` | The older service's supersession |
| `KnowledgeActions.RetireMeans` | `src/vres_os/experience_lifecycle.py:257-262` | A new, valid and approved retire is applied iff the item is live; the status becomes retired and no other field changes; the event holds both statuses |
| `KnowledgeActions.ChallengeMeans` | `src/vres_os/experience_lifecycle.py:279-283` | Applied iff the item is live and not challenged; the status becomes challenged and no other field changes; the event holds both statuses |
| `KnowledgeActions.ReinstateMeans` | `src/vres_os/experience_lifecycle.py:264-276` | Applied iff the item is retired and its latest retire event is of the project with a live status before; that status returns and no other field changes |
| `KnowledgeActions.SupersedeMeans` | `src/vres_os/experience_lifecycle.py:286-293` | Applied iff the replacement stands, is of the same type and project and no less mature; status, successor and end of validity change, an earlier end stays |
| `KnowledgeActions.RefreshMeans` | `src/vres_os/experience_lifecycle.py:295-309` | Applied iff the item is live and has the evidence its type needs; verified now, reviewed at the requested date, status kept |
| `KnowledgeActions.AppliedExactlyWhen` | `src/vres_os/experience_lifecycle.py:190-254` | A request is applied iff it is well-formed, its rows are the project's own, it is approved as exactly this, nothing is recorded under its text, and the action may be taken |
| `KnowledgeActions.InputIsRefusedExactlyWhen` | `src/vres_os/experience_lifecycle.py:191-207` | What is wrong with the input itself, iff |
| `KnowledgeActions.AccessIsRefusedExactlyWhen` | `src/vres_os/experience_lifecycle.py:212-233` | Unknown, company and foreign rows and a missing approval, iff, the target before the successor |
| `KnowledgeActions.ActionIsRefusedExactlyWhen` | `src/vres_os/experience_lifecycle.py:257-309` | Why an action that is reached is not taken, iff |
| `KnowledgeActions.RecordedAnswers` | `src/vres_os/experience_lifecycle.py:234-241` | What was recorded under the text answers the request if digest and project are the same, else it is a reuse |
| `KnowledgeActions.UpdateMeans` | `src/vres_os/knowledge.py:265-338` | The older update: applied iff nothing is wrong with it; exactly which fields change |
| `KnowledgeActions.UpdateIsRefusedExactlyWhen` | `src/vres_os/knowledge.py:265-338` | Each error of the older update, iff |
| `KnowledgeActions.LegacySupersedeMeans` | `src/vres_os/knowledge.py:340-347` | The older supersession, iff, and exactly which fields change |
| `KnowledgeActions.ProposeMeans` | `src/vres_os/knowledge.py:132-214` | A proposal makes a row iff type, status, evidence and approval allow it, and which row |
| `KnowledgeRuns.ReinstateRestoresThePriorStatus` | `src/vres_os/experience_lifecycle.py:264-276` | In every run an approved reinstate gives a retired item exactly the status it had just before it was retired, and changes nothing else |
| `KnowledgeRuns.LastRetireIsTheRetirement` | `src/vres_os/experience_lifecycle.py:257-276` | A retired item's latest retire event holds the status of the state right before it, and the item has been retired ever since |
| `KnowledgeRuns.HistoryIsNeverCorrupt` | `src/vres_os/experience_lifecycle.py:271-273` | The corrupt-history branch is unreachable in runs that start with nothing retired |
| `KnowledgeRuns.ReinstateIsAlwaysPossible` | `src/vres_os/experience_lifecycle.py:264-276` | A new, valid and approved reinstate is applied iff the item is retired |
| `KnowledgeRuns.RepeatChangesNothing` | `src/vres_os/experience_lifecycle.py:234-241` | Repeating an applied request later changes nothing and answers with its event; only a refresh whose date has passed is refused |
| `KnowledgeRuns.ReplayIsTheSameRequest` | `src/vres_os/experience_lifecycle.py:234-241` | A replayed answer is the record of the same action, target, successor, review date, reason and project |
| `KnowledgeRuns.IdemTextInjective` | `src/vres_os/experience_lifecycle.py:62-69` | The hashed idempotency text determines action, target text and approval whatever separators keys contain, given separator-free approval keys |
| `KnowledgeRuns.StepKeepsLedger` | `src/vres_os/experience_lifecycle.py:143-154` | The ledger only grows and its idempotency keys stay unique |
| `KnowledgeRuns.RunKeeps` | `src/vres_os/experience_lifecycle.py:190-254` | Ledger and retirement invariants in every state of every run |
| `Supersession.RunsSettle` | `src/vres_os/experience_lifecycle.py:285-292` | In every run of lifecycle actions, updates and proposals, and of older supersessions that are safe, every chain of superseded_by ends within its type and scope |
| `Supersession.SupersededIsAbsorbing` | `src/vres_os/knowledge.py:68-99` | No step of either service changes a superseded row's status or successor |
| `Supersession.ResolvedInScope` | `src/vres_os/knowledge.py:68-99` | Following superseded_by ends at exactly one row, not superseded, of the same type and scope |
| `Supersession.NoSupersessionCycle` | `src/vres_os/knowledge.py:68-99` | No chain of supersessions comes back to its start |
| `Supersession.LegacySettledExactlyWhen` | `src/vres_os/knowledge.py:340-347` | The older supersede keeps chains finite iff the replacement's chain does not end at the row; otherwise the row was proposed or rejected |
| `Supersession.StandingReplacementIsSafe` | `src/vres_os/experience_lifecycle.py:287-288` | The lifecycle service's look at the successor's status is enough |
| `Supersession.LegacyCanCloseACycle` | `src/vres_os/knowledge.py:340-347` | Without it two proposed rows can supersede each other |
| `Supersession.SupersedeSettledExactlyWhen` | `src/vres_os/knowledge.py:68-99` | One supersession keeps all chains finite iff it is safe |
| `EmbeddingJobs.EmbeddingService.QueueMissing` | `src/vres_os/embeddings.py:88-107` | Queues exactly the eligible chunks without a current vector: new jobs and restarted finished ones with zero attempts |
| `EmbeddingJobs.EmbeddingService.Claim` | `src/vres_os/embeddings.py:109-152` | Recovers stale jobs, skips ineligible ones, and leases exactly the first claimable unlocked jobs in the order of creation, up to the limit, with their next attempt number; fewer only if no more are left |
| `EmbeddingJobs.EmbeddingService.Fail` | `src/vres_os/embeddings.py:154-164` | Hands back exactly the leases still held: to the queue, or to failed after the last attempt |
| `EmbeddingJobs.EmbeddingService.Publish` | `src/vres_os/embeddings.py:185-226` | Publishes exactly the held and eligible rows, skips held ineligible ones; a changed configuration publishes nothing and hands the leases back |
| `EmbeddingJobs.EmbeddingService.Withdraw` | `src/vres_os/embedding_lifecycle.py:37-71` | Revocation clears the vectors and skips the jobs of all chunks of its owners in one step |
| `EmbeddingSteps.FailMeans` | `src/vres_os/embeddings.py:154-164` | Exactly the jobs still held are handed back: to the queue iff the claim was the first or second, failed iff it was the third |
| `EmbeddingSteps.PublishMeans` | `src/vres_os/embeddings.py:185-226` | Of the jobs still held those of usable chunks are completed and the chunks get the vector, the others are skipped; under another configuration it is as if the batch had failed |
| `EmbeddingSteps.ClaimMeans` | `src/vres_os/embeddings.py:109-152` | Each leased job waited with fewer than three claims and a usable chunk, and runs under its next number; abandoned jobs are handed back as after a failure; waiting jobs of unusable chunks are skipped |
| `EmbeddingSteps.QueueMeans` | `src/vres_os/embeddings.py:88-107` | A fresh job for each chosen chunk whose job is new, completed or skipped; other jobs are untouched |
| `EmbeddingSteps.WithdrawMeans` | `src/vres_os/embedding_lifecycle.py:37-71` | Owners are unusable for good, their chunks lose the vector and all their jobs are skipped; nothing else changes |
| `EmbeddingSteps.BatchMeans` | `src/vres_os/embeddings.py:132-145` | A job is in the batch iff it waits unlocked and fewer such jobs than the batch has room for were created before it |
| `EmbeddingSteps.BatchSizeMeans` | `src/vres_os/embeddings.py:110-110` | A batch has 1 to 512 rows; a limit in that range is kept |
| `EmbeddingRuns.ClaimNumbersIncrease` | `src/vres_os/embeddings.py:141-152` | Within an epoch claim numbers on a job strictly increase and stay at most MAX_ATTEMPTS |
| `EmbeddingRuns.OneHolder` | `src/vres_os/embeddings.py:191-199` | Of the claims of a job's current epoch at most one passes the publish check |
| `EmbeddingRuns.OnePublicationPerEpoch` | `src/vres_os/embeddings.py:191-222` | A job is published at most once per epoch |
| `EmbeddingRuns.ClaimPublishesOnce` | `src/vres_os/embeddings.py:191-222` | A claim publishes a job at most once in all epochs together |
| `EmbeddingRuns.PendingHasAttemptsLeft` | `src/vres_os/embeddings.py:113-119` | Pending implies attempts below MAX_ATTEMPTS; attempts never exceed it |
| `EmbeddingRuns.OvertakenRowPassesExactlyWhenRestarted` | `src/vres_os/embeddings.py:88-107` | Of a claim whose row passes the publish check, a later claim on the same job exists iff some queue_missing since found the job completed or skipped and put its attempts back to zero |
| `EmbeddingRuns.FenceIsExactWithoutRestart` | `src/vres_os/embeddings.py:191-199` | Without such a restart a row passes the publish check exactly when its job runs under the very claim that the worker made |
| `EmbeddingRuns.StaleWorkerCanPublish` | `src/vres_os/embeddings.py:95-101` | A concrete run: claim, retirement, recovery skips the job, reinstatement, requeue, a new claim with the same number, and the first worker publishes |
| `EmbeddingCases.StaleAfterModelSwitch` | `src/vres_os/embeddings.py:88-107` | A concrete run with an owner that stays active: claim, recovery, a publication, the model changed and changed back with a publication in between, requeue, a new claim with the same number, and the first worker publishes |
| `EmbeddingRuns.OnlyPublishWritesVectors` | `src/vres_os/embeddings.py:191-222` | A vector appears only by a publication, and only on a chunk that is eligible in that step |
| `EmbeddingRuns.RevokedHoldsNoVector` | `src/vres_os/embedding_lifecycle.py:37-71` | From its revocation on, no chunk of an owner holds a vector, whatever workers are under way |
| `EmbeddingRuns.IneligibleHoldsVectorExactlyWhen` | `src/vres_os/experience_lifecycle.py:138-140` | A chunk that is not eligible holds a vector iff it held one when it last lost its eligibility, and neither that loss nor anything since was a revocation |
| `EmbeddingRuns.RetirementKeepsTheVector` | `src/vres_os/experience_lifecycle.py:257-292` | Publishing and then a change of the owner's status leaves the chunk ineligible with its vector |
| `EmbeddingRuns.IneligibleChunkCanHoldVector` | `src/vres_os/experience_lifecycle.py:257-292` | A concrete run: publish, then retire, and the ineligible chunk holds its vector |
| `EmbeddingRuns.VectorWasPublishedWhileEligible` | `src/vres_os/embeddings.py:191-256` | Every vector was published by an earlier step, on a chunk that was eligible in it |
| `EmbeddingRuns.StepKeepsInv` | `src/vres_os/embeddings.py:88-256` | What every step keeps about jobs, leases, workers and vectors |
| `EmbeddingRuns.RunKeepsInv` | `src/vres_os/embeddings.py:88-256` | The same in every state of every run |
| `PackEvaluator.Evaluate` | `src/vres_os/experience_retrieval.py:869-959` | For items listed in a given order: the filed conflict sets, each under its key and with the marker it was filed for, and every item judged as their members or not |
| `PackEvaluator.ComparePremises` | `src/vres_os/experience_retrieval.py:879-891` | Premise mismatch demotes and moves, missing comparability is flagged |
| `PackEvaluator.ReadRelations` | `src/vres_os/experience_retrieval.py:896-914` | Marked pairs are filed in the order of the relations; supersessions become directed pairs in either form |
| `PackEvaluate.EvidenceFixedExactlyWhen` | `src/vres_os/experience_retrieval.py:896-909` | The evidence of a marked pair is the same for every order of the edges iff all edges that mark the pair have one marker |
| `PackCases.FirstMarkerIsTheEvidence` | `src/vres_os/experience_retrieval.py:896-909` | Two relations mark one pair, in both directions: the filed marker is that of the first, in either order |
| `PackEvaluator.ApplySupersessions` | `src/vres_os/experience_retrieval.py:918-931` | Contradictory pairs are filed in the order of their references, without a winner; others make the predecessor historical |
| `PackEvaluator.ReadChallenges` | `src/vres_os/experience_retrieval.py:934-936` | Challenged items are filed in the order of the list |
| `PackEvaluator.ReadSubjects` | `src/vres_os/experience_retrieval.py:937-941` | Subjects with exactly the two opposite polarities are filed in their order |
| `PackEvaluator.AddSet` | `src/vres_os/experience_retrieval.py:894-897` | setdefault: a set whose key is taken is not filed |
| `PackEvaluator.MarkMembers` | `src/vres_os/experience_retrieval.py:943-958` | Every member of every filed set is demoted, moved and flagged |
| `PackFiling.FiledOnce` | `src/vres_os/experience_retrieval.py:894-897` | Only conflicts that were found are filed, each key once, and every conflict found meets its key taken |
| `PackFiling.AllFiledExactlyWhen` | `src/vres_os/experience_retrieval.py:894-897` | Every conflict found is filed iff no two of them have the same key |
| `PackFiling.EverySideDemotedWhen` | `src/vres_os/experience_retrieval.py:943-958` | If no two conflicts found have the same key, no side of any of them keeps an instructing role |
| `PackFiling.ItemOrderCannotMatterExactlyWhen` | `src/vres_os/experience_retrieval.py:894-941` | The filed sets are the same for every order of the items iff no two challenged items compete for a key that the relations left free |
| `PackFiling.RelationOrderCannotMatterExactlyWhen` | `src/vres_os/experience_retrieval.py:894-931` | The filed sets and their markers are the same for every order of the relations iff relations that mark pairs under one key mark the same pair under the same marker |
| `PackFiling.EarlierKindKeepsTheKey` | `src/vres_os/experience_retrieval.py:896-941` | Of two conflicts of different kinds with one key the earlier kind is filed: marked pairs, contradictory pairs, challenged items, opposed subjects |
| `PackFiling.MarkerIsEvidence` | `src/vres_os/experience_retrieval.py:904-909` | The marker of a filed pair is that of the first relation that marks the pair |
| `ConflictKeys.SameKeyExactlyWhen` | `src/vres_os/experience_retrieval.py:865-866` | Two conflict sets share a key iff their texts are the same once case and white space are folded |
| `ConflictKeys.SameTextExactlyWhen` | `src/vres_os/experience_consolidation.py:166-167` | Two texts are hashed alike iff they have the same words once their case is folded |
| `ConflictKeys.SpacesAreLost` | `src/vres_os/experience_consolidation.py:166-167` | Which white space stands between two parts does not matter |
| `ConflictKeys.CaseIsLost` | `src/vres_os/experience_retrieval.py:865-866` | Member keys that differ in a letter that folds alike give one conflict key |
| `ConflictKeys.BarsAreLost` | `src/vres_os/experience_retrieval.py:865-866` | A bar inside a memory key shifts the boundary between two members, and the conflict key is the same |
| `ConflictKeys.KeysDifferWhen` | `src/vres_os/experience_retrieval.py:865-866` | Memory keys without bars and spaces that differ in more than case keep the keys of all conflicts apart |
| `PackCases.PlainKeysFileAll` | `src/vres_os/experience_retrieval.py:865-941` | With such memory keys every conflict found is filed, and the order of the candidates cannot matter |
| `PackCases.CaseDecidesThePack` | `src/vres_os/experience_retrieval.py:934-936` | Two challenged candidates, Lesson-1 and lesson-1: the one listed first becomes the conflict, the other remains an instruction, and the two packs differ |
| `PackCases.OrderOfChallengesShows` | `src/vres_os/experience_retrieval.py:934-936` | The same for any two challenged candidates with one conflict key |
| `PackEvaluate.ConflictHasNoWinner` | `src/vres_os/experience_retrieval.py:829-843` | A member of a filed conflict keeps no instructing role, and match, fusion and recency do not enter its rank |
| `PackEvaluate.OthersKeepTheirRole` | `src/vres_os/experience_retrieval.py:879-958` | An item of no filed conflict that is neither superseded nor at odds with the premises keeps role, section and authority |
| `PackEvaluate.EvaluationGivesNoAuthority` | `src/vres_os/experience_retrieval.py:846-853` | Evaluation changes no tier, scope, text or group and only takes authority away |
| `PackEvaluate.MismatchIsNeverInstruction` | `src/vres_os/experience_retrieval.py:879-888` | An item whose premises the request contradicts is never shown as an instruction |
| `PackItems.ItemMeans` | `src/vres_os/experience_retrieval.py:879-958` | What evaluation makes of an item, field by field, from its premises, the relations between references and the filed conflicts: role, section, authority and flags; all other fields stay |
| `PackItems.ContradictedPremises` | `src/vres_os/experience_retrieval.py:879-888` | An item that for some shared premise does not allow the requested value comes out flagged and without an instructing role |
| `PackItems.AllowedPremises` | `src/vres_os/experience_retrieval.py:879-888` | An item that allows every shared value, is not replaced and in no filed conflict comes out as it went in |
| `PackItems.UnrelatedPremises` | `src/vres_os/experience_retrieval.py:889-890` | One that shares no premise gains exactly the flag premise_unverified |
| `PackItems.FoundConflictsAre` | `src/vres_os/experience_retrieval.py:896-941` | The conflicts found are exactly the marked pairs, the pairs that replace each other, the challenged items and the subjects with the two opposite polarities |
| `PackModel.RankingStrictTotal` | `src/vres_os/experience_retrieval.py:829-839` | The sort key is a total order because it ends in the memory key |
| `PackOrder.RankingMeans` | `src/vres_os/experience_retrieval.py:829-839` | The sort key orders by section, tier and scope, then a match before none, greater fusion, later recency, smaller key; members of conflicts count as unmatched, irrelevant and without date |
| `PackOrder.StrLessMeans` | `src/vres_os/experience_retrieval.py:829-839` | The smaller key: it ends where the other goes on, or has the smaller character at the first difference |
| `PackOrder.ShownInOrder` | `src/vres_os/experience_retrieval.py:1061-1066` | What is shown stands in that order, told by the fields |
| `PackOrder.DroppedIsWorse` | `src/vres_os/experience_retrieval.py:1036-1111` | A loose candidate that cap or trim dropped is worse by those fields than every candidate shown, and one over its section's budget worse than every loose one of the section shown |
| `PackOrder.LessRelevantIsDropped` | `src/vres_os/experience_retrieval.py:829-839` | Of two alike in section, tier, scope and match the dropped one is not the more relevant, nor at equal relevance the more recent |
| `PackTurns.AdmissionMeans` | `src/vres_os/experience_retrieval.py:1025-1027` | Conflicts are tried by the lowest tier of their members, then the smaller reason, then the smaller key |
| `PackTurns.AdmittedExactlyWhen` | `src/vres_os/experience_retrieval.py:1028-1034` | A conflict is admitted iff its members together with those admitted before number no more than the budget of the section |
| `PackTexts.FateMeans` | `src/vres_os/experience_retrieval.py:1036-1060` | What becomes of a loose candidate, iff, told by what was kept and seen before it: group kept, text seen, citing item seen, section full, or kept |
| `PackRepeats.AlsoMatchedMeans` | `src/vres_os/experience_retrieval.py:1043-1046` | Every item lists, in order, exactly the candidates left out because they repeat its text |
| `PackSettle.Settle` | `src/vres_os/experience_retrieval.py:962-976` | Whichever broken set it deletes first, it leaves the greatest stable sub-selection in order, exactly the whole sets, and counts each deleted set once |
| `PackSettle.GreatestIsStable` | `src/vres_os/experience_retrieval.py:962-976` | The union of the stable sub-selections is stable, so there is a greatest one |
| `PackSettle.SettleFacts` | `src/vres_os/experience_retrieval.py:962-976` | Settling keeps every item outside the live sets and leaves deleted sets wholly absent |
| `PackSettle.SettleWhole` | `src/vres_os/experience_retrieval.py:1035-1035` | Right after admission there is nothing to settle |
| `PackSelect.AdmitSetsFacts` | `src/vres_os/experience_retrieval.py:1023-1034` | Admission shows sets whole, within the section budget, and counts sections exactly |
| `PackSelect.AdmittedIsSettled` | `src/vres_os/experience_retrieval.py:1023-1035` | After admission every live set is whole and every shown item belongs to one |
| `PackAccounting.RefusedSetDidNotFit` | `src/vres_os/experience_retrieval.py:1028-1032` | A set is refused only if at its turn its missing members would overflow the section |
| `PackFates.OneFate` | `src/vres_os/experience_retrieval.py:1036-1060` | Every candidate outside the conflicts meets exactly one fate |
| `PackFates.FatesCounted` | `src/vres_os/experience_retrieval.py:1036-1060` | The counters are the numbers of candidates that met each fate |
| `PackFates.KeptAreFated` | `src/vres_os/experience_retrieval.py:1036-1060` | Kept are exactly those fated to be kept, in rank order |
| `PackFates.OverBudgetRanksBelow` | `src/vres_os/experience_retrieval.py:1054-1056` | Over-budget candidates rank below everything kept in their section |
| `PackAccounting.OverBudgetMeansFull` | `src/vres_os/experience_retrieval.py:1054-1056` | A candidate is over budget only if its section is exactly full |
| `PackGuarantees.ConflictsShownWhole` | `src/vres_os/experience_retrieval.py:1023-1111` | Every set still live is fully shown and every shown conflict member belongs to such a set |
| `PackConflicts.ShownExactlyWhen` | `src/vres_os/experience_retrieval.py:962-1111` | A conflict found by evaluate is shown whole iff all its members lie in live sets, absent iff none does, and in part otherwise |
| `PackConflicts.SplitMeansRefused` | `src/vres_os/experience_retrieval.py:1028-1032` | Only a set refused at its turn, because its missing members overflowed the section, is ever shown in part |
| `PackConflicts.SplitAtAdmissionExactlyWhen` | `src/vres_os/experience_retrieval.py:1023-1035` | Right after admission a conflict is shown in part iff it overflows the section at its turn and the sets that do not cover some of its members, but not all |
| `PackConflicts.SplitExactlyWhen` | `src/vres_os/experience_retrieval.py:1023-1111` | The same holds of what is shown in the end if neither a cap nor the trim drops anything |
| `PackCases.SharedMemberIsShownAlone` | `src/vres_os/experience_retrieval.py:896-1111` | Three decisions, marked relations a-b and b-c, room for two: evaluated and composed, one of the two conflicts is shown in part |
| `PackConflicts.WholeOrAbsentWhen` | `src/vres_os/experience_retrieval.py:962-1034` | Every conflict is whole or absent if no two overlap in part, or if all conflict members fit the section together |
| `PackConflicts.SecondShownInPart` | `src/vres_os/experience_retrieval.py:1023-1034` | Of two conflicts with room for the first alone, the second is shown in part iff the two overlap |
| `PackConflicts.TwoPairsAndRoomForTwo` | `src/vres_os/experience_retrieval.py:1023-1034` | Budget two, conflicts {a, b} and {b, c}: b is shown and c is not |
| `PackConflicts.DroppedSetsAreCounted` | `src/vres_os/experience_retrieval.py:962-1034` | The counter of dropped sets is the number of conflicts less the number still live |
| `PackGuarantees.PackIsBounded` | `src/vres_os/experience_retrieval.py:1061-1111` | At most max_items, ranked, memory keys distinct, texts distinct outside the conflicts |
| `PackGuarantees.SectionsWithinBudget` | `src/vres_os/experience_retrieval.py:1023-1111` | Each section stays within its budget; the raw section within its budget or one |
| `PackGuarantees.DroppedRanksBelow` | `src/vres_os/experience_retrieval.py:1036-1111` | What cap or trim drops ranks below everything shown except raw evidence; what a budget drops ranks below everything shown of its section |
| `PackGuarantees.CapFacts` | `src/vres_os/experience_retrieval.py:1061-1066` | Cap and settle keep conflicts whole and drop from the bottom |
| `PackGuarantees.TrimFacts` | `src/vres_os/experience_retrieval.py:1108-1111` | Trim and settle keep conflicts whole and drop from the bottom |
| `PackGuarantees.PickedPerGroup` | `src/vres_os/experience_retrieval.py:817-820` | At most two raw rows of one source or knowledge item |
| `PackGuarantees.RawOnlyWithoutPrimary` | `src/vres_os/experience_retrieval.py:1069-1089` | Raw evidence is shown only where no primary item is |
| `PackRows.PickedExactlyWhen` | `src/vres_os/experience_retrieval.py:808-824` | A raw row is picked iff it makes an item, there is room after those picked before it (the first needs none), and fewer than two of those are of its group |
| `PackRows.PickedInOrder` | `src/vres_os/experience_retrieval.py:812-812` | Picked rows stand by score, then key |
| `PackRows.FallbackAdds` | `src/vres_os/experience_retrieval.py:1078-1087` | Exactly the picked rows are added whose text no candidate seen and no row picked before has |
| `PackRows.RawStatusMeans` | `src/vres_os/experience_retrieval.py:1069-1088` | Disabled, not needed, failed, used and no results, iff |
| `PackStages.CappedMeans` | `src/vres_os/experience_retrieval.py:1061-1066` | The first cap keeps the best max_items, settled: the greatest part of them that splits no live conflict |
| `PackStages.FallbackMeans` | `src/vres_os/experience_retrieval.py:1069-1089` | The same after the new rows are added; nothing changes if the fallback is not used |
| `PackStages.ComposedMeans` | `src/vres_os/experience_retrieval.py:1108-1111` | The trim loses items one by one, each the last of a selection that did not fit, and stops at the first that fits |
| `PackStages.TokensMean` | `src/vres_os/experience_retrieval.py:1112-1113` | The token estimate is a quarter of the encoded bytes, rounded down |
| `PackStages.DigitsMean` | `src/vres_os/experience_retrieval.py:1108-1113` | The width of a number in decimal digits |
| `PackAccounting.FatesAreCounted` | `src/vres_os/experience_retrieval.py:1036-1060` | The final counters of the main loop are exact and leave no candidate out |
| `PackAccounting.NothingIsLost` | `src/vres_os/experience_retrieval.py:1061-1111` | A candidate kept by the main loop is shown, or cut once by a cap, or popped once by the trim; all final counters are the sizes of sets of distinct items that were there to be dropped, the deduplicated raw rows included |
| `PackNovelty.GroupsShownOnce` | `src/vres_os/experience_retrieval.py:1040-1042` | Outside the conflicts a group is shown once |
| `PackNovelty.EpisodeShownWithoutItsLesson` | `src/vres_os/experience_retrieval.py:1047-1051` | A successful episode is never shown below, or beside a conflict with, something derived from it |
| `PackCompose.PackFits` | `src/vres_os/experience_retrieval.py:1108-1113` | A non-empty pack fits max_pack_bytes for every limit below 40000, hence for all limits a policy may set |
| `PackCompose.AllAcceptedFitExactlyWhen` | `src/vres_os/experience_retrieval.py:1108-1113` | All sizes that the trim accepts fit the limit once the token count is written iff the limit is below 40000 |
| `PackCompose.PackExceedsFrom40000` | `src/vres_os/experience_retrieval.py:1108-1113` | From 40000 on, a composed pack that leaves just the room of the placeholder exceeds its limit |
| `PackCases.OneByteTooMany` | `src/vres_os/experience_retrieval.py:1108-1113` | A composed pack of 40001 bytes at a limit of 40000 |
| `PackComposer.Composer.Compose` | `src/vres_os/experience_retrieval.py:979-1113` | The mutable composition computes the specified selection, raw status, token count and encoded size |
| `PackComposer.Composer.AdmitConflict` | `src/vres_os/experience_retrieval.py:1028-1034` | One conflict set at its turn: all its missing members, or none of them |
| `PackComposer.Composer.TakeItem` | `src/vres_os/experience_retrieval.py:1037-1060` | One turn of the main loop |
| `PackComposer.Composer.TakeOthers` | `src/vres_os/experience_retrieval.py:1036-1060` | The main loop over the sorted candidates without conflict members |
| `PackComposer.Composer.CapTotal` | `src/vres_os/experience_retrieval.py:1061-1066` | The total cap |
| `PackComposer.Composer.RawFallback` | `src/vres_os/experience_retrieval.py:1069-1089` | The raw fallback and its exact status: disabled, not needed, failed, used or no results |
| `PackComposer.Composer.TrimToSize` | `src/vres_os/experience_retrieval.py:1108-1111` | The trim loop |
| `PackComposer.SelectRaw` | `src/vres_os/experience_retrieval.py:805-824` | The deterministic selection of raw rows |
| `ExperiencePack.ComposePack` | `src/vres_os/experience_retrieval.py:979-1113` | compose for candidates listed in any order: the items shown with their roles, counters, raw status, tokens and size |
| `ExperiencePack.OrderCannotMatter` | `src/vres_os/experience_retrieval.py:979-1113` | Every permutation of the candidates gives the same pack and diagnostics, unless challenged candidates compete for one conflict key |
| `ExperiencePack.RelationOrderCannotMatter` | `src/vres_os/experience_retrieval.py:869-1008` | Every order of the relations gives the same filed sets, evaluated candidates and citations, unless relations mark pairs under one key that are not the same pair under one marker |
| `ExperiencePack.BuildCitations` | `src/vres_os/experience_retrieval.py:1005-1008` | The index of keys derived from each episode |
| `PackAnswer.CitesMean` | `src/vres_os/experience_retrieval.py:1005-1008` | A key cites an episode iff a derived_from relation leads from it to that episode |
| `PackAnswer.ShownItemIs` | `src/vres_os/experience_retrieval.py:1092-1113` | Every item shown is the listed candidate of its key with the standing that evaluation leaves it, or the item of its raw row |
| `PackAnswer.ComposedUnderSetting` | `src/vres_os/experience_retrieval.py:979-1004` | Selection runs on the listed candidates, the filed conflicts and the given parameters |
| `ExperiencePack.InputsAreOk` | `src/vres_os/experience_retrieval.py:943-1004` | Evaluation delivers what the selection relies on |

## Left out

- SQL, full-text and vector ranking, and the readers that gate candidates: they only supply inputs.
- The builders of items and of raw evidence, evidence and reason lists of items, the diagnostics of excluded rows, and the
  recomputed fusion score of replay candidates: the score is an input.
- Unicode, URL and host normalizers of the credential broker: identities and fields come normalized. The detectors of secrets in
  prompts, running commands with secrets and materialized files.
- KeyboardInterrupt inside a vault change: only exceptions that the code catches trigger its rollback. A keyring that reports a
  failed delete as a missing password is believed, as the adapter does.
- Two captures with the same uuid4: `CredentialStores.FreshCapture` is assumed in the lemmas about runs.
- Codex execution, snapshots, integrity comparison, patches and postconditions: their answers are parameters of the handoff.
- PackEvaluator.Evaluate: the evidence and reason lists of items, apart from the markers of conflict pairs.
- PackEvaluator.ComparePremises: the reported premise status and the list of mismatches.
- PackEvaluator.ReadRelations: the markers of supersessions, and the reason given to items that other relations touch.
- PackEvaluator.ApplySupersessions: the evidence and reasons given to both items.
- PackEvaluator.ReadSubjects: the evidence of the sets; nor that of the sets of `PackEvaluator.ReadChallenges`.
- PackEvaluator.MarkMembers: the evidence and reasons that members share, and their role before.
- PlanCheck.CheckAlignmentPlan: Python's recursion limit, which very long chains of tranches would meet in the search.
- CredentialStores.RunsAgree: requests that overlap in time; what two of them do to each other is in
  `CredentialStores.LateRequestAgreesExactlyWhen`.
- HandoffRuns.RemovalOnlyAfterSuccess: that the path to remove is the handoff's own worktree, apart from the primary, inside the
  temporary area and registered with git; these checks can only refuse a removal.
- HandoffRuns.ExecutedMeansPromotedInScope: HEAD is its tree of files, so a commit that changes no file does not count as a move.
- HandoffRuns.StepKeepsInv: promotion is one step of a run; what happens inside it at each failing call is in `Promotion`.
- Source revocation apart from what it does to chunks, company approvals beyond their yes or no, and the statements, scopes and metadata of knowledge items.
- EmbeddingJobs.EmbeddingService.Claim: the clock's choice of stale jobs, the rows that other workers hold locked and the order
  of creation are parameters; error texts and timestamps are not modelled.
- Vectors and their dimensions: a vector is the name of the model that made it.
- Chunk hashes, and floating-point rounding in `int(target_chars * 0.6)`, which is the integer floor here.
- The texts of the errors of the plan contract: only which plans have one.
- The findings of the architecture audit other than its cycles, and the readers of imports that produce the edges.
- MCP tools, CLI, hooks, configuration, installer, optimization, model policy, metrics and approval recording: they pass on
  what the modelled parts decide, or make single decisions without state.
