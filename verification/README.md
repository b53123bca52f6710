# Course lifecycle, course generation and source compilation, verified

This project models the part of the learning platform that decides what a course says and who may change it, and proves
properties of it in Dafny. `dafny verify dfyconfig.toml` checks every file. Four parts build on each other:

- **Course tables.** A replacement command becomes an announced tree in the service and row-by-row writes in the repository:
  positions are shifted by a constant offset, rows are updated or created in nested loops, and what no node kept is deleted. The
  modules `CurriculumService`, `CurriculumFaults`, `CurriculumTable`, `CourseRepository`, `CurriculumRefinement`,
  `CurriculumRoundTrip` and `CurriculumReplacement` show which node is refused and that reloading the rows gives the announced
  tree; `SnapshotLoading`, `SuccessorDraft`, `SuccessorContent`, `SnapshotSchema`, `PositionOffset`, `RichText`, `CurriculumValidation`, `CanonicalJson` and
  `ContentProjection` cover loading, cloning, the snapshot contract, the exact bound on positions, validation and content identity.
- **Course versions.** `CourseVersions` is the state machine of versions, reviews, the publication pointer, facts and idempotency
  records; `CourseInvariants` and `CourseHistory` hold what every sequence of commands keeps; `CourseRules` reads off the stored
  fields when a command is accepted, which code refuses it and what it leaves; `CourseRaces` lets commands commit between
  another's load and save; `CourseStore` is the class that changes the stored rows behind the guards of the database;
  `VersionHistory` reads the history page by page.
- **Generation runs.** `GenerationRun` makes every database transaction of a worker or human one step; `GenerationInvariants` and
  `GenerationHistory` quantify over every interleaving and every clock reading; `GenerationRules` says of every step when it is accepted
  and what it leaves, and which runs can be finished; `GenerationStore` changes the rows in place.
- **From pages to a course.** `Extraction`, `TextConservation`, `PageNormalization`, `StableIds`, `CourseCompiler`, `CompilerChecks`,
  `DocumentReading`, `CompilerCorrectness`, `DraftCorrectness`, `GenerationEvidence`, `DraftStorage` and `SourceToCourse` follow the
  text of a page through the stored evidence of a run into the lesson of the stored course, where a reader finds it again.

Each operation that changes state step by step is a method proved equal to a specification function, and the results are lemmas
about those functions over all inputs, all runs or all reachable states.

## Assumptions

- SHA-256 is an unknown function. That it separates two texts is assumed of no pair: `HashIdentifiesContent` says what follows if
  it does, and what fails if it does not. Request digests are compared as values; that equal canonical requests are equal commands
  is proved.
- `uuid4` gives ids that are not in use. `uuid5` separates its names, and `str` of an id has no colon; that the colon-joined names
  differ is proved.
- An id is a natural number in the order PostgreSQL sorts ids in. A version is known by its place in the order of creation.
- Permissions, memberships, publication rights, source rights, source readiness and clock readings are chosen by the environment at
  each step. One `transaction.atomic()` block is one step; a refused command leaves what its rollback leaves, which is nothing.
  `CourseRaces` takes a course command apart into its unlocked loads and its locked save, which sees what was committed before it;
  the queries of one load read one state.
- The submission actor is the actor of the last submitted fact, as the database function looks it up.
- The guards on single writes are those of the migrations of the two modules, as far as they speak of modelled columns.
- Text is in Unicode normalization form C and consists of Unicode scalar values. Object keys are sorted by code point, as the code
  sorts them; for the ASCII keys of the contract this is the UTF-16 order of section 3.2.3 of RFC 8785.
- Row updates by one UPDATE statement happen one row at a time, in an order of the database's choosing, with the unique constraints
  enforced after every row.

## What the proofs found

- The position offset is an exact bound. With every stored and incoming position at most 1,000,000 no write clashes; no larger bound
  works (`OffsetIsTheBound`). The validator has no upper bound on positions (`modules/courses/validation.py:68`), and a clash
  surfaces as a database IntegrityError that the adapter's `save` does not translate (`api/course_composition.py:473`).
- The rich-text checker looks a node's type up in a set before it knows that the type is a string
  (`modules/courses/validation.py:194`). A list or dictionary there raises TypeError instead of being reported
  (`UnhashableTypeIsNotReported`); exactly these documents do. The HTTP contract types a document as a rich-text model
  (`api/schemas/courses.py:418`) and rejects it first, so only direct callers of the validator or of the service meet the exception.
- The checker's exception is no ValueError, so the handlers `except ValueError` around it never see it
  (`modules/course_generation/services.py:969`). A usable source with a section of more than 499 elements leaves the generator with
  that exception every time (`GenerationRaises`), through the generic handler; a run whose every attempt raises is failed after
  exactly as many rounds as it had attempts left, and waits for the next one before (`UnexpectedIsRetried`).
- A worker's commit in its own stage ends the run as failed for good if and only if the worker still owns the lease and the lease
  has lapsed: the conflict is not retryable, and a failure needs the owner only (`LateCommitFailsTheRun`, and `CommitFailsTheRun`
  for any stage). With attempts left, a claim at the same moment would have started the next attempt.
- The lease names a stripped worker id, so it fences only workers with different ids (`SharedIdIsNoFence`, `TakenOverForGood`).
- A successor command that loads a course just before another one creates the same successor is answered with that successor, but
  the service writes a second creation fact (`modules/courses/repositories.py:756-761`, `modules/courses/services.py:939-944`).
  Then the facts no longer replay to the versions of the course (`StaleSuccessorIsAtomic`, `SecondFactBreaksTheLog`).
- A transition loads its course twice without a lock. If any other command moves the course row between the two loads, a submission,
  a review or an archival is refused with SERVICE_CONTRACT_ERROR although its version has not changed
  (`api/course_composition.py:490-499`; `ReachedTransitIsAtomic`, `CourseChangeRefuses`).
- The check of a blueprint before storage holds modules to one for each section, but not lessons to one for each module
  (`OneModulePerSection`, `DoubledLessonsPass`). The planner's own blueprints never have two lessons under one module; another
  adapter's could, and would be approved and generated before the canonicalization refuses them.
- The constraints allow a run one attempt only (`modules/course_generation/models.py:160-162`). Such a run can never become a course,
  because planning and generating take one attempt each (`FinishingTakesTwoAttempts`); the default is three.
- A superseded version keeps the status `published`; only the publication pointer tells which version is current.

## Model

| member | source | states |
|---|---|---|
| CurriculumService.Preserve | backend/src/lms/modules/courses/services.py:689-700 | a kept node is refused as missing, as stale or as misplaced in that order, and otherwise keeps its id and gains one row version exactly when its position or body differs |
| CurriculumService.MaterializeCurriculum | backend/src/lms/modules/courses/services.py:576-687 | the nested loops stop at the first faulty node in section, lesson, block order and otherwise give the announced tree with every level in position order |
| CurriculumService.FirstSomeAt | backend/src/lms/modules/courses/services.py:576-687 | the error reported is that of the first refused node |
| CurriculumTable.Table.Write | backend/src/lms/modules/courses/models.py:230-241 | one UPDATE or INSERT passes exactly when the position is a positive integer of the column and no other sibling holds it |
| CurriculumTable.RaiseIsClear | backend/src/lms/modules/courses/repositories.py:471-480 | raising the next row by the offset is admitted exactly when no sibling still to be raised sits at the target |
| CurriculumTable.Table.Shift | backend/src/lms/modules/courses/repositories.py:471-480 | row by row in any order: succeeds exactly when every single raise is admitted, and then every row of the version is raised |
| CurriculumTable.ClearMeansAvoids | backend/src/lms/modules/courses/repositories.py:485-580 | the constraints admit the next write exactly when no untouched shifted sibling, which is deleted only after the loop, sits at its position |
| CurriculumTable.Table.Place | backend/src/lms/modules/courses/repositories.py:485-580 | lookup, comparison and write of one node: a conflict exactly when the stored row does not match, otherwise written exactly when the constraints admit it |
| CurriculumTable.SmallPositionsPass | backend/src/lms/modules/courses/repositories.py:471-595 | positions from 1 to the offset never clash in any write |
| CurriculumTable.Table.DeleteExcept | backend/src/lms/modules/courses/repositories.py:582-595 | the rows of the version that no node kept are gone, all others stay |
| CourseRepository.Repository.ReplaceCurriculumRows | backend/src/lms/modules/courses/repositories.py:446-595 | succeeds exactly when every raise and every write is admitted; then each table holds the written rows and the other versions' rows, and otherwise nothing has changed |
| CourseRepository.NothingCascades | backend/src/lms/modules/courses/repositories.py:582-595 | the deletions cascade to no kept row and no row of another version |
| CourseRepository.SettledAt | backend/src/lms/modules/courses/repositories.py:446-595 | after the deletions a row exists exactly when a node wrote it or it belongs to another version, and then unchanged |
| CurriculumRefinement.CommandIsAddressed | backend/src/lms/modules/courses/repositories.py:482-580 | distinct node ids and sibling positions make every write list touch each row once |
| CurriculumRefinement.SettledExactly | backend/src/lms/modules/courses/repositories.py:500-577 | a kept row has its old row version exactly when it is unchanged, and one more otherwise; a new row was not there and starts at one |
| CurriculumRefinement.ReplacedExactly | backend/src/lms/modules/courses/repositories.py:482-595 | in all three tables the version holds exactly the rows of the command's nodes |
| CurriculumRefinement.ReplacedRepresents | backend/src/lms/modules/courses/repositories.py:446-595 | the rows left by the writes and deletions are exactly the tree the service computes: order, edges, ids, row versions and bodies |
| CurriculumRefinement.ReplacedKeepsIntegrity | backend/src/lms/modules/courses/repositories.py:446-595 | foreign keys and unique positions hold afterwards and no other version's rows changed |
| CurriculumRoundTrip.CurriculumPayload | backend/src/lms/api/course_composition.py:290-350 | the dictionaries built in place name a node as kept, at the stored row version, exactly when its id is stored |
| CurriculumRoundTrip.PayloadOfMaterialized | backend/src/lms/api/course_composition.py:290-350 | the payload of the announced tree is the original command with every level sorted |
| CurriculumRoundTrip.ServiceAndRepositoryAgree | backend/src/lms/modules/courses/services.py:576-687 | the service accepts a command exactly when the repository finds every row it names |
| CurriculumRoundTrip.SortedIsPreserved | backend/src/lms/api/course_composition.py:404-478 | a command the service accepted under its own ids is accepted, sorted, under the ids of the database |
| CurriculumReplacement.SameMaterialized | backend/src/lms/modules/courses/services.py:576-687 | a command and its sorted form give the same tree up to the ids of new nodes |
| CurriculumReplacement.SameTreeSameMeaning | backend/src/lms/modules/courses/hashing.py:46-85 | trees equal up to new ids say the same |
| CurriculumReplacement.DictionariesAreStored | backend/src/lms/modules/courses/services.py:581-592 | the id dictionaries built from the loaded tree are the stored rows of the version |
| CurriculumReplacement.ReplaceCurriculum | backend/src/lms/modules/courses/services.py:547-574 | the whole operation: refused with the fault of the first faulty node and no change, or refused by a constraint exactly when some write clashes and no change, or the reloaded tree equals the announced one up to new ids, with the same content, untouched other versions and intact keys |
| CurriculumFaults.FirstFaultIsReported | backend/src/lms/modules/courses/services.py:689-700 | the service refuses a command exactly when some node is at fault, with the fault of the first one visited: not found for a row that the version lacks or has elsewhere, a conflict for a row at another row version |
| PositionOffset.SmallPositionsNeverClash | backend/src/lms/modules/courses/repositories.py:34 | with all positions at most the offset no raise and no write of any accepted command clashes |
| PositionOffset.OffsetIsTheBound | backend/src/lms/modules/courses/repositories.py:34 | a bound on all positions guarantees success for every tree, command and order of the shift if and only if it is at most 1,000,000 |
| PositionOffset.OffsetPlusOneClashes | backend/src/lms/modules/courses/repositories.py:471-595 | one more admits a clash: a new section at offset + 1 meets the shifted section it replaces |
| PositionOffset.ShiftDependsOnOrder | backend/src/lms/modules/courses/repositories.py:471-480 | beyond the bound the shift itself succeeds or fails with the order in which the database visits two rows |
| SnapshotLoading.GroupByParent | backend/src/lms/modules/courses/repositories.py:125-130 | the in-place grouping holds, for every parent, its rows in query order |
| SnapshotLoading.UnderLists | backend/src/lms/modules/courses/repositories.py:107-130 | grouped rows of an ordered query are the children of their parent in position order |
| SnapshotLoading.LoadSnapshot | backend/src/lms/modules/courses/repositories.py:89-190 | loading gives the one tree that the rows of the version stand for |
| CourseTree.TreeIsUnique | backend/src/lms/modules/courses/repositories.py:89-190 | rows stand for at most one tree, so update followed by load is determined |
| SnapshotSchema.RequireOrderedUniquePositions | backend/src/lms/api/schemas/courses.py:198-203 | accepts exactly strictly ascending positions |
| SnapshotSchema.RequireConsistentTree | backend/src/lms/api/schemas/courses.py:521-563 | the validator's loops over growing id sets accept exactly the trees with ordered unique positions, unique ids and right scopes |
| SnapshotSchema.ConsistentMeansStorable | backend/src/lms/api/schemas/courses.py:521-563 | the contract accepts a tree if and only if tables that obey all constraints can hold it |
| SnapshotSchema.ProjectionsAreOne | backend/src/lms/api/schemas/courses.py:469-508 | on such a tree the contract's own unsorted projection is the sorted projection the service hashes |
| SuccessorDraft.CloneCurriculum | backend/src/lms/modules/courses/repositories.py:786-826 | the cloning loops with their id maps are refused by no constraint and add one clone of every row under the clone of its parent |
| SuccessorDraft.CloneRepresents | backend/src/lms/modules/courses/repositories.py:786-826 | reloading the successor gives the source tree with every id replaced and row versions reset |
| SuccessorContent.CopySuccessor | backend/src/lms/modules/courses/services.py:949-1022 | the service's nested copying loops give the sorted tree under new ids |
| SuccessorContent.CopyKeepsMeaning | backend/src/lms/modules/courses/services.py:949-1022 | the copy says what the source says |
| SuccessorContent.CopyIsTheClone | backend/src/lms/modules/courses/services.py:949-1022 | under the ids that the repository gives, the service's copy of a stored tree equals the repository's clone: order, parent edges, version, row versions and bodies |
| SuccessorContent.ReloadedIsTheCopy | backend/src/lms/modules/courses/repositories.py:786-826 | so whatever tree is loaded for the successor is the copy that the service announced, up to the ids of the nodes |
| SuccessorContent.SuccessorHashesAgree | backend/src/lms/api/course_composition.py:610-632 | the hash of the copy equals the source's hash and the hash of the stored clone equals the copy's, so neither comparison of `add_successor` fails |
| SuccessorContent.CloneKeepsEverythingElse | backend/src/lms/modules/courses/repositories.py:786-826 | no node id is shared with any stored row, every other version keeps its rows, keys hold |
| RichText.ValidateRichTextDocument | backend/src/lms/modules/courses/validation.py:172-203 | with truncated loops and at most 100 collected errors, accepts exactly the documents of the grammar; a document is refused by an exception of Python exactly when a visited node has an unhashable type |
| RichText.UnhashableTypeIsNotReported | backend/src/lms/modules/courses/validation.py:189-196 | a document outside the grammar that raises instead of being reported |
| RichText.AcceptedDocumentsAreHashed | backend/src/lms/modules/courses/hashing.py:10-21 | every accepted document lies in the hashable subset |
| CurriculumValidation.UniquePositions | backend/src/lms/modules/courses/validation.py:217-225 | adds an error exactly when a visited position is not positive or repeats |
| CurriculumValidation.ValidateReplaceCurriculum | backend/src/lms/modules/courses/validation.py:296-325 | accepts exactly the well-formed commands: bounded sizes, positive unique positions, ids named once, documents in the grammar |
| CurriculumValidation.ValidCommandsFit | backend/src/lms/modules/courses/validation.py:296-325 | what it accepts has the unique positions and ids that the replacement relies on |
| CurriculumValidation.ValidCommandsAreBounded | backend/src/lms/modules/courses/validation.py:296-325 | at most 100 sections of 1 to 200 lessons of 1 to 100 rich-text blocks, positive positions, titles of 1 to 160 characters |
| CanonicalJson.CanonicalTextIsParsed | backend/src/lms/modules/courses/hashing.py:24-42 | a parser undoes the canonical printer for every value of the F-002 subset (RFC 8785, sections 3.2.1 to 3.2.4) |
| CanonicalJson.CanonicalTextIsInjective | backend/src/lms/modules/courses/hashing.py:24-42 | values with equal canonical text are equal |
| CanonicalJson.StringIsUndone | backend/src/lms/modules/courses/hashing.py:24-42 | string escapes are undone for every text |
| CanonicalJson.SortedKeys | backend/src/lms/modules/courses/hashing.py:33-39 | object keys are written each once in ascending order |
| CanonicalJson.BeforeIsByCodePoint | backend/src/lms/modules/courses/hashing.py:33-39 | that order is by code point at the first difference, a prefix first |
| ContentProjection.Project | backend/src/lms/modules/courses/hashing.py:46-80 | the appending loops build the projection with siblings sorted by position |
| ContentProjection.SameTextSameContent | backend/src/lms/modules/courses/hashing.py:46-85 | two snapshots have equal canonical text exactly when they agree on locale, title, description and content by position, whatever their ids, row versions and list order |
| ContentProjection.HashIdentifiesContent | backend/src/lms/modules/courses/hashing.py:83-85 | equal content gives equal hashes, and two hashes identify their contents if and only if the digest separates the two canonical texts |
| CourseInvariants.StepEffects | backend/src/lms/modules/courses/services.py:502-947 | every command does nothing, edits one version, moves one version or drafts one successor, under the guards of that effect |
| CourseInvariants.NextKeeps | backend/src/lms/modules/courses/services.py:502-947 | every command keeps the version chain, the publication pointer, the stored hashes, the approvals and the log |
| CourseInvariants.RunKeeps | backend/src/lms/modules/courses/services.py:502-947 | every reachable course: versions 1 to n, each the predecessor of the next, all but the newest settled; content hash current; settled versions approved for exactly their content by another actor than the last submitter where the policy separates them; facts replay to statuses and publication pointer |
| CourseInvariants.CreateMeansNewest | backend/src/lms/modules/courses/repositories.py:747-785 | a successor is created only from the settled newest version |
| CourseInvariants.MoveKeepsReviews | backend/src/lms/modules/courses/policies.py:108-143 | a transition keeps or records the approval of exactly the submitted content |
| CourseRules.SubmitterIsLastSubmitter | backend/src/lms/modules/courses/migrations/0004_submission_actor_lookup.py:4-23 | the submission actor is the actor of the last submission fact of the version |
| CourseRules.BadRequestsAreRefused | backend/src/lms/modules/courses/services.py:711-727 | malformed requests and the refusals of the authorization port come before anything is looked up |
| CourseRules.MachinesMaySubmitOnly | backend/src/lms/modules/courses/policies.py:74-82 | every transition but submission needs a human |
| CourseRules.MoveIsAccepted | backend/src/lms/modules/courses/services.py:702-772 | a transition is carried out in a reachable course if and only if the request is in order, its key is new, row and hash are current, and the status, completeness, reviewer, source rights, publication pointer and course row are as the transition demands |
| CourseRules.MoveIsRefused | backend/src/lms/modules/courses/services.py:729-772 | otherwise it is refused, without effect, with the code of the first rule that it breaks |
| CourseRules.MoveLeaves | backend/src/lms/modules/courses/services.py:774-843 | what it leaves: one version moved with its review hashes, the publication pointer and course row, one review for a decision, one fact, and the answer |
| CourseRules.EditIsAccepted | backend/src/lms/modules/courses/services.py:502-574 | an edit is carried out if and only if the request is in order, the version is editable at the expected row, and the tree was materialized |
| CourseRules.EditIsRefused | backend/src/lms/modules/courses/policies.py:90-92 | its codes in the order in which they are met |
| CourseRules.EditLeaves | backend/src/lms/modules/courses/services.py:526-545 | each given nonempty text goes to its own field, the others and the curriculum stay, or the curriculum is the materialized one and the fields stay; the hash is of exactly that |
| CourseRules.SuccessorIsJudged | backend/src/lms/modules/courses/services.py:876-918 | in a reachable course a successor is created only for the newest version and reused only for the one before it |
| CourseRules.SuccessorIsRefused | backend/src/lms/modules/courses/services.py:876-918 | the code of the first rule that a successor request breaks |
| CourseRules.SuccessorIsAccepted | backend/src/lms/modules/courses/services.py:845-918 | a draft is created if and only if the request is in order, its key is new, and the newest version is settled at the expected rows and hash |
| CourseRules.SuccessorLeaves | backend/src/lms/modules/courses/repositories.py:768-785 | the draft has the next number and the origin, content and hash of its source, and no review hashes |
| CourseRules.SuccessorIsReused | backend/src/lms/modules/courses/services.py:895-916 | an answer with the existing draft leaves the course as it is |
| CourseRules.RunIsOrderly | backend/src/lms/modules/courses/services.py:758-759 | in every reachable course all versions have the origin of the course, and whatever is under review or settled is complete |
| CourseRules.PublicationsAreOrderly | backend/src/lms/modules/courses/services.py:745-772 | whatever is published in any run is complete, approved with one hash, published by a human, and with source rights when it is AI-assisted |
| CourseHistory.SettledForever | backend/src/lms/modules/courses/policies.py:90-92 | from approval on no sequence of commands changes a version's content or review hashes |
| CourseHistory.FrozenUnderReview | backend/src/lms/modules/courses/policies.py:90-92 | content cannot change while the version stays out of the editable states |
| CourseHistory.RowVersionCounts | backend/src/lms/modules/courses/services.py:702-843 | the row version grows by the number of non-replayed commands that succeeded on the version |
| CourseHistory.OneSuccessPerRowVersion | backend/src/lms/modules/courses/services.py:731-732 | of two successful commands on a version the later one expected a larger row version |
| CourseHistory.SameRowSameVersion | backend/src/lms/modules/courses/repositories.py:638-714 | an unchanged row version means an unchanged version and submitter |
| CourseHistory.SameRowSameCourse | backend/src/lms/modules/courses/repositories.py:661-680 | an unchanged course row version means an unchanged publication pointer |
| CourseRaces.StaleTransitIsAtomic | backend/src/lms/api/course_composition.py:404-533 | the checks on one load, the expectations from a second load and the compare-and-set under the locks act as one step on the last state, except exactly in the four listed cases in which the reads disagree |
| CourseRaces.ReachedTransitIsAtomic | backend/src/lms/api/course_composition.py:480-533 | with expected rows that the first load had reached, publication and withdrawal act as one step, and any other transition does so unless the course moved between the loads, when it is refused |
| CourseRaces.CourseChangeRefuses | backend/src/lms/api/course_composition.py:490-499 | any command that moves the course row between the loads and leaves the version alone costs an acceptable transition of the version |
| CourseRaces.PointerMoves | backend/src/lms/modules/courses/repositories.py:674-712 | the pointer comes to a version, and the next course row leaves it with none, only by a success on the version |
| CourseRaces.StaleEditIsAtomic | backend/src/lms/modules/courses/repositories.py:363-444 | an edit computed from an earlier load acts as one step on the state it is saved in, except exactly when that state accepts it and its expected row was still to come at the load |
| CourseRaces.StaleSuccessorIsAtomic | backend/src/lms/modules/courses/repositories.py:716-765 | a successor command acts as one step on the later state if and only if the locked lookup does not find an editable, unchanged successor created since the load, and no row it expects was still to come |
| CourseRaces.SecondFactBreaksTheLog | backend/src/lms/modules/courses/services.py:939-944 | in that case a second creation fact names a version that exists, and the facts no longer replay |
| CourseRaces.RacingSuccessorsMeet | backend/src/lms/modules/courses/repositories.py:747-762 | two commands for the same successor that load the same course meet this case whichever commits first |
| CourseHistory.SuccessIsRecorded | backend/src/lms/modules/courses/services.py:735-843 | a successful transition or successor command leaves its completed record |
| CourseHistory.RecordsStay | backend/src/lms/modules/courses/repositories.py:895-925 | no later command changes or drops a record |
| CourseHistory.RetryIsReplayed | backend/src/lms/modules/courses/services.py:243-253 | after any further commands the same key with the same digest gets the first response and changes nothing, and with another digest is refused and changes nothing |
| CourseHistory.SameRequestSameCommand | backend/src/lms/modules/courses/services.py:1024-1033 | two requests under one key have the same canonical text only if they are the same command |
| CourseHistory.PublishedOnce | backend/src/lms/modules/courses/services.py:1036-1078 | a version is published by at most one fact |
| CourseHistory.OneInterval | backend/src/lms/modules/courses/services.py:774-788 | a version is current during at most one contiguous stretch of the log |
| CourseHistory.PublicationNamesPrevious | backend/src/lms/modules/courses/services.py:1036-1078 | every publication fact names the version that was current before it |
| CourseHistory.CurrentIsApproved | backend/src/lms/modules/courses/services.py:767-772 | the current version is published and its content, submitted and approved hash are one, with a recorded approval |
| CourseStore.Store.SaveCourse | backend/src/lms/modules/courses/migrations/0002_course_security.py:122-152 | the publication pointer is only ever written to a published version |
| CourseStore.Store.SaveVersion | backend/src/lms/modules/courses/migrations/0002_course_security.py:154-228 | no write of a version row takes a current version out of `published` |
| CourseStore.Store.CompareAndTransitionVersion | backend/src/lms/modules/courses/repositories.py:638-714 | changes nothing unless every expectation holds, and after each of its writes the current version is a published one: the publication pointer is cleared before a withdrawal, set after a publication |
| CourseStore.Store.TransitionVersion | backend/src/lms/modules/courses/services.py:702-843 | the row-by-row transition with its reservation reaches exactly the next state, which `CourseRules.MoveIsAccepted` and `MoveLeaves` read off the fields, and a failure leaves nothing behind |
| CourseStore.Store.CreateSuccessorDraft | backend/src/lms/modules/courses/services.py:845-947 | the same for successor drafts, including the reuse of an existing editable one, with `SuccessorIsAccepted` and `SuccessorLeaves` |
| CourseStore.Store.EditVersion | backend/src/lms/modules/courses/services.py:502-574 | the same for edits, with `EditIsAccepted` and `EditLeaves` |
| CourseStore.AdmittedWrites | backend/src/lms/modules/courses/migrations/0002_course_security.py:154-228 | what passes the service's checks passes the mutability trigger |
| VersionHistory.ListVersionSummaries | backend/src/lms/modules/courses/repositories.py:252-301 | a page is the newest rows before the cursor, and a further page exists exactly when a row is left |
| VersionHistory.NextPageIsSmaller | backend/src/lms/api/course_composition.py:257-287 | the next page starts where this one ended, in the grown table too, so following ends |
| VersionHistory.FollowingListsEverything | backend/src/lms/modules/courses/repositories.py:252-301 | following cursors lists every version present at the first page exactly once, strictly descending, for any page sizes and any drafts added in between |
| VersionHistory.RunsAreHistories | backend/src/lms/modules/courses/repositories.py:747-785 | the tables that any run of course commands produces are such a history |
| GenerationInvariants.NextKeeps | backend/src/lms/modules/course_generation/services.py:797-1548 | every transaction of any worker or human, at any clock reading, keeps the invariant |
| GenerationInvariants.RunKeeps | backend/src/lms/modules/course_generation/services.py:797-1548 | every reachable run: attempts numbered 1 to attempt_count, at most max_attempts, only the last running, exactly in planning or generating, exactly when leased; row version counted by attempts, approval and closing; evidence and decisions consistent |
| GenerationInvariants.ClaimKeeps | backend/src/lms/modules/course_generation/services.py:797-906 | so does a claim, whether it takes a lapsed run over, starts an attempt or closes the run |
| GenerationHistory.ReachableRunsFitTheSchemas | backend/src/lms/api/schemas/course_generation.py:138-156 | every reachable run satisfies the evidence and package shapes of the API |
| GenerationHistory.RowVersionBound | backend/src/lms/modules/course_generation/services.py:797-1548 | the row version never exceeds 2 * max_attempts + 3 |
| GenerationHistory.RunsEnd | backend/src/lms/modules/course_generation/services.py:797-1548 | at most 2 * max_attempts + 2 steps of any execution change the run |
| GenerationHistory.TerminalForever | backend/src/lms/modules/course_generation/services.py:816-820 | no steps change a terminal run |
| GenerationHistory.ReviewedRunsHaveTwoCompletions | backend/src/lms/modules/course_generation/services.py:878-895 | a run that reached review has one completed planning attempt, then as its last one completed generating attempt, and all others were to be retried |
| GenerationHistory.LessonsWereApproved | backend/src/lms/modules/course_generation/services.py:1402-1434 | lessons exist only after the one human approval of exactly the stored blueprint hash, and a canonicalization only of the exact output hash |
| GenerationHistory.EvidenceIsWrittenOnce | backend/src/lms/modules/course_generation/services.py:1062-1120 | blueprint and lessons are never inserted twice nor replaced |
| GenerationHistory.CommitNeedsLease | backend/src/lms/modules/course_generation/services.py:1062-1069 | a commit is accepted exactly from the owner of an unexpired lease of its own stage with active rights |
| GenerationHistory.FailureNeedsOwner | backend/src/lms/modules/course_generation/services.py:983-1000 | a failure is recorded exactly for the lease owner, expired or not |
| GenerationHistory.ClaimTakesOver | backend/src/lms/modules/course_generation/services.py:878-895 | a claim under another stripped id takes the lease away |
| GenerationHistory.TakenOverForGood | backend/src/lms/modules/course_generation/services.py:1062-1120 | a worker that was taken over can change nothing any more while later claims use other stripped ids |
| GenerationHistory.SharedIdIsNoFence | backend/src/lms/modules/course_generation/services.py:999-1000 | with a shared stripped id an earlier worker ends the attempt of a later one |
| GenerationHistory.CommitFailsTheRun | backend/src/lms/modules/course_generation/services.py:1308-1347 | a commit, with the failure recorded when it is refused, leaves a run failed if and only if it was failed or its lease owner commits too late or in the wrong stage |
| GenerationHistory.LateCommitFailsTheRun | backend/src/lms/modules/course_generation/services.py:1046-1066 | in its own stage that is if and only if the worker still owns a lapsed lease; with attempts left a claim at that moment would have been granted |
| GenerationHistory.UnexpectedIsRetried | backend/src/lms/modules/course_generation/services.py:1338-1347 | an exception that every attempt raises leaves the run to be retried until exactly the attempts left are used up, and failed from then on |
| GenerationRules.ClaimIsAnswered | backend/src/lms/modules/course_generation/services.py:797-905 | a claim is granted in a reachable run if and only if the worker has a name of 1 to 80 characters, nobody holds the run or its lease has lapsed, attempts are left and the rights are active |
| GenerationRules.ClaimLeaves | backend/src/lms/modules/course_generation/services.py:797-905 | what it leaves: a lapsed attempt given back, the next attempt of the stage that the blueprint calls for, a lease of 300 seconds; or a closed run |
| GenerationRules.ClaimLastsFiveMinutes | backend/src/lms/modules/course_generation/services.py:1046-1054 | a claim at t lets its worker commit at every clock reading before t + 300 and at no later one |
| GenerationRules.CommitLeaves | backend/src/lms/modules/course_generation/services.py:1037-1216 | what an accepted commit leaves: the evidence under its hash, the attempt completed, the lease gone |
| GenerationRules.FailureLeaves | backend/src/lms/modules/course_generation/services.py:972-1019 | what a recorded failure leaves: blocked, failed or to be retried, with the codes of run and attempt |
| GenerationRules.ApprovalIsDecided | backend/src/lms/modules/course_generation/services.py:1385-1442 | an approval is saved if and only if the run is in blueprint review at the expected row and names revision 1 by its hash; otherwise its code |
| GenerationRules.RejectionIsDecided | backend/src/lms/modules/course_generation/services.py:1444-1548 | the same for a rejection in either review |
| GenerationRules.CanonicalizationIsDecided | backend/src/lms/modules/course_generation/services.py:1714-1990 | the same for a canonicalization: status, row, output hash, source, rights, draft |
| GenerationRules.OneDecisionPerRow | backend/src/lms/modules/course_generation/services.py:1402-1409 | of two human decisions that expect one row version at most one is saved, whatever happens between them |
| GenerationRules.HappyRunsFinish | backend/src/lms/modules/course_generation/services.py:1221-1347 | from every reachable unplanned run with two attempts left, timely commits and decisions at the current rows end in a course |
| GenerationRules.FinishingTakesTwoAttempts | backend/src/lms/modules/course_generation/models.py:158-163 | a run can become a course if and only if it may have two attempts |
| GenerationStore.Store.ClaimRun | backend/src/lms/modules/course_generation/services.py:797-906 | the in-place claim with its bulk update reaches exactly the next state, every save admitted by the triggers |
| GenerationStore.Store.CommitBlueprint | backend/src/lms/modules/course_generation/services.py:1037-1132 | the same for the blueprint |
| GenerationStore.Store.CommitLessons | backend/src/lms/modules/course_generation/services.py:1134-1233 | the same for the lessons |
| GenerationStore.Store.FinishFailureOf | backend/src/lms/modules/course_generation/services.py:972-1035 | the same for a failure |
| GenerationStore.Store.ApproveBlueprintOf | backend/src/lms/modules/course_generation/services.py:1349-1442 | the same for an approval, stored before the run may be queued, with `GenerationRules.ApprovalIsDecided` |
| GenerationStore.Store.RejectRunOf | backend/src/lms/modules/course_generation/services.py:1444-1548 | the same for a rejection in either review |
| GenerationStore.Store.CanonicalizeRunOf | backend/src/lms/modules/course_generation/services.py:1714-1990 | the same for canonicalization |
| GenerationStore.Store.SaveRun | backend/src/lms/modules/course_generation/migrations/0004_generation_security.py:297-461 | one save of the run row, which its caller may make only with a proof of the trigger's status graph and evidence demands; `ClaimRun`, `CommitBlueprint`, `CommitLessons`, `FinishFailureOf`, `ApproveBlueprintOf`, `RejectRunOf` and `CanonicalizeRunOf` give it |
| GenerationStore.Store.SaveAttempt | backend/src/lms/modules/course_generation/migrations/0004_generation_security.py:463-489 | one save of an attempt, only with a proof that it is still open, given by the claim, the two commits and the recorded failure |
| GenerationStore.Store.SaveBlueprintStatus | backend/src/lms/modules/course_generation/migrations/0004_generation_security.py:491-524 | one save of the blueprint's status, only with a proof that it is reviewable, given by `ApproveBlueprintOf` and `RejectRunOf` |
| StableIds.JoinIsInjective | backend/src/lms/modules/course_generation/adapter.py:42-43 | colon-joined names of as many parts are equal only if the parts are |
| StableIds.SameIdSameParts | backend/src/lms/modules/course_generation/adapter.py:42-43 | derived ids of one kind are equal only for equal parts |
| Extraction.SplitOfJoin | backend/src/lms/modules/documents/extraction.py:121-129 | splitting undoes joining for lines |
| Extraction.NewlinesAreOne | backend/src/lms/modules/documents/extraction.py:122 | whatever newlines end the lines of a text, it is split into exactly these lines |
| Extraction.NormalizedText | backend/src/lms/modules/documents/extraction.py:121-129 | the popping loops leave the trimmed lines without leading and trailing empty ones |
| Extraction.NormalizedTextSplits | backend/src/lms/modules/documents/extraction.py:288 | the normalized text is empty exactly for a blank page and otherwise splits back into those lines |
| Extraction.Paragraphs | backend/src/lms/modules/documents/extraction.py:132-144 | one paragraph for every maximal run of non-blank lines, in order, and together all stripped non-blank lines joined by single spaces |
| Extraction.RunsAreUnique | backend/src/lms/modules/documents/extraction.py:132-144 | a text has one list of maximal runs |
| PythonText.StripIsTheMiddle | backend/src/lms/modules/documents/extraction.py:132-144 | stripping takes away the white space at both ends, all of it and nothing else |
| TextConservation.WordsHaveThePagesInk | backend/src/lms/modules/documents/extraction.py:121-144 | of a page nothing but white space is lost: all other characters are kept in order |
| PageNormalization.PageElements | backend/src/lms/modules/documents/extraction.py:289-307 | a short first line becomes the heading, each run below it a paragraph, and no text is lost |
| PageNormalization.ElementsAreNotBlank | backend/src/lms/modules/documents/extraction.py:300-307 | no element is blank |
| PageNormalization.NormalizeExtractedPages | backend/src/lms/modules/documents/extraction.py:259-350 | refuses exactly misnumbered or oversized input, reports all empty pages together, and otherwise gives page i as section i |
| PageNormalization.SectionIdsDiffer | backend/src/lms/modules/documents/extraction.py:347-356 | sections at different positions have different ids |
| PageNormalization.ElementIdsDiffer | backend/src/lms/modules/documents/extraction.py:310-320 | elements at different places have different ids |
| CourseCompiler.Plan | backend/src/lms/modules/course_generation/adapter.py:65-149 | the appending loop gives a module and a lesson for every section in source order, or the planner's error |
| CourseCompiler.Generate | backend/src/lms/modules/course_generation/adapter.py:151-198 | the loops stop at the first faulty item with its error and otherwise give one lesson for every item in order, which `DocumentReading.GeneratedLessonsRead` reads back |
| DocumentReading.GeneratedLessonsRead | backend/src/lms/modules/course_generation/adapter.py:163-198 | a reader of the generated documents finds, whatever the blueprint, the item's title as a heading and then the elements of the item's section in order, each with its kind and text |
| DocumentReading.LessonErrorIs | backend/src/lms/modules/course_generation/adapter.py:163-177 | a missing or empty section, a blank or too long text, and more than 499 elements stop the generator, each with its error |
| CourseCompiler.DocumentFits | backend/src/lms/modules/course_generation/adapter.py:163-176 | a generated document passes the checker if and only if there are at most 499 elements and all texts are usable |
| CourseCompiler.TooManyElementsRaise | backend/src/lms/modules/course_generation/adapter.py:177 | usable sections leave the generator with the checker's own exception if and only if they have more than 499 elements |
| CourseCompiler.CanonicalizeSections | backend/src/lms/modules/course_generation/services.py:1799-1866 | the joining loops give the curriculum sections or the first provenance error |
| CompilerChecks.PlanIs | backend/src/lms/modules/course_generation/adapter.py:65-149 | when the planner refuses, and the two items of every section otherwise |
| CompilerChecks.BlueprintIsChecked | backend/src/lms/modules/course_generation/services.py:908-935 | the check before storage accepts exactly modules under different ids for the sections of the source, and as many lessons, each under a module of its section |
| CompilerChecks.OneModulePerSection | backend/src/lms/modules/course_generation/services.py:923-930 | so an accepted blueprint has one module for each section |
| CompilerChecks.DoubledLessonsPass | backend/src/lms/modules/course_generation/services.py:931-934 | but not one lesson for each module: two lessons under one module pass, and cannot be canonicalized |
| CompilerChecks.LessonsAreChecked | backend/src/lms/modules/course_generation/services.py:937-970 | the check of the lessons accepts exactly one lesson for each item, of its section, with the hash of what it says and a document of the grammar |
| CompilerChecks.ProvenanceIsChecked | backend/src/lms/modules/course_generation/services.py:1799-1866 | whatever rows are read, a draft is made exactly when every module is traced by a lesson item, a lesson and an edge of its section, none shared, and section i of the draft is module i as traced |
| CompilerCorrectness.AllItemIdsDiffer | backend/src/lms/modules/course_generation/adapter.py:91-115 | the module and lesson items of a plan, which share a table, all have different ids |
| CompilerCorrectness.SameEdgeId | backend/src/lms/modules/course_generation/services.py:1104 | edges of items and of lessons, which share a table, have equal ids only if run, kind and target are equal |
| CompilerCorrectness.PlanIsValid | backend/src/lms/modules/course_generation/services.py:908-935 | a plan of a usable source passes the check before it is stored |
| CompilerCorrectness.GenerationSucceeds | backend/src/lms/modules/course_generation/adapter.py:151-198 | from the blueprint reloaded in any order the generator makes exactly the lesson of every section |
| CompilerCorrectness.GenerationRaises | backend/src/lms/modules/course_generation/adapter.py:151-198 | of the usable sources exactly those with a section of more than 499 elements leave the generator with the checker's exception, and exactly the valid ones are generated |
| CompilerCorrectness.GeneratedLessonsAreValid | backend/src/lms/modules/course_generation/services.py:937-970 | the generated lessons pass the check before they are stored |
| DraftCorrectness.CanonicalizationSucceeds | backend/src/lms/modules/course_generation/services.py:1769-1866 | whatever order lessons, artifacts and edges are read in, no provenance check fails and section i of the draft comes from source section i |
| DraftCorrectness.SourcesCompile | backend/src/lms/modules/course_generation/services.py:496-521 | plan, store, reload by kind, position and id, generate, store, canonicalize: no check fails and the draft is in source order |
| GenerationEvidence.CreateAll | backend/src/lms/modules/course_generation/services.py:1087-1112 | a loop of inserts succeeds exactly when the list fits the stored rows and itself under the primary key and the unique constraint |
| GenerationEvidence.Evidence.PersistBlueprint | backend/src/lms/modules/course_generation/services.py:1087-1112 | items and their edges are inserted exactly when all of them fit, and otherwise nothing is |
| GenerationEvidence.Evidence.PersistLessons | backend/src/lms/modules/course_generation/services.py:1180-1211 | lessons and their edges are inserted exactly when every lesson's item is stored and all rows fit, and otherwise nothing is |
| GenerationEvidence.PlanIsStored | backend/src/lms/modules/course_generation/models.py:349-366 | whatever other runs have stored, the plan of a usable source meets no taken id and no taken place |
| GenerationEvidence.LessonsAreStored | backend/src/lms/modules/course_generation/services.py:1180-1211 | lessons for different items meet no taken id beside the plan's edges and the rows of other runs |
| GenerationEvidence.AllEdgeIdsDiffer | backend/src/lms/modules/course_generation/services.py:1201-1211 | all edges of a plan and all edges of its lessons together have different ids |
| GenerationEvidence.QueryOfAdded | backend/src/lms/modules/course_generation/services.py:1769-1798 | a query for the rows of a run answers with exactly the inserted rows that the filter admits |
| GenerationEvidence.EvidenceCompiles | backend/src/lms/modules/course_generation/services.py:496-521 | plan, insert, query, generate, insert, query, canonicalize: over any stored rows of other runs no check fails, no insert is refused, and the draft is in source order |
| DraftCorrectness.CompiledDraftsAreComplete | backend/src/lms/modules/courses/validation.py:398-471 | a compiled draft passes the curriculum checks for review |
| DraftStorage.CompiledIsReplacement | backend/src/lms/modules/courses/services.py:343-347 | a compiled draft passes the validation of course creation |
| DraftStorage.CompiledIsStored | backend/src/lms/modules/courses/services.py:431-438 | on a version without rows the service accepts it and the database refuses no write |
| DraftStorage.CompiledTree | backend/src/lms/modules/courses/services.py:576-687 | section i of the announced course holds exactly the lesson compiled from source section i |
| DraftStorage.StoredTree | backend/src/lms/modules/course_generation/services.py:1899-1906 | so does the stored one, which is what the canonicalization compares |
| DraftStorage.CompiledRows | backend/src/lms/modules/courses/repositories.py:446-595 | the rows that the curriculum save leaves stand for a tree of exactly these lessons, and other versions keep theirs |
| SourceToCourse.PageTextIsConserved | backend/src/lms/modules/documents/extraction.py:289-333 | the texts of a section's elements, joined by spaces, are all the words of its page in order |
| SourceToCourse.NormalizedSourcesAreValid | backend/src/lms/modules/course_generation/services.py:419-484 | every normalized source of 1 to 100 pages within the generator's limits is a valid source |
| SourceToCourse.HeadingRule | backend/src/lms/modules/documents/extraction.py:289-298 | a first line of at most 120 characters is the title and the only heading of its page; otherwise the page is titled by its number |
| SourceToCourse.PagesReachTheStoredCourse | backend/src/lms/modules/course_generation/services.py:1714-1918 | from pages to stored rows without any refusal: a reader of section i of the stored course finds the title of page i and then its elements in order, whose texts are the words of the page and have all its characters but white space |

## Left out

- CourseRepository.Repository.ReplaceCurriculumRows: one version's rows only; the tenant of every row and the row locks are not modelled, because every query filters by one tenant.
- CurriculumReplacement.ReplaceCurriculum: the version row's own update, which `CourseStore.Store.EditVersion` models, is not part of it; a tree of the course command carries what its content means.
- CurriculumValidation.ValidateReplaceCurriculum: commands arrive typed, so half-given identity pairs and values of wrong Python types are not modelled; messages and order of the collected errors are not stated.
- SnapshotSchema.RequireConsistentTree: tenants, list lengths, the scope of the review and the comparison of the hash are not part of the method; `ProjectionsAreOne` shows that the hash compared is the one stored.
- CourseHistory.RetryIsReplayed: compares request digests; only `SameRequestSameCommand` speaks of the requests behind them. Operation names longer than 64 characters are stored as a digest, which is not modelled.
- CourseInvariants.RunKeeps: covers one course and commands that act as one step, which `CourseRaces` delimits; slugs, instructors, reason codes and review times are not modelled, and the latest review is the last one written rather than the last by decision time.
- CanonicalJson.CanonicalTextIsInjective: the UTF-8 step and the refusal of lone surrogates are not modelled, because a model text has none.
- PageNormalization.NormalizeExtractedPages: page sizes, Markdown, the manifest hash and the byte length of a page are not modelled; the size test is a given predicate.
- CourseCompiler.Plan: descriptions, outcomes, prerequisites and the hash of the blueprint's projection are not modelled.
- CourseCompiler.CanonicalizeSections: the comparisons of the source version, equal in all rows of one run by foreign key, are not modelled, nor are slug and locale.
- GenerationEvidence.Evidence.PersistLessons: the source inserts the edge of a lesson right after the lesson; as a refused row undoes all of them, the model inserts the lessons first. The blueprint and review rows beside items, lessons and edges are those of `GenerationRun`.
- GenerationStore.Store.CanonicalizeRunOf: creating the course draft is one answer of the environment here; `DraftStorage` shows that the answer is a success for compiled drafts.
- GenerationInvariants.RunKeeps: idempotency of starting, approving, rejecting and canonicalizing a run, checkpoints, heartbeats, facts and audit records are not modelled.
- Regular expressions for slugs, locales, hashes and reason codes, permission tables, and string length limits of the API that no proof uses.
- Tenancy, row-level security, identity, ingestion, source admission and learner progress: other modules answer for them.
- PDF inspection, file storage, signed cursors, HTTP routers and the user interface: they rest on input and output or on foreign libraries.
