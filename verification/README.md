# Verification of agent-eval

A Dafny model of the parts of agent-eval that a reader has to trust, with proofs of what they promise.

- **Credentials** (`Bytes`, `JsonUnescape`, `StreamingUnescaper`, `PatternMatcher`, `Inspection`, `JsonEscaping`,
  `EscapeBoundaries`, `Redaction`): the JSON unescaper over a buffer and over a stream, the stack of decoders and
  matchers that inspects a stream, JSON escaping as its inverse, where an escape may be cut, and the redactor.
- **Scoring and panels** (`Ordering`, `Matching`, `ReviewBenchmark`, `ScoringLaws`, `Panel`, `PanelLaws`, `Frontier`):
  maximum bipartite matching by augmenting paths, case scores, quorum voting, and the efficiency frontier.
- **Durable evidence** (`SaveRun`, `AuditChain`, `TreeDigest`, `TreeScan`, `ArtifactScan`, `ArtifactBundle`,
  `BundleLimits`): the save to two stores under failure injection, the audit hash chain and its verifier, tree and
  worktree digests, and attestation bundles with their limits.
- **Governed runs** (`Admission`, `Continuity`, `Outcome`, `RunRecord`, `GovernedRun`, `Lifecycle`, `GovernedLaws`): the
  admission gate, the link from preflight to execution, acceptance, the trial as a step machine in which every step may
  fail, and the lifecycle check of its audit trail.
- **Counting and diffs** (`PassAtK`, `DiffText`, `DiffGrammar`, `DiffLocations`, `DiffBreaks`, `DiffExactness`, `DiffCounts`,
  `DiffExamples`): the pass@k estimator as a counting theorem, and the unified-diff location parser and line counter
  against a printer of structured diffs, whose lines may hold line breaks of their own.

Objects that the program updates in place are classes here, loops are loops with invariants, and each such method is
tied by its `ensures` clauses to a definition whose properties are proved beside it. What a check reports is stated code by
code, each with its own condition on the plain fields (`ItemLists` has the lists of what is reported). `Wrappers` holds what
is shared.

Conventions of the model:

- SHA-256 and canonical JSON are function parameters, injective where a result needs it. Floats are reals.
- Calls into other systems (subprocesses, the cluster, the file system, the clock) are parameters that say what they
  return or that they raise; a result that holds for all of them holds for every environment.
- Formats checked by regular expressions and glob matching are function parameters of `Admission`.
- Where an operation may raise, the model takes the set of steps that do.

These properties hold only under a condition:

- `SaveRun`: a single failure is atomic unless it is the unlink of the fresh backup name while results exist
  (src/agent_eval/metrics.py:1111), because recovery then restores the empty backup (`OneFailureIsAtomic`,
  `UnlinkFailureEmptiesResults`); several failures are atomic exactly when they do not tear (`AtomicUnlessTorn`).
- `ArtifactBundle`: a bundle that was created over an unchanged tree verifies exactly when it has at most 10,000 subjects,
  the entries of the tree and the new names of the bundle together are at most 50,000, both names are safe, the statement
  is at most 16 MiB and its evidence holds (`CreatedBundleVerifies`). Creation does not check the first four.
  `BundleLimits.FullTreeDoesNotVerify` gives 50,000 empty directories.
- `AuditChain`: a file verifies against what its writer recorded exactly when no failed write left bytes behind
  (`RecordedChainVerifies`).
- `EscapeBoundaries`: a text can be cut at its end, whatever follows, if and only if no escape is cut off there
  (`SplitsUnlessCutOff`), and after such a text a JSON-escaped credential is caught (`EscapedCredentialIsCaught`). Through
  all levels of nesting it is caught after texts whose last quote no backslash follows, as after the opening quote of a
  JSON string (`JsonEscaping.NestedCredentialIsCaught`). A lone backslash right before it can hide it
  (`JsonEscaping.StrayBackslashHidesCredential`).
- `DiffExactness` and `DiffCounts`: `str.splitlines` also breaks lines at form feeds, vertical tabs, carriage returns,
  U+0085, U+2028 and the like (src/agent_eval/corpus.py:328, 357). A hunk is read exactly if and only if no such break is
  followed by a plus sign and every break before an added line is followed by a minus sign or the mark of a missing
  newline (`HunkIsReadExactly`). A carriage return at the end of a line does no harm (`UnbrokenHunkIsUndisturbed`,
  `UnbrokenHunkIsCounted`). The locations of a whole diff are exact if all its hunks are and no file adds a line after a
  part that opens a file (`AddedLinesAreExact`). With one hunk they are exact only then, unless a line is added after a
  part that opens a file or a hunk (`OneHunkIsExact`). Beyond that the converse is false: over several hunks
  (`DiffExamples.DisturbedMayBeExact`), and after such a part (`DiffExamples.OpeningMayBeExact`). The nonblank count is
  exact if and only if as many lines are lost as are gained (`DiffCounts.NonblankCountIsExact`).
  `DiffExamples.FormFeedMovesLines` and `DiffExamples.OpeningHidesLines` are failing inputs.

## Model

| member | source | states |
|---|---|---|
| JsonUnescape.NextStep | src/agent_eval/credentials.py:209-270 | One decode step takes at least one byte of the input and never yields more bytes than it takes; it yields exactly as many only when it passes bytes through unchanged |
| JsonUnescape.Unescape | src/agent_eval/credentials.py:209-270 | A whole-buffer decode that reports a change is strictly shorter; one that does not is the identity |
| JsonUnescape.UnescapeOnce | src/agent_eval/credentials.py:209-270 | The cursor loop over the buffer computes `Unescape` and its changed flag |
| JsonUnescape.Utf8CharMeans | src/agent_eval/credentials.py:261-267 | A decoded character is written as the one byte sequence that stands for it in section 4 of RFC 3629 |
| StreamingUnescaper.StreamStepStable | src/agent_eval/credentials.py:273-381 | A step taken while more input may come is the step taken on every continuation of that input, so waiting is never regretted |
| StreamingUnescaper.PendingIsShort | src/agent_eval/credentials.py:273-381 | At most 11 bytes stay pending after any feed that is not final |
| StreamingUnescaper.DrainThenMore | src/agent_eval/credentials.py:273-381 | Draining some input and then what is pending with more input equals draining everything at once |
| StreamingUnescaper.FinalDrain | src/agent_eval/credentials.py:273-381 | A final drain is the whole-buffer decode |
| StreamingUnescaper.EarlyOutputIsPrefix | src/agent_eval/credentials.py:273-381 | Whatever is emitted before the end is a prefix of the decode of every continuation |
| EscapeBoundaries.NothingPendingIsWhole | src/agent_eval/credentials.py:273-381 | Where the streaming unescaper keeps nothing pending, no escape is cut off |
| EscapeBoundaries.WaitingIsNotCutOff | src/agent_eval/credentials.py:273-381 | The converse fails: after a backslash, `u` and `Z` bytes stay pending, although no escape can come of them |
| StreamingUnescaper.EveryChunkingDecodes | src/agent_eval/credentials.py:273-381 | For every chunking, the outputs of `feed` and `finish` and the final changed flag equal the whole-buffer decode of the joined input, with at most 11 bytes pending on the way |
| StreamingUnescaper.JsonUnescaper.Feed | src/agent_eval/credentials.py:285-373 | One feed emits exactly what the joined input so far newly determines, keeps the rest pending and accumulates the changed flag |
| StreamingUnescaper.JsonUnescaper.Finish | src/agent_eval/credentials.py:375-381 | Finishing emits the rest of the whole-buffer decode and fixes the changed flag |
| Bytes.OccursMeans | src/agent_eval/credentials.py:391-399 | A pattern is found in a text exactly when the text is something before it, the pattern, and something after it |
| PatternMatcher.OverlapFindsNew | src/agent_eval/credentials.py:384-399 | An occurrence that is new in seen + value is visible in the retained overlap + value, if the overlap is one byte less than the longest pattern |
| PatternMatcher.StreamingPatternMatcher.Feed | src/agent_eval/credentials.py:384-399 | If no pattern occurred before, the matcher reports a hit exactly when some pattern occurs in everything fed so far |
| Inspection.SettledLayers | src/agent_eval/credentials.py:471-490 | Once a layer decodes without change, every deeper layer is that layer, so stopping early answers for all of them |
| Inspection.ContainsBytes | src/agent_eval/credentials.py:471-490 | The layer loop answers `Inspect`: found at the first visible layer, clean if decoding settles first, over-nested otherwise; what a layer decodes is fixed by `JsonEscaping.UnescapeInvertsEscape` and `JsonEscaping.ChangedStepIsEscape` |
| Inspection.EarlyLayerIsPrefix | src/agent_eval/credentials.py:555-617 | At every depth, the stacked early outputs are a prefix of the decode of any continuation of the stream |
| Inspection.ContainsStream | src/agent_eval/credentials.py:555-617 | For every chunking within the byte limit, the nine matchers and eight stacked decoders give the verdict of the whole-buffer inspection; over the limit only a real hit or the limit error is reported |
| Inspection.FeedLayers | src/agent_eval/credentials.py:579-588 | Feeding one chunk through all layers keeps each decoder and matcher in step with the prefix it has seen, and a reported hit is visible in every continuation |
| Inspection.FlushLayers | src/agent_eval/credentials.py:603-617 | Flushing layer by layer from the bottom turns the early prefixes into the full decodes, and the verdict is that of the whole buffer |
| JsonEscaping.UnescapeInvertsDumps | src/agent_eval/credentials.py:188-193 | Decoding once gives back the text from both patterns that JSON dumping produces, with and without ASCII escaping, for every Unicode text |
| JsonEscaping.UnescapeInvertsEscape | src/agent_eval/credentials.py:196-270 | Decoding inverts every escape spelling of section 7 of RFC 8259, in any mixture: the table of the eight short escapes, `\u` with digits of either case, and surrogate pairs; and it reports a change exactly when an escape was used |
| JsonEscaping.ChangedStepIsEscape | src/agent_eval/credentials.py:196-270 | A decode step changes bytes only at a spelling that section 7 of RFC 8259 allows, and then yields the character that it spells; every other byte passes through |
| JsonEscaping.NestedCredentialIsCaught | src/agent_eval/credentials.py:471-526 | A credential pattern that was wholly JSON-escaped any number of times, each time after any text whose last quote no backslash follows and before any text at all, never inspects as clean, and is found if the levels are at most eight |
| EscapeBoundaries.SplitsUnlessCutOff | src/agent_eval/credentials.py:209-270 | For every byte buffer: decoding it with any continuation is decoding both apart, if and only if decoding the buffer meets no escape that is cut off at its end |
| EscapeBoundaries.SettledIsWhole | src/agent_eval/credentials.py:209-270 | After a text whose last quote no backslash follows, nothing is cut off |
| JsonEscaping.QuoteIsBoundary | src/agent_eval/credentials.py:209-270 | Decoding starts afresh after every quote byte, whatever stands before it, and the decoded front ends in a quote again |
| EscapeBoundaries.EscapedCredentialIsCaught | src/agent_eval/credentials.py:471-490 | A credential pattern that was JSON-escaped once is found after any bytes that cut off no escape, and before any bytes |
| JsonEscaping.StrayBackslashHidesCredential | src/agent_eval/credentials.py:471-490 | After a lone backslash the promise fails: the pattern `n"`, escaped there, inspects as clean |
| Redaction.LeftmostLongestIsUnique | src/agent_eval/credentials.py:495-526 | A text has one cut into kept bytes and leftmost-longest pattern occurrences |
| Redaction.CutExists | src/agent_eval/credentials.py:495-526 | Every text has such a cut |
| Redaction.FirstHit | src/agent_eval/credentials.py:495-526 | The scan over all patterns finds the earliest occurrence, and the longest one among those |
| Redaction.MaskPatterns | src/agent_eval/credentials.py:495-526 | The replacement loop renders exactly that cut: every occurrence becomes the placeholder and every other byte stays in order |
| Redaction.MaskingIsUnique | src/agent_eval/credentials.py:495-526 | Masking is a function of the text and the patterns |
| Redaction.RedactBytes | src/agent_eval/credentials.py:495-526 | What is returned is the masking of the input and shows no pattern at any decode layer; what is refused is a masking in which something is still visible or nested too deeply |
| Redaction.RedactionIsIdempotent | src/agent_eval/credentials.py:495-526 | Redacting a returned text again changes nothing and is not refused |
| Redaction.SafeMarker | src/agent_eval/credentials.py:459-465 | The chosen placeholder is the first marker in which no pattern occurs |
| Redaction.Placeholder | src/agent_eval/credentials.py:459-465 | Among the program's own markers there is one in which no nonempty pattern occurs, and the first such is chosen |
| Matching.Matcher.Augment | src/agent_eval/review_benchmark.py:484-533 | Kuhn's augmenting step ends; a success serves one more finding and keeps all served ones, a failure leaves the matching alone and extends a closed dead set |
| Matching.CoverBoundsMatching | src/agent_eval/review_benchmark.py:484-533 | No matching is larger than a vertex cover |
| Matching.CoverIsAttained | src/agent_eval/review_benchmark.py:484-533 | The cover read off a dead set is at least as large as the matching, and exactly as large if every owner outside the set is live |
| Matching.DeadEndCertifies | src/agent_eval/review_benchmark.py:484-533 | A set of findings that are all served or in a closed dead set has no larger matching than the one at hand |
| Matching.MaximumMatching | src/agent_eval/review_benchmark.py:484-533 | For every order of the findings the loop ends with a matching of maximum cardinality; every first part of the order is served as well as any matching of it alone could, and no finding passes over an unused prediction on its list |
| ReviewBenchmark.MaximumMatchingOf | src/agent_eval/review_benchmark.py:484-533 | The result pairs hits only, uses nothing twice, and no such pairing is larger; no finding goes without for the sake of one that sorts after it, and none takes a prediction while an unused one that sorts before it would do |
| ScoringLaws.CarryOver | src/agent_eval/review_benchmark.py:484-533 | A matching can be carried along any reordering of findings and predictions without losing a pair |
| ReviewBenchmark.SortIndices | src/agent_eval/review_benchmark.py:436-463 | The index order holds every index once |
| ReviewBenchmark.SortIndicesInOrder | src/agent_eval/review_benchmark.py:436-463 | It is sorted by the key, with equal keys left in input order |
| ReviewBenchmark.ExpectedKeyMeans | src/agent_eval/review_benchmark.py:436-463 | Expected findings sort by id, normalized file, category, first and last line and severity |
| ReviewBenchmark.PredictionKeyMeans | src/agent_eval/review_benchmark.py:436-463 | Predictions sort by normalized file, category, line with those without a line last, severity and confidence |
| ReviewBenchmark.ScoreCase | src/agent_eval/review_benchmark.py:536-616 | Counts, matches and both listings agree with one such matching: hits plus misses and hits plus false alarms add up, each disposition names its partner, and there is one match for each served finding, by id, with both ids, both severities and whether they agree |
| ScoringLaws.TruePositivesIgnoreOrder | src/agent_eval/review_benchmark.py:536-616 | True positives, and with them false positives and negatives, are the same for every permutation of findings and predictions |
| ScoringLaws.ValidateFindings | src/agent_eval/review_benchmark.py:186-204 | A case is refused for repeated ids exactly when there are any, and otherwise for the first pair of findings that share a line of one file and category, if there is one |
| ScoringLaws.ValidatedCaseCountsHits | src/agent_eval/review_benchmark.py:186-204 | In a validated case the maximum matching serves exactly the expected findings that some prediction hits |
| Panel.MemberVotes | src/agent_eval/review_experiment.py:607-621 | A member votes for exactly the normalized file, category and line of each of its findings, once, with the strongest by severity (blocker, major, minor, info), then confidence, then text |
| Panel.VoteTogether | src/agent_eval/review_experiment.py:607-621 | Two findings vote together exactly when normalized file, category and line agree |
| Panel.StrongestIsUnique | src/agent_eval/review_experiment.py:607-621 | That vote does not depend on the order or repetition of the member's findings |
| Panel.MostCommon | src/agent_eval/review_experiment.py:637-645 | The panel severity is the most frequent one, ties going to the more severe |
| Panel.PanelFindings | src/agent_eval/review_experiment.py:624-655 | The panel lists, in the order of file, category, line and severity, exactly the locations with a quorum of votes, each with the majority severity and the mean confidence of its votes |
| PanelLaws.BallotsCountReporters | src/agent_eval/review_experiment.py:624-655 | The votes for an identity are as many as the distinct members that reported it |
| PanelLaws.QuorumOfReporters | src/agent_eval/review_experiment.py:624-655 | A file, category and line is in the panel, once, exactly when at least quorum distinct members have a finding with that normalized file, category and line |
| PanelLaws.VotesPermute | src/agent_eval/review_experiment.py:624-655 | Reordering votes changes neither the severity counts nor the confidence sum |
| PanelLaws.PanelIgnoresOrder | src/agent_eval/review_experiment.py:624-655 | The panel does not depend on the order of members, the order of findings or exact repeats within a member |
| PanelLaws.RaisingQuorumOnlyRemoves | src/agent_eval/review_experiment.py:624-655 | Every finding of a panel with a higher quorum is, unchanged, in the panel with the lower one |
| Frontier.EfficiencyFrontier | src/agent_eval/review_experiment.py:1115-1157 | A system's name and five means are returned, once and in the order of names, exactly when it competes and no competing system is at least as good in every mean and better in one, where higher f1 is better and less of the other four |
| Frontier.UndominatedDominator | src/agent_eval/review_experiment.py:1097-1157 | A dominated point has a dominator that nothing dominates |
| Frontier.LeftOutIsDominated | src/agent_eval/review_experiment.py:1097-1157 | Every eligible point left out is dominated by some point of the frontier |
| SaveRun.RunStore.Save | src/agent_eval/metrics.py:1073-1153 | For every set of failing operations the two stores end as `Saved` says; it raises exactly if it does not commit or cannot close its connection or secure the database, and otherwise both stores are new; no temporary file stays unless its own removal or restoring failed; and unless the unlink of the backup name failed, results that were not replaced by a commit are still there or in the backup |
| SaveRun.AtomicUnlessTorn | src/agent_eval/metrics.py:1073-1153 | A save leaves both stores old or both new exactly when no tearing failure happens |
| SaveRun.OneFailureIsAtomic | src/agent_eval/metrics.py:1073-1153 | Any single failure leaves both old or both new, except the unlink of the fresh backup name over existing results |
| SaveRun.CommittedOrKept | src/agent_eval/metrics.py:1073-1153 | A save that is not torn writes both stores if it reaches its commit and neither otherwise |
| SaveRun.RunOfSaves | src/agent_eval/metrics.py:1073-1153 | Over any run of saves without tearing the stores agree, and show the last committed record or what was there before |
| SaveRun.UnlinkFailureEmptiesResults | src/agent_eval/metrics.py:1105-1112 | The excluded failure restores the empty backup over the results |
| AuditChain.AuditChain.Append | src/agent_eval/audit.py:649-707 | An append succeeds exactly when the chain is open, the event is valid and small enough and the write is durable; it then adds one chained event, and a rejected one leaves the recorded chain unchanged |
| AuditChain.AuditChain.Close | src/agent_eval/audit.py:709-715 | Closing changes nothing that was recorded |
| AuditChain.VerifyAuditChain | src/agent_eval/audit.py:791-1176 | A file passes exactly when it is a chain with the expected final hash and run id. Otherwise the first line that breaks the chain is reported by its number and for its own fault, each code for one condition on the fields of the line; a file without lines and a wrong final hash are reported without a line |
| AuditChain.FinalHashFixesHistory | src/agent_eval/audit.py:1044-1167 | Two accepted files with one final hash hold the same events in the same order |
| AuditChain.TruncationIsCaught | src/agent_eval/audit.py:1044-1167 | A proper prefix of an accepted file is a chain, but fails the final hash of the whole |
| AuditChain.HashesDiffer | src/agent_eval/audit.py:561-566 | No event hash repeats along a chain |
| AuditChain.RecordedChainVerifies | src/agent_eval/audit.py:649-715 | A file verifies against what its writer recorded exactly when it holds those events and nothing after them |
| TreeScan.Scan.Visit | src/agent_eval/attestation.py:381-436 | The recursive scan yields the flattened records of the tree, or reports exactly the trees with an unsafe name, a special file, too deep a nesting or too many entries |
| TreeDigest.BlockDetermines | src/agent_eval/attestation.py:381-436 | The records of one entry determine that entry: kind, mode, link target and content |
| TreeDigest.FlattenDetermines | src/agent_eval/attestation.py:381-436 | Record blocks of siblings cannot be confused, so a flattened directory determines its entries |
| TreeDigest.RecordsDetermineTree | src/agent_eval/attestation.py:381-436 | Two trees with equal records are equal in names, nesting, types, modes, link targets and contents |
| TreeScan.HashTree | src/agent_eval/attestation.py:439-447 | The tree digest is the hash of the framed record lines, and is refused exactly when the scan is |
| TreeScan.DigestDeterminesTree | src/agent_eval/attestation.py:439-447 | Two trees with one tree digest are equal |
| TreeScan.BigEndianIsInjective | src/agent_eval/attestation.py:188-209 | Eight-byte big-endian lengths are unambiguous |
| TreeScan.FrameMeans | src/agent_eval/attestation.py:188-209 | A frame is its tag, a zero byte, eight bytes whose value with the most significant first is the length of the data, and the data |
| TreeScan.FrameIsSelfDelimiting | src/agent_eval/attestation.py:188-209 | A tagged, length-framed block can be cut off the front of a stream in one way only |
| TreeScan.WorktreeDigest | src/agent_eval/attestation.py:188-209 | The digest covers both diffs and every untracked record in framed form |
| TreeScan.DigestDeterminesWorktree | src/agent_eval/attestation.py:188-209 | One worktree digest means one staged diff, one unstaged diff and one list of untracked records |
| ArtifactScan.ArtifactTreeScan.Visit | src/agent_eval/attestation.py:808-867 | The scan collects exactly the regular files outside the excluded paths, or reports that the tree cannot be attested |
| ArtifactBundle.VerifySubjects | src/agent_eval/attestation.py:1121-1211 | Each subject is reported for the first thing that is wrong with it; nothing is reported exactly when the subjects are at most 10,000 distinct, safely named regular files, each with its attested digest |
| ArtifactBundle.SubjectEntries | src/agent_eval/attestation.py:635-645 | The subjects name exactly the given files, in the order of their names, each with the digest of its content |
| ArtifactBundle.CreateAttestation | src/agent_eval/attestation.py:870-963 | A bundle is created exactly when the tree can be attested and the two bundle files have names of their own, and then describes its artifacts completely |
| ArtifactBundle.VerifyAttestation | src/agent_eval/attestation.py:1412-1576 | Verification succeeds exactly when sidecar, statement, evidence, subjects and the complete set of artifacts all hold, with both files inside their size limits; otherwise every fault is reported under its code, in order, down to each unattested file |
| ArtifactBundle.MissingMeans | src/agent_eval/attestation.py:1412-1576 | A path is missing exactly when a directory on its way lacks the next name |
| ArtifactBundle.VerifiedMeansExact | src/agent_eval/attestation.py:1412-1576 | After a successful verification the regular files other than statement and sidecar are exactly the subjects, each with its attested digest |
| ArtifactBundle.CreatedBundleVerifies | src/agent_eval/attestation.py:899-963 | A bundle written over an unchanged tree verifies exactly when it has at most 10,000 subjects, the entries visited before and the new names of the bundle are at most 50,000, both names are safe, the statement is at most 16 MiB and its evidence holds |
| ArtifactBundle.VisitsAfterWriting | src/agent_eval/attestation.py:830-837 | Writing the bundle adds to the entries a scan visits exactly the names that were not there before |
| BundleLimits.FullTreeDoesNotVerify | src/agent_eval/attestation.py:830-837 | A tree of 50,000 empty directories has a bundle created for it that describes it completely, and that does not verify |
| ArtifactBundle.CollectedExactly | src/agent_eval/attestation.py:808-845 | A path is collected exactly when it is a regular file that is not excluded |
| Outcome.EvaluateOutcome | src/agent_eval/outcome.py:110-267 | A trial is accepted exactly when its evidence is acceptable, an infrastructure error with its text exactly when one was reported, and otherwise rejected; the listed checks are exactly those that the policy and the evidence call for, in order, and the reasons are the failed ones |
| Outcome.OutcomeNamesFailures | src/agent_eval/outcome.py:110-267 | A check is listed under its name exactly when its own field or gate calls for it, with the verdict of that field, and a reason is exactly a failed check |
| Outcome.StricterAcceptsLess | src/agent_eval/outcome.py:110-267 | Adding a gate or tightening a threshold never turns a rejection into an acceptance |
| Outcome.Evaluation.AddCheck | src/agent_eval/outcome.py:63-88 | Every check is listed, and the reasons stay the names of the failed ones |
| Outcome.Evaluation.CheckAccounting | src/agent_eval/outcome.py:127-149 | Malformed or negative accounting fails its own check |
| Admission.EvaluateAdmission | src/agent_eval/governance.py:1041-1469 | A request is allowed exactly when everything admission asks for holds; otherwise the reasons are exactly the denials that apply, each code for its own condition, once and in the order of the gate; the limits are the least that apply |
| Admission.DenialsListed | src/agent_eval/governance.py:1041-1469 | The accumulated denials are exactly the codes whose condition applies to the request, the bundle and the run, each once and in the order of the gate |
| Admission.NothingDenied | src/agent_eval/governance.py:1041-1469 | The ordered denials are empty exactly when the request is admissible, given unique registry keys |
| Admission.TighterAdmitsLess | src/agent_eval/governance.py:1041-1469 | A tighter bundle (smaller allowlists, lower caps, stronger flags, fewer or non-approved entries) never admits what the looser one denies |
| Admission.TighterNeverRaisesLimits | src/agent_eval/governance.py:1041-1469 | What the tighter bundle still admits, it admits under limits that are no higher |
| Admission.EffectiveLimits | src/agent_eval/governance.py:1395-1411 | The observed-usage thresholds are the least of the caps of policy, request and matched model |
| Admission.NormalizeDomains | src/agent_eval/governance.py:1216-1250 | The distinct normalised suffixes of the domains in sorted order, or invalid exactly when one is not a domain |
| Admission.CheckEgress | src/agent_eval/governance.py:1216-1250 | The egress denials are those of the set of normalised domains and of the proxy image |
| Continuity.ContinuityKeepsAuthorization | src/agent_eval/governance.py:929-989 | Whatever continues a preflight was admitted for the same request under the same bundle, for the same run with an image added, within the same limits |
| Continuity.ValidateExecutionContinuity | src/agent_eval/governance.py:929-989 | An execution decision continues a preflight exactly when it names it, adds only an image to its inputs and keeps its authorization snapshot; otherwise the first of these that fails is reported |
| Continuity.AdmittedExecutionContinues | src/agent_eval/governance.py:929-989 | Where a preflight was admitted, the decision to execute the same run continues it exactly when that is admitted too |
| Continuity.LinkFixesPreflight | src/agent_eval/governance.py:929-989 | An execution decision continues one preflight only |
| RunRecord.GovernedTaskMeansBoth | src/agent_eval/runner.py:1364-1389 | The governed task accepts exactly what the original task accepts with known usage inside the admitted limits, and has the shorter of both timeouts |
| RunRecord.WithinEveryCap | src/agent_eval/governance.py:1395-1402 | Usage within the effective limits is within every cap of policy, request and model |
| RunRecord.FaultsMean | src/agent_eval/runner.py:1154-1265 | Exactly the faults of image, judge, scanner and task evidence that a record has are reported, each for its own condition, once and in order |
| RunRecord.NoFaultsMatch | src/agent_eval/runner.py:1154-1265 | No fault is reported exactly when the evidence is consistent and matches what was admitted |
| GovernedRun.Trial.RecordAuditFailure | src/agent_eval/runner.py:1055-1064 | An audit failure is recorded and becomes an infrastructure error |
| GovernedRun.Trial.EnforceGovernedModelEvidence | src/agent_eval/runner.py:1067-1087 | After a run with a wall time, the observed model is the admitted one or the mismatch is added to the errors; nothing else changes |
| GovernedRun.Trial.AuditEvent | src/agent_eval/runner.py:1090-1103 | Either the event is the next one on the still open chain, or the audit error is set; after an audit error nothing is appended |
| GovernedRun.Trial.CompleteRecord | src/agent_eval/runner.py:1144-1361 | However the steps fail: a returned record has the outcome of its final evidence and is saved as it stands, every fault of its evidence can be read in its error, an accepted one deserved it and is vouched for, and the last two events are the decision and the completion |
| GovernedRun.Trial.Publish | src/agent_eval/runner.py:1289-1358 | Which failures raise, and which of the containment, persistence and attestation errors is noted, is stated exactly; a noted error is an infrastructure error, and without one that very record was attested |
| GovernedRun.Trial.EvaluateWorkspace | src/agent_eval/runner.py:2710-2956 | Returned or interrupted at any step, an evaluation leaves a whole or a partial run of its stages on the chain and never takes an error back; a returned record shows the grades of the workspace, or its rejection |
| GovernedRun.Trial.JudgeWorkspace | src/agent_eval/runner.py:2866-2934 | The judge runs exactly when it is asked for and the diff is complete, the scan found no secret and the screen nothing; its result changes only then |
| GovernedRun.Trial.RunAgent | src/agent_eval/runner.py:3170-3490 | Whatever interrupts the agent, its end and the cleanup are recorded; what is then known of it, the snapshot, the refusal and the errors follow exactly from how its command ended and what failed around it |
| GovernedRun.Trial.Run | src/agent_eval/runner.py:2959-3531 | Every trial that returns is sound: saved as returned, with the outcome of its evidence; its record shows exactly what its environment did, with a governed trace that tells of a failed evaluation exactly if a step of it raised, if no audit error occurred; a timeout, an output limit or any other failure around the agent makes it an infrastructure error; accepted, it is justified. A trial in which no step fails returns, and is accepted exactly when what it shows matches governance and meets the policy |
| GovernedLaws.SomeTrialIsAccepted | src/agent_eval/runner.py:2959-3531 | Whatever attainable policy and governance there is, some trial runs through without a failing step and shows what acceptance asks for |
| GovernedLaws.AcceptedTrialIsJustified | src/agent_eval/runner.py:2959-3531 | An accepted trial lost no audit event; its agent's command exited with 0 in a sound sandbox, nothing around it was interrupted and everything was cleaned up; it ran the admitted image and model, its record shows the grades of the admitted scanners and judge on an unchanged task and was attested as it stands, and it stayed within the limits of policy, request, model and task |
| GovernedRun.Trial.Start | src/agent_eval/runner.py:3113-3165 | The agent starts only after its three first events were recorded |
| Lifecycle.AuditLifecycleFailures | src/agent_eval/cli.py:1084-1163 | Exactly the faults that the events have are reported, each for its own condition, once and in order, or that the lifecycle cannot be read; none exactly when the events are well ordered |
| Lifecycle.ChecksMean | src/agent_eval/cli.py:1084-1163 | Counts, first positions and sortedness together say that each required event happens once and in order, with a whole or a failed evaluation |
| GovernedLaws.GovernedTraceIsWellOrdered | src/agent_eval/cli.py:1084-1163 | Every trace that a governed trial can leave, on all of its paths, is well ordered |
| GovernedLaws.UnbrokenAuditVerifies | src/agent_eval/cli.py:1060-1163 | A trial that returns without an audit error leaves a file that verifies against the final hash and count of its record, with a well-ordered lifecycle |
| PassAtK.PassAtK | src/agent_eval/report.py:78-86 | Type errors and value errors are raised exactly for non-integers and for counts out of range |
| PassAtK.CountSubsets | src/agent_eval/report.py:78-86 | The k-element subsets of a set are as many as the binomial coefficient says |
| PassAtK.CountPassing | src/agent_eval/report.py:78-86 | The selections with at least one success are all selections less those among the failures |
| PassAtK.EstimateIsFractionPassing | src/agent_eval/report.py:78-86 | What the estimator returns is the fraction of all selections of k trials that contain a success |
| PassAtK.EstimateIsProbability | src/agent_eval/report.py:78-86 | It lies between 0 and 1, and is 1 exactly when fewer than k trials failed |
| PassAtK.OneTrialIsSuccessRate | src/agent_eval/report.py:78-86 | For k = 1 it is the success rate |
| PassAtK.MoreSuccessesPassMore | src/agent_eval/report.py:78-86 | It never falls when successes are added |
| PassAtK.MoreTrialsPassMore | src/agent_eval/report.py:78-86 | It never falls when k grows |
| DiffText.HunkStartOf | src/agent_eval/corpus.py:44 | A printed hunk header is recognised, and its head-side start is read back |
| DiffText.HunkStartExtends | src/agent_eval/corpus.py:44 | What is recognised as a hunk header still is with more text after it |
| DiffGrammar.HunkStartMeans | src/agent_eval/corpus.py:44 | A line opens a hunk exactly when it has the grammar of a header, and starts the head side at its number |
| DiffGrammar.SplitMeans | src/agent_eval/corpus.py:328-359 | A text is split at the line boundaries of `str.splitlines` and nowhere else |
| DiffGrammar.StripMeans | src/agent_eval/corpus.py:334-362 | Stripping leaves the text between the white space of `str.isspace` at its ends |
| DiffLocations.AddedLines | src/agent_eval/corpus.py:323-349 | The line loop computes the locations of the parser's state machine over the split text |
| DiffLocations.AddedTextIsInHead | src/agent_eval/corpus.py:323-349 | At each of them the head file holds the added text |
| DiffLocations.ChangedNonblankLines | src/agent_eval/corpus.py:352-364 | The line loop computes the count of the counter's state machine over the split text |
| DiffCounts.NonblankCountIsExact | src/agent_eval/corpus.py:352-364 | The count is the number of added lines that are not blank, less those whose part before a break is blank or that stand after a part that opened a file, plus the parts after a break that count as added lines themselves; so it is exact if and only if as many are lost as are gained |
| DiffCounts.UnbrokenHunkIsCounted | src/agent_eval/corpus.py:352-364 | A hunk without a break before the end of its lines loses and gains nothing |
| DiffExactness.AddedLinesAreExact | src/agent_eval/corpus.py:323-349 | If every hunk of a named file is undisturbed, and no file adds a line after a part that opens a file, exactly the head-side locations of the added lines are found |
| DiffExactness.HunkIsReadExactly | src/agent_eval/corpus.py:323-349 | What is read of a hunk adds the lines that the hunk adds if and only if it is undisturbed: no break is followed by a plus sign, and before an added line every break is followed by a minus sign or the mark of a missing newline |
| DiffExactness.OneHunkIsExact | src/agent_eval/corpus.py:323-349 | For a diff of one hunk the locations found are exact if the hunk is undisturbed; and only then, unless a line is added after a part that opens a file or a hunk |
| DiffExactness.UnbrokenHunkIsUndisturbed | src/agent_eval/corpus.py:323-349 | A hunk whose section and lines hold no break, except for a carriage return at their ends, is undisturbed |
| DiffExamples.FormFeedMovesLines | src/agent_eval/corpus.py:323-349 | A form feed in an added line makes the next one, line 2 of the head file, be found as line 3 |
| DiffExamples.DisturbedMayBeExact | src/agent_eval/corpus.py:323-349 | Over several hunks the converse fails: a disturbed hunk is found exactly, because what it gains is the line of another hunk |
| DiffBreaks.TextIsReadAsDiff | src/agent_eval/corpus.py:323-364 | Whatever breaks its hunk lines and sections hold, the text of a diff is read as the diff whose lines are the parts between breaks: the nonblank lines are counted that this diff adds in open hunks, and if it adds none after a line that opens a file or a hunk, exactly its added lines are found |
| DiffExamples.OpeningHidesLines | src/agent_eval/corpus.py:323-364 | A part after a break that opens a file makes the location loop miss the next added line, and the counter too |
| DiffExamples.OpeningMayBeExact | src/agent_eval/corpus.py:323-364 | Where a line is added after such a part, a disturbed hunk can still be found exactly, because another part stands in for the line |
| DiffText.SplitJoined | src/agent_eval/corpus.py:328-359 | Splitting joined lines gives the parts of each line, one line after the other |
| DiffText.WholeLine | src/agent_eval/corpus.py:328-359 | A line without a break is its own only part, and so it is with a final carriage return |

## Left out

- Inspection.ContainsStream: above the byte limit it says only that a hit is real or the limit is reported, because the code may stop at either first.
- Matching.Matcher.Augment: recursion is bounded by the number of predictions; the interpreter's own recursion limit is not modelled.
- Outcome.EvaluateOutcome: the formatted text of observed values and requirements in reasons and checks is not modelled; names, order and verdicts are.
- TreeDigest.RecordsDetermineTree: entry names are path segments without a slash, as a file system gives them.
- AuditChain.VerifyAuditChain: checks of the opened file (regular, bounded, newline at the end) and the formats of the expected arguments are not part of the model; a line that fails before it is an event is one unreadable line.
- ArtifactBundle.VerifyAttestation: the checks of predicate shape, JSON depth, task, harness and models are one condition on the statement's evidence; the statement and sidecar lie directly under the artifact root; names are text that UTF-8 can encode.
- ArtifactBundle.CreatedBundleVerifies: encoding and parsing a statement are taken to be inverse to each other.
- ArtifactBundle.CreateAttestation: artifacts are always those of the scan; a caller's own list of paths is not modelled.
- Lifecycle.AuditLifecycleFailures: the comparison of event attributes with results.json (src/agent_eval/cli.py:1163-1386) is not modelled.
- GovernedRun.Trial.Run: that a trial returns is stated where no step fails; ungoverned trials, the preparation before the first event, redaction of the record (treated as the identity) and derived assessments are not modelled.
- DiffBreaks.TextIsReadAsDiff: line breaks may stand in hunk lines and sections only, as git quotes the paths that hold them; what is found of lines added after a part that opens a file or a hunk is not described, beyond the two examples.
- DiffExactness.AddedLinesAreExact: quoted paths, diffs without `diff --git` lines and non-ASCII decimal digits in hunk headers are outside the printer; the condition is sufficient only, as `DiffExamples.DisturbedMayBeExact` shows.
- DiffGrammar.HunkStartMeans: the digits of a number are the ASCII ones; the pattern of the source also takes other decimal digits.
- JsonEscaping.NestedCredentialIsCaught: no backslash may follow the last quote before a nesting, which would pair with its first byte; each nesting is one whole escaping of the level below.
- Building the pattern set from credential material and its size limits (src/agent_eval/credentials.py:415-457): bookkeeping over strict JSON parsing.
- Path normalisation in the benchmark: a fixed function on both sides of the candidate test.
- Process death between the rename and the commit of a save: the code promises recovery from exceptions only.
- SQL schema and migrations, assessments, telemetry export, report tables, Wilson intervals and percentiles.
- Subprocesses, images, pods, network policy, inode fingerprints, access lists and durability of writes: foreign calls.
- The DeepEval judge, external reviewers, the viewer and the examples.
