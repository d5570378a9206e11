# Verified models of the SRE agent's core

This project states in Dafny what the hard parts of the agent do, and proves what they promise.
Every model has two halves: methods and classes in the form of the code, with its loops, tables and
early exits, proved against specification functions; and lemmas about those functions, for all
inputs or all runs.

| file | what it models |
|---|---|
| `chain_records`, `audit_guard`, `audit_runs`, `chain_ops` | the tamper-evident audit chain: append with a head anchor and an in-process cache, the verdict, archives and declared truncation |
| `text_lines`, `line_diff`, `unified_diff` | the line diff by longest common subsequence and the printer of unified patches, with a reader that applies them |
| `stable_sort`, `temporal_graph`, `graph_races`, `blast_radius` | the bi-temporal knowledge graph with its change log and time-travel query, its writers side by side, and personalized page rank |
| `regex_samples`, `regex_expansion`, `pattern_firing`, `trend_projection`, `debounce_engine`, `debounce_runs` | the sample enumerator of regular expressions and what its liveness check should ask, the least-squares projection, the debounce and dedup machine |
| `wilson_bound`, `demotion` | the Wilson score bound and the demotion triggers built on it |
| `tool_pairing`, `approval_loop`, `approval_answers`, `approval_once` | the tool loop that pauses for a human, saved between turns |
| `rate_limiter`, `public_guard` | the token bucket over a bounded table, and the limits of the public demo |
| `shell_words`, `window_pager` | the shell word splitter and the output pager |

`dafny verify dfyconfig.toml` checks all of it.

## How the code is read

- Hashes are functions given from outside. Where a result needs an injective hash or one that is
  never empty, it says so.
- Tables are sequences of rows in the order of their key; payloads, attributes and texts that are only
  passed on are opaque.
- Numbers are exact: `int` and `real`. Square roots are any function that gives them. Clocks are
  parameters; the graph's clock is strictly increasing, the others never go back.
- Regular expressions start from the syntax tree. In their language anchors and word boundaries are the empty
  word; where a pattern is searched for in a value they hold at their places.
- The model, the planner of kubectl commands and the tools are arbitrary functions. Planning comes to a
  refusal, a call that is free to run, or a write, which the session's bypass covers unless it always
  needs a confirmation.
- Processes that share a database are modelled as steps that interleave. In the audit chain a query or a
  transaction is one step: a resume and its write are three, a verdict is three, and an export is two. The
  graph's writes are taken one at a time in `temporal_graph`, and statement by statement in `graph_races`.

## What the proofs found

Where code and description differ, the model follows the code.

- Deleting the newest audit rows stays visible for ever, with two exceptions that are proved exact or
  shown: a process that still caches the first deleted seq writes it again (`StaleCacheHealsTail`), and a
  resume that fails to read the anchor ignores the failure (`UnreadAnchorHealsTail`).
- Without any fault, a second process can break an honest chain: if it commits between the two queries of
  another's resume, that one's next append takes a seq past the newest row and points back at an older one. This
  and a truncation that removes a point another process still holds are the only ways, and each is exact
  (`OvertakenResumeBreaks`, `StaleCacheBreaksCut`).
- A verdict can be "tampered" on an honest chain: when the row query breaks off, whose error is never asked for,
  or when somebody commits before the anchor is read (`HonestVerdictIffUndisturbed`).
- An export reads the rows and then the anchor. If somebody commits in between, an export without a bound gives
  an archive of an honest chain that does not verify and that no truncation accepts
  (`HonestExportIffUndisturbed`, `ExportThenTruncate`).
- A truncation trusts the archive's `through_seq` and `end_hash`. It deletes exactly the archived rows if
  and only if the archive starts at the chain's first row and `end_hash` is its own last row's
  (`DeletesExactlyTheArchive`).
- `VerifySegment` does not check contiguity behind a row whose successor would be negative.
- An opening of an edge looks and then inserts, with nothing to hold the fact in between: two writers leave two
  open edges of one fact, or a pod on two nodes (`GraphRaces`).
- Opening an edge that is open but retracted does nothing, so an "ADD" need not be believed. A candidate of low
  salience is added next to the current edge of a functional relation, and superseding leaves two open ones. A
  close with an event time rewrites past answers. Each of these is proved with its exact condition.
- The liveness check calls a pattern dead if one sample is illegal, although its message says that it can
  never fire. That is right of a finite pattern with no anchors, or one, only if all samples are illegal and none is
  empty; every optional pattern is called dead and fires on everything. And a repeat of at most zero times
  expands to strings outside the language.
- After a pod status that one detector of a playbook matches and a later one of the same playbook does not, the key is
  gone again (`MatchKeepsKey`).
- The engine's description says that a node status that stops matching clears its key. It does not: only a
  pod status does. So a node that has recovered inside its debounce still fires.
- The fast demotion trigger is described as looking at raw events, but is given the rolling window. It misses
  failures more than 90 days old, and fresh ones with 200 successes behind them, however grave.
- At L0, and at rungs nobody knows, a demotion is announced that does not move.
- A call that is approved and runs leaves no trace in the conversation unless the loop it resumes pauses again or
  ends in a plain answer. The other five ends lose it: rounds used up, at once or later, a failing model, an empty
  answer, and a handover to the specialists or to a targeted read.
- Two approvals of one pending call that are sent together both run it: a turn loads, runs and saves without a lock.
- Trimming keeps exchanges whole only with a user message among the last twenty; every turn has one there.
- The returned wait is cut to whole nanoseconds and the `Retry-After` header to whole seconds; each is enough exactly
  if nothing was cut off.
- The pager loses everything after a line that is longer than a page.

## Model

| member | source | states |
|---|---|---|
| `ChainRecords.VerifyChain` | internal/recorder/chain.go:86-99 | the loop answers true if and only if the rows are contiguous from the start and each carries the hash of its own content and of its predecessor |
| `ChainRecords.Newest` | internal/recorder/truncation.go:41-58 | the gap a verifier consults is a declared one that no other reaches beyond |
| `ChainRecords.LinkedSplit` | internal/recorder/chain.go:86-99 | a linked chain cut anywhere gives two linked chains, the second from the hash in front of the cut |
| `ChainRecords.InsertRowKeepsOrder` | internal/memory/security.go:196-197 | a row inserted into an ordered table leaves it ordered, with exactly the old rows and the new one |
| `AuditGuard.Guard.Audit` | internal/memory/security.go:172-214 | one append, with every way it can fail: a call that commits adds exactly one row, with its own kind and payload and their hash in that place, the anchor and the cache follow it; any other leaves the tables as they are; no other scope is touched |
| `AuditGuard.AuditRecords` | internal/memory/security.go:172-214 | which calls commit; the new row stands at the seq and behind the hash the call was to append at, cached or found, and anchor and cache are that row |
| `AuditGuard.Guard.State` | internal/memory/security.go:221-244 | the cache decides if it holds the scope; otherwise two queries, of the newest row and of the anchor, give the next seq, one past the larger of the two if the anchor can be read, and it is cached unless the row query fails |
| `AuditGuard.Guard.Verify` | internal/memory/security.go:254-293 | on whatever its three queries answer: a verified verdict is valid exactly if these rows start at their origin or where this gap says, link, and reach this anchor; a query that fails is never called tampering |
| `AuditGuard.Guard.HeadVerdict` | internal/memory/security.go:295-318 | against the anchor: missing or overtaken is fine, short or with another hash is not |
| `AuditRuns.AuditIsThreeSteps` | internal/memory/security.go:172-244 | a call of the class's Audit that nobody interrupts is exactly three steps of the step system, row query, anchor query and write, so runs may interleave them |
| `AuditRuns.HonestRunVerifies` | internal/memory/security.go:172-318 | every run of appends, failures, cache loss and truncations, by any number of processes, ends in a chain that verifies, if no truncation removes a point that a process still holds and no process is overtaken between the two queries of its resume |
| `AuditRuns.OvertakenResumeBreaks` | internal/memory/security.go:221-244 | the second condition is exact, with an injective hash: after the anchor query of a resume, all later runs verify if and only if nobody has committed since its row query |
| `AuditRuns.OneProcessRunVerifies` | internal/memory/security.go:172-318 | with a single process no side condition is left: every such run verifies |
| `AuditGuard.ResumesPastBoth` | internal/memory/security.go:221-244 | without a cache a call appends behind the newest row, at the least seq that neither a row nor an anchor that can be read has reached |
| `AuditRuns.RunRecordsEvents` | internal/memory/security.go:172-214 | the rows tell the history: after every such run they hold, in order, the events that were there and those of every committing call, less what truncations took from the front |
| `AuditRuns.CutKeepsHonest` | internal/chainops/chainops.go:388-395 | deleting a prefix and declaring it keeps the chain intact and every cache plausible |
| `AuditRuns.StaleCacheBreaksCut` | internal/memory/security.go:221-244 | so is the first: after a truncation, all later runs verify if and only if no process holds a point it removed |
| `AuditRuns.HonestVerdictIffUndisturbed` | internal/memory/security.go:254-318 | the three queries of Verify on an honest chain, with anything going on between them, are answered with valid if and only if the rows did not break off, nobody committed until the anchor was read and, if the front is gone, nobody truncated until the gap was read |
| `AuditRuns.LostTailIsSeenForever` | internal/memory/security.go:216-318 | after the newest rows are deleted and the anchor left, every later run of appends, resumes, overtaken or not, and restarts is rejected, if and only if no process still caches the first deleted seq as its next |
| `AuditRuns.StaleCacheHealsTail` | internal/memory/security.go:221-224 | a process with such a cache heals the chain with one append: the loss can no longer be seen |
| `AuditRuns.UnreadAnchorHealsTail` | internal/memory/security.go:235-243 | so does a resume during which the anchor cannot be read, because that failure is not reported |
| `ChainOps.VerifySegment` | internal/chainops/chainops.go:146-158 | accepts exactly the linked rows that are contiguous wherever the next seq is not negative |
| `ChainOps.SegmentIsContiguous` | internal/chainops/chainops.go:146-158 | a segment that starts at -1 or later is accepted if and only if it is linked and contiguous |
| `ChainOps.NegativeSegmentMaySkip` | internal/chainops/chainops.go:147-149 | behind any start below that, any next seq is accepted |
| `ChainOps.EndHashFixesSegment` | internal/chainops/chainops.go:146-158 | with an injective hash, first seq and end hash of an accepted segment fix all its rows and the hash before them |
| `ChainOps.SelectedIsPrefix` | internal/chainops/chainops.go:163-190 | what the row query of an export selects of an honest chain is exactly its rows up to the bound, a prefix |
| `ChainOps.BuildExport` | internal/chainops/chainops.go:163-235 | on whatever its two queries answer, the archive carries exactly these rows and this anchor, with truthful summaries and links; an unknown chain or a query that fails is an error |
| `ChainOps.VerifyExport` | internal/chainops/chainops.go:240-292 | reports each problem exactly if the archive has it, and is ok exactly if it has none |
| `ChainOps.VerifiesMeans` | internal/chainops/chainops.go:240-292 | what an archive without problems comes down to: version, own hash, linked rows, truthful flag, anchor in reach |
| `ChainOps.HonestExportIffUndisturbed` | internal/chainops/chainops.go:163-292 | with anything going on between the two queries of an export of an honest chain, the archive verifies if and only if an anchor was found and, if it is not bounded and holds a row, it holds all rows and nobody committed before the anchor was read |
| `ChainOps.TruncateChain` | internal/chainops/chainops.go:340-399 | goes through exactly if every precondition holds of the live rows, and then inserts the gap and deletes exactly the rows up to it; refused, it changes nothing and gives a reason that is true |
| `ChainOps.DeletesExactlyTheArchive` | internal/chainops/chainops.go:353-392 | on a chain that verifies, an accepted archive holds exactly the deleted rows if and only if it starts at the first row and its end_hash is its own last row's; neither is checked |
| `ChainOps.RunsOnlyExtend` | internal/memory/security.go:172-244 | safe runs without truncations only add rows at the end |
| `ChainOps.ExportThenTruncate` | internal/chainops/chainops.go:163-399 | export, with others at work during it and after it, then truncate: it goes through exactly if the archive holds a row, a row survives, and an export without a bound was undisturbed; archive plus survivors is then the whole chain as it was before |
| `TextLines.LinesOfUnlines` | internal/aci/fix.go:102-117 | splitting gives back the lines that were printed, one per newline |
| `TextLines.DecimalReads` | internal/aci/fix.go:181-189 | a printed number reads back as itself, whatever follows that is not a digit |
| `LineDiff.LcsIsLongest` | internal/aci/fix.go:197-212 | the length is attained by a common subsequence and exceeded by none |
| `LineDiff.ScriptEdits` | internal/aci/fix.go:213-236 | without its additions the script is the old text, without its removals the new one |
| `LineDiff.ScriptIsMinimal` | internal/aci/fix.go:197-236 | no script that turns the one text into the other has fewer insertions plus deletions |
| `LineDiff.FillTable` | internal/aci/fix.go:198-212 | the table, filled in place, holds the true length for every pair of suffixes |
| `LineDiff.DiffOps` | internal/aci/fix.go:197-236 | the walk over the table yields the script that the minimality results are about |
| `UnifiedDiffs.UnifiedDiff` | internal/aci/fix.go:95-179 | empty exactly if both texts are blank, or both are not and differ in no more than trailing newlines; the hunks are ordered, disjoint, cover every change; and the printed text, read back and applied to the original by its headers, gives the fixed text |
| `UnifiedDiffs.NormalisedKeepsContent` | internal/aci/fix.go:95-100 | a text is normalised to nothing exactly if it is blank, which none with a visible character is; any other keeps all but its trailing newlines and ends in one |
| `UnifiedDiffs.NormalisedAlike` | internal/aci/fix.go:95-100 | so two texts come to the same exactly if both are blank, or both are not and agree up to trailing newlines |
| `UnifiedDiffs.NextCut` | internal/aci/fix.go:130-154 | the next hunk starts three lines before the next change and ends three after the last change no more than six kept lines further on |
| `UnifiedDiffs.CutsAreOrdered` | internal/aci/fix.go:130-177 | hunks of a well cut script follow one another without overlap |
| `UnifiedDiffs.HunksApply` | internal/aci/fix.go:110-179 | applying the hunks one by one, each exactly where its header says, turns the old lines into the new ones |
| `UnifiedDiffs.PrintedPatchApplies` | internal/aci/fix.go:126-178 | the same from the text: parsing what is printed loses nothing, for every path without a newline |
| `UnifiedDiffs.RngReads` | internal/aci/fix.go:181-189 | a printed range reads back, with a start one lower for an empty side |
| `UnifiedDiffs.UnchangedIffEqual` | internal/aci/fix.go:118-125 | a script has no change exactly if the two sides are equal |
| `TemporalGraph.RunKeepsOneOpen` | internal/memory/kg.go:166-221 | over every sequence of writes taken one at a time, whatever their stamps, there is at most one open edge for a source, relation and target |
| `GraphRaces.OneOpenIffMissing` | internal/memory/kg.go:166-221 | over every interleaving of any number of writers, where an opening is a SELECT and a later INSERT, that is so if and only if each INSERT still finds its fact missing |
| `GraphRaces.OnlyInsertionsInterfere` | internal/memory/kg.go:166-221 | and in between it can only be lost to another INSERT of the same fact |
| `GraphRaces.TwoOpenersRace` | internal/memory/kg.go:166-187 | two writers that both look before either inserts always leave two open edges |
| `GraphRaces.OneNodeIffNowhere` | internal/memory/kg.go:166-389 | over every such interleaving a pod has at most one open runs_on edge, if and only if each INSERT of one finds the pod without any |
| `GraphRaces.OpeningIsTwoMoves` | internal/memory/kg.go:166-187 | an opening that nobody interrupts is the one write of the other results |
| `TemporalGraph.RunKeepsConsistent` | internal/memory/kg.go:166-221 | with bi-temporality off, the edges of a fact follow one another without overlap, in the order of the table |
| `TemporalGraph.ThePastIsStable` | internal/memory/kg.go:166-221 | no run of later opens, closes, retractions and amendments changes what was found for a past pair of times |
| `TemporalGraph.BackdatedCloseRewritesThePast` | internal/memory/kg.go:192-203 | with bi-temporality on, a close changes a past answer if and only if its stamp is not after that time and it closes an edge of the answer |
| `TemporalGraph.AsOfFinds` | internal/memory/kg.go:482-487 | what the query finds: the facts of the edges that hold at the one time in the sense of the change log, recorded and not yet retracted at the other |
| `TemporalGraph.AsOfIsValidAt` | internal/memory/kg.go:458-497 | with nothing retracted, and asked when all is recorded, these are the facts that the change log leaves valid |
| `TemporalGraph.RetractionHides` | internal/memory/kg.go:205-223 | a retraction hides exactly the facts it selects, for all valid times and from its own time on, and changes nothing of what was believed before |
| `TemporalGraph.OpeningBelieves` | internal/memory/kg.go:166-187 | after an opening the fact is believed if and only if it was before or is not in the table open and retracted |
| `TemporalGraph.ReconcilingBelieves` | internal/memory/kg.go:263-314 | the same of a salient candidate that is reconciled, whichever way it is answered |
| `TemporalGraph.ReconcilingKeepsOneCurrent` | internal/memory/kg.go:230-314 | a functional relation keeps at most one current target, except exactly if the salience lies between the two floors, the candidate is not open and there is another current target |
| `TemporalGraph.ReconcilingOpensSecondNode` | internal/memory/kg.go:263-314 | its open edges are another matter: reconciling a pod's node keeps one open, if and only if the candidate is not salient, is believed already or finds the pod on no other node; every superseding leaves two |
| `TemporalGraph.Store.Decide` | internal/memory/kg.go:263-313 | the queries of ReconcileEdge decide what the four results above are about |
| `TemporalGraph.Store.ReconcileEdge` | internal/memory/kg.go:263-314 | and exactly the writes of that decision are made; with reconciliation off it is an opening |
| `TemporalGraph.ReconcilingMerges` | internal/memory/kg.go:277-300 | a salient candidate that is believed already merges its attributes into that row, if it brings any, and does nothing else; the answer is NOOP exactly if that changed nothing |
| `TemporalGraph.OnlyFunctionalIsSuperseded` | internal/memory/kg.go:225-313 | only functional relations are superseded, with a salience of 0.5 or more; without superseding nothing is retracted, and below 0.2 nothing is written |
| `TemporalGraph.LogIsExact` | internal/memory/kg.go:458-477 | the change log of a window holds each opening and closing after its start and up to its end, and nothing else, in the order of their times |
| `TemporalGraph.ChangesReplay` | internal/memory/kg.go:458-477 | replaying the change log of a window on the facts valid at its start gives those valid at its end |
| `TemporalGraph.IngestKeepsOneNode` | internal/memory/kg.go:359-389 | after an observation every pod still has at most one open node, the observed one is open, and a deleted pod has no open edge |
| `TemporalGraph.IngestSpares` | internal/memory/kg.go:359-389 | what it leaves alone: of a pod that is still there it closes no edge but its place, of a deleted one only the edges at it, never in another cluster; all other rows stay as they are |
| `TemporalGraph.IngestOwnsPod` | internal/memory/kg.go:382-387 | an owner kind/name leaves an open owns edge from that workload, in the pod's namespace, to the pod; without a slash the open owns edges stay as they are |
| `TemporalGraph.WriteKeepsOneNode` | internal/memory/kg.go:166-221 | any single write keeps one node per pod, if and only if it does not open a runs_on edge of a pod that has one to another node |
| `TemporalGraph.RunKeepsOneNode` | internal/memory/kg.go:166-389 | so over every history of observations and any other writes, one at a time, a pod has at most one open runs_on edge at each point, if and only if no write outside of ingestion opens one of a pod that is elsewhere |
| `TemporalGraph.Store.OpenEdge` | internal/memory/kg.go:166-187 | if nobody interrupts, adds one edge stamped with the event time or now, or nothing if the fact is open |
| `TemporalGraph.Store.CloseEdge` | internal/memory/kg.go:192-203 | stamps exactly the selected open edges |
| `TemporalGraph.Store.CloseAllEdges` | internal/memory/kg.go:316-321 | closes every open edge at either end of the entity, and no other |
| `TemporalGraph.UnretractedCounts` | internal/memory/kg.go:209-223 | the count that a retraction answers with is the number of rows it stamps |
| `TemporalGraph.Store.RetractEdge` | internal/memory/kg.go:209-223 | retracts exactly the selected edges, closed ones too, and counts those not retracted before |
| `TemporalGraph.Store.IngestPodObservation` | internal/memory/kg.go:359-389 | makes exactly the writes that its specification lists, in order |
| `TemporalGraph.Store.Changes` | internal/memory/kg.go:458-477 | the openings and closings inside the window, by row in the order of valid_from and then stably sorted by time |
| `TemporalGraph.Store.AsOf` | internal/memory/kg.go:482-497 | the facts, without the edges' attributes, valid at the one time and believed at the other, in the order of valid_from; no transaction time means now |
| `BlastRadius.StepConserves` | internal/memory/kg.go:605-621 | an iteration turns a distribution into a distribution: all scores stay non-negative and the total stays 1 |
| `BlastRadius.IterateConserves` | internal/memory/kg.go:599-631 | so every iterate is one |
| `BlastRadius.StepContracts` | internal/memory/kg.go:605-625 | an iteration brings any two score vectors closer by at least the damping factor |
| `BlastRadius.ChangeShrinks` | internal/memory/kg.go:605-630 | iteration k changes the scores by at most 2 * 0.85^k |
| `BlastRadius.ResidualBoundsError` | internal/memory/kg.go:605-630 | the last change bounds the distance to the fixed point, which is unique |
| `BlastRadius.AdjacencyCountsEdges` | internal/memory/kg.go:572-576 | the lists are symmetric, hold a neighbour once for each edge between the two, a node itself twice for each loop, and are as long as the node has edge ends |
| `BlastRadius.StepIsTransition` | internal/memory/kg.go:605-621 | score by score, in terms of the edges: an iteration gives a node its part of what restarts, if it is a seed, and from every node its damped score, divided among its edge ends, once for each end that leads here |
| `BlastRadius.IteratesFlow` | internal/memory/kg.go:599-621 | so do all iterates, from equal parts for the seeds on |
| `BlastRadius.PprScores` | internal/memory/kg.go:570-632 | the result is empty without edges, and else one of the first fifty iterates: the fiftieth, or the first within the tolerance of the one before |
| `BlastRadius.NextScores` | internal/memory/kg.go:606-621 | the loop over the maps computes the iteration that conservation and contraction are about |
| `RegexSamples.SamplesAreWords` | internal/detect/shape.go:69-155 | every sample is a word of the expression, if no repeat has a maximum of zero |
| `RegexSamples.ZeroRepeatSamples` | internal/detect/shape.go:105-129 | of such a repeat the samples are words if and only if those of its operand are all empty |
| `RegexSamples.FiniteExpandsExactly` | internal/detect/shape.go:69-155 | literals, alternation, concatenation, option and capture expand to exactly their language |
| `RegexExpansion.SamplesAreExact` | internal/detect/shape.go:69-155 | whatever the expression, an expansion holds exactly the samples of its shape: the ends of each range for a class, x for any character, one sample of the operand repeated as often as it must but at least once, or nothing where it may be left out, and all combinations of a concatenation |
| `RegexExpansion.ExpandsIff` | internal/detect/shape.go:69-155 | exactly the expressions are expanded below which nothing matches nothing, no class is empty and no concatenation has more than 500 combinations, each to exactly so many samples |
| `RegexSamples.ExpansionSize` | internal/detect/shape.go:130-152 | no successful expansion is empty, and a concatenation yields at most 500 |
| `RegexSamples.ProductSize` | internal/detect/shape.go:54-67 | the product of the sizes, or something above 2^20 once it passes that |
| `RegexSamples.ExpandTree` | internal/detect/shape.go:69-155 | the recursion with its loops yields what the language results are about |
| `RegexSamples.PredicateLivenessErrors` | internal/detect/shape.go:161-198 | each reason is reported exactly if it applies, and a pattern that cannot be expanded is an error only when strict |
| `RegexSamples.LegalPatternIsNotFlagged` | internal/detect/shape.go:182-196 | a pattern whose every word is legal is never called dead |
| `RegexSamples.FiniteFlaggedIff` | internal/detect/shape.go:182-196 | a finite pattern is called dead if and only if some word of it is illegal |
| `PatternFiring.FiringIsFitting` | internal/detect/shape.go:182-196 | a pattern that some legal value fires has a word that is legal or empty; without anchors it also fires if it has one |
| `PatternFiring.MessageIsRightIff` | internal/detect/shape.go:189-194 | a finite pattern without anchors can never fire, as the message says, if and only if all its samples are illegal and none is empty; one illegal sample is all that is asked |
| `PatternFiring.OneAnchorMessageIsRightIff` | internal/detect/shape.go:189-194 | with an anchor at one end only, exactly the same |
| `PatternFiring.AnchoredMessageIsRightIff` | internal/detect/shape.go:189-194 | between anchors at both ends, if and only if all are illegal |
| `PatternFiring.AllIllegalIsDead` | internal/detect/shape.go:189-194 | wherever a finite pattern has anchors, it can never fire if all samples are illegal and none is empty |
| `PatternFiring.OptionalIsFlaggedAndFires` | internal/detect/shape.go:105-129 | every pattern that may be left out is called dead if it expands, and fires on every value |
| `PatternFiring.ClassEndsMayMislead` | internal/detect/shape.go:84-95 | for infinite patterns not even all samples decide: any class with illegal ends and a legal character between them fires on that character |
| `TrendProjection.ProjectETA` | internal/detect/engine.go:402-443 | the accumulator loops compute the projection that the following results are about, with every early exit |
| `TrendProjection.R2IsAShare` | internal/detect/engine.go:415-426 | r2 lies between 0 and 1 (Cauchy-Schwarz), and is 1 if and only if all samples lie on the fitted line |
| `TrendProjection.FitIsLeastSquares` | internal/detect/engine.go:425-425 | no line has a smaller squared error than the fitted one |
| `TrendProjection.ShiftInvariant` | internal/detect/engine.go:407-443 | shifting all times changes nothing |
| `TrendProjection.CollinearIsExact` | internal/detect/engine.go:402-443 | on samples of a line, r2 is 1 and the projection succeeds exactly if the line heads for a threshold it has not reached, which it then meets at the projected time |
| `TrendProjection.R2IsExplained` | internal/detect/engine.go:415-426 | r2 is the share of the squared error of the flat line through the mean that the fitted line takes away |
| `TrendProjection.FlatIff` | internal/detect/engine.go:411-421 | the moments vanish exactly if all samples are of one time, or of one value |
| `TrendProjection.SuccessMeansCrossing` | internal/detect/engine.go:402-443 | a projection succeeds exactly if neither all times nor all values are the same, the fit is as good as asked and its slope leads from the last value to a threshold still ahead; the slope then meets it at the given time, which is positive |
| `TrendProjection.TrendEngine.ProjectSeries` | internal/detect/engine.go:337-366 | a finding is made exactly if three clean samples cross inside both windows and the target has not fired for half an hour, with its time rounded to a tenth of a minute; never with min_r2 above 1 or a window that is not positive (internal/detect/shape.go:259-269) |
| `DebounceEngine.RunsAreLawful` | internal/detect/engine.go:89-194 | in every interleaving of observations, ticks and reloads the state of each key is what its history of armings, disarmings and firings says |
| `DebounceEngine.FindingsAreDebounced` | internal/detect/engine.go:89-194 | in every run and for every key, a firing comes right after an arming at least the debounce time before it, and the key was disarmed between any two firings |
| `DebounceRuns.MatchIsAnswered` | internal/detect/engine.go:111-134 | in every run, an observation that is no deletion and that some predicate of a loaded detector is about and true of arms the key if it is idle, and fires it there and then exactly if its debounce has passed, for a new key if it is 0; a key that has fired is only touched; the finding is reported |
| `DebounceRuns.MatchKeepsKey` | internal/detect/engine.go:111-144 | after the whole observation that key is in the table, if and only if no later detector of the same playbook disarms it |
| `DebounceRuns.RecoveryDisarms` | internal/detect/engine.go:117-143 | a pod status takes the key of a detector that watches a status out, if the pod is gone or none of the pod predicates is true of it |
| `DebounceRuns.TickSettles` | internal/detect/engine.go:165-182 | a tick fires a key exactly if it has not fired and its debounce has passed, and drops it exactly if its detector is not loaded, or it has fired and ten minutes went by without a match |
| `DebounceRuns.KeysWereObserved` | internal/detect/engine.go:111-182 | nothing is armed without a match: in every run each key in the table has the time and the evidence of an observation of its object that a loaded detector of its playbook matched |
| `DebounceRuns.ArmedKeyFires` | internal/detect/engine.go:89-194 | in every run, a key that is armed in some frame and whose history does not go on with a disarming has fired by the end of any tick past its debounce with its detector loaded |
| `DebounceRuns.NotTakenOut` | internal/detect/engine.go:111-194 | it does not, as long as no observation of a detector of the key disarms it and no tick drops it while it is armed |
| `DebounceRuns.NodesAreDisarmedByTicks` | internal/detect/engine.go:120-181 | in every run, a disarming of a key that only node statuses touch comes from a tick: its detector is not loaded, or it has fired and ten minutes went by without a match |
| `DebounceRuns.RecoveredNodeFires` | internal/detect/engine.go:135-181 | so a node that has recovered inside its debounce still fires, in every run in which only node statuses touch its key and its detector stays loaded |
| `DebounceEngine.FindingsAreFirings` | internal/detect/engine.go:89-107 | an observation reports a key as often as it adds a firing to its history |
| `DebounceEngine.ShotsAreFirings` | internal/detect/engine.go:165-194 | and so does a tick |
| `DebounceEngine.RingHoldsTheLatest` | internal/detect/engine.go:259-265 | over any number of calls the ring holds the latest 500 of all findings, in order |
| `DebounceEngine.Engine.Process` | internal/detect/engine.go:89-107 | the live states, findings and callbacks are a function of the live half alone; shadow detectors change their own half only |
| `DebounceEngine.Engine.Tick` | internal/detect/engine.go:165-194 | the same for a tick: every live key is ticked once, every shadow key once and never expired, and each shot is reported exactly once |
| `DebounceEngine.TickAll` | internal/detect/engine.go:169-182 | whatever the order of the map, each key is ticked once |
| `DebounceEngine.AdvanceStates` | internal/detect/engine.go:111-144 | the branches of advance, on the table |
| `DebounceEngine.ByName` | internal/detect/engine.go:196-203 | the first detector of that playbook |
| `WilsonBound.BoundInRange` | internal/autonomy/stats.go:74-83 | the bound is the lower root of its equation: between 0 and the share of successes, so the clamp at 0 never acts |
| `WilsonBound.BoundIsLowerRoot` | internal/autonomy/stats.go:74-83 | it solves (p-x)^2 = z^2 x (1-x) / n, and a share up to p is below it if and only if the trials refute that share |
| `WilsonBound.BoundIsPositive` | internal/autonomy/stats.go:74-83 | it is above 0 exactly if something succeeded |
| `WilsonBound.SuccessRaisesBound` | internal/autonomy/stats.go:74-83 | one more success raises it |
| `WilsonBound.FailureLowersBound` | internal/autonomy/stats.go:74-83 | one more failure lowers it, or leaves it at 0 |
| `WilsonBound.FlawlessBound` | internal/autonomy/stats.go:74-83 | for a flawless record of n it is n / (n + z^2) |
| `Demotion.CusumTrip` | internal/autonomy/stats.go:243-257 | trips if and only if some window of that many days holds that many failures |
| `Demotion.Window` | internal/autonomy/stats.go:119-131 | the loop, the stable sort and the cut compute the rolling window of the next three results |
| `Demotion.RecentIsNewest` | internal/autonomy/stats.go:119-131 | it is the newest of the events in date, in order, and leaves others out only if it is full |
| `Demotion.RecentKeeps` | internal/autonomy/stats.go:119-131 | how many failures of a span it keeps, for every history: those in date, and if these are more than 200 those past the cut and the last recorded of the ties at it |
| `Demotion.WindowedTrip` | internal/autonomy/stats.go:304-305 | the evaluation trips exactly if some window of that many days holds enough of the failures that are kept, for every history |
| `Demotion.WindowTripIsRawTrip` | internal/autonomy/stats.go:304-305 | whatever it trips on, the raw events trip on too |
| `Demotion.OldFailuresEscape` | internal/autonomy/stats.go:235-236 | but not the other way round, against the description of the trigger: all failures out of date escape it |
| `Demotion.FreshFailuresEscape` | internal/autonomy/stats.go:119-131 | and so do all fresh ones with two hundred successes behind them |
| `StableSort.SortBySorts` | internal/autonomy/stats.go:126-126 | the sort orders by time, loses nothing and keeps ties in order |
| `Demotion.HysteresisBreach` | internal/autonomy/stats.go:268-288 | a breach is a bound below the floor in the last events, where a flawless record would clear it |
| `Demotion.SuccessBeatsFailure` | internal/autonomy/stats.go:268-288 | in the same number of trials one more success gives a higher bound |
| `Demotion.BreachNeedsFailures` | internal/autonomy/stats.go:259-288 | more failures never undo a breach, and a flawless record is never one, whatever its length and the threshold |
| `Demotion.TooShortToJudge` | internal/autonomy/stats.go:277-280 | the trigger abstains exactly if n (1 - floor) < floor z^2 |
| `Demotion.BreachMeans` | internal/autonomy/stats.go:268-288 | in terms of the trials, without roots: a breach needs a record among the newest events that a flawless one of its length would clear the floor with, and that has a lower share or does not refute every share below the floor |
| `Demotion.ReasonIs` | internal/autonomy/stats.go:293-340 | exactly when each trigger is the reason, which of them demote, how far and with what freeze, and that the reason tells a critical failure among those kept |
| `Demotion.EvaluateDemotion` | internal/autonomy/stats.go:293-340 | the most severe trigger that fires, in their order, with all its consequences |
| `Demotion.FlawlessKeepsRung` | internal/autonomy/stats.go:293-340 | a class that never failed is demoted if and only if a severity or a critical event is laid to it at L4 |
| `ToolPairing.SettledAnswersEachCall` | internal/agent/tools.go:303-361 | in a settled conversation each id is answered as often as it is called |
| `ToolPairing.FillOrphanToolCalls` | internal/agent/trim.go:195-216 | adds one placeholder per id for the unanswered calls that have one, no other, and nothing to a settled conversation |
| `ToolPairing.TrimSession` | internal/agent/trim.go:73-92 | cuts where the specification says: twenty messages from the end, moved on to the first user message there |
| `ToolPairing.TrimStartsAtFirstUser` | internal/agent/trim.go:73-88 | nothing is dropped up to twenty messages; of more the last twenty are kept, from the first user message among them on, or all of them without one |
| `ToolPairing.CutIsSettled` | internal/agent/trim.go:69-71 | what is kept of a settled conversation is settled exactly if nothing is owed at the cut |
| `ToolPairing.TrimKeepsExchangesWhole` | internal/agent/trim.go:69-92 | with a user message among the last twenty, trimming keeps every exchange whole |
| `ToolPairing.TrimWithoutUser` | internal/agent/trim.go:77-85 | without one, exactly if nothing is owed twenty messages before the end |
| `ToolPairing.BigBatchIsTorn` | internal/agent/trim.go:77-85 | so an exchange of nineteen calls or more at the end is torn |
| `ApprovalLoop.RunBatch` | internal/agent/tools.go:308-361 | the arrays filled in place give the batch: the first call that needs approval held, later ones put off, all others answered in order |
| `ApprovalAnswers.BatchAnswers` | internal/agent/tools.go:308-361 | call by call: the first that a human has to be asked about is held, every other is answered in order with its refusal, what its run gives, or that it is put off; what ran is what nobody has to be asked about |
| `ApprovalLoop.BatchPays` | internal/agent/tools.go:308-361 | a batch answers each of its calls, in any state of the conversation, but the one held |
| `ApprovalLoop.DirectAnswer` | internal/agent/coordinator.go:102-168 | the loop, fresh or resumed, is the bounded recursion that the following results are about |
| `ApprovalAnswers.DirectTells` | internal/agent/coordinator.go:102-168 | in such a loop each input of the model is the one before, the model's message and the answers to its calls, and what is left at the end follows from the last input in the same way |
| `ApprovalAnswers.ResumedCallIsAnswered` | internal/agent/tools.go:367-383 | a resumed loop goes on with the answer to the pending call: what running it gives if the reply approves and it can be planned, the refusal if it cannot, that it was cancelled if the reply does not approve; all inputs and what is left start with that |
| `ApprovalLoop.DriveStaysSound` | internal/agent/coordinator.go:119-168 | the model is only asked when every call is answered once; a paused loop owes exactly the held call |
| `ApprovalLoop.TurnIsSound` | internal/agent/agent.go:142-181 | so it is for whole turns, and the saved conversation stays settled |
| `ApprovalLoop.RunsAreSound` | internal/agent/agent.go:142-181 | and for every run of turns, whatever the requests, the model and the tools do |
| `ApprovalAnswers.TurnLeavesItsAnswer` | internal/agent/agent.go:86-181 | exactly what a turn adds to what was said and the new request: every loop but the last hands over to a targeted read and costs two steps; the last one leaves an apology, the word that a budget is used up, or itself with its tool outputs shortened; or it hands over, and the turn is out of steps, or one more reply makes of the findings what it can; a failing model adds nothing |
| `ApprovalAnswers.TurnEndsInAnswer` | internal/agent/agent.go:86-181 | so a turn that ends well and does not pause ends in an answer of the assistant |
| `ApprovalLoop.RunsGiveWholeInputs` | internal/agent/coordinator.go:103-131 | in every run, trimmed history and loop together are a settled conversation at each model call |
| `ApprovalLoop.WritesAreApproved` | internal/agent/tools.go:308-383 | a write runs only if it is the call last shown, first in the turn, and the reply a recognised approval, or if the bypass covers it, which a write that always needs a confirmation never is |
| `ApprovalLoop.ApprovalRuns` | internal/agent/tools.go:367-383 | an approval runs the pending call, first of all, exactly if it can still be planned |
| `ApprovalOnce.ApprovedCallsRunOnce` | internal/agent/agent.go:142-181 | in every run of turns that follow one another, a call runs by approval in no later turn |
| `ApprovalOnce.OverlappingApprovalsRunTwice` | internal/agent/agent.go:142-181 | of two approvals of one pending call the second runs it again, if and only if it has loaded the session before the first saved |
| `ApprovalLoop.TurnCarries` | internal/agent/coordinator.go:107-160 | no loop of a turn goes over the limit, counted on top of what it had spent, and a pause passes on what it spent |
| `ApprovalLoop.BudgetSurvivesPauses` | internal/agent/coordinator.go:107-160 | over all its turns a loop makes at most a third of the limit of model calls |
| `ApprovalLoop.ResumedTurnRecords` | internal/agent/coordinator.go:102-262 | the answer of the call a human was asked about is in the saved messages or the pending loop afterwards, if and only if the resumed loop pauses again or ends in a plain answer, as long as the model gives no later call the same id |
| `ApprovalLoop.ApprovedCallIsLostIff` | internal/agent/coordinator.go:112-262 | so an approved call that can be planned runs, and its record is lost in exactly five cases: rounds used up, the model fails, answers nothing, or hands over to the specialists or to a targeted read |
| `ApprovalLoop.FirstReplyDecides` | internal/agent/coordinator.go:112-160 | a first reply without calls, or none at all, decides it: the record is kept if and only if a round was left and the reply is a plain answer |
| `ApprovalLoop.RunGraph` | internal/agent/agent.go:86-124 | the step budget, the routes and the end of a turn, as the specification of a turn has them |
| `ApprovalLoop.Session.Turn` | internal/agent/agent.go:142-181 | loads, resumes or starts, and saves; a sound session stays sound |
| `ApprovalLoop.MaxRounds` | internal/agent/coordinator.go:107-107 | the rounds are a third of the limit, rounded down |
| `RateLimiter.Limiter.Allow` | internal/api/ratelimit.go:68-93 | list and index always hold the same buckets, and the table and the answer are those of the specification |
| `RateLimiter.AllowKeepsOrder` | internal/api/ratelimit.go:68-105 | the table stays bounded, without doubles, newest first, the caller at its head, every bucket between empty and full |
| `RateLimiter.Evicted` | internal/api/ratelimit.go:95-105 | what is left is the newest of the table, with room for one more |
| `RateLimiter.ChainConserves` | internal/api/ratelimit.go:74-88 | what was admitted and what is left never exceed a full bucket and what the time has earned |
| `RateLimiter.RateIsBounded` | internal/api/ratelimit.go:68-93 | a caller that is not evicted gets at most capacity plus refill times the interval, whatever the others do |
| `RateLimiter.FreshCallerGets` | internal/api/ratelimit.go:68-92 | in terms of the settings: a caller that is not tracked is admitted for as many calls at once as the burst says, and after these again exactly when time times the rate per minute comes to sixty; settings below one count as one |
| `RateLimiter.TracksAsSet` | internal/api/ratelimit.go:68-105 | in every run a new caller adds to the table until as many are tracked as the settings say, at least one, and then takes the place of another |
| `RateLimiter.WaitIsEnough` | internal/api/ratelimit.go:89-92 | after a refusal, a first call no earlier than the returned whole nanoseconds is admitted if nothing was cut off them, and with one nanosecond more always |
| `RateLimiter.WaitIsEnoughIff` | internal/api/ratelimit.go:89-92 | at exactly the returned wait a call is admitted if and only if nothing was cut off, as with the one-second floor |
| `RateLimiter.SecondsAreExact` | internal/api/ratelimit.go:89-91 | and the wait is no longer than it must be: from a second on, a call is admitted exactly if it waits out the seconds before the cut |
| `RateLimiter.HeaderIsEnough` | internal/api/ratelimit.go:155-156 | at the time the header gives, exactly if the wait is a whole number of seconds, since the header drops the fraction |
| `RateLimiter.Limiter.EvictIfFull` | internal/api/ratelimit.go:95-105 | removes the least recently seen until there is room |
| `PublicGuard.Guard.AdmitOne` | internal/api/public.go:84-121 | the checks in their order, with the counters each of them leaves |
| `PublicGuard.Guard.ReleaseOne` | internal/api/public.go:112-121 | the first call for a ticket takes back its counts, later ones nothing |
| `PublicGuard.Prune` | internal/api/public.go:92-97 | the times of the last hour, in order |
| `PublicGuard.InFlightIsTheSum` | internal/api/public.go:51-53 | in flight is the sum of the clients' counts, never over the cap, never more than one each |
| `PublicGuard.RunsAreSane` | internal/api/public.go:84-134 | in every run of questions, releases and costs |
| `PublicGuard.HeldUntilReleased` | internal/api/public.go:106-121 | in every run a ticket stays with its client from the admission to the first call of its release |
| `PublicGuard.ReleaseOnce` | internal/api/public.go:111-121 | in every run, whatever comes in between, that call takes back the count of its own client and nothing else, and every later one changes nothing |
| `PublicGuard.HourlyLimitHolds` | internal/api/public.go:92-101 | in every run, admissions of a client that are as many apart as the limit are an hour apart |
| `PublicGuard.BudgetClosesTheDay` | internal/api/public.go:63-91 | once the budget is reached nobody is admitted until the UTC day changes |
| `PublicGuard.SpentIsTheDaysCosts` | internal/api/public.go:63-134 | in every run, what is spent is the sum of the costs of that UTC day |
| `PublicGuard.VerdictFollowsHistory` | internal/api/public.go:84-121 | in every run the verdict on a question follows from what happened before: the day's costs, the client's admissions of the last hour, the open tickets and whether one is the client's, in this order; whoever is under all limits is admitted |
| `PublicGuard.Guard.Available` | internal/api/public.go:75-80 | open exactly if today's budget is not reached |
| `ShellWords.Split` | internal/kube/shell.go:13-81 | the character machine yields exactly the words of the recursive grammar, or its error |
| `ShellWords.RoundTrip` | internal/kube/shell.go:8-81 | quoting each of any words and splitting the joined line gives the words back |
| `ShellWords.PlainQuote` | internal/kube/shell.go:56-64 | where a word has no single quote, quoting is just a quote on each side |
| `ShellWords.DoubleQuotesKeep` | internal/kube/shell.go:8-71 | a word comes back from between double quotes with its double quotes and backslashes escaped, and as it is written if each of its backslashes stands before another character; outside quotes a backslash makes any character plain |
| `ShellWords.SplitFails` | internal/kube/shell.go:73-78 | it fails exactly if the line ends inside quotes, or in a backslash that escapes |
| `WindowPager.Window` | internal/aci/read.go:219-254 | the loops and clamps compute the page of the following results |
| `WindowPager.PageIsLongest` | internal/aci/read.go:228-241 | a page is within both limits and, unless it cuts a line, the longest run of whole lines that is |
| `WindowPager.CursorMovesOn` | internal/aci/read.go:242-253 | the cursor is given exactly if lines are left and none was cut, and points further on |
| `WindowPager.PagesAreAllLines` | internal/aci/read.go:216-254 | with lines that fit, following the cursor gives all lines, once each and in order |
| `WindowPager.LongLineEndsPages` | internal/aci/read.go:246-252 | a line that does not fit is cut and ends the pages: nothing after it is ever shown |
| `WindowPager.PagesShowAll` | internal/aci/read.go:216-254 | so the pages show all of an output if and only if each of its lines fits |

## Left out

- HTTP handlers, events, logging, metrics, prompts, configuration, and the words of messages; a message that matters for control is a constant of its own.
- SQL, JSON and YAML encodings, and the widths of integers: `int64` wrap-around of seqs and counters does not occur in the models.
- Floating-point rounding, NaN and infinities; an infinite sample time, which `cleanSamples` lets through, has no counterpart.
- Database failures in the middle of a query, other than the failing queries and transactions of `Audit` and `Verify` and a row query of `Verify` that breaks off.
- Crashes between the execution of an approved call and the saving of the turn.
- TemporalGraph.Store.OpenEdge: a method is one uninterrupted call; `GraphRaces` interleaves the statements of several. The consistency behind `ChangesReplay` is proved for writes taken one at a time.
- TemporalGraph.Store.AsOf: returns the facts without the edges' attributes, which `ReconcileEdge` updates in place.
- TemporalGraph.Store.Decide: the salience is given, as is the union of two attribute sets; failing queries are left out.
- BlastRadius.PprScores: takes the nodes in some order; the code sorts them, which with exact arithmetic changes nothing. The hop passes of `PPRBlastRadius` are not part of this model.
- RegexSamples.SamplesAreWords: the case-folding flag of a literal is not modelled.
- DebounceEngine.Engine.Tick: `EvaluateTrends` and the predictive layer around `ProjectSeries` are not part of this model, nor are finding identities and wall-clock stamps.
- ApprovalLoop.RunBatch: the calls of a batch run in parallel; the model runs them in order, so the order of effects within a batch is not captured.
- ApprovalLoop.DirectAnswer: the stripping of an investigation plan from the answer is left out, and tool output is shortened by an arbitrary function.
- ApprovalLoop.RunGraph: the specialists and the targeted reads are not modelled beyond their routes; that fanning out leaves findings is taken for granted.
- RateLimiter.Limiter.Allow: the linked list is a sequence of bucket objects; its node pointers are not modelled. The lock is: a call is one step.
- PublicGuard.Guard.AdmitOne: each release function is a ticket number, and its `sync.Once` the ticket being open.
- WindowPager.Window: a character stands for a byte, and limits and offset are not negative, as for all callers.
- ShellWords.Split: works on characters; invalid UTF-8 is not modelled. `splitPipes` is left out.
- Autonomy promotion, the offline weighting of evidence, counts of incidents, consolidation, preferences and retention would add only easy members.
- `NormalizeKRM`, `ClassifyOutput` and `PredicateHealthErrors` are independent of the results above.
- ApprovalLoop.RunsGiveWholeInputs: for step limits of three or more; below that no turn ever reaches the model, but one that was paused before would keep its pending call.
- AuditRuns.LostTailIsSeenForever: over appends, resumes and restarts whose anchor queries succeed, not over truncations, which take the next surviving row whatever its seq.
- ApprovalLoop.ResumedTurnRecords: for models that give no later call the id of the pending one; otherwise an equal id could pass for its answer.
- PatternFiring.MessageIsRightIff: for finite patterns with anchors at their ends or none; with anchors inside only `AllIllegalIsDead` and `FiringIsFitting` hold, one way.
- ApprovalLoop.Session.Turn: a method is one uninterrupted turn; `ApprovalOnce` says what two overlapping approvals do, and nothing more is proved of turns that overlap.
