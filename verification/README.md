# Verified model of model_forensics

This project models, in Dafny, the parts of `model_forensics` on which its preregistered results depend: choosing the
frozen sentence anchors, spending money under hard caps, keeping verdicts honest about missing data, surviving
crashes, and gating the quality of adjudicated outcomes. `dafny verify dfyconfig.toml` checks everything.

**Anchors.** Twenty-four sentences are chosen, four for each of six class and direction cells, all from different
traces, by a minimum-cost flow. `Network` holds the theory of flows over arcs, `ShortestPaths` and `BellmanFord` the
label-correcting search, `FlowGraph` and `MinimumCostFlow` the residual adjacency lists and the augmentation loop,
`SentinelLimit` why its bound on path costs is the least possible, and the `Anchor*` files the network that is built,
what its flows mean, and the selection. The result is lexicographically best: fewest pairs of anchors sharing a
stratum, then least total tie cost, over all eligible candidates and not only those kept by the reduction to one
sentence per cell and trace; no chosen candidate can be exchanged for an unchosen one of its cell and stratum, from an
unused trace, whose rank has a smaller number in its first twelve digits. `SentenceSpans` is the offset-preserving
scanner that produces the candidates, and `SentenceMeaning` says on the characters of the text where it cuts and what
it keeps.

**Money.** `Ledger` gives the five operations as functions of the stored entries, `CostLedgers` the object whose
methods are proved equal to them, `LedgerRuns` what holds over every sequence of operations, and `LedgerDecisions` the
three caps over every run and exactly when each operation is refused, in sums of entries. `GpuBudget` and
`GpuSettlement` add one-use GPU reservations, receipts and settlement, `GpuDecisions` what a grant and a receipt say;
`PaidPlan` and `PaidPlanRuns` the review of a plan and exactly when an accepted review is enough for it,
`PaidPlanReviews` what the review decides on the requested names and what any accepted payload guarantees.
`LedgerText` and `LedgerTextRoundTrip` are the strict text reader and its round trip, `LedgerTextLanguage` exactly
which texts it accepts and as what, and `LedgerDocuments` ties them to the entries of the spending operations.
Amounts are integer micro-dollars, so the code's one-millionth slack is one unit and its one-billionth slack is none;
hours, rates and margins are real.

The review is not enough on its own, in two ways. It tolerates a difference of one micro-dollar between committed and
incurred GPU cost, while a reservation refuses any open GPU estimate, even of amount zero
(`PaidPlanRuns.SpeckPassesReview`). And the margin of a reservation (`--safety-margin-fraction` of
`scripts/gpu_budget_reserve.py:39`) is chosen independently of the reviewed one (`--gpu-safety-margin-fraction` of
`scripts/freeze_paid_bundle.py:963` and `984`), so a wider one can refuse a planned phase with an empty ledger
(`PaidPlanRuns.WiderMarginRefused`). The exact condition for any margins is `PaidPlanRuns.AcceptedPlanDecided`: no
open GPU estimate at the review, and each phase in turn under the ceiling of its own margin. When no margin exceeds
the reviewed one, the second part always holds and the equivalence is `PaidPlanRuns.AcceptedPlanNeverRefused`. The
caps of review and reservations are one value, because a ledger whose hard stops differ from the caller's limits is
refused (`src/model_forensics/budget.py:319-322`).

**Missing data.** `MissingBounds` has the rate, difference and distance bounds over every fill and the guard;
`GuardedContrasts` and `PooledProcess` carry them from rollout rows to verdicts, whatever value the interval step
proposed. `RankAssociation` and `ExactPermutation` are the stratified tau-a and its exact permutation test.

**Phases.** `GenerationPhase` and `AdjudicationPhase` model the checkpoint directories as objects whose methods stop
after a given number of durable writes; `GenerationRuns` and `AdjudicationRuns` prove what any interrupted history
ends in. `GenerationAnswers` says which text each row carries and `GenerationLoads` which checkpoints are accepted;
`AdjudicationEntries` says what the six logs hold for each unit.

**Quality.** `Consensus` and `QualityGates` count agreements and gate rates per phase and per task and condition cell;
`ConsensusMeaning` and `QualityMeaning` state their counts, reasons and refusals on the fields of the rows.

The functions that the methods compute are defined once and then characterised without their own names: by the fields
of the records, by numbers of positions, by characters of a text, or by the answers of a backend or judge.

Hashes are parameters. Where a theorem needs that particular values do not collide it says so: ranks of different
candidates, plans of one directory, reservation ids of one plan. `Sums`, `Numbers` and `Options` are helpers.

## Model

| member | source | states |
|---|---|---|
| FlowGraphs.PairingKeptUnlessLoop | src/model_forensics/anchors.py:362-385 | adding an edge keeps every edge paired with its reverse exactly when the two ends differ; a loop would mis-pair |
| MinimumCostFlow.FlowGraph.AddFlowEdge | src/model_forensics/anchors.py:362-385 | appends the forward and the zero-capacity backward edge; for distinct ends the graph then stores one more arc carrying no flow |
| BellmanFord.RelaxNode | src/model_forensics/anchors.py:403-413 | relaxing one node's edge list changes distances, predecessors and the changed flag as the relaxation function says, and keeps the labels' invariant |
| BellmanFord.RelaxAll | src/model_forensics/anchors.py:402-413 | one round over all nodes equals the round function; an unchanged round leaves every distance settled |
| BellmanFord.Distances | src/model_forensics/anchors.py:396-415 | the rounds end with settled labels equal to running every round, whether or not the early break is taken |
| ShortestPaths.Relax | src/model_forensics/anchors.py:406-413 | one relaxation keeps every predecessor chain a tight, acyclic residual path, as long as no residual cycle is negative |
| ShortestPaths.LastRoundSettles | src/model_forensics/anchors.py:401-415 | labels that beat every residual walk of at most node_count - 1 steps cannot be relaxed any more |
| ShortestPaths.SettledAreShortest | src/model_forensics/anchors.py:401-415 | a settled distance is at most the cost of every residual walk from the source, and is the cost of one |
| ShortestPaths.ChainWalk | src/model_forensics/anchors.py:420-430 | the predecessor chain of a reached node is a residual walk from the source that costs no more than the label, so the walk back never meets a missing predecessor |
| ShortestPaths.ChainSimple | src/model_forensics/anchors.py:420-430 | a predecessor chain visits no node twice, so the walk back ends |
| ShortestPaths.RoundsStay | src/model_forensics/anchors.py:401-415 | rounds after the last change do nothing: breaking early gives the labels of all rounds |
| FlowGraphs.PushedRepresents | src/model_forensics/anchors.py:427-429 | moving one unit along an edge and its reverse is exactly one unit more or less on the stored arc |
| FlowGraphs.PushedNet | src/model_forensics/anchors.py:427-429 | moving a unit changes the net flow of the two ends by one and of no other node |
| FlowGraphs.RepricedNoLoss | src/model_forensics/anchors.py:395-431 | after an augmentation the capped distances still price every residual edge without loss, so no negative residual cycle appears |
| MinimumCostFlow.FlowGraph.MoveUnit | src/model_forensics/anchors.py:427-429 | one step of the walk back: the edge and its paired reverse change capacity by one, the stored flow by one unit |
| MinimumCostFlow.FlowGraph.Augment | src/model_forensics/anchors.py:420-430 | the whole walk from sink to source moves exactly one unit along the predecessor chain; the invalid-path error cannot occur |
| MinimumCostFlow.FlowGraph.SendOne | src/model_forensics/anchors.py:396-431 | one iteration sends one unit and keeps the flow cheapest, or reports that the sink is unreachable and the flow is largest |
| MinimumCostFlow.FlowGraph.MinimumCostFlow | src/model_forensics/anchors.py:388-433 | the returned count is the value added; the flow is cheapest among all flows of its value, and largest of all when it falls short; the adjacency lists are those of the solver function; with equal source and sink the count is the required one and no edge changes |
| SentinelLimit.DearLineUnused | src/model_forensics/anchors.py:393-418 | when n - 1 edges of cost c can cost 10^100 or more, the solver leaves a line of n nodes unused although it can carry a unit: the bound on path costs cannot be relaxed for any number of nodes from two on |
| Network.PricedOutIsCheapest | src/model_forensics/anchors.py:388-433 | a flow whose residual arcs all have non-negative reduced cost is no dearer than any flow of the same value |
| Network.SaturatedIsLargest | src/model_forensics/anchors.py:417-418 | a flow that saturates a cut around the unreached sink has the largest value of all flows |
| Anchors.TieCostMonotone | src/model_forensics/anchors.py:587 | a smaller outcome-blind rank never has a larger tie cost |
| Anchors.TieCostIs | src/model_forensics/anchors.py:587 | a tie cost is the number read off the first twelve of the rank's 64 hexadecimal digits |
| Anchors.RankIs | src/model_forensics/anchors.py:436-450 | a rank is the hash of the seed and of the candidate's fields without its outcome labels |
| Anchors.SharedPairsAre | src/model_forensics/anchors.py:566-582 | the shared pairs are the pairs of positions whose candidates agree in class, direction, first side and final flip |
| Anchors.AllocationIs | src/model_forensics/anchors.py:533-614 | an allocation takes eligible candidates, no trace twice, and exactly four for every cell |
| Anchors.BestUnexchangeable | src/model_forensics/anchors.py:587-614 | in a best allocation, exchanging a chosen candidate for an unchosen one of the same cell and stratum and of an unused trace never lowers the number of the first twelve digits |
| AnchorPools.InconsistentTrace | src/model_forensics/anchors.py:503-514 | a trace is reported exactly when two of its candidates disagree on direction or outcome strata |
| AnchorPools.ReduceByCellTrace | src/model_forensics/anchors.py:516-531 | keeps, for each cell and trace, the candidate of least rank, sentence index and start |
| AnchorReduction.ReductionLosesNothing | src/model_forensics/anchors.py:516-531 | for every allocation over all candidates there is one over the kept candidates that is lexicographically no worse |
| AnchorReduction.PooledIsAllocation | src/model_forensics/anchors.py:533-550 | an allocation over the reduced pools is an allocation over all candidates |
| AnchorReduction.SmallPoolMeansNone | src/model_forensics/anchors.py:540-544 | a cell with fewer than four traces leaves no allocation at all |
| AnchorReduction.FewTracesMeanNone | src/model_forensics/anchors.py:546-550 | fewer than 24 distinct traces leave no allocation at all |
| AnchorReduction.PoolsIgnoreSupplyOrder | src/model_forensics/anchors.py:533-546 | with distinct candidates and collision-free ranks the pools depend on which candidates there are, not on their order |
| AnchorBuild.BuildGraph | src/model_forensics/anchors.py:552-598 | the graph holds exactly the supply, marginal, choice and use links of the design, with their capacities and costs |
| AnchorFlows.CarriedFlow | src/model_forensics/anchors.py:568-598 | any allocation carries a flow within every capacity that is balanced at every cell, stratum and trace node |
| AnchorFlows.CarriedCost | src/model_forensics/anchors.py:566-598 | that flow costs the balance weight, 25 times 2^48, for every shared stratum pair plus the tie costs |
| AnchorFlows.ConvexMarginals | src/model_forensics/anchors.py:572-582 | marginal costs 0, 1, 2, 3 charge any choice of k of the four links at least k (k - 1) / 2 |
| AnchorDecision.FlowOfLinks | src/model_forensics/anchors.py:568-598 | a flow in the graph is exactly a link assignment within capacities and balanced at inner nodes, at the same cost and value |
| AnchorDecision.WeightedIsLexicographic | src/model_forensics/anchors.py:566-567 | 2^48 times 25 outweighs every sum of 24 tie costs, so the weighted order is the lexicographic one |
| AnchorDecision.CheapestSelectsBest | src/model_forensics/anchors.py:600-614 | the saturated candidate edges of a cheapest full flow are an allocation that is lexicographically no worse than any other |
| AnchorDecision.ShortfallMeansNone | src/model_forensics/anchors.py:600-604 | a largest flow below 24 means that no allocation of the pools exists |
| AnchorSelection.Extract | src/model_forensics/anchors.py:606-614 | the candidates read off are exactly those whose edge is saturated |
| AnchorSelection.AllocatedUnique | src/model_forensics/anchors.py:606-614 | the pools, the hash and the seed determine the allocation read off |
| AnchorSelection.Allocate | src/model_forensics/anchors.py:552-614 | builds, solves and reads off: none exactly when no pooled allocation exists, otherwise a best one, which admits no better exchange |
| FrozenAnchors.SelectFrom | src/model_forensics/anchors.py:516-625 | an allocation error is raised exactly when no four-per-cell, distinct-trace assignment exists; otherwise the result is a sorted allocation, lexicographically best over all eligible candidates, and no exchange for an unused trace of the same cell and stratum has a smaller first-12-digit number |
| FrozenAnchors.SelectFrozenAnchors | src/model_forensics/anchors.py:471-637 | every error case with its exact condition; a returned manifest passes validation, is an allocation in manifest order and is lexicographically best over all eligible candidates, and no exchange for an unused trace of the same cell and stratum has a smaller first-12-digit number |
| FrozenAnchors.FrozenIsValid | src/model_forensics/anchors.py:626-637 | freezing an allocation with its digest gives a manifest the validator accepts |
| FrozenAnchors.ManifestIgnoresSupplyOrder | src/model_forensics/anchors.py:503-637 | with collision-free ranks the manifest does not depend on the order of the candidates |
| AnchorManifests.ValidateManifest | src/model_forensics/anchors.py:640-686 | accepts exactly the manifests with the right design, 24 distinct traces, four per declared cell, genuine content ids and a genuine digest |
| AnchorManifests.DesignIff | src/model_forensics/anchors.py:453-468 | a design is three different named classes, two different named directions and four anchors to a cell |
| AnchorManifests.WellFormedIff | src/model_forensics/anchors.py:210-222 | a candidate record has its four names, and some source text has its sentence at its offsets |
| Ordering.SortedAscending | src/model_forensics/anchors.py:617-625 | sorting by a strict order that compares every two members gives an ascending rearrangement |
| Ordering.AscendingUnique | src/model_forensics/anchors.py:617-625 | two ascending rearrangements of the same members are equal |
| SentenceSpans.FindEnd | src/model_forensics/anchors.py:129-155 | the scan for one unit stops at the first line break, unprotected terminal run or end of text, as the scan function says |
| SentenceSpans.UnitsTile | src/model_forensics/anchors.py:107-177 | the scanned units are ordered and together cover every non-space character |
| SentenceSpans.UnitsDisjoint | src/model_forensics/anchors.py:107-177 | no two scanned units overlap, so each non-space character is in exactly one |
| SentenceMeaning.AbbreviationIs | src/model_forensics/anchors.py:98-104 | a period is protected exactly when the leftmost stretch of a letter and letters and periods that reaches it is a listed abbreviation or a single letter |
| SentenceMeaning.EndsSentenceIs | src/model_forensics/anchors.py:141-153 | a sentence ends at a terminal character that is no decimal point and no abbreviation, when the longest runs of terminal and then of closing characters are followed by space or nothing |
| SentenceMeaning.ScanIs | src/model_forensics/anchors.py:129-155 | the scan of a unit stops at the first line break or sentence end after its start, or at the end of the text, and says which |
| SentenceMeaning.EndIsUnique | src/model_forensics/anchors.py:129-155 | only one end and one reason fit that description |
| SentenceMeaning.UnitsDelimited | src/model_forensics/anchors.py:107-177 | every unit runs from its start to the last solid character before the end so described |
| SentenceMeaning.LetterRunsAre | src/model_forensics/anchors.py:53-54 | the counted tokens are the positions that start a run of at least two letters, their length the positions inside one |
| SentenceMeaning.HeadingIs | src/model_forensics/anchors.py:34-51 | a heading is one to six hash marks and then whitespace |
| SentenceMeaning.EligibleIs | src/model_forensics/anchors.py:39-54 | text is eligible when, stripped, it is no bare list marker and no heading, and without its decoration has two such runs with eight letters in all |
| SentenceSpans.Spans | src/model_forensics/anchors.py:107-177 | terminates for every text; the spans are the eligible units in order, consecutively indexed, slicing back exactly, without outer whitespace or inner line breaks; only ineligible units are dropped |
| Ledger.ComputeTotals | src/model_forensics/budget.py:386-393 | one pass gives the four category sums, with or without estimates |
| LedgerDecisions.CapsHold | src/model_forensics/budget.py:395-403 | over every run the GPU cost, the API cost and the sum of all four kinds stay under their three caps, estimates included |
| LedgerDecisions.EntriesStay | src/model_forensics/budget.py:405-668 | over every run no entry is lost, no kind or id changes, and only an estimate is replaced, by an incurred cost |
| LedgerDecisions.AppendDecided | src/model_forensics/budget.py:405-416 | a valid cost is stored exactly when none of the three sums would pass its cap, and refused for the budget otherwise |
| LedgerDecisions.ReserveDecided | src/model_forensics/budget.py:422-454 | the same for a new id; a known id answers a repetition and contradicts anything else |
| LedgerDecisions.ReserveOnceDecided | src/model_forensics/budget.py:560-631 | every refusal of a one-use reservation in order, and its entry, on the entries, caps and ceilings |
| LedgerDecisions.SettleDecided | src/model_forensics/budget.py:633-668 | every refusal of a settlement in order, and the one entry it replaces |
| LedgerDecisions.RequestedDecided | src/model_forensics/budget.py:470-484 | the requests of a batch are taken exactly when each can be reserved and those for one id agree |
| LedgerDecisions.BatchDecided | src/model_forensics/budget.py:486-549 | the missing requests of a batch are stored together exactly when the sums with them stay under the caps; otherwise nothing is, for the first reason that applies |
| CostLedgers.CostLedger.Append | src/model_forensics/budget.py:405-416 | appends one normalised entry when the committed totals stay under the caps, else changes nothing |
| CostLedgers.CostLedger.Reserve | src/model_forensics/budget.py:422-454 | idempotent reservation: a repeat with the same content or an already incurred entry of the kind changes nothing |
| CostLedgers.CostLedger.ReserveOnce | src/model_forensics/budget.py:560-631 | a one-use reservation under transaction ceilings, refused for a used id or an outstanding estimate of the kind |
| CostLedgers.CostLedger.SettleReservation | src/model_forensics/budget.py:633-668 | replaces an estimate by its incurred cost, idempotently |
| CostLedgers.CostLedger.CollectRequests | src/model_forensics/budget.py:470-484 | the requests of a batch without repetitions, or the first fault |
| CostLedgers.CostLedger.CollectAdditions | src/model_forensics/budget.py:517-538 | the requests the ledger lacks, or the first contradiction |
| CostLedgers.CostLedger.ReserveBatch | src/model_forensics/budget.py:456-558 | all missing items of a batch at once, after the existence checks and the caps, with the totals before and after and the created and covered ids |
| LedgerRuns.TotalUpdate | src/model_forensics/budget.py:386-393 | replacing one entry moves a total by the difference of the two shares |
| LedgerRuns.StepValid | src/model_forensics/budget.py:395-668 | every operation keeps caps, unique ids and well-formed entries, loses no entry and never touches an incurred one |
| LedgerRuns.RunSafe | src/model_forensics/budget.py:395-668 | the same over every sequence of operations |
| LedgerRuns.OneUseOnce | src/model_forensics/budget.py:601-602 | a granted one-use id is refused for the rest of every run |
| LedgerRuns.BatchAllOrNothing | src/model_forensics/budget.py:517-549 | an accepted batch leaves every requested id in the ledger and has added exactly the missing ones |
| LedgerRuns.CreatedOrCovered | src/model_forensics/budget.py:517-538 | an accepted batch reports every requested id once, in request order, as created when the ledger lacked it and as covered when it did not |
| LedgerRuns.SettleNeverOverCap | src/model_forensics/budget.py:633-668 | settling an outstanding estimate in kind at or below its amount always succeeds and raises no total |
| LedgerRuns.Perform | src/model_forensics/budget.py:281-668 | the object's methods take exactly the steps of the run theorems |
| LedgerText.DecodeQuoted | src/model_forensics/budget.py:60-73 | the quote-decoding loop equals the recursive reading of doubled quotes |
| LedgerText.DecodeScalar | src/model_forensics/budget.py:44-92 | accepts and decodes exactly the plain, single-quoted and JSON-quoted scalars the reader allows |
| LedgerText.ReadOneEntry | src/model_forensics/budget.py:137-168 | reads one entry in the fixed field order with its optional id |
| LedgerText.Load | src/model_forensics/budget.py:104-174 | the line-by-line reader equals the recursive reading of header, hard stops and entries; an amount that is not finite as a double is refused |
| LedgerTextRoundTrip.DoubledThenUnquoted | src/model_forensics/budget.py:57-73 | undoing the doubling of quotes returns the text (section 9.1.2 of YAML 1.1) |
| LedgerTextRoundTrip.EmittedIsRead | src/model_forensics/budget.py:44-92 | any printable text, quoted or permitted plain, is read back as itself |
| LedgerTextRoundTrip.EntriesAreRead | src/model_forensics/budget.py:133-168 | the printed lines of any number of entries are read back as those entries |
| LedgerTextRoundTrip.SplitJoined | src/model_forensics/budget.py:109 | splitting joined printable lines returns the lines |
| LedgerTextRoundTrip.RoundTrip | src/model_forensics/budget.py:104-187 | reading back a printed ledger returns the same document, for any number of entries and any permitted quoting |
| LedgerTextRoundTrip.PrintingIsInjective | src/model_forensics/budget.py:104-187 | two documents print the same exactly when they are the same |
| LedgerTextRoundTrip.MicroIsRead | src/model_forensics/budget.py:95-101 | six fixed decimals are read back exactly for every micro-dollar amount below the overflow of a double, and refused from there on |
| LedgerTextLanguage.NumberIff | src/model_forensics/budget.py:95-97 | a text is read as a number exactly when it is an optional minus sign, a whole part without leading zero, an optional point with digits and an optional exponent, and then as the value of that |
| LedgerTextLanguage.UnquotedIff | src/model_forensics/budget.py:57-73 | undoing the doubling of quotes succeeds exactly on doubled text |
| LedgerTextLanguage.ScalarIff | src/model_forensics/budget.py:44-92 | a scalar is read as a text exactly when it is that text quoted, a JSON string of it, or the text itself where none of the unsafe forms applies |
| LedgerTextLanguage.EntriesIff | src/model_forensics/budget.py:133-168 | lines are read as entries exactly when they are the entries' lines one after another, with nothing in between |
| LedgerTextLanguage.SplitIff | src/model_forensics/budget.py:109 | the lines are the only stretches without a break, each followed by one |
| LedgerTextLanguage.LoadedIff | src/model_forensics/budget.py:104-174 | the reader accepts exactly the texts of these forms, each as the one document it writes |
| LedgerDocuments.LedgerRoundTrip | src/model_forensics/budget.py:95-187 | every micro-dollar ledger whose amounts do not overflow, printed with six decimals, is read back as itself |
| LedgerDocuments.TextDeterminesLedger | src/model_forensics/budget.py:95-187 | two such ledgers print the same exactly when they have the same caps and the same entries in the same order |
| GpuBudget.ApprovedMaximumCovers | src/model_forensics/gpu_budget.py:56-83 | the approved maximum is positive and covers the quoted cost by less than one micro-dollar |
| GpuBudget.ReserveGpuPhaseBudget | src/model_forensics/gpu_budget.py:493-601 | the ledger and the receipt after a reservation, or the ledger unchanged and the error; the no-runtime error cannot occur |
| GpuBudget.GrantFacts | src/model_forensics/gpu_budget.py:540-601 | a grant adds one estimate, with no other GPU estimate open, under the safety ceiling and the total cap |
| GpuBudget.GrantSpend | src/model_forensics/gpu_budget.py:572-577 | every receipt has zero prior reserved GPU cost and its safe spend is the phase maximum |
| GpuBudget.IssuedReceiptsConsistent | src/model_forensics/gpu_budget.py:204-301 | every issued receipt passes the receipt checks |
| GpuBudget.RunningIsSafe | src/model_forensics/gpu_budget.py:572-601 | prior commitment plus the live rate times any time up to the safe runtime stays under the safety ceiling and the total cap |
| GpuBudget.ConsistentReceiptIsSafe | src/model_forensics/gpu_budget.py:204-301 | the same for any receipt that passes the checks, up to the checks' own slack |
| GpuBudget.QuotedRuntimeIsWhole | src/model_forensics/gpu_budget.py:56-83 | with the quote's own rate and rounded-up maximum the safe runtime is the approved runtime |
| GpuBudget.GrantedIff | src/model_forensics/gpu_budget.py:493-569 | a phase is granted exactly when the request is valid, its id unused, no GPU estimate open, and both ceilings leave room |
| GpuBudget.SessionUsedOnce | src/model_forensics/gpu_budget.py:503-508 | a granted phase and session pair is refused for the rest of every run |
| GpuDecisions.GrantDecided | src/model_forensics/gpu_budget.py:493-569 | each refusal and the grant on the request's own fields and the ledger's sums: identifiers, signs, the ceiling under the margin, the id, open estimates and the total cap |
| GpuDecisions.ReceiptSays | src/model_forensics/gpu_budget.py:552-601 | what every field of a granted receipt and its ledger entry holds |
| GpuDecisions.LongestRuntime | src/model_forensics/gpu_budget.py:577-578 | the safe runtime is the longest within the approved hours whose cost at the live rate is at most the reserved maximum |
| GpuDecisions.ReceiptIdentity | src/model_forensics/gpu_budget.py:204-245 | an accepted receipt has a valid phase, a digest, its own reservation id and no field of the wrong sign |
| GpuDecisions.ReceiptAccounts | src/model_forensics/gpu_budget.py:246-301 | its accounts fit together to within the checks' slack |
| GpuDecisions.ReceiptDetermined | src/model_forensics/gpu_budget.py:204-301 | no derived field can be altered past the slack: accepted receipts of the same terms agree |
| GpuSettlement.MatchingIsTheEntry | src/model_forensics/gpu_budget.py:381-389 | an id matches its one ledger entry or nothing |
| GpuSettlement.ValidateLedgerEntry | src/model_forensics/gpu_budget.py:368-408 | the checks of a receipt against the ledger, in order |
| GpuSettlement.SettleGpuPhaseBudget | src/model_forensics/gpu_budget.py:411-428 | settles through the checks and returns the incurred totals of the new entries, or leaves the ledger unchanged with the error |
| GpuSettlement.GrantReserved | src/model_forensics/gpu_budget.py:368-408 | a granted reservation stays in the ledger over every run, unchanged while it is open |
| GpuSettlement.BackedIff | src/model_forensics/gpu_budget.py:391-407 | the ledger backs an open receipt exactly while the GPU total is unmoved, a settled one only for readers and its own description |
| GpuDecisions.BackingDecided | src/model_forensics/gpu_budget.py:368-408 | any receipt is accepted against any ledger exactly when the caps are its own and one entry backs it, open if it must still be open |
| GpuSettlement.SettlementAccepted | src/model_forensics/gpu_budget.py:411-428 | settling an open reservation at or below its maximum is accepted and frees the difference |
| GpuSettlement.SettlementIdempotent | src/model_forensics/gpu_budget.py:411-428 | after any later run the same amount changes nothing and another amount is refused |
| PaidPlan.CanonicalScope | src/model_forensics/approval.py:87-102 | the canonical scope keeps the fixed order and names exactly the requested phases |
| PaidPlan.SameScope | src/model_forensics/approval.py:87-102 | two acceptable lists have one scope exactly when they request the same phases |
| PaidPlan.CanonicalFixed | src/model_forensics/approval.py:699-705 | a canonical scope is its own canonical form |
| PaidPlan.CumulativeIff | src/model_forensics/approval.py:660-778 | the payload validators hold exactly when the plan fits and outstanding GPU estimates come to at most one micro-dollar |
| PaidPlan.ReviewAcceptedIff | scripts/freeze_paid_bundle.py:568-693 | a review is accepted exactly when the plan fits the safety ceiling and the total cap to the micro-dollar, with at most one micro-dollar of outstanding GPU estimates |
| PaidPlanReviews.ReviewDecided | scripts/freeze_paid_bundle.py:568-693 | the same on the requested names, the quoted hours and the ledger: scope, open estimates, and the rounded-up cost of the named GPU phases under both caps |
| PaidPlanReviews.ReviewRefused | scripts/freeze_paid_bundle.py:568-640 | what refuses a review first: the margin, then the scope, then the open estimates |
| PaidPlanReviews.PayloadSafe | src/model_forensics/approval.py:640-778 | whoever wrote it, an accepted review payload plans no more than the caps allow, up to the slack of its checks |
| PaidPlanReviews.PayloadDetermined | src/model_forensics/approval.py:718-778 | its stated sums follow from plan, caps, margin and ledger, up to that slack |
| PaidPlanRuns.BystanderRun | src/model_forensics/budget.py:395-668 | a run of API operations moves only API entries and takes none of the plan's ids |
| PaidPlanRuns.PhaseDecided | src/model_forensics/gpu_budget.py:540-569 | after any API work a planned phase is granted exactly when it finds room under the ceiling of its own margin |
| PaidPlanRuns.PhaseSettled | src/model_forensics/gpu_budget.py:411-428 | its settlement is accepted after any API work beside it, and leaves no GPU estimate open |
| PaidPlanRuns.AcceptedPlanDecided | scripts/freeze_paid_bundle.py:589-693 | after an accepted review any choice of its phases, in any order, each at a margin of its own and with any API work in between, is granted and settled throughout exactly when it is empty, or no GPU estimate is open at the review and each phase in turn finds room under the ceiling of its margin; the GPU total grows by what was settled |
| PaidPlanRuns.AcceptedPlanNeverRefused | scripts/freeze_paid_bundle.py:589-693 | when no phase asks for a wider margin than the review, an accepted plan is carried out throughout exactly when it is empty or no GPU estimate is open at the review, and the GPU total stays under the reviewed ceiling |
| PaidPlanRuns.WiderMarginRefused | scripts/gpu_budget_reserve.py:39-116 | an accepted plan with an empty ledger is refused when its one phase is reserved at a margin of 0.24 instead of the reviewed 0.1, and granted at 0.1 |
| PaidPlanRuns.SpeckPassesReview | scripts/freeze_paid_bundle.py:631-634 | a GPU estimate of zero or one micro-dollar passes the review, yet no planned phase can then be reserved |
| MissingBounds.RateBoundExact | src/model_forensics/analysis.py:660-676 | every fill's rate lies in the bound and both ends are rates of fills |
| MissingBounds.DifferenceExact | src/model_forensics/analysis.py:679-680 | the same for differences of two rates |
| MissingBounds.AbsoluteDifferenceExact | src/model_forensics/analysis.py:683-694 | absolute differences lie in their bound; the upper end is reached, the lower whenever it is positive |
| MissingBounds.PointStateExact | src/model_forensics/analysis.py:758-784 | for a margin of at least zero the state is decided exactly when every point of the interval gives the same answer |
| MissingBounds.GuardExact | src/model_forensics/analysis.py:787-843 | a verdict survives exactly when it was proposed, the gate passed and every point of the bound gives it |
| MissingBounds.DistanceChangeExact | src/model_forensics/analysis.py:1535-1549 | the bound is the minimum and maximum of the distance change over all neutral rates in the interval |
| GuardedContrasts.PassingCellHasRows | src/model_forensics/analysis.py:697-755 | a passing cell has rows, so its rates are those of genuine fills |
| GuardedContrasts.CellPassesIff | src/model_forensics/analysis.py:697-755 | a cell passes exactly when it has rows and 95 in 100 of them have every required measurement |
| GuardedContrasts.StageBoundIs | src/model_forensics/analysis.py:660-676 | the bound of a rate counts every unknown row of the cell as a failure at its lower end and as a success at its upper end |
| GuardedContrasts.GrowthVerdictRobust | src/model_forensics/analysis.py:2069-2196 | a growth verdict holds under every fill of every missing outcome; the bounds are never out of order |
| GuardedContrasts.GrowthDecided | src/model_forensics/analysis.py:2069-2196 | a growth verdict survives exactly when it was proposed, both cells are complete, each direction has two pairs and every point of the bound gives it |
| GuardedContrasts.GrowthRange | src/model_forensics/analysis.py:2069-2196 | the bound holds the growth of all rates within the four stage bounds and is reached at both ends |
| GuardedContrasts.AnchoringVerdictRobust | src/model_forensics/analysis.py:1722-1777 | each anchoring verdict holds under every fill |
| GuardedContrasts.AnchoringDecided | src/model_forensics/analysis.py:1577-1777 | an anchoring verdict survives exactly when it was proposed, all four cells are complete and every point of the contrast's bound gives it |
| GuardedContrasts.MagnitudeRange | src/model_forensics/analysis.py:1577-1777 | the magnitude bound holds every magnitude match and combines ends that are reached |
| GuardedContrasts.ChangeSumInBound | src/model_forensics/analysis.py:1521-1560 | the summed cluster bounds contain the summed changes for every control rate, with the mirrored interval for the opposite direction |
| GuardedContrasts.NeutralVerdictRobust | src/model_forensics/analysis.py:1402-1578 | the movement verdict holds for every fill of the control outcomes |
| GuardedContrasts.NeutralDecided | src/model_forensics/analysis.py:1402-1578 | a movement verdict survives exactly when it was proposed, the control cell is complete, there are two known finals and two clusters, and every point of the averaged bound gives it |
| GuardedContrasts.BoundSumAttained | src/model_forensics/analysis.py:1521-1560 | both ends of the summed bound are sums of changes, each cluster at a control rate within the interval |
| PooledProcess.CollectTransitions | src/model_forensics/analysis.py:1932-1937 | the pair-complete transitions in record order |
| PooledProcess.RevisionVerdictRobust | src/model_forensics/analysis.py:1932-1992 | a revision verdict holds under every completion of the missing first and final sides |
| PooledProcess.RevisionDecided | src/model_forensics/analysis.py:1932-1992 | a revision verdict survives exactly when it was proposed, both cells are complete, two records have both sides, and it holds with every other record moving up and with every one moving down |
| PooledProcess.ScanStops | src/model_forensics/analysis.py:1994-2006 | the observed stops and the number of unknown processes |
| PooledProcess.StoppingExact | src/model_forensics/analysis.py:2052-2056 | a row is settled by its known crossing and stop, or by a valid trajectory without a crossing; every way to resolve the other rows gives a rate in the bound, and both ends occur |
| PooledProcess.StoppingVerdictRobust | src/model_forensics/analysis.py:1994-2066 | a stopping verdict holds whichever unknown trajectories enter the risk set and however they end |
| PooledProcess.StoppingDecided | src/model_forensics/analysis.py:1994-2066 | it survives exactly when it was proposed, both cells are complete, two stops are known and every resolution of the unknown processes gives it |
| RankAssociation.StratifiedTauA | src/model_forensics/analysis.py:860-884 | the nested pair loops give the signed pair score over the pair count, or nothing without pairs |
| RankAssociation.TauIsConcordance | src/model_forensics/analysis.py:860-884 | tau-a is the number of pairs ordered alike less the number ordered oppositely, both counted with the strict order on lens and effects, over the number of all pairs |
| RankAssociation.OpposedTau | src/model_forensics/analysis.py:860-884 | strictly opposite orders give exactly -1 |
| RankAssociation.AlikeTau | src/model_forensics/analysis.py:860-884 | strictly equal orders give exactly 1 |
| RankAssociation.TauInUnit | src/model_forensics/analysis.py:860-884 | tau-a exists exactly when a stratum has two traces and lies between -1 and 1 |
| RankAssociation.TauFlipped | src/model_forensics/analysis.py:860-884 | only the order of the lens values matters; reversing it changes only the sign |
| ExactPermutation.VisitedOften | src/model_forensics/analysis.py:1127-1130 | each rearrangement is visited as often as equal values can change places, and nothing else is visited |
| ExactPermutation.DistinctOnce | src/model_forensics/analysis.py:1127-1130 | with no equal values every rearrangement is visited exactly once |
| ExactPermutation.LoopVisits | src/model_forensics/analysis.py:1110-1136 | the loop visits n_above! n_below! labellings, the observed one first, and exactly the within-direction rearrangements |
| ExactPermutation.ExactTest | src/model_forensics/analysis.py:1110-1143 | the loop's three counters are the number of labellings and of extreme labellings for each lens |
| ExactPermutation.PValueIs | src/model_forensics/analysis.py:1110-1162 | the p-value is the number of visited labellings whose concordance lies at least as far from zero as the observed one, over n_above! n_below! |
| ExactPermutation.PValueRange | src/model_forensics/analysis.py:1162 | the p-value lies between one over the number of labellings and one |
| ExactPermutation.IncreasingInvariant | src/model_forensics/analysis.py:1098-1162 | tau-a and the p-value are unchanged by any strictly increasing change of the lens values |
| ExactPermutation.OrderInvariant | src/model_forensics/analysis.py:1098-1162 | only the order of the lens values within each direction matters, and reversing it changes nothing |
| ExactPermutation.TestIsValid | src/model_forensics/analysis.py:1110-1162 | at most k of the labellings would be given a p-value of k out of their number or less |
| GenerationPhase.Checkpoint.LoadExisting | src/model_forensics/behavioral_phases.py:324-358 | the loading loop equals the recursive scan: rows and first missing index, or a refusal |
| GenerationPhase.Checkpoint.Finalize | src/model_forensics/behavioral_phases.py:361-436 | merged rows, then manifest, each written once and otherwise compared |
| GenerationPhase.Checkpoint.Run | src/model_forensics/behavioral_phases.py:439-554 | one run cut after any number of durable writes leaves the files and the outcome of the run function |
| GenerationAnswers.ProducedIff | src/model_forensics/sampling.py:173-180 | a batch is refused exactly when the backend fails or the ids of its answer are not those of the requests |
| GenerationAnswers.ProducedAnswers | src/model_forensics/sampling.py:173-197 | every produced row carries its own request's id and the text of the last generation with that id in the backend's answer to the batch |
| GenerationAnswers.RunAnswers | src/model_forensics/behavioral_phases.py:502-543 | every batch a run adds holds its backend's answers in that sense |
| GenerationAnswers.CompletedAnswers | src/model_forensics/behavioral_phases.py:439-554 | so does every row of a completed phase, whatever interruptions came before |
| GenerationLoads.LoadDecided | src/model_forensics/behavioral_phases.py:285-358 | a checkpoint is accepted exactly when its batches are genuine row by row and have no gap; loading returns them in order and their number |
| GenerationLoads.RunDecided | src/model_forensics/behavioral_phases.py:439-500 | what a run does before it generates: each refusal in order, on the fields of the plan, the requests and the stored rows |
| GenerationLoads.FinalDecided | src/model_forensics/behavioral_phases.py:361-436 | finalising refuses incomplete rows, foreign merged rows and a foreign manifest; when it completes both files are those of the rows |
| GenerationLoads.ManifestSays | src/model_forensics/behavioral_phases.py:361-436 | what every field of the manifest holds of the plan, the rows and the batch files |
| GenerationLoads.PhaseLoadedIff | src/model_forensics/behavioral_phases.py:557-655 | a completed phase is accepted exactly when plan, manifest, merged rows and batch files authenticate each other |
| GenerationRuns.StoredRows | src/model_forensics/behavioral_phases.py:285-321 | stored batches hold the frozen requests' rows in request order, numbered from zero, from one backend |
| GenerationRuns.LoadsPrefix | src/model_forensics/behavioral_phases.py:324-358 | a sound checkpoint is never refused; loading returns exactly the committed prefix |
| GenerationRuns.CommitKeeps | src/model_forensics/behavioral_phases.py:502-543 | a produced batch passes its validation and extends the committed prefix |
| GenerationRuns.FinalizedKeeps | src/model_forensics/behavioral_phases.py:361-436 | finalising a complete checkpoint writes or repairs both files, crash or not |
| GenerationRuns.RunningKeeps | src/model_forensics/behavioral_phases.py:439-554 | every run keeps the checkpoint sound and loses nothing; it never looks non-contiguous or corrupt |
| GenerationRuns.HistorySound | src/model_forensics/behavioral_phases.py:439-554 | the same over any sequence of runs with any plans, backends, limits and crash points |
| GenerationRuns.CompletionIsWhole | src/model_forensics/behavioral_phases.py:557-655 | a completed run has every request's row once, in frozen order, numbered from zero, and the loader accepts it |
| GenerationRuns.FinalisingNeedsNoBackend | src/model_forensics/behavioral_phases.py:473-485 | a crash while finalising is repaired by a run with no backend |
| GenerationRuns.UnhinderedCompletes | src/model_forensics/behavioral_phases.py:439-554 | from any sound checkpoint a fitting backend without limit or crash completes |
| GenerationRuns.InterruptionsInvisible | src/model_forensics/behavioral_phases.py:439-554 | whatever interruptions came before, a completed phase's files are those of one uninterrupted run |
| AdjudicationPhase.IsolatingCaller.Complete | src/model_forensics/behavioral_adjudication_phase.py:87-102 | every raw response is remembered, a malformed one is flagged and replaced by an explicit unknown |
| AdjudicationPhase.MeasureUnit | src/model_forensics/behavioral_adjudication_phase.py:388-426 | one unit's six entries and its record, as functions of the judges' answers |
| AdjudicationEntries.PrimaryAre | src/model_forensics/behavioral_adjudication_phase.py:388-426 | the row, manifest and raw entry of a unit: which response went where, the isolated failures and the hashes |
| AdjudicationEntries.IndependentAre | src/model_forensics/behavioral_adjudication_phase.py:521-584 | the judgment, response and usage entry: the reading with its public parts, or the malformed disposition |
| AdjudicationEntries.MeasureIff | src/model_forensics/behavioral_adjudication_phase.py:388-426 | a unit fails exactly when its row has no id or a readable response comes from an unnamed model |
| AdjudicationPhase.Checkpoint.LoadState | src/model_forensics/behavioral_adjudication_phase.py:260-368 | the loading loop equals the recursive rebuilding of the records, with each refusal |
| AdjudicationPhase.Checkpoint.WriteAll | src/model_forensics/behavioral_adjudication_phase.py:480-504 | the six writes in order, cut after any number of them |
| AdjudicationPhase.Checkpoint.Adjudicate | src/model_forensics/behavioral_adjudication_phase.py:371-453 | the loop over the remaining rows leaves the files and outcome of the continuing function |
| AdjudicationRuns.JudgmentRebuilt | src/model_forensics/calibration.py:405-423 | rebuilding a stored record from its public parts returns the record |
| AdjudicationRuns.PrefixLoads | src/model_forensics/behavioral_adjudication_phase.py:260-368 | every committed prefix loads with exactly the records held when it was written |
| AdjudicationEntries.PrefixEntries | src/model_forensics/behavioral_adjudication_phase.py:371-453 | the six entries of every committed unit are those of its own row and of the judges' answers to its own case |
| AdjudicationEntries.RecordsGrow | src/model_forensics/behavioral_adjudication_phase.py:371-453 | a unit adds a record exactly when the independent response was readable, and passes it to the consensus exactly when the primary final was readable too |
| AdjudicationEntries.StoredIff | src/model_forensics/behavioral_adjudication_phase.py:290-365 | a stored unit is accepted exactly when its hashes and ids fit and it is marked as malformed or consistent |
| AdjudicationEntries.LoadedIff | src/model_forensics/behavioral_adjudication_phase.py:260-368 | a checkpoint is loaded exactly when it is empty, or has all six logs, equally long and no longer than the source, with every unit accepted |
| AdjudicationRuns.TornRefused | src/model_forensics/behavioral_adjudication_phase.py:275-287 | any crash strictly between the six writes is refused, as incomplete on the first unit and by lengths later |
| AdjudicationRuns.ResumeEqualsUninterrupted | src/model_forensics/behavioral_adjudication_phase.py:371-453 | resuming any committed prefix gives the same six logs and record lists as a run that never stopped |
| AdjudicationRuns.CutDecides | src/model_forensics/behavioral_adjudication_phase.py:260-504 | a run cut after w writes resumes to the uninterrupted result exactly when w falls on a unit boundary or past the end, and is refused otherwise |
| AdjudicationRuns.HistoryDecided | src/model_forensics/behavioral_adjudication_phase.py:260-504 | over any history the files are a committed prefix or torn in one unit; the former finishes identically, the latter is refused for good |
| Consensus.ApplyAllFinalConsensus | src/model_forensics/calibration.py:638-787 | the loop's outcomes, counters and gate, with every refusal, the enforced gate included |
| Consensus.UsableIff | src/model_forensics/calibration.py:612-628 | an outcome is usable exactly when both routes know it and agree, and then has that value; otherwise a reason |
| ConsensusMeaning.ReasonIs | src/model_forensics/calibration.py:612-628 | each reason holds exactly when the row has no record, an unknown one, an unknown estimate, or a known one that differs |
| Consensus.CountsPartition | src/model_forensics/calibration.py:679-764 | exact agreements, disagreements and missing records partition the rows; the records number the rows not missing; known consensus never exceeds agreement |
| ConsensusMeaning.CountsAre | src/model_forensics/calibration.py:679-764 | each counter is the number of rows it names; the gate passes exactly when there is a row and the agreeing rows, known or not, reach the minimum share of all rows |
| ConsensusMeaning.RefusedIff | src/model_forensics/calibration.py:638-787 | each refusal of a batch, in order: the minimum, repeated rows or records, a stray record, the first contradictory or foreign row, the enforced gate |
| Consensus.PooledGate | src/model_forensics/behavioral_adjudication_phase.py:918-958 | the pooled gate follows from both phases' gates and cannot pass when both fail |
| QualityGates.MeasurementReport | src/model_forensics/calibration.py:846-898 | the counting loop of one report |
| QualityGates.GroupCells | src/model_forensics/calibration.py:904-912 | groups the rows of required phases by task and condition, or refuses a row that names no cell |
| QualityGates.EvaluateQuality | src/model_forensics/calibration.py:806-953 | one report for each required phase and for each cell with rows; the verdict is all phases, some cell and all cells passing; every refusal, the enforced gate included, has its condition |
| QualityMeaning.PhaseReportsAre | src/model_forensics/calibration.py:846-903 | a phase's report counts its rows with each measurement, on their fields, and passes when all are marked and each other count reaches its share |
| QualityMeaning.CellReportsAre | src/model_forensics/calibration.py:904-928 | a cell has a report exactly when a row of a required phase names it, and it counts the rows that do |
| QualityMeaning.UnnamedIs | src/model_forensics/calibration.py:904-912 | the evaluation refuses exactly a row of a required phase without a task or a condition |
| QualityMeaning.VerdictIs | src/model_forensics/calibration.py:929-953 | the verdict is that every phase report and every cell report passes |
| QualityGates.CellsMakePhase | src/model_forensics/calibration.py:840-928 | when every cell passes, a required phase passes as soon as it has a row |
| QualityGates.OverallIff | src/model_forensics/calibration.py:840-928 | the overall gate is equivalent to every cell passing with no required phase empty |

## Left out

- Edges are values in the graph's adjacency field, not aliased objects; each assignment replaces the list entry it stands for.
- MinimumCostFlow.FlowGraph.MinimumCostFlow: asks for starting prices at which no residual edge loses money (zero prices will do for non-negative costs) and for simple path costs below the sentinel 10^100; the selection meets both for every candidate list shorter than 2^63, and `SentinelLimit.DearLineUnused` shows that the solver fails beyond the sentinel.
- FrozenAnchors.SelectFrozenAnchors: takes well-formed candidate records (the checks of the record type itself are a requirement on the caller), and the eligibility flag as given.
- Sorting is insertion sort; only the sorted result is modelled, and strings compare by character code.
- Character classes (space, digit) of the sentence scanner are tables with the properties the scanner relies on.
- Floating-point rounding: money is integer micro-dollars, rates and hours are exact real numbers. The ledger reader returns the exact number a text stands for, and refuses it where its double would be infinite.
- LedgerTextRoundTrip.RoundTrip: the printer is a specification of the subset (fixed field order, single quotes or permitted plain text, printable ASCII); PyYAML, JSON strings and str.casefold are not part of this model.
- The ledger file, its lock, its validation on loading and the content hash of its document; one method call is one transaction.
- Timestamps are carried as text and never compared.
- The review's source-commit checks, content hashes and quote ages; only its arithmetic, phase scope and validators are modelled.
- PaidPlanRuns.AcceptedPlanDecided: assumes that the plan's reservation ids do not collide and are unused, that GPU, storage and other costs come from the plan alone, that each phase reserves at most its reviewed maximum, as the reservation script does by computing it from the same quote, and that it is settled at or below what it reserved.
- PaidPlanRuns.AcceptedPlanNeverRefused: the same assumptions, with no margin above the reviewed one; without that `PaidPlanRuns.WiderMarginRefused` shows it false.
- Bootstrap intervals and what they propose: any proposed value is allowed.
- PooledProcess.RevisionVerdictRobust: the revision bound is sound for every completion but not claimed to be reached, since a record with one known side cannot move by one in both directions.
- The eligibility statuses before the association test; its strata are given as values in trace order per direction.
- Leave-one-out values, reasons and report details of the analyses.
- The generation environment's normalisation and identity, and the completion-section parser; the identity is a function that may refuse.
- GenerationPhase.Checkpoint.Run: the hooks before_backend and on_batch_committed are not called; one that raises acts as a backend that is missing, or as a crash right after that batch's write.
- AdjudicationPhase.Checkpoint.Adjudicate: the hook on_rollout_committed is not called; one that raises acts as a crash right after that unit's writes.
- AdjudicationPhase.MeasureUnit: the measurement made from the primary responses and the response parsers are functions; a judge that fails to answer is a crash at that unit's start.
- Judges that answer the same request differently on a second call.
- CostLedgers.CostLedger.ReserveBatch: the two document hashes of the returned snapshot are left out.
- The adjudication plan file, thresholds, enrichment and final artifacts written after the last unit.
- Consensus.ApplyAllFinalConsensus: of each rewritten row only the outcome, its validity and its reason are kept, and of the report its counters and gate, not the audit hashes; estimates are already exact integers.
- The dual-route caller used for resampled finals and the compact final-only checkpoint of calibration.py, which repeat the same consensus rule one request at a time.
- QualityGates.EvaluateQuality: the row hash and the other manifest fields of the report are left out, and its cell reports are a map, without an order.
- Remote hosts, watchdogs, synchronisation, prompts, classifiers, figures and release checks, which call providers or would add only easy members.
