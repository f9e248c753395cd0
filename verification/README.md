# Stockmesh: proofs about the settlement engine

A Dafny model of the integer engine under `engine/stockmesh` and of the durable
submission log in `engine/stockmesh/host/src`, with proofs of what the code relies on.
`dafny verify dfyconfig.toml` checks everything.

The parts, each a chain of modules from the data to its main theorems:

* **Flow folding** (`ResidualGraph`, `Circulation`, `Pivots`, `Multiples`, `Lots`, `Fold`,
  `FoldLots`, `Clearing`, `Settlement`, `SettlementTheorems`). Orders are arcs between assets; cycles of
  positive cost in the residual graph are cancelled until Bellman-Ford labels certify a
  maximum. The label argument and the conservation argument hold for any number of assets
  and orders. Fills, residual groups, distributions and the final check compose.
* **Marginal curves** (`Curves`, `Venues`, `ChordMath`, `Chords`, `AdaptiveChords`,
  `Compiler`). A constant-product pool becomes at most sixteen chords; the error band is
  proved in integers by cross-multiplication, for every boundary list and every input.
* **Search** (`Greedy`, `Allocations`, `Waterfill`, `GreedyOptimality`, `Tape`, `TapeBuild`,
  `TapeQuery`, `SearchSpec`, `SearchTheorems`, `Search`, `Plans`). The greedy split is optimal; the
  residual tape answers every subset and amount like the greedy; the subset search reports
  a plan with a sound optimality gap.
* **Reflow** (`Relaxation`, `ReflowSurvey`, `ReflowSolve`, `ReflowRound`, `Reflow`, `ReflowLegs`). The host is any
  function from the invocations made so far to what can be read, so safety holds against
  every host, and progress against every host that fills its requests.
* **Journal, investment plans, sender** (`Entries`, `Investment`, `Log`, `Replays`, `Coherence`,
  `Indexes`, `Journals`, `Tables`, `Senders`, `SenderRows`). The disk is a byte sequence, a crash keeps any byte
  prefix of an append, the network gives any answers.
* **Kernels** (`Fair`, `Lanes`, `LaneRuns`, `OneBook`, `VirtualBook`). Interval consensus and crossing,
  the resource-locking admission lane, continuous matching and the virtual ask book.

Shared helpers are in `Base`, `Products`, `Sums` and `Permutations`.

Code that changes arrays or fields in place is modelled by methods over arrays and by
classes, each proved against a specification function or predicate; the theorems are
about those. Fixed-width arithmetic is explicit: where the source checks a 64- or 128-bit
bound the model checks it too, and the contracts say which of these checks can fire.

Three places where the exact behaviour deserves a word:

* Interval consensus calls a region split when two neighbouring endpoints are both
  supported but no quorum of intervals contains the whole stretch between them, even if
  the two prices are adjacent integers. `Fair.IsRegion` therefore asks neighbouring prices
  to be *joined* by a quorum; that is the exact condition under which a band is returned, and `Fair.AdjacentButSplit`
  gives sources where it matters.
* The relaxed optimum plus the error bounds of all eligible venues is added in 64 bits.
  `SearchTheorems.SearchOutcome` shows that an overflow of this sum is the only way a
  search over sound curves can fail apart from infeasibility. `Relaxation.BoundShrinks`
  shows that a bound that fits keeps fitting as the amount and the venues shrink, so only
  the first solve of a reflow can meet it.
* An improving-cycle search over zero assets ends in an arithmetic error; both folds
  require at least two.

## Model

| member | source | states |
|---|---|---|
| Base.WorkMeter.Charge | engine/stockmesh/lib.rs:70-78 | charging fails, and changes nothing, exactly when the limit would be passed |
| Base.CheckedCeilDiv | engine/stockmesh/lib.rs:81-86 | Arithmetic exactly for a zero divisor, otherwise the least quotient whose product with the divisor covers the dividend |
| ResidualGraph.Relax | engine/stockmesh/clearing/mod.rs:125-130 | one relaxation raises a label exactly when a residual arc offers more, and keeps labels below their predecessors' offers and every cycle of predecessors strictly positive |
| ResidualGraph.RelaxKeepsCyclesPositive | engine/stockmesh/clearing/mod.rs:126-130 | closing a cycle of predecessor arcs by a strict improvement makes its cost strictly positive, so positivity of all cycles survives every relaxation |
| ResidualGraph.RelaxAll | engine/stockmesh/clearing/mod.rs:121-134 | a pass keeps the labelling sound and offers every residual arc; labels grow by at most one per arc, so 64 bits are ample |
| ResidualGraph.PassExtendsDomination | engine/stockmesh/clearing/mod.rs:121-131 | after a further pass the labels bound all residual walks that are one arc longer |
| ResidualGraph.NeverRunsOut | engine/stockmesh/clearing/mod.rs:136-143 | after as many raising passes as assets, following predecessors that many steps never meets a missing one: the first Arithmetic exits are unreachable |
| ResidualGraph.EndsOnCycle | engine/stockmesh/clearing/mod.rs:136-144 | walking back as many steps as there are assets ends on a cycle of predecessors no longer than that |
| ResidualGraph.WalkBack | engine/stockmesh/clearing/mod.rs:137-143 | the walk back never fails and ends where the predecessor map leads |
| ResidualGraph.CollectCycle | engine/stockmesh/clearing/mod.rs:144-162 | collecting from a vertex on a predecessor cycle never overruns the asset bound and yields a simple residual cycle of positive capacities and strictly positive cost |
| ResidualGraph.FixpointIsPotential | engine/stockmesh/clearing/mod.rs:132-134 | a pass that raises nothing leaves labels that no residual arc can raise |
| ResidualGraph.ImprovingCycle | engine/stockmesh/clearing/mod.rs:111-163 | any Some result is a simple directed residual cycle, all capacities positive, total cost strictly positive; None comes with a potential; for at least one asset the only error is the work limit, and only beyond assets times arcs units |
| Circulation.ReducedCostOfOrder | engine/stockmesh/clearing/mod.rs:121-135 | moving one order away from the current flow cannot gain more than the potentials of its two assets charge |
| Circulation.PotentialCertifies | engine/stockmesh/clearing/mod.rs:109-110 | optimality certificate: a balanced flow with a potential clears at least as much as every integer circulation within the capacities |
| Circulation.ImprovingCycleRefutes | engine/stockmesh/clearing/mod.rs:224-252 | the converse: a circulation with an improving residual cycle is not maximal |
| Circulation.OrdersDiffer | engine/stockmesh/clearing/mod.rs:230-249 | a simple cycle of positive cost never uses both arcs of one order |
| Circulation.PushStaysInBounds | engine/stockmesh/clearing/mod.rs:242-249 | no flow leaves [0, capacity] even half-way round the cycle |
| Circulation.PushKeepsBalance | engine/stockmesh/clearing/mod.rs:242-249 | pushing around a cycle leaves every asset balanced |
| Circulation.PivotImproves | engine/stockmesh/clearing/mod.rs:230-252 | a pivot gives a circulation that clears at least its bottleneck more lots |
| Pivots.BottleneckIsLeast | engine/stockmesh/clearing/mod.rs:230-241 | the bottleneck of a residual cycle is positive, within all its capacities, and one of them |
| Pivots.Augment | engine/stockmesh/clearing/mod.rs:242-249 | the in-place loop pushes the bottleneck along the whole cycle |
| Pivots.Pivot | engine/stockmesh/clearing/mod.rs:230-251 | the guard on cost and bottleneck never fires and the new flows are a circulation that clears strictly more |
| Pivots.RunPivots | engine/stockmesh/clearing/mod.rs:224-256 | flows stay a circulation; the optimality flag is set if and only if the final flow is maximal; at most max_pivots pivots, and the work limit only beyond a fixed budget |
| Multiples.ComputeGcd | engine/stockmesh/clearing/mod.rs:70-77 | the remainder loop computes the greatest common divisor function |
| Multiples.Bezout | engine/stockmesh/clearing/mod.rs:70-77 | the greatest common divisor is an integer combination of its arguments |
| Multiples.LcmAllIsCommonMultiple | engine/stockmesh/clearing/mod.rs:183-191 | every price divides the quantum |
| Multiples.LcmAllIsLeast | engine/stockmesh/clearing/mod.rs:183-191 | the quantum divides every common multiple of the prices |
| Lots.FillMeetsLimit | engine/stockmesh/clearing/mod.rs:259-270 | a flow within an admitted capacity gives a fill within the amount and at or above the proportional limit |
| Lots.LotsConserve | engine/stockmesh/clearing/mod.rs:257-278 | balanced flows conserve every token exactly, whatever the lot sizes |
| Lots.OutputsFit | engine/stockmesh/clearing/mod.rs:261-264 | no single output can exceed what all orders may give, so outputs fit 64 bits |
| Lots.EqualColumns | engine/stockmesh/clearing/mod.rs:276-278 | equal debit and credit columns mean exact conservation per token, and conversely |
| Fold.ComputeQuantum | engine/stockmesh/clearing/mod.rs:183-191 | the first price fault in order, or the least common multiple of the prices |
| Fold.FoldAccepts | engine/stockmesh/clearing/mod.rs:175-213 | a fold is accepted exactly for bounded sizes, prices in range with fitting common multiples, and orders that are well formed, live and pairwise different intents |
| Fold.OrderFaultKinds | engine/stockmesh/clearing/mod.rs:199-216 | each refusal of an order names its defect: malformed, then expired, then a duplicate of an earlier intent |
| Fold.AdmitOrders | engine/stockmesh/clearing/mod.rs:198-223 | the first faulty order decides the error; otherwise all capacities and the requested total |
| Fold.PriceLotsExact | engine/stockmesh/clearing/mod.rs:183-191 | a quantum of value is a whole positive number of atoms of every asset |
| Fold.PriceCapacityAdmitted | engine/stockmesh/clearing/mod.rs:217-222 | a capacity is opened only for orders whose whole limit the prices meet, and never exceeds the amount |
| Fold.ValueInLots | engine/stockmesh/clearing/mod.rs:260-264 | the price divisions are exact: a filled value divided by a price is a whole number of lots |
| Fold.FillOrders | engine/stockmesh/clearing/mod.rs:257-278 | the settlement loop never fails: neither Arithmetic nor BalanceInvariant is reachable, every fill is the exact one for its flow |
| Fold.Fold | engine/stockmesh/clearing/mod.rs:168-280 | apart from input faults in their order only the work limit, beyond a fixed budget, stops a fold; an Ok report describes one circulation, its fills, its value and whether it is maximal |
| Fold.OptimalFlagIsExact | engine/stockmesh/clearing/mod.rs:224-256 | the flag is set if and only if no circulation within the admitted capacities clears more value at these prices |
| Clearing.FoldIsBest | engine/stockmesh/clearing/mod.rs:168-280 | in fills alone: the reported fills are an exchange at these prices that conserves every token and clears the reported value, and the flag is set if and only if no exchange of the same orders at the same prices clears more |
| Fold.QuantumIsLeast | engine/stockmesh/clearing/mod.rs:182-191 | the quantum is the least positive value that is whole in every asset, and divides every other |
| Fold.ValidateFold | engine/stockmesh/clearing/mod.rs:532-558 | accepts exactly fills within amounts and limits that conserve every token |
| Fold.FoldedIsValid | engine/stockmesh/clearing/mod.rs:490-558 | every report of a fold passes the independent checker |
| FoldLots.AdmitLots | engine/stockmesh/clearing/mod.rs:309-342 | the first faulty order, or lot capacities and the requested lots |
| FoldLots.LotFoldAccepts | engine/stockmesh/clearing/mod.rs:296-327 | a fold on lots is accepted exactly for bounded sizes, positive lots and orders that are well formed, live and pairwise different intents |
| FoldLots.FillLots | engine/stockmesh/clearing/mod.rs:377-407 | the lot settlement loop never fails and clears as many lots as flow |
| FoldLots.ComputeFoldLots | engine/stockmesh/clearing/mod.rs:289-409 | as for prices: only input faults or the work limit, and an Ok report describes one circulation on the lot lattice |
| FoldLots.OptimalLotFlagIsExact | engine/stockmesh/clearing/mod.rs:343-376 | the flag is set if and only if no circulation within the capacities clears more lots |
| Clearing.LotFoldIsBest | engine/stockmesh/clearing/mod.rs:289-409 | the same on lots: the flag is set if and only if no exchange of the same orders on the same lots clears more lots |
| FoldLots.ValidateLotFold | engine/stockmesh/clearing/mod.rs:490-530 | accepts exactly the fills that are whole lots on both sides, within limits, conserving every token, with the stated total |
| FoldLots.LotFoldedIsValid | engine/stockmesh/clearing/mod.rs:490-530 | every report of a lot fold passes the checker |
| Settlement.BuildResiduals | engine/stockmesh/clearing/mod.rs:442-488 | the in-place grouping loop computes the grouping function, errors in its order |
| Settlement.Residuals | engine/stockmesh/clearing/mod.rs:426-432 | only a valid fold is grouped |
| Settlement.JoinPartitions | engine/stockmesh/clearing/mod.rs:455-485 | taking one more order into the groups keeps them a partition of the unfilled orders |
| Settlement.GroupsPartition | engine/stockmesh/clearing/mod.rs:442-488 | the groups partition the unfilled orders by pair and add up exactly their residual inputs and their owed outputs |
| Settlement.GroupsExactly | engine/stockmesh/clearing/mod.rs:442-488 | a group is exactly the orders of its pair with something left, with the sums of their unfilled inputs and of the outputs still owed |
| Settlement.EveryOrderGrouped | engine/stockmesh/clearing/mod.rs:442-488 | every order with something left is in exactly one group |
| Settlement.BaseSharesFit | engine/stockmesh/clearing/mod.rs:613-636 | before dust at most the observed output is handed out, so the dust subtraction never underflows |
| Settlement.ShareOut | engine/stockmesh/clearing/mod.rs:614-633 | the share loop never overflows and finds the lowest (owner, nonce) |
| Settlement.DistributionIsExact | engine/stockmesh/clearing/mod.rs:600-639 | a distribution sums exactly to the observed output, covers every member's owed output and pays nobody else |
| Settlement.DistributionIsProRata | engine/stockmesh/clearing/mod.rs:613-639 | beyond its owed output every member gets the surplus in proportion to its residual input, rounded down; the member with the lowest owner and nonce gets the dust, too, less than one atom a member |
| Settlement.ComputeDistribution | engine/stockmesh/clearing/mod.rs:600-639 | foreign groups and outputs below the floor are refused, everything else gets the distribution, which is exact and pro rata; the arithmetic errors are unreachable |
| SettlementTheorems.DistributionIsEquivariant | engine/stockmesh/clearing/mod.rs:597-599 | for unique (owner, nonce), permuting the submission permutes the payouts and changes nothing else |
| SettlementTheorems.VerifySettlement | engine/stockmesh/clearing/mod.rs:563-595 | accepts exactly full debits, credits at or above the minimum and every token netting to zero with the external delta; a refusal carries the first fault: bounds, then per posting its books, its minimum or a net beyond 128 bits, then a net left over |
| SettlementTheorems.SettledMeans | engine/stockmesh/clearing/mod.rs:563-595 | books are without any fault, 128-bit overflow included, exactly when they are settled |
| SettlementTheorems.Post | engine/stockmesh/clearing/mod.rs:573-590 | one posting in place: its exact fault, or the net of every token with this order added |
| SettlementTheorems.BalancedNetFits | engine/stockmesh/clearing/mod.rs:584-589 | if the books balance in the end no intermediate net leaves 128 bits |
| SettlementTheorems.PayoutsByToken | engine/stockmesh/clearing/mod.rs:597-639 | external output of a token reaches the buyers of that token and nobody else |
| SettlementTheorems.ResidualsByToken | engine/stockmesh/clearing/mod.rs:442-488 | residual inputs of a token leave through exactly the groups that sell it |
| SettlementTheorems.CreditsCoverMinimum | engine/stockmesh/clearing/mod.rs:600-639 | internal fill plus payouts reach every owner's signed minimum |
| SettlementTheorems.SettlementComposes | engine/stockmesh/clearing/mod.rs:560-639 | fold, group, any observed outputs at or above the floors, distribute: the resulting books are exactly what the final check accepts |
| Curves.Validate | engine/stockmesh/compiler/mod.rs:38-57 | accepts a curve or reports its first defect |
| Curves.FaultMeaning | engine/stockmesh/compiler/mod.rs:38-57 | validation succeeds exactly on one to sixteen positive bands with falling rates below the cap and the stated capacity within the atom bound |
| Curves.Quote | engine/stockmesh/compiler/mod.rs:59-74 | the quote loop computes the floored integral of the rates; its final 64-bit check never fails |
| Curves.LowerQuote | engine/stockmesh/compiler/mod.rs:76-78 | the quote less the lower error, not below zero |
| Curves.IntegralAt | engine/stockmesh/compiler/mod.rs:64-74 | the integral splits into whole bands and a part of the next one |
| Venues.ExactQuote | engine/stockmesh/compiler/mod.rs:122-149 | the exact quote of a book or pool, errors in order |
| Venues.PoolOutputBounded | engine/stockmesh/compiler/mod.rs:144-147 | the pool output is the largest amount the constant product allows, hence at most the reserve |
| ChordMath.CpFpBounds | engine/stockmesh/compiler/mod.rs:161-165 | the two-step floor is the Q32 floor of the continuous curve |
| ChordMath.DerivativeBound | engine/stockmesh/compiler/mod.rs:167-171 | the twice rounded derivative dominates the true slope |
| ChordMath.DerivativeTight | engine/stockmesh/compiler/mod.rs:167-171 | each of its two roundings adds less than one unit |
| ChordMath.ExactBelowCurve | engine/stockmesh/compiler/mod.rs:145-146 | the exact output never exceeds the continuous curve |
| ChordMath.ExactAboveCurve | engine/stockmesh/compiler/mod.rs:314-316 | flooring input and output loses less than 1 + ceil(y / r) atoms against the continuous curve |
| ChordMath.TangentAbove | engine/stockmesh/compiler/mod.rs:306-309 | from a rounded value on, the tangent lies above the continuous curve |
| ChordMath.ChordBelow | engine/stockmesh/compiler/mod.rs:298-304 | a chord between two rounded values lies below the continuous curve (concavity by cross-multiplication) |
| ChordMath.ChordBelowTangent | engine/stockmesh/compiler/mod.rs:280-281 | no chord is steeper than the tangent bound at its left end |
| ChordMath.DerivativeFalls | engine/stockmesh/compiler/mod.rs:229-232 | the tangent bound at zero is the largest |
| ChordMath.Fits128 | engine/stockmesh/compiler/mod.rs:161-171 | within the domain bounds no intermediate of the fixed-point formulas leaves 128 bits |
| Chords.BandsShape | engine/stockmesh/compiler/mod.rs:293-305 | the clamped bands tile the boundaries and form a valid non-increasing curve |
| Chords.BandRates | engine/stockmesh/compiler/mod.rs:293-305 | every band carries the largest rate that stays within its rounded chord and within the band before it |
| Chords.IntegralBelowValue | engine/stockmesh/compiler/mod.rs:308-311 | the accumulated clamped slopes never pass the rounded endpoint values, so the gap subtraction never underflows |
| Chords.UpperHalf | engine/stockmesh/compiler/mod.rs:306-313 | inside any interval the exact output exceeds the bands by less than the collected error |
| Chords.ErrorIsTight | engine/stockmesh/compiler/mod.rs:306-313 | the error is no larger than needed: at the right end of some interval the tangent is exactly that far above the bands |
| Chords.LowerHalf | engine/stockmesh/compiler/mod.rs:314-316 | inside any interval the bands exceed the exact output by at most the lower error |
| Chords.ChordsEnclose | engine/stockmesh/compiler/mod.rs:19-22 | the envelope over every list of boundaries: floor(IR(x)) - lower_error <= exact(x) <= floor(IR(x)) + upper_error |
| AdaptiveChords.ChooseWorst | engine/stockmesh/compiler/mod.rs:249-263 | finds the divisible interval with the largest gap, the leftmost on a tie; none exactly when every interval is one atom wide |
| AdaptiveChords.WorstIsLargest | engine/stockmesh/compiler/mod.rs:249-263 | no divisible interval has a larger gap, and every one further left a smaller |
| AdaptiveChords.GapMeasures | engine/stockmesh/compiler/mod.rs:229-232 | the gap is how far the left tangent has risen above the curve at the right end, up to the rounding of the slope |
| AdaptiveChords.CurveWithinGap | engine/stockmesh/compiler/mod.rs:229-232 | inside the interval the continuous curve rises above its rounded chord by at most the gap and one Q32 unit |
| AdaptiveChords.RefineHalves | engine/stockmesh/compiler/mod.rs:233-284 | the boundaries come from one interval by halving the one of largest gap again and again, until sixteen bands are used or every interval is one atom |
| AdaptiveChords.RefinementIsUnique | engine/stockmesh/compiler/mod.rs:233-284 | there is only one such refinement |
| AdaptiveChords.SplitInPlace | engine/stockmesh/compiler/mod.rs:267-283 | shifting four arrays and redoing two gaps leaves exactly the caches of the split boundaries |
| AdaptiveChords.ChooseBoundaries | engine/stockmesh/compiler/mod.rs:233-284 | the cached refinement loop reaches the boundaries of the definition that recomputes every gap |
| AdaptiveChords.BuildCurve | engine/stockmesh/compiler/mod.rs:290-312 | the final loop computes the clamped bands and the largest tangent gap |
| Compiler.CutBook | engine/stockmesh/compiler/mod.rs:206-219 | the loop keeps exactly the first atoms of the book |
| Compiler.CutKeepsOutput | engine/stockmesh/compiler/mod.rs:206-219 | cutting a book does not change what its remaining input buys |
| Compiler.ErrorsFit | engine/stockmesh/compiler/mod.rs:313-316 | both error bounds of a pool fit 64 bits |
| Compiler.CompilePool | engine/stockmesh/compiler/mod.rs:222-318 | apart from the work budget a pool always compiles, to a valid curve over the adaptive boundaries |
| Compiler.Compile | engine/stockmesh/compiler/mod.rs:176-320 | refuses exactly the faulty venues, in the order of the checks, runs out of work only beyond a fixed budget, and otherwise returns the curve that the next rows pin down |
| Compiler.AcceptsExactly | engine/stockmesh/compiler/mod.rs:176-228 | a venue compiles exactly when it is atomic, enabled, of sensible size, and a sound book or a pool whose slope stays below the cap |
| Compiler.RefusalKinds | engine/stockmesh/compiler/mod.rs:176-203 | not atomic, then disabled, then amounts out of range, each with its own error |
| Compiler.PoolCurveIsRefined | engine/stockmesh/compiler/mod.rs:222-318 | the curve of a pool: intervals by largest-gap halving, bands at the rounded chords, the least upper error that covers every tangent, and a lower error of one atom more than the least that covers an input atom |
| Compiler.BookSound | engine/stockmesh/compiler/mod.rs:188-221 | for a book the compiled curve quotes every input exactly |
| Compiler.PoolSound | engine/stockmesh/compiler/mod.rs:222-318 | for a pool the compiled curve is valid and encloses the exact quote at every input up to its capacity |
| Compiler.CompiledIsSound | engine/stockmesh/compiler/mod.rs:176-320 | every accepted venue at every horizon: a valid curve that encloses the exact quotes |
| Greedy.PicksAgree | engine/stockmesh/optimizer/mod.rs:66-87 | the greedy order is unique: of two greedy pick lists one begins with the other |
| Greedy.BestOfSubset | engine/stockmesh/optimizer/mod.rs:67-78 | if the best venue of a larger set belongs to a subset it is best there |
| Greedy.FilterPicks | engine/stockmesh/optimizer/tape.rs:127-186 | deleting venues preserves the greedy order of the others |
| Allocations.StopsUnique | engine/stockmesh/optimizer/mod.rs:66-87 | exactly one greedy list stops at a given amount |
| Waterfill.Anatomy | engine/stockmesh/optimizer/mod.rs:66-88 | a greedy split is whole bands and one partial band, totals the amount, and its score is the sum over those bands |
| Waterfill.InputsWithin | engine/stockmesh/optimizer/mod.rs:80-86 | the split stays on the mask and within every capacity |
| Waterfill.PourOne | engine/stockmesh/optimizer/mod.rs:80-86 | one iteration takes a whole band and goes on, or the rest and stops |
| Waterfill.ComputeWaterfill | engine/stockmesh/optimizer/mod.rs:45-90 | the loop computes the greedy allocation, errors in their order; the output check never fails |
| Waterfill.Tangent | engine/stockmesh/optimizer/mod.rs:84-88 | a rate that supports a curve at an input is a tangent: no other input beats the line |
| GreedyOptimality.GreedyIsSupported | engine/stockmesh/optimizer/mod.rs:66-87 | the last rate taken supports every selected curve at its greedy input |
| GreedyOptimality.GreedyIsOptimal | engine/stockmesh/optimizer/mod.rs:45-90 | no other split of the amount over the same venues within their capacities has a larger Q32 score or output |
| Tape.ChampionOfTwo | engine/stockmesh/optimizer/tape.rs:23-31 | the winner of two adjacent ranges of leaves is the champion of both, the lowest index on a tie |
| Tape.ReplayMatch | engine/stockmesh/optimizer/tape.rs:180-185 | replaying one match settles its node and leaves only its ancestors open |
| Tape.ChampionIsBest | engine/stockmesh/optimizer/tape.rs:164-165 | the champion of all leaves is the greedy choice |
| TapeBuild.IndexCurve | engine/stockmesh/optimizer/tape.rs:111-124 | prefix capacities, integrals and rates of one curve |
| TapeBuild.Repair | engine/stockmesh/optimizer/tape.rs:180-185 | repairing the path from one changed leaf settles the whole tree |
| TapeBuild.TreeRound | engine/stockmesh/optimizer/tape.rs:164-186 | one round of the tournament advances the greedy choice and keeps the tree settled |
| TapeBuild.MergeTree | engine/stockmesh/optimizer/tape.rs:160-187 | the tournament emits the complete greedy order with its row counts |
| TapeBuild.MergePair | engine/stockmesh/optimizer/tape.rs:127-158 | the two-head merge emits the same complete greedy order |
| TapeBuild.BuildTape | engine/stockmesh/optimizer/tape.rs:85-188 | a tape of the curves, or bounds, the first curve fault, or the work limit beyond a fixed budget |
| TapeQuery.SubsetRow | engine/stockmesh/optimizer/tape.rs:190-201 | a row seen through a subset is a greedy state of that subset |
| TapeQuery.SelectedRow | engine/stockmesh/optimizer/tape.rs:270-292 | the first row that reaches the amount, its owner and the row before give the subset's own greedy list |
| TapeQuery.Select | engine/stockmesh/optimizer/tape.rs:270-279 | the binary search finds that row |
| TapeQuery.RowIntegral | engine/stockmesh/optimizer/tape.rs:301-307 | the indexed integral of a venue is its Q32 output |
| TapeQuery.LoneIntegral | engine/stockmesh/optimizer/tape.rs:232-255 | the search in one venue's bands gives its Q32 output or Capacity |
| TapeQuery.Allocate | engine/stockmesh/optimizer/tape.rs:203-327 | for every subset of the compiled venues and every amount the tape answers exactly what the greedy allocator answers, in the plain and in the conservative form |
| SearchSpec.MaskOfCode | engine/stockmesh/optimizer/mod.rs:255-260 | every subset has its number, so the counting loop visits every subset |
| SearchTheorems.EachSubsetOnce | engine/stockmesh/optimizer/mod.rs:255-260 | counting up to two to the number of venues visits every subset, and each only once |
| Search.Matches | engine/stockmesh/optimizer/tape.rs:55-83 | true exactly when the tape was compiled for at least these venues with the same bands and capacities |
| Search.SpecSame | engine/stockmesh/optimizer/tape.rs:55-83 | the allocator looks only at bands and capacities of the selected venues, so agreement is enough |
| Search.Query | engine/stockmesh/optimizer/mod.rs:152-192 | tape and streaming allocator answer the same query with the same result |
| Search.CheckEdges | engine/stockmesh/optimizer/mod.rs:219-242 | the first faulty eligible venue decides the error |
| Plans.ProblemAccepted | engine/stockmesh/optimizer/mod.rs:208-242 | a question is accepted exactly for bounded sizes and eligible venues that are enabled, atomic, of one pair, of distinct liquidity, and show at least the room their curves promise |
| Search.ExactOutput | engine/stockmesh/optimizer/mod.rs:92-103 | sums the exact quotes, stopping at the first error |
| Search.IsIndependent | engine/stockmesh/optimizer/mod.rs:105-117 | accumulating written accounts decides pairwise disjointness |
| Search.InsertFinalist | engine/stockmesh/optimizer/mod.rs:271-285 | the array insertion is the list insertion: by output, at most four, no repeated inputs |
| Search.VisitOne | engine/stockmesh/optimizer/mod.rs:255-286 | one subset of the scan, its counters and its effect on the finalists |
| Search.Evaluate | engine/stockmesh/optimizer/mod.rs:290-301 | the earliest finalist of largest exact output |
| Search.SearchWith | engine/stockmesh/optimizer/mod.rs:196-314 | whatever the allocator, the report is the specified one unless a fixed amount of work is missing |
| Search.SearchTape | engine/stockmesh/optimizer/mod.rs:133-160 | refuses a tape of other curves with Identity and otherwise reports exactly what the reference search reports |
| Search.SearchReference | engine/stockmesh/optimizer/mod.rs:163-194 | the streaming search reports the same specification |
| SearchTheorems.SplitsBelowUpper | engine/stockmesh/optimizer/mod.rs:243-251 | every split over the eligible venues within curve capacity, whatever its number of legs, pays exactly at most the reported upper bound |
| SearchTheorems.ExactAbove | engine/stockmesh/optimizer/mod.rs:265-269 | exact outputs are at least the conservative estimates |
| SearchTheorems.InsertKeepsCovered | engine/stockmesh/optimizer/mod.rs:271-285 | whoever is pushed off the list is no better than those who stay |
| SearchTheorems.ScanIsShortlist | engine/stockmesh/optimizer/mod.rs:255-286 | the scan never fails and its list holds, or is full of estimates at least as good as, everything visited |
| SearchTheorems.SupportAdmissible | engine/stockmesh/optimizer/mod.rs:255-269 | the venues a greedy split really uses are themselves admissible |
| SearchTheorems.BestIsLargest | engine/stockmesh/optimizer/mod.rs:290-301 | the evaluation keeps a finalist of largest exact output |
| SearchTheorems.SearchOutcome | engine/stockmesh/optimizer/mod.rs:243-313 | three outcomes only: Arithmetic when the bound overflows, Capacity when no admissible set can take the amount, else a certified report: the plan conserves the amount within legs and disjoint resources, beats every lower estimate, and every split pays at most achieved + gap; the InvalidCurve exit is unreachable |
| Plans.EstimateMeans | engine/stockmesh/optimizer/mod.rs:264-269 | the estimate of a subset is its best split by Q32 output, valued at what every venue is sure to pay; it exists exactly when the subset has room |
| Plans.FinalistsCompete | engine/stockmesh/optimizer/mod.rs:252-301 | at most four different splits are compared exactly, every other admissible subset has a split among them or no better estimate, and the plan is the first of largest exact output |
| Plans.PlanExecutes | engine/stockmesh/optimizer/mod.rs:302-313 | the reported plan uses at most the permitted eligible venues, no two writing a common account, within what each shows, spends the whole amount, and its output is what they pay exactly |
| ReflowSurvey.Refresh | engine/stockmesh/reflow/mod.rs:148-153 | an unchanged snapshot keeps its curve; otherwise the curve stored is the compiled one; for a sound venue only the work limit fails, beyond one compilation |
| ReflowSurvey.Survey | engine/stockmesh/reflow/mod.rs:117-155 | one survey reads exactly the eligible venues into the cache; a cache that already holds them is not recompiled, and then only the work budget can stop it, once it does not cover one compilation per venue |
| ReflowSolve.RoundEnclosed | engine/stockmesh/reflow/mod.rs:117-177 | every round asks a well-posed question: one pair, no aliases, all curves valid and enclosing |
| ReflowSolve.StartCanTake | engine/stockmesh/reflow/mod.rs:148-177 | venues whose shown capacities cover the amount can take it after compilation |
| Relaxation.FillUp | engine/stockmesh/optimizer/mod.rs:243-251 | every split of less over some venues can be filled up to a split of more that pays at least as much |
| Relaxation.OptimumShrinks | engine/stockmesh/optimizer/mod.rs:243-251 | the greedy optimum of less over fewer venues pays at most that of more over more |
| Relaxation.BoundShrinks | engine/stockmesh/optimizer/mod.rs:243-251 | when the relaxed optimum plus all upper errors fits 64 bits, so does that of asking less of fewer of the same venues |
| ReflowSolve.Solve | engine/stockmesh/reflow/mod.rs:117-177 | an Ok solve carries the certified report; a ready round can only run out of a budget that does not cover one round, and a promising start beyond that only fails with a bound that does not fit |
| ReflowRound.EligibleShrinks | engine/stockmesh/reflow/mod.rs:131-143 | executing a venue removes from the eligible set itself and its resource neighbours, nothing else |
| ReflowRound.RestCanTake | engine/stockmesh/reflow/mod.rs:167-222 | after a complete fill the rest of the plan is still eligible, independent, within one leg less, and has room for what remains |
| ReflowRound.BoundStillFits | engine/stockmesh/reflow/mod.rs:167-222 | after a complete fill the bound of the next solve fits, because less is asked of fewer venues |
| ReflowRound.ChooseEdge | engine/stockmesh/reflow/mod.rs:181-186 | the most imminent expiry among venues with input, the lowest index on a tie |
| ReflowRound.InvokeAndObserve | engine/stockmesh/reflow/mod.rs:187-206 | an accepted movement spends at most the request, and spends exactly when it receives |
| ReflowRound.CheckRound | engine/stockmesh/reflow/mod.rs:104-116 | legs and reflows stay within limits and reflows count the legs after the first |
| ReflowRound.Round | engine/stockmesh/reflow/mod.rs:104-223 | a round keeps all run invariants and takes at most one round of work; a host that fills the request cannot make it fail after its solve and leaves the next one ready, which then only a spent budget can stop |
| ReflowRound.LegsDisjoint | engine/stockmesh/reflow/mod.rs:131-133 | no venue is invoked twice and executed venues write disjoint accounts |
| ReflowLegs.AcceptedExactly | engine/stockmesh/reflow/mod.rs:66-96 | a run is accepted exactly for bounded pins, legs and reflows, distinct markets and liquidity, a positive amount, before the deadline and within the balance |
| ReflowLegs.LegEligible | engine/stockmesh/reflow/mod.rs:119-147 | in every leg of a successful run the eligible venues are exactly those that show their pinned identity, are enabled, atomic, not empty, not expired, fresh enough and of a permitted generation, and share no account with an executed one |
| ReflowLegs.InvokedIsUsable | engine/stockmesh/reflow/mod.rs:119-147 | every invoked venue satisfied all of this when it was invoked |
| ReflowLegs.LegExecutesPlan | engine/stockmesh/reflow/mod.rs:167-189 | every leg requests its venue's share of a plan certified for exactly what was left, within the legs left, and no venue of the plan expires sooner |
| ReflowRound.BalancesTelescope | engine/stockmesh/reflow/mod.rs:190-232 | the host's balances moved by exactly the totals of the trace |
| Reflow.Prepare | engine/stockmesh/reflow/mod.rs:66-103 | succeeds exactly for acceptable parameters, deadline and balance and a readable first venue |
| Reflow.RunRounds | engine/stockmesh/reflow/mod.rs:104-223 | every completed loop spends the whole amount within the leg limit; against a filling host it is left early only for a budget below the permitted rounds or, before the first invocation, for a bound that does not fit |
| Reflow.Finish | engine/stockmesh/reflow/mod.rs:224-239 | after the loop only MinOut can fail |
| Reflow.Execute | engine/stockmesh/reflow/mod.rs:60-240 | against any host an Ok run conserves: spends sum to amount_in, receipts to output_received >= min_out, legs are disjoint, bounded, made at usable venues only and by the certified plan of their round, reflows = legs - 1, work within its limit; with a host that fills every request, after an invocation or from a promising start, the only errors are MinOut, WorkLimit when the budget does not cover the permitted rounds, and before the first invocation Arithmetic when the first bound overflows |
| Investment.CheckPlan | engine/stockmesh/host/src/investment.rs:44-55 | accepts exactly two to sixteen distinct positive allocations that with the retained cash add up to a bounded input |
| Investment.Ranges | engine/stockmesh/host/src/investment.rs:58-61 | the loop computes the fixed groups |
| Investment.RangesTile | engine/stockmesh/host/src/investment.rs:56-61 | the fixed groups tile the stocks in order and none is a singleton |
| Investment.RangesAreFewest | engine/stockmesh/host/src/investment.rs:56-61 | no grouping into twos and threes needs fewer groups |
| Investment.RangesAreTheOnes | engine/stockmesh/host/src/investment.rs:56-61 | of those with the fewest groups the fixed one is the one with the larger groups first |
| Investment.RangeShape | engine/stockmesh/host/src/investment.rs:95-102 | a range covers one to three stocks and its step and start keep pace: index <= start <= 3 index |
| Investment.CheckBinding | engine/stockmesh/host/src/investment.rs:104-111 | accepts exactly baskets that buy the tranche's stocks at its inputs for the plan's owner and version |
| Investment.Cursor | engine/stockmesh/host/src/investment.rs:73-87 | succeeds exactly when the plan's live tranches are consecutive ranges from the first stock, all but the last reconciled, and reads off progress and stock cursor |
| Investment.Admission | engine/stockmesh/host/src/investment.rs:114-120 | admits exactly the next step at the next stock |
| Investment.LinePace | engine/stockmesh/host/src/investment.rs:98-99 | step k of a line starts between stock k and stock 3 k |
| Investment.LineDisjoint | engine/stockmesh/host/src/investment.rs:81-85 | no stock is bought twice |
| Investment.SpentIsPrefix | engine/stockmesh/host/src/investment.rs:103-109 | the first k steps cost exactly the plan's inputs for their stocks |
| Investment.CompleteConserves | engine/stockmesh/host/src/investment.rs:86 | Complete means all steps reconciled and tranche inputs plus retained cash equal the total input |
| Investment.NextTrancheExists | engine/stockmesh/host/src/investment.rs:95-100 | until a plan is complete and unless a step is pending, every group of one to three next stocks is an acceptable next tranche |
| Investment.RoomLeft | engine/stockmesh/host/src/investment.rs:86 | a plan that is ready has stocks left to buy |
| Investment.SmallerStillNext | engine/stockmesh/host/src/investment.rs:90-94 | a tranche made smaller is still the next step |
| Investment.LineExtends | engine/stockmesh/host/src/investment.rs:114-120 | an admitted tranche extends its plan's line |
| Investment.LineUpdates | engine/stockmesh/host/src/journal.rs:314-341 | a lifecycle update keeps every line, and its cursor never moves back |
| Log.Recover | engine/stockmesh/host/src/journal.rs:144-173 | the replay loop computes the replay function, faults in their order |
| Replays.AcceptedLog | engine/stockmesh/host/src/journal.rs:144-178 | an accepted log is complete frames with matching lengths and checksums, sensible and numbered without a gap, then at most a torn one; its table holds the last record of every id |
| Log.ReplayAppend | engine/stockmesh/host/src/journal.rs:146-173 | replaying complete records followed by anything continues from their image |
| Log.ReplayTorn | engine/stockmesh/host/src/journal.rs:147-157 | a torn record leaves the image alone |
| Log.ReplayBatch | engine/stockmesh/host/src/journal.rs:349-364 | replaying the bytes of a batch applies exactly that batch |
| Log.PrefixOfFrames | engine/stockmesh/host/src/journal.rs:349-364 | every byte prefix of a batch is some of its records and a torn one |
| Log.CrashPrefix | engine/stockmesh/host/src/journal.rs:366-368 | whatever byte prefix of an append reached the disk, replay succeeds with exactly a prefix of the batch applied |
| Coherence.InsertCoherent | engine/stockmesh/host/src/journal.rs:291-308 | an admitted record keeps ids, signatures, reservations and plan lines coherent |
| Coherence.UpdateCoherent | engine/stockmesh/host/src/journal.rs:320-341 | a lifecycle record keeps them coherent, too |
| Coherence.InsertBatchCoherent | engine/stockmesh/host/src/journal.rs:281-310 | every prefix of an admitted batch leaves a coherent table, one entry per record larger |
| Coherence.UpdateBatchCoherent | engine/stockmesh/host/src/journal.rs:314-343 | every prefix of an update batch leaves a coherent table of the same size |
| Tables.TransitionsExactly | engine/stockmesh/host/src/journal.rs:320-335 | an unanswered trade may be submitted, become uncertain, be finalized or fail, a finalized one may only be reconciled, and nothing else ever moves |
| Tables.BatchMoves | engine/stockmesh/host/src/journal.rs:314-343 | a batch of updates leaves failed and reconciled trades alone and changes nothing but phases and attempts |
| Tables.TradesApart | engine/stockmesh/host/src/journal.rs:188-205 | no two trades share a signature and no two open ones an account |
| Tables.InsertsExactly | engine/stockmesh/host/src/journal.rs:281-308 | a batch is acceptable exactly when its trades are new, prepared, untried, consistent, pairwise apart, take no account of an open trade, and continue their plans |
| Tables.PurchaseIsPlanned | engine/stockmesh/host/src/investment.rs:104-111 | every recorded purchase buys one to three consecutive stocks of a sound plan at exactly the plan's inputs, for its owner and version |
| Tables.NothingBoughtTwice | engine/stockmesh/host/src/investment.rs:67-87 | two purchases of one plan that did not fail never buy the same stock, and at most one of them is not reconciled |
| Indexes.UpdateReservations | engine/stockmesh/host/src/journal.rs:374-386 | the index loop computes the effect of one record |
| Indexes.ReserveStep | engine/stockmesh/host/src/journal.rs:374-386 | after one record the reservation map is again exactly the accounts held by unfinished intents |
| Indexes.PlansLined | engine/stockmesh/host/src/journal.rs:184-187 | decides whether every plan in the table is a line |
| Indexes.Reindex | engine/stockmesh/host/src/journal.rs:188-205 | succeeds exactly on unique signatures and disjoint reservations and rebuilds both indexes |
| Journals.ReplayCut | engine/stockmesh/host/src/journal.rs:174-178 | cutting off the torn tail does not change the replay |
| Journals.Encode | engine/stockmesh/host/src/journal.rs:349-365 | a batch is encoded exactly when its records, the file and the sequence stay within bounds |
| Journals.CheckInsert | engine/stockmesh/host/src/journal.rs:291-308 | the checks of one new entry, first fault first |
| Journals.CheckUpdates | engine/stockmesh/host/src/journal.rs:320-341 | succeeds exactly on distinct legal transitions of known intents |
| Journals.TornFile | engine/stockmesh/host/src/journal.rs:366-369 | the file a torn append leaves reopens to a prefix of the batch |
| Journals.CompactFile | engine/stockmesh/host/src/journal.rs:240-257 | one record per intent, numbered from one, replays to the same table |
| Journals.Journal.Open | engine/stockmesh/host/src/journal.rs:116-219 | succeeds exactly on files that replay to a coherent table within capacity, and then memory is that table with its two indexes |
| Journals.Journal.AppendBatch | engine/stockmesh/host/src/journal.rs:344-388 | done exactly when healthy, within bounds and flushed, and then the whole batch is applied; a failed write leaves a file that reopens to the old table with a prefix of the batch |
| Journals.Journal.InsertBatch | engine/stockmesh/host/src/journal.rs:281-310 | done exactly when the batch is new, prepared, unreserved and next in its plans, the disk has room and the flush succeeds; a refusal changes nothing |
| Journals.Journal.UpdateBatch | engine/stockmesh/host/src/journal.rs:314-343 | done exactly when every update is a legal transition of a distinct known intent, the disk has room and the flush succeeds |
| Journals.Journal.Compact | engine/stockmesh/host/src/journal.rs:229-275 | the table never changes; whatever happens to the replacement, the file reopens to the same table |
| Senders.CoveredUpdates | engine/stockmesh/host/src/sender.rs:243-246 | applying any prefix of the recorded updates keeps every transmission covered by a durable attempt |
| Senders.ReportedIsLegal | engine/stockmesh/host/src/sender.rs:208-221 | every reported phase is a legal move of an unfinished intent, so the transition table never refuses it |
| Senders.AbsentIsLegal | engine/stockmesh/host/src/sender.rs:231-236 | becoming uncertain, with or without an attempt below the limit, is legal, too |
| Senders.Sort | engine/stockmesh/host/src/sender.rs:197-223 | reported intents reach their reported phase, absent ones are set aside; refused exactly for an illegible row |
| Senders.Retry | engine/stockmesh/host/src/sender.rs:224-242 | absent intents become uncertain and exactly those that may still be sent count an attempt |
| Senders.Sender.Restart | engine/stockmesh/host/src/journal.rs:116-219 | after any crash the file reopens and the discipline still holds |
| Senders.Sender.Write | engine/stockmesh/host/src/sender.rs:244-246 | a recorded batch is complete, or torn at a prefix that is just as covered |
| Senders.Sender.Transmit | engine/stockmesh/host/src/sender.rs:248-262 | a transmission is made only for an intent whose uncertainty is durable and that has an attempt left over for it |
| Senders.Sender.SendAll | engine/stockmesh/host/src/sender.rs:247-269 | each recorded attempt is transmitted once, and exactly the acknowledged ones become submitted |
| Senders.Sender.ProgressBatch | engine/stockmesh/host/src/sender.rs:145-274 | an answerable batch fails only on the disk, any other is refused before anything happens; when done every intent is what its row makes of it (SenderRows.RowDecides), exactly the due intents were transmitted once, nothing else moved, and the returned phases are the journal's |
| SenderRows.RowDecides | engine/stockmesh/host/src/sender.rs:197-269 | by the fields of its row an unfinished intent ends Finalized exactly when finalized without an error, Failed exactly when finalized with one, Submitted when processed or confirmed; without a row it is sent, counted and submitted only as allowed, acknowledged and in time, and is Unknown otherwise; finished ones stay |
| SenderRows.DueExactly | engine/stockmesh/host/src/sender.rs:224-242 | sent exactly when sending is allowed, the signature is absent, the height is not beyond the blockhash and attempts are left |
| SenderRows.AnswerableExactly | engine/stockmesh/host/src/sender.rs:145-233 | which batches are answered: one to 64 different known intents, verified wires, the right network, and one legible row for each unfinished intent |
| Senders.Sender.StepBatch | engine/stockmesh/host/src/sender.rs:135-137 | a step transmits exactly the due intents, at most once each |
| Senders.Sender.ObserveBatch | engine/stockmesh/host/src/sender.rs:141-143 | observation transmits nothing and counts no attempt |
| Senders.Sender.Reconcile | engine/stockmesh/host/src/sender.rs:80-132 | a finalized intent with its expectation and receipt becomes reconciled, only the disk can prevent it, nothing else moves |
| Senders.Sender.Admit | engine/stockmesh/host/src/journal.rs:281-310 | new intents leave every transmission covered |
| Senders.Sender.Compact | engine/stockmesh/host/src/journal.rs:229-275 | compaction, whichever file survives, leaves every transmission covered |
| Senders.Sender.SendsBounded | engine/stockmesh/host/src/sender.rs:231-246 | in every reachable state, transmissions of an intent never exceed its durable attempts, which never exceed the maximum |
| Fair.GapIsUniform | engine/stockmesh/fair/mod.rs:60-67 | between neighbouring endpoints support does not change |
| Fair.SupportCounts | engine/stockmesh/fair/mod.rs:50-58 | support is the number of intervals that contain the whole stretch |
| Fair.Scan | engine/stockmesh/fair/mod.rs:46-68 | the endpoint scan finds the one supported region, or none exists, or it is split |
| Fair.Consensus | engine/stockmesh/fair/mod.rs:24-79 | well-posed sources have a band exactly when the integer prices covered by at least n - f intervals form one joined, narrow region, and the band is that region; unavailable exactly when nothing is supported |
| Fair.NarrowMeans | engine/stockmesh/fair/mod.rs:69-76 | the upper end exceeds the lower by at most the permitted fraction |
| Fair.AdjacentButSplit | engine/stockmesh/fair/mod.rs:60-67 | a concrete split: contiguous supported prices 100 to 106, narrow enough for the widest setting, that get no band because no quorum contains both 105 and 106 |
| Fair.ByzantineBand | engine/stockmesh/fair/mod.rs:22-24 | with at most f dishonest sources the band contains the true price if all honest intervals do, and every price in it lies in at least n - 2f >= 1 honest intervals |
| Fair.Midpoint | engine/stockmesh/fair/mod.rs:87-92 | the midpoint lies in the band, as far from its lower end as from its upper, rounding down |
| Fair.Cross | engine/stockmesh/fair/mod.rs:116-152 | settles the largest base both sides afford at the midpoint for the least quote, exactly when that is inside the band and both limits; Arithmetic exactly when the base the buyer could afford does not fit 64 bits |
| Fair.CrossingIsFair | engine/stockmesh/fair/mod.rs:130-152 | within the band, and for each owner at least the signed rate |
| Fair.CrossAffordable | engine/stockmesh/fair/mod.rs:130-139 | the checks against the buyer's quote and the band's floor never fire |
| Fair.MinOutput | engine/stockmesh/fair/mod.rs:94-103 | the least output at or above the user's floor that is fair at the band's worst price; an error only if none fits 64 bits |
| Fair.WorstIsSomewhere | engine/stockmesh/fair/mod.rs:94-103 | the floor asks for what is fair at some price of the band, and for no more |
| Lanes.Release | engine/stockmesh/runtime/admission.rs:123-135 | emptying a slot or ending its request disturbs nothing |
| Lanes.LaunchSound | engine/stockmesh/runtime/admission.rs:90-121 | dispatching keeps in-flight requests pairwise free of write/write and read/write conflicts |
| Lanes.AdmitSound | engine/stockmesh/runtime/admission.rs:60-88 | admitting keeps live (owner, nonce) pairs and generations unique and incomplete requests per owner within the cap |
| Lanes.DispatchableMeans | engine/stockmesh/runtime/admission.rs:93-109 | the accumulated footprints refuse exactly the requests that conflict with one in flight |
| Lanes.NoStarvation | engine/stockmesh/runtime/admission.rs:97-111 | a slot that stays dispatchable is passed over fewer than QUEUE_CAPACITY times by any cursors that move past what they serve |
| LaneRuns.RunIsSound | engine/stockmesh/runtime/admission.rs:51-135 | in every state of every interleaving of admissions, dispatches and completions, requests in flight do not conflict, live (owner, nonce) pairs are unique and owners stay within their cap |
| LaneRuns.RunKeepsApart | engine/stockmesh/runtime/admission.rs:51-135 | the same in the words of the requests: no two in flight share an account that either writes, owners and nonces differ, at most 32 open requests an owner |
| LaneRuns.AdmissionMeans | engine/stockmesh/runtime/admission.rs:51-88 | an admission drops exactly what is neither in flight nor in time, and refuses expired, duplicate, excess and overflowing requests in that order |
| LaneRuns.DispatchMeans | engine/stockmesh/runtime/admission.rs:90-121 | a dispatch launches, of the requests that wait, are in time and are apart from all in flight, the one whose turn comes first, or nobody exactly when none can run |
| LaneRuns.RunPassesOver | engine/stockmesh/runtime/admission.rs:97-111 | the cursors and picks of any run pass over a slot the way the fairness bound asks |
| LaneRuns.ServedInTurn | engine/stockmesh/runtime/admission.rs:97-111 | over any run a slot that can be served at every dispatch is served before QUEUE_CAPACITY others are |
| LaneRuns.CompletesOnce | engine/stockmesh/runtime/admission.rs:123-135 | in no run does a ticket complete twice, even after its slot has been used again |
| LaneRuns.TicketsDiffer | engine/stockmesh/runtime/admission.rs:77-87 | later admissions hand out larger generations |
| Lanes.Admission.Admit | engine/stockmesh/runtime/admission.rs:51-88 | after dropping what lapsed: duplicates, owner excess and a full queue are refused in that order, otherwise the first free slot is taken under a fresh generation |
| Lanes.Admission.Dispatch | engine/stockmesh/runtime/admission.rs:90-121 | serves the first dispatchable slot from the cursor on, and everything it passed over comes strictly closer; none exactly when nothing is dispatchable |
| Lanes.Admission.Complete | engine/stockmesh/runtime/admission.rs:123-135 | succeeds exactly for the ticket of the request in flight, and for no ticket twice, even after slot reuse |
| OneBook.CheckBook | engine/stockmesh/onebook/mod.rs:155-166 | the first fault of the book in order |
| OneBook.BookAccepted | engine/stockmesh/onebook/mod.rs:102-131 | a book is accepted exactly when its orders are sound, for one instrument, with distinct owner and nonce |
| OneBook.CrossesFits | engine/stockmesh/onebook/mod.rs:133-142 | the 128-bit products of the crossing test cannot overflow |
| OneBook.CheckCross | engine/stockmesh/onebook/mod.rs:133-142 | the crossing test never fails and decides whether the claims match and the bid covers the ask with its conversion |
| OneBook.FindBest | engine/stockmesh/onebook/mod.rs:172-207 | the double scan finds the crossing pair of strictly first priority, or there is no crossing pair left; it gives up only beyond n * n units |
| OneBook.NextFill | engine/stockmesh/onebook/mod.rs:208-229 | filling the best pair moves exposure from residual to filled on both sides in strictly increasing priority and exhausts an order |
| OneBook.FillPair | engine/stockmesh/onebook/mod.rs:208-229 | the match limit and the 64-bit additions never fail |
| OneBook.MatchContinuous | engine/stockmesh/onebook/mod.rs:147-232 | book faults in order, the work limit beyond (n + 1) * n * n units, or a complete match: filled plus residual is the exposure, every fill honours both limits and the claim set, goes by price and arrival (next rows), and no crossing pair remains |
| OneBook.FillsInPriority | engine/stockmesh/onebook/mod.rs:186-204 | any earlier fill precedes any later one in priority |
| OneBook.PricesInOrder | engine/stockmesh/onebook/mod.rs:186-204 | bids never rise from fill to fill, equal bids go by arrival, and within one buyer asks never fall and equal asks go by arrival |
| OneBook.PassedOver | engine/stockmesh/onebook/mod.rs:172-204 | whenever a pair is filled every other pair that could have been comes later by bid, arrival, ask, arrival and position |
| OneBook.NoBuyerPassedOver | engine/stockmesh/onebook/mod.rs:186-201 | no buyer who bid more, or as much and earlier, is left wanting what another bought |
| OneBook.NoSellerPassedOver | engine/stockmesh/onebook/mod.rs:186-204 | no seller who asked less, or as much and earlier, is left with what a buyer took elsewhere |
| OneBook.FillExhausts | engine/stockmesh/onebook/mod.rs:208-229 | every fill gives its buyer or its seller all that was still wanted |
| OneBook.NothingCrosses | engine/stockmesh/onebook/mod.rs:133-142 | no buyer and seller are left that could still trade |
| OneBook.MatchIsDetermined | engine/stockmesh/onebook/mod.rs:144-146 | a book has exactly one finished match |
| OneBook.BothSidesEqual | engine/stockmesh/onebook/mod.rs:222-229 | exposure bought equals exposure sold |
| VirtualBook.PriceOf | engine/stockmesh/onebook/mod.rs:266-270 | the ask is the least Q32 price that pays the input |
| VirtualBook.PriceSlice | engine/stockmesh/onebook/mod.rs:254-270 | the exact fault or level of one slice: the 128-bit products and the division never fail, only the 64-bit price can |
| VirtualBook.Insert | engine/stockmesh/onebook/mod.rs:281-293 | the shifting insertion keeps the book sorted with ties in submission order |
| VirtualBook.SpliceArranges | engine/stockmesh/onebook/mod.rs:281-293 | inserting behind equal ranks keeps every rank's levels in submission order and the total |
| VirtualBook.SlicesAccepted | engine/stockmesh/onebook/mod.rs:240-270 | slices are accepted exactly when each is named, for this state, within bounds, valid, and priced within 64 bits |
| VirtualBook.BookIsOrdered | engine/stockmesh/onebook/mod.rs:281-293 | the book consists of the slices' levels and nothing else, by price, then claim, then source |
| VirtualBook.LevelMeans | engine/stockmesh/onebook/mod.rs:266-280 | a level carries its slice's own terms at the least price that pays its input |
| VirtualBook.CompileVirtualBook | engine/stockmesh/onebook/mod.rs:236-300 | the first fault in submission order, the work limit beyond one unit per slice, or the sorted book of every slice with its total exposure |
| VirtualBook.BookIsDetermined | engine/stockmesh/onebook/mod.rs:281-293 | a sorted book with the same levels per rank in the same order is the same book |

## Left out

- Representation: curve padding beyond `len`, bit masks (modelled as sets of indices), 32-byte keys (numbers in their byte order), `i64` labels (integers, with a proved bound) and fixed-size report tables beyond their live rows where nothing reads them.
- `residuals_lots` (clearing/mod.rs:434-440): the same grouping behind the lot checker, which is modelled.
- `search` (optimizer/mod.rs:121-131): builds a tape and calls `search_tape`, both of which are modelled.
- `optimizer/oracle.rs`: a heuristic that keeps the best plan it observed and promises no more.
- Exact work-unit counts: contracts bound the work from above and say that the work limit can only stop a run beyond that bound; the amounts in between are not pinned down.
- Serialization, CRC, hashing and signatures: `Log.Format` is any pair of functions whose encoded records decode to themselves; `Plan.spelled` stands for the spelling, owner and digest checks of a plan, and `Sender.verifies` for the check of a persisted wire against its hash and signature.
- Files, permissions, locks and `fsync` (journal.rs:85-115, 120-143): the disk is one byte sequence; a failed write leaves any byte prefix of the append, a failed rename the old file, a failed directory sync the new one.
- The send chunks of four concurrent calls (sender.rs:248-262) are made one after another; their answers are arbitrary, so their order does not matter for the journal.
- The RPC, receipts and wires: `rpc.rs`, `direct_state.rs`, `onebook_wire.rs`, `exposure_wire.rs`, `basket_wire.rs`, `receipt.rs` and their like are not part of this model; their answers are parameters.
- `Plan::from_publication` and `Plan::tranche` (investment.rs:32-38, 62): construct plans and fixed tranches that validation, ranges and admission then judge.
- Native pool mathematics (CLMM, DLMM, Whirlpool), `capsule.rs`, `catalog.rs`, `pyth.rs`, `mesh.rs`, `lookup_registry.rs`, `policy_bindings.rs`: not part of this model.
- Feed concurrency: publishers are taken to be serialized.
- Reflow.Execute: what a host shows depends only on the invocations made so far, as reads take `&self`; a host that changes between two reads of one round is not covered. Progress leaves MinOut open, which no plan can rule out against a host that fills at a worse price.
- ResidualGraph.ImprovingCycle: the order in which arcs are offered is the source's, but which of several improving cycles is found is not stated.
