# Corpus pipeline verification

This project models the deterministic core of the `160m-farmshare` corpus pipeline and proves what
its builders, writers and independent checkers promise each other. Random draws, hashes, ranks,
logits and the tokenizer are arbitrary inputs, so the theorems hold for every draw; the few hypotheses
about the tokenizer are named below.

The parts, by file:

* **Mask ledger.** `Tokens`, `PatternAutomaton`, `FailureLinks` and `PatternScan` build and run the
  multi-pattern automaton; `TaggedSweep` checks its matches against tagged spans in one pass;
  `ZeroRuns` compares a 0/1 sidecar with ranges through run-length canonical forms; `Spans`,
  `OccurrenceTable` and `OccurrenceLedger` hold the spool and its exact-key Random selection;
  `SidecarAudit` is the verifier; `DocumentMasks` derives the masks of a single document;
  `CorpusWriting`, `SchedulePlan`, `PlanTable` and `CorpusBuild` are the writer, the frozen plan and the
  replay of the one through the other, ending in a theorem that says exactly when a corpus is
  published and what each of its weights then is, read off the plan alone.
* **Padding and encoding.** `RecordPadding` serializes a row, finds the least padding that balances a
  record and carries the balance through encoding to the per-record supply check.
* **Mixture.** `GraphSchedule` renders passes over the graph facts, `MixturePlan` is the deficit rule
  and `MixtureLoop` the planning loop over its streams.
* **Worlds and twins.** `WorldSizes` divides the entities, `SchemaWorlds` plans a world and its entity
  rows, `LiteralValues` and `LiteralWorlds` add the literal rows, `SplitCompositions` plans the paths,
  `CounterfactualPairs` and `LiteralPairs` make the twins of the three tasks, and `EvalPairs` puts them
  together over any generated world and planned split.
* **Wikidata paths.** `GraphRows`, `WikidataPaths`, `WikidataTwins`, `WikidataBuild` and
  `WikidataRun` are the builder and its accounting, `WikidataOutcomes` says what the selected triples
  alone make of each root, and `PathReplay` holds the two independent checks.
* **Deduction.** `HornClosure` is the oracle, `DeductionDraws` what the draws alone call for,
  `DeductionBuild` the generator, and `DeductionProblem` shows that the oracle never rejects a candidate
  and that the draws foretell its size.
* **Modular arithmetic problems.** `IgsmProblems` generates and evaluates; `LazyRegex`, `IgsmText`,
  `IgsmPrompt` and `IgsmRoundTrip` take a problem through its shuffled text and back.
* **Constrained decoding.** `QueryTries`, `Decoding`, `QuerySegments` and `BatchDecoding`.
* **Streaming selection.** `HashmapSelection` and `HashmapBuild`.

Run `dafny verify dfyconfig.toml`.

Where the proofs found more than the code says:

* The ledger's span check only looks at the largest end. Its message speaks of the full record
  length, but gaps between spans are accepted, and the model accepts them (`mask_ledger.py:289-295`).
* Several later checks cannot fail once earlier ones hold: the token-mass comparison, the protected
  roles, the pending demands and the replay totals of the mask ledger; the path accounting
  constructors; every oracle test of the deduction generator; the reconciliation of the hash map.
* A deduction problem deeper than 8 can never be generated: every candidate has too many rules.
* The planning loop meets its rounding report except when the alias records alone exceed graph's
  target by more than ten of the longest of them (`MixtureLoop.RoundingExactly`), and the 7:2:1 report
  fails exactly when the alias records already fill graph's target.
* A record that `CorpusWriter.add` refuses can still move the writer's payload counters: they are
  incremented before the ledger may refuse. `CorpusWriting.RefusalMovesCounters` is such a record,
  `CorpusWriter.Add` says exactly when a counter stays, and after such a refusal the counters differ
  from the audited masses, which remain those of the table (`CorpusWriter.Finalize`).
* Padding and control blocks take for granted that n tabs encode to n tokens. `RecordPadding` has this
  as the explicit hypothesis `CountsTabs`, and `TabsMustCount` shows that it is needed. `RenderFact`
  also supposes that only the empty text encodes to nothing and that JSON strings are not empty.
* A date pair can fail to be found in a schema-shaped world only when every draw is of two entities
  whose local ids agree modulo 168000; smaller worlds never lack one.
* A failed `finalize_random` rolls back its tables but not the positions of the sidecar it has
  already zeroed; the model does the same.

## Model

| member | source | states |
|---|---|---|
| PatternAutomaton.BuildTrie | 160m-farmshare/corpusgen/mask_ledger.py:659-672 | for distinct nonempty patterns, the lists grown in place form a trie: every state spells one word, each word once, and each pattern ends at its own state |
| PatternAutomaton.Advance | 160m-farmshare/corpusgen/mask_ledger.py:692-695 | reading a token moves from the longest known suffix of the text read so far to the longest known suffix of the text with that token |
| FailureLinks.LinkFailures | 160m-farmshare/corpusgen/mask_ledger.py:673-684 | after the breadth-first pass each failure link is the longest proper suffix that the trie knows, and each output list names exactly the patterns that end there, longest first |
| FailureLinks.ShallowQueued | 160m-farmshare/corpusgen/mask_ledger.py:673-684 | breadth-first order: while a state is expanded, every state no deeper has been queued, so the links it follows are final |
| PatternScan.IterRecordRanges | 160m-farmshare/corpusgen/mask_ledger.py:709-744 | accepts exactly the well-formed schedules whose nonempty rows partition the token stream |
| PatternScan.IterPatternMatches | 160m-farmshare/corpusgen/mask_ledger.py:654-706 | yields exactly the ranges inside one record whose tokens are a pattern, each once and in nondecreasing end order, whatever the chunk boundaries |
| PatternScan.ScanRecord | 160m-farmshare/corpusgen/mask_ledger.py:690-706 | one record scanned chunk by chunk adds the occurrences inside it and nothing else, starting from the root |
| TaggedSweep.SkipIsFinal | 160m-farmshare/corpusgen/mask_ledger.py:850-885 | skipping a payload span that ends before the current match is final, although later matches may start earlier |
| TaggedSweep.RequireInventoryMatchesTagged | 160m-farmshare/corpusgen/mask_ledger.py:850-885 | the one forward sweep accepts if and only if every direct occurrence of a payload lies in a payload span whose fact may be told by it; otherwise it reports the first violation by end and says which kind it is |
| TaggedSweep.RequireNoProtectedPatterns | 160m-farmshare/corpusgen/mask_ledger.py:888-902 | accepts if and only if no protected payload occurs inside a record |
| ZeroRuns.CanonicalUnique | 160m-farmshare/corpusgen/mask_ledger.py:939-970 | two lists of maximal runs that cover the same positions are the same list |
| ZeroRuns.IterWeightZeroRuns | 160m-farmshare/corpusgen/mask_ledger.py:598-617 | succeeds exactly on a 0/1 sidecar of the right length and yields the maximal runs of its zeros |
| ZeroRuns.IterMergedRanges | 160m-farmshare/corpusgen/mask_ledger.py:620-634 | succeeds exactly on nonempty, sorted, disjoint ranges and yields the maximal runs of their union |
| ZeroRuns.CheckSidecar | 160m-farmshare/corpusgen/mask_ledger.py:939-970 | accepts if and only if the zero positions are the union of the ranges; the masked-token count is then both the ranges' total length and the number of zeros |
| Spans.ValidatedLength | 160m-farmshare/corpusgen/mask_ledger.py:71-90 | accepts exactly the nonempty non-overlapping spans, in whatever order, whose payloads name a fact, and returns the largest end |
| Spans.SortTally | 160m-farmshare/corpusgen/mask_ledger.py:74-74 | a sum over spans does not depend on their order |
| Spans.RequireLocalSupply | 160m-farmshare/corpusgen/schedule_plan.py:83-105 | accepts exactly the records in which every payload has a Random control of its own length whose midpoint lies in the same tenth of the document, one each; a refused record is short for the reported length and tenth |
| Spans.BinIsTenth | 160m-farmshare/corpusgen/graph_records.py:23-36 | a span's bin is the one tenth of the document that holds its midpoint, told without dividing; the last tenth is closed at its end |
| Spans.CountIsMatching | 160m-farmshare/corpusgen/schedule_plan.py:83-105 | the count of a key is the number of spans of its role with that length and tenth |
| OccurrenceTable.EqualMass | 160m-farmshare/corpusgen/mask_ledger.py:1035-1108 | row sets with equal (length, bin) histograms have equal token mass |
| OccurrenceLedger.OccurrenceSpool.AddRecord | 160m-farmshare/corpusgen/mask_ledger.py:273-365 | accepts exactly the next contiguous record with well-formed spans that reach its last token, and then appends one row per span in token order |
| OccurrenceLedger.RowsSay | 160m-farmshare/corpusgen/mask_ledger.py:297-326 | each row holds its span's place in the stream, its length and the tenth of its midpoint, its metadata and payload tokens, and whether the route policy sends its fact to the store |
| OccurrenceLedger.OccurrenceSpool.RandomDeficits | 160m-farmshare/corpusgen/mask_ledger.py:382-393 | reports the exact shortfall of every undersupplied key and no other; none means that every key is supplied |
| OccurrenceLedger.OccurrenceSpool.FinalizeRandom | 160m-farmshare/corpusgen/mask_ledger.py:395-482 | when it succeeds, per key as many controls are selected as there are payloads, they are the lowest-ranked ones, and exactly their positions are zeroed; each failure, a closed spool among them, is characterised exactly, the all-ones refusal by a position of a candidate that would be selected, and leaves the tables alone |
| OccurrenceLedger.ChooseLowest | 160m-farmshare/corpusgen/mask_ledger.py:437-450 | the chosen candidates are the lowest-ranked of the key, ties broken by span id |
| SidecarAudit.MassCheckRedundant | 160m-farmshare/corpusgen/mask_ledger.py:1035-1108 | after equal histograms the separate token-mass comparison cannot fail |
| SidecarAudit.ProtectedCheckRedundant | 160m-farmshare/corpusgen/mask_ledger.py:1035-1108 | a Random sidecar that agrees with the selected controls masks no protected row |
| SidecarAudit.VerifyWeightSidecars | 160m-farmshare/corpusgen/mask_ledger.py:1009-1154 | passes if and only if Random was finalized, all four sidecars are zero exactly on their rows, the histograms agree and the content checks hold; the reported masses are those of the rows |
| SidecarAudit.CheckContent | 160m-farmshare/corpusgen/mask_ledger.py:637-651 | the payload, inventory, count, schedule, leakage and protected-pattern checks pass exactly when their declarative counterparts hold |
| DocumentMasks.DeriveWeightSidecars | 160m-farmshare/corpusgen/mask_ledger.py:100-142 | derives the four sidecars exactly when the spans are well formed and every payload has a control of its length and tenth: Split is zero exactly under the payloads, Selective exactly under those whose fact has a cost that the route policy sends to the store, Dense nowhere; they pass the verifier's sidecar and histogram checks whatever is sampled |
| DocumentMasks.WeighsPaid | 160m-farmshare/corpusgen/mask_ledger.py:56-68 | the spans given weight by each condition are the payloads, and those of them whose fact is sent to the store |
| DocumentMasks.DocumentBalances | 160m-farmshare/corpusgen/mask_ledger.py:100-142 | Random and Split have the same number of zeros |
| DocumentMasks.DocumentKeepsProtected | 160m-farmshare/corpusgen/mask_ledger.py:100-142 | Random is one on every protected span |
| CorpusWriting.EnoughGrows | 160m-farmshare/corpusgen/relational_build.py:638-654 | supply in each record keeps every key of the whole corpus supplied |
| CorpusWriting.FinalizedIsSound | 160m-farmshare/corpusgen/mask_ledger.py:395-482 | after finalization of consistent files, every sidecar and histogram check of the verifier holds |
| CorpusWriting.CorpusWriter.Add | 160m-farmshare/corpusgen/relational_build.py:625-699 | accepts exactly the acceptable records, and each refusal is characterised; files and tables then stay consistent and a refused record leaves them alone, but it leaves the payload counters alone exactly when it was refused before the counting loop or has nothing to count; accepted records keep the counters in agreement with the table |
| CorpusWriting.RefusalMovesCounters | 160m-farmshare/corpusgen/relational_build.py:625-699 | a record with an empty component passes the supply check, is counted, and only then refused: the counters no longer agree with the table |
| CorpusWriting.CountersMove | 160m-farmshare/corpusgen/relational_build.py:660-682 | the counting loop leaves a counter alone exactly when it sees no span to count |
| CorpusWriting.CorpusWriter.Finalize | 160m-farmshare/corpusgen/relational_build.py:729-787 | after any run of records, whether or not the writer was closed, the only checks that can fail are the content checks; on success Random has Split's mass, and the audited masses are the table's, which are the writer's counters exactly when those still agree with the table; otherwise every artifact is removed; a published writer returns its stored audit, and an aborted one finds its ledger closed |
| SchedulePlan.SchedulePlanSpool.AddRecord | 160m-farmshare/corpusgen/schedule_plan.py:107-154 | plans exactly the supplied records of a named component while the plan is open |
| SchedulePlan.SchedulePlanSpool.PayloadOccurrenceCounts | 160m-farmshare/corpusgen/schedule_plan.py:208-245 | succeeds exactly when every payload has complete metadata and counts every identity exactly |
| SchedulePlan.CountableMeans | 160m-farmshare/corpusgen/schedule_plan.py:208-245 | countable metadata is a fact, a field and a text, none of them empty, on a range inside the record |
| PlanTable.PlacesLedgered | 160m-farmshare/corpusgen/relational_build.py:638-654 | the ledger order lists every planned span once, record by record and by position |
| PlanTable.TableTells | 160m-farmshare/corpusgen/mask_ledger.py:297-326 | the rows of the table are the planned spans at their stream offsets, with their lengths, tenths and routes |
| PlanTable.MasksFollowPlan | 160m-farmshare/corpusgen/mask_ledger.py:56-68 | sidecars that are zero on the right rows are zero exactly under the planned payloads, and under those sent to the store |
| PlanTable.SelectionIsDrawn | 160m-farmshare/corpusgen/mask_ledger.py:395-482 | the selected rows are planned controls, of each length and tenth as many as payloads, those of lowest rank and earliest place |
| CorpusBuild.BoundKeepsPatterns | 160m-farmshare/corpusgen/payload_inventory.py:145-192 | binding counts changes no train pattern, no fact that may be told, and no protected pattern |
| CorpusBuild.FrozenCountsMet | 160m-farmshare/corpusgen/mask_ledger.py:814-847 | the counts frozen from the plan are the ones the verifier observes in the ledger |
| CorpusBuild.FrozenScheduleSound | 160m-farmshare/corpusgen/schedule_plan.py:199-206 | the schedule written from a plan partitions its stream exactly when there is a record and none is empty |
| CorpusBuild.FrozenContent | 160m-farmshare/corpusgen/mask_ledger.py:1009-1154 | with counts, inventory and schedule frozen from one plan, the content checks come down to nonempty records, some payload, and no leak |
| CorpusBuild.BuildCorpus | 160m-farmshare/corpusgen/relational_build.py:2345-2477 | publishes exactly the publishable plans; the stream is the records laid end to end, Split and Selective are zero exactly under the planned payloads and under those the route policy sends to the store, Random under the lowest-ranked controls, as many of each length and tenth as there are payloads; no sidecar, histogram, mass or replay-total check can fail |
| HornClosure.ForwardChain | 160m-farmshare/corpusgen/deduction.py:54-69 | chaotic iteration ends with the least rule-closed superset of the facts, whatever the order of people |
| HornClosure.ClosureLevel | 160m-farmshare/corpusgen/deduction.py:72-92 | returns the first parallel level that holds the query, or none exactly when the closure lacks it |
| HornClosure.LevelIsHeight | 160m-farmshare/corpusgen/deduction.py:72-92 | level n holds exactly the atoms with a derivation of height at most n |
| DeductionBuild.Build | 160m-farmshare/corpusgen/deduction.py:106-184 | for every draw the candidate has the promised chain and helpers and repeats no rule; its distractor rules are the usable draws in order, each once, until as many as wanted are listed or all 300 are used, and its facts are the given ones and the drawn ones by the same measure |
| DeductionBuild.AddDistractorRules | 160m-farmshare/corpusgen/deduction.py:146-165 | the rules past the chain are the usable draws, each once and in the order drawn, and it stops at the wanted number or with every draw used |
| DeductionBuild.AddDistractorFacts | 160m-farmshare/corpusgen/deduction.py:171-181 | the facts are the given ones and the drawn ones up to the first draw at which there are as many as wanted, or all of them |
| DeductionDraws.RulesCounted | 160m-farmshare/corpusgen/deduction.py:146-165 | how many rules are built follows from the draws: the wanted number, or the chain and every different usable draw when they are fewer |
| DeductionDraws.FactsCounted | 160m-farmshare/corpusgen/deduction.py:171-181 | how many facts are told follows from the draws in the same way, from the number given |
| DeductionDraws.GivenCounted | 160m-farmshare/corpusgen/deduction.py:121-144 | the given facts are one and the helpers, twice that with a mirror person |
| DeductionProblem.YesLevel | 160m-farmshare/corpusgen/deduction.py:200-202 | a YES query is derived at level exactly `depth` |
| DeductionProblem.YesNeedsLastRule | 160m-farmshare/corpusgen/deduction.py:203-205 | without the last chain rule the YES query is underivable |
| DeductionProblem.NoUnderivable | 160m-farmshare/corpusgen/deduction.py:206-211 | a NO query is underivable, mirror person or not, and its predicate is some rule's conclusion |
| DeductionProblem.MirrorDerives | 160m-farmshare/corpusgen/deduction.py:134-151 | the mirror person does derive the queried predicate |
| DeductionProblem.ProofSound | 160m-farmshare/corpusgen/deduction.py:221-234 | whatever a valid line-by-line proof shows is in the closure |
| DeductionProblem.Reasoning | 160m-farmshare/corpusgen/deduction.py:221-234 | the reasoning told for a YES problem is a valid proof that states base facts at most once, quotes every chain rule and ends in the query |
| DeductionProblem.OracleAccepts | 160m-farmshare/corpusgen/deduction.py:197-211 | the oracle rejects no candidate |
| DeductionProblem.GenerateProblem | 160m-farmshare/corpusgen/deduction.py:187-254 | the first draws that foretell a fitting size give the problem, and it fails exactly when none of the 500 do; only its size rejects a candidate; past depth 8 every one is rejected, and up to it (4 for NO) only candidates that are too small |
| QueryTries.KeysOfAre | 160m-farmshare/evals/constrain.py:112-120 | the keys are exactly the encodings of a span, a comma and a relation |
| QueryTries.QueryTrie.Insert | 160m-farmshare/evals/constrain.py:112-120 | inserting along linked nodes adds exactly one key |
| QueryTries.NoDeadEnd | 160m-farmshare/evals/constrain.py:133-137 | a walker on the way to a key has a next token |
| QueryTries.QueryWalker.Allowed | 160m-farmshare/evals/constrain.py:133-137 | the allowed ids are exactly the tokens that stay on the way to a key, or the retrieve token at its end; none only if there is no key |
| QueryTries.QueryWalker.Advance | 160m-farmshare/evals/constrain.py:139-144 | the cursor follows what was spelled, and starts over off the trie |
| Decoding.AlwaysBalanced | 160m-farmshare/evals/generate.py:54-82 | at every point of every text lookups are hits or misses, and opened queries are looked up, malformed or the one still open |
| Decoding.HitIsSpelled | 160m-farmshare/evals/generate.py:54-82 | after a hit the text goes on with the tokens of its value and then the closing token, position by position as far as it goes, and opens no query before they end |
| QuerySegments.FollowsIffSegmented | 160m-farmshare/evals/generate.py:54-82 | a text spells out its hits if and only if it can be cut into plain tokens, queries of fewer than 32 tokens with the answer they get and spell, and queries abandoned at the 32nd token, all but the last piece whole; and every such cut counts what the protocol counts |
| QuerySegments.PiecesAreRead | 160m-farmshare/evals/generate.py:54-82 | reading any such pieces, the protocol stands where the last of them stands |
| Decoding.RetrieveLeaves | 160m-farmshare/evals/constrain.py:139-144 | the retrieve token never continues a key |
| Decoding.Row.AdvanceState | 160m-farmshare/evals/generate.py:54-82 | the row and the counters move as the lookup protocol does |
| Decoding.Row.Choose | 160m-farmshare/evals/generate.py:142-201 | inside a constrained query the chosen token is the best allowed one; elsewhere it is the model's |
| Decoding.Row.Step | 160m-farmshare/evals/generate.py:142-201 | one decoding step keeps row, cursor, protocol and counters together, and appends at most one token |
| BatchDecoding.Window | 160m-farmshare/evals/generate.py:114-127 | prompt and continuation fit the context |
| BatchDecoding.ClampedKeeps | 160m-farmshare/evals/generate.py:114-127 | a prompt keeps its end, cut only when it is too long to leave room for the new tokens or half the context, whichever is less, and never below eight tokens |
| BatchDecoding.TalliesBalance | 160m-farmshare/evals/generate.py:142-201 | over all rows the counters balance |
| BatchDecoding.GenerateBatch | 160m-farmshare/evals/generate.py:85-204 | each token of a text is forced by a hit, or the best allowed one of its row's keys inside a constrained query, or the model's choice, and a text stops only at `max_new`, at its end-of-text token, or when the context is full; each text is cut into plain tokens, answered queries followed by their value and the closing token, and abandoned ones, and the counters are those of these pieces; they balance, no dead end occurs when each trie has a key, and every query of a constrained row is a whole key |
| GraphRows.NumberPrints | 160m-farmshare/corpusgen/wikidata_path_replay.py:27-33 | reading a decimal and printing it are inverse |
| PathReplay.Replay | 160m-farmshare/corpusgen/wikidata_path_replay.py:36-54 | accepts exactly the contiguous chains of entity rows and returns their end |
| PathReplay.ReplayAndValidate | 160m-farmshare/corpusgen/wikidata_path_replay.py:80-203 | accepts exactly the twin sets |
| PathReplay.RepeatsShrink | 160m-farmshare/corpusgen/wikidata_path_replay.py:88-92 | a list of addresses has as many members as places exactly when none repeats |
| PathReplay.LookupMaterialized | 160m-farmshare/corpusgen/wikidata_path_replay.py:226-301 | finds the one walk that the stored rows and the declared change confirm, if there is one |
| PathReplay.AuditMaterialized | 160m-farmshare/corpusgen/wikidata_path_replay.py:304-405 | succeeds exactly when the two artifacts pair up and every pair is confirmed, and counts both items of each |
| WikidataPaths.FinalizeAddresses | 160m-farmshare/corpusgen/wikidata_paths.py:721-795 | the unique table holds exactly the addresses with one object, the ambiguous one those with more |
| WikidataPaths.AddressesBalance | 160m-farmshare/corpusgen/wikidata_paths.py:805-831 | source addresses are unselected, ambiguous or unique, and only one of them |
| WikidataPaths.AlternativeTarget | 160m-farmshare/corpusgen/wikidata_paths.py:894-920 | the cyclic successor in the relation's range, none exactly when the range is that target alone |
| WikidataPaths.SuccessorsDiffer | 160m-farmshare/corpusgen/wikidata_paths.py:894-920 | no two targets share an alternative |
| WikidataPaths.WalksHaveShape | 160m-farmshare/corpusgen/wikidata_paths.py:1209-1333 | every walk is contiguous, in cyclic relation order, with pairwise distinct addresses |
| WikidataPaths.StaysStopped | 160m-farmshare/corpusgen/wikidata_paths.py:1209-1333 | a failed walk stays failed, for the same reason |
| WikidataOutcomes.OutcomeEnds | 160m-farmshare/corpusgen/wikidata_paths.py:1209-1333 | the outcome of a root at a hop, read off the triples: a path of sole rows in cyclic order whose relation reaches another object or not, or a shorter path whose next address is missing, ambiguous or repeated |
| WikidataOutcomes.OneOutcome | 160m-farmshare/corpusgen/wikidata_paths.py:1209-1333 | no root has two outcomes at a hop |
| WikidataOutcomes.RangeOfLast | 160m-farmshare/corpusgen/wikidata_paths.py:894-920 | the alternative is the next larger object that a unique address of the relation reaches, or the least one after the largest |
| WikidataTwins.AnswersFlip | 160m-farmshare/corpusgen/wikidata_paths.py:1025-1165 | original and counterfactual answers are what their endpoints call for, and differ |
| WikidataTwins.EmittedTwins | 160m-farmshare/corpusgen/wikidata_paths.py:1025-1165 | the row replay accepts whatever is emitted for a path and another object of its last relation's range |
| WikidataTwins.OverlayWalks | 160m-farmshare/corpusgen/wikidata_path_replay.py:226-301 | with one row overlaid at the last address every other address still returns its base row |
| WikidataTwins.EmittedConfirmed | 160m-farmshare/corpusgen/wikidata_path_replay.py:304-405 | the audit confirms each emitted pair on any store that holds the path |
| WikidataBuild.OutcomeKinds | 160m-farmshare/corpusgen/wikidata_paths.py:1209-1333 | each root has one of five outcomes at each hop |
| WikidataBuild.CountsCover | 160m-farmshare/corpusgen/wikidata_paths.py:128-149 | each root is counted exactly once per hop |
| WikidataBuild.CheckedTwins | 160m-farmshare/corpusgen/wikidata_paths.py:1264-1299 | replay, emission and validation of a surviving path never fail |
| WikidataBuild.TotalBalances | 160m-farmshare/corpusgen/wikidata_paths.py:202-232 | totals of balanced hops balance, so the accounting checks cannot raise |
| WikidataBuild.SurvivorTotal | 160m-farmshare/corpusgen/wikidata_paths.py:1209-1333 | as many paths are emitted as survivors are counted |
| WikidataBuild.WritePaths | 160m-farmshare/corpusgen/wikidata_paths.py:1181-1333 | on any source the per-hop and total accounting is that of the outcomes, and one emission is logged per survivor, in order, under the key of its root and hop count |
| WikidataRun.OutputConfirmed | 160m-farmshare/corpusgen/wikidata_path_replay.py:304-405 | the published store confirms every emitted pair |
| WikidataRun.BuildWikidataPaths | 160m-farmshare/corpusgen/wikidata_paths.py:1448-1624 | on every set of triples nothing fails: per hop the counts are the numbers of roots that the triples give each outcome, there is one emission per survivor, with its own end and the next one its relation reaches, under the key of its root and hop count, its four questions and answers are spelled out, exactly the emitted rows are published, each its address's only object, and the audit counts four items per surviving path |
| WikidataRun.CountIsEnded | 160m-farmshare/corpusgen/wikidata_paths.py:1209-1333 | a count of an outcome is the number of the roots that the triples give it |
| WikidataRun.WrittenIsAsked | 160m-farmshare/corpusgen/wikidata_paths.py:1025-1165 | the four items of a path ask for its end or whether it is the one the key picked, and the counterfactual answers are those of the other end |
| WikidataRun.EmittedKeysDiffer | 160m-farmshare/corpusgen/wikidata_paths.py:1168-1178 | when the digest has no collisions, no two emissions share a key |
| SchemaWorlds.RatioIsNearest | 160m-farmshare/corpusgen/srgm_worlds.py:290-293 | the nearest integer to the scaled ratio, halves upward |
| SchemaWorlds.SizeFits | 160m-farmshare/corpusgen/srgm_worlds.py:374-417 | an accepted size has no more objects than subjects than entities, a required relation has a subject, and subjects have objects |
| SchemaWorlds.SizeAccepted | 160m-farmshare/corpusgen/srgm_worlds.py:374-417 | statistics with at least one object and no more objects than subjects are never refused |
| SchemaWorlds.SizeMeans | 160m-farmshare/corpusgen/srgm_worlds.py:374-417 | the exact size or refusal, given the two nearest integers |
| SchemaWorlds.MakePlan | 160m-farmshare/corpusgen/srgm_worlds.py:370-431 | all sizes, the required relations and the smallest required subject count as backbone, with every error accounted for |
| SchemaWorlds.PoolCovered | 160m-farmshare/corpusgen/srgm_worlds.py:438-459 | every target of the pool is some source's target |
| SchemaWorlds.RowMap | 160m-farmshare/corpusgen/srgm_worlds.py:687-691 | one row an address, or the duplicate error |
| SchemaWorlds.GenerateRows | 160m-farmshare/corpusgen/srgm_worlds.py:433-495 | the rows generated are exactly the planned cells, at distinct addresses |
| SchemaWorlds.CellsRead | 160m-farmshare/corpusgen/srgm_worlds.py:433-495 | each source of each relation has one row and each row is such a source: compose codes move by one modulo four with the source and with the relation, and of a required relation the first source and those within a quarter of the backbone are central |
| SchemaWorlds.ExactCounts | 160m-farmshare/corpusgen/srgm_worlds.py:433-495 | every entity relation has exactly its planned number of subjects and hits exactly its planned number of distinct objects |
| CounterfactualPairs.WorldsAreClosed | 160m-farmshare/corpusgen/srgm_worlds.py:438-459 | from the backbone every required relation leads to the backbone |
| CounterfactualPairs.PathsStay | 160m-farmshare/corpusgen/srgm_worlds.py:752-769 | from a reasoning entity every path over required relations, of any length, finds its rows and stays in the backbone |
| CounterfactualPairs.Follow | 160m-farmshare/corpusgen/srgm_worlds.py:752-769 | succeeds exactly when every row on the way exists, and returns the end, the rows read and the composed code |
| CounterfactualPairs.SameEntities | 160m-farmshare/corpusgen/srgm_worlds.py:1093-1121 | re-following the world with the one edited row visits the same entities |
| CounterfactualPairs.EditedCode | 160m-farmshare/corpusgen/srgm_worlds.py:1100-1121 | the edited path composes to the next code modulo four, a different one |
| CounterfactualPairs.PairCodesMove | 160m-farmshare/corpusgen/srgm_worlds.py:1093-1121 | the answer is the sum of the codes modulo four; the edit moves one code, and the answer, one further modulo four |
| CounterfactualPairs.MakePathPair | 160m-farmshare/corpusgen/srgm_worlds.py:1080-1124 | a pair is made exactly when the path can be followed and some relation occurs once in it; the edited world reads to the flipped answer, and the assertion cannot fail |
| SplitCompositions.NthDiffer | 160m-farmshare/corpusgen/world_splits.py:1134-1137 | the product enumerates no tuple twice |
| SplitCompositions.NthOfEvery | 160m-farmshare/corpusgen/world_splits.py:1134-1137 | every tuple of the relations has its place in the product |
| SplitCompositions.FoundExactly | 160m-farmshare/corpusgen/world_splits.py:1134-1146 | a tuple is found exactly when it is among the candidates, its bucket is in range and, beyond one hop, some relation of it occurs once |
| SplitCompositions.CompositionsFor | 160m-farmshare/corpusgen/world_splits.py:1125-1151 | returns the first wanted compositions in product order, or fails exactly when the candidates hold too few |
| SplitCompositions.BuildSplitPlan | 160m-farmshare/corpusgen/world_splits.py:1159-1263 | a plan is built exactly when there is a relation and every split finds enough compositions of every hop count; each split then holds distinct compositions of its own bucket range, one or two of each hop count, each with a relation that occurs once |
| SplitCompositions.SplitsDisjoint | 160m-farmshare/corpusgen/world_splits.py:1274-1304 | training, development and held-out compositions are disjoint, and the seen ones are training ones |
| SplitCompositions.PlannedPairsAreMade | 160m-farmshare/corpusgen/srgm_worlds.py:1080-1124 | in a generated world a planned composition always yields a counterfactual pair |
| LiteralPairs.LessTotal | 160m-farmshare/corpusgen/srgm_worlds.py:1149-1153 | string comparison is a strict total order |
| LiteralPairs.LessMeans | 160m-farmshare/corpusgen/srgm_worlds.py:1149-1153 | one string comes before another when it is a proper beginning of it or smaller at the first difference |
| LiteralPairs.DatePair | 160m-farmshare/corpusgen/srgm_worlds.py:939-956 | returns the first drawn pair whose dates differ, in the wanted order, or none exactly when no draw differs |
| LiteralPairs.MakeDateTwin | 160m-farmshare/corpusgen/srgm_worlds.py:1139-1228 | for any two values the pair is made exactly when moving slot zero's date to the far end flips which slot is earlier |
| LiteralPairs.FarDateFlips | 160m-farmshare/corpusgen/srgm_worlds.py:1139-1228 | of two different dates behind one prefix the far end keeps the prefix and always flips the answer, so the assertion cannot fail |
| LiteralPairs.CategoriesDiffer | 160m-farmshare/corpusgen/srgm_worlds.py:999-1006 | the different category is different for every string |
| LiteralPairs.NextCategory | 160m-farmshare/corpusgen/srgm_worlds.py:999-1006 | after a numbered category comes the next of sixty-four |
| LiteralPairs.CategoryPair | 160m-farmshare/corpusgen/srgm_worlds.py:971-996 | finds two entities that agree, or that do not, exactly when there are such |
| LiteralPairs.MakeEqualityTwin | 160m-farmshare/corpusgen/srgm_worlds.py:1190-1211 | the edited category flips equality |
| LiteralPairs.CategoriesSuffice | 160m-farmshare/corpusgen/srgm_worlds.py:318-340 | when local ids take their categories in turn, as the literal values do, sixteen entities suffice for both kinds of category pair |
| LiteralValues.DateStringIsDate | 160m-farmshare/corpusgen/srgm_worlds.py:328-332 | a zero-padded date with a four-digit year is ten characters without a colon |
| LiteralValues.DatesDiffer | 160m-farmshare/corpusgen/srgm_worlds.py:328-332 | a zero-padded date string determines its year, month and day |
| LiteralValues.DatesCoincide | 160m-farmshare/corpusgen/srgm_worlds.py:318-340 | two entities of a schema-shaped world have the same date exactly when their local ids agree modulo 168000 |
| LiteralValues.CategoriesOfDiffer | 160m-farmshare/corpusgen/srgm_worlds.py:318-340 | different category numbers of a relation are different categories |
| LiteralValues.ValueSays | 160m-farmshare/corpusgen/srgm_worlds.py:318-340 | the text of a literal of each kind: its namespace and relation, and then the date, number, category or local id in decimals |
| LiteralValues.LegacyDates | 160m-farmshare/corpusgen/srgm_worlds.py:251-253 | the dates of a legacy world are dates, and in a world of two entities or more not all the same, whatever is drawn |
| LiteralValues.ShuffledCategoriesSuffice | 160m-farmshare/corpusgen/srgm_worlds.py:187-195 | however the categories of sixteen entities or more are shuffled, two agree and two do not |
| LiteralWorlds.GenerateSchemaWorld | 160m-farmshare/corpusgen/srgm_worlds.py:343-612 | a whole world: its rows are exactly the planned entity cells and one literal row of every literal relation for every entity, at distinct addresses; every refusal is accounted for |
| LiteralWorlds.CountIs | 160m-farmshare/corpusgen/srgm_worlds.py:343-368 | counting the literal relations of a kind counts their places |
| LiteralWorlds.LiteralSays | 160m-farmshare/corpusgen/srgm_worlds.py:318-340 | a literal row says of its entity what its relation, its place and its local id call for; it has no compose code and is not central |
| LiteralWorlds.WorldHasBoth | 160m-farmshare/corpusgen/srgm_worlds.py:343-612 | every generated world has central and peripheral facts |
| LiteralWorlds.RenderGenerated | 160m-farmshare/corpusgen/srgm_worlds.py:1519-1608 | a pass over generated worlds renders every fact and never stops for a missing audit class |
| EvalPairs.IdsAreSources | 160m-farmshare/corpusgen/srgm_worlds.py:694-698 | the entity ids of a generated world are exactly the sources of its facts, as many as there are names |
| EvalPairs.CompositionsExist | 160m-farmshare/corpusgen/srgm_worlds.py:729-749 | a planned split has a composition for every hop count that may be asked for |
| EvalPairs.MakeDatePair | 160m-farmshare/corpusgen/srgm_worlds.py:1126-1176 | in a generated world a date pair is found, in the wanted order, unless all thousand draws are of entities whole periods apart, and it flips |
| EvalPairs.SmallWorldsDraw | 160m-farmshare/corpusgen/srgm_worlds.py:939-956 | up to 168000 entities a single draw of two different ones has different dates |
| EvalPairs.MakeCategoryPair | 160m-farmshare/corpusgen/srgm_worlds.py:1190-1211 | a generated world of sixteen entities or more always has the wanted category pair, and it flips |
| EvalPairs.GenerateEvalPairs | 160m-farmshare/corpusgen/srgm_worlds.py:1016-1279 | over any generated world and planned split all three tasks yield their pairs: the path pairs ask the split's paths of allowed length, in the plan's order and in turn, and their codes move by one modulo four; date pairs have the earlier date first at even turns and last at odd ones, equality pairs agree at even turns, and every edit reverses the answer; it fails only for a hop count outside one to six, for fewer than sixteen entities, or when no draw of some index has different dates |
| EvalPairs.CompositionsAre | 160m-farmshare/corpusgen/srgm_worlds.py:729-749 | training and development ask their own paths of at most so many hops, both protected splits the seen and held-out ones of exactly so many |
| EvalPairs.DateFlipsSays | 160m-farmshare/corpusgen/srgm_worlds.py:1126-1176 | what a flipping date pair says of the order of its dates before and after the edit |
| WorldSizes.IterWorldSizes | 160m-farmshare/corpusgen/srgm_worlds.py:622-648 | all entities are divided, evenly when possible, into worlds of at least sixteen and no larger than asked, but for one that must take a remainder in |
| WorldSizes.IterWorlds | 160m-farmshare/corpusgen/srgm_worlds.py:651-684 | each entity id of the range belongs to exactly one world, and no other id to any |
| WorldSizes.PlanReads | 160m-farmshare/corpusgen/srgm_worlds.py:862-887 | a completed plan has six actions, reads exactly what was asked and halts right after |
| WorldSizes.PlansDiffer | 160m-farmshare/corpusgen/srgm_worlds.py:862-887 | different requests complete to different plans |
| RecordPadding.RoleKeyCounts | 160m-farmshare/corpusgen/srgm_worlds.py:1457-1473 | counts a role by exact key |
| RecordPadding.BalanceRecord | 160m-farmshare/corpusgen/srgm_worlds.py:1476-1516 | returns the least padding within the bound that gives every payload key enough controls; fails only when there is none |
| RecordPadding.CoveredNeedsLengths | 160m-farmshare/corpusgen/srgm_worlds.py:1476-1516 | any padding that balances needs controls to cover payloads length by length |
| RecordPadding.NineTimesSuffices | 160m-farmshare/corpusgen/srgm_worlds.py:1476-1516 | nine times the record's own length always suffices when the lengths are covered |
| RecordPadding.BalanceWithRoom | 160m-farmshare/corpusgen/srgm_worlds.py:1476-1516 | with that much room the search succeeds if and only if the lengths are covered |
| RecordPadding.ReturnBlocks | 160m-farmshare/corpusgen/srgm_worlds.py:1618-1636 | the blocks wrap each payload between two controls of tabs; when n tabs are n tokens this covers the lengths, and no payload or control can merge with its neighbour when other segments separate the payloads |
| RecordPadding.TabsMustCount | 160m-farmshare/corpusgen/srgm_worlds.py:1618-1636 | a lone payload is covered by its block exactly when as many tabs as it has tokens encode to that many tokens |
| RecordPadding.SerializedReturns | 160m-farmshare/corpusgen/graph_trace.py:32-75 | the returned segments of any row separate its payloads, each of which carries its fact, field and text |
| RecordPadding.QualifierAt | 160m-farmshare/corpusgen/graph_trace.py:32-75 | the three segments of each qualifier, from the second on after a comma |
| RecordPadding.EncodeRecord | 160m-farmshare/corpusgen/relational_build.py:411-477 | the spans are the maximal runs of equal tokens, payloads carry their fact's cost, and a boundary span closes the record |
| RecordPadding.RunsUnique | 160m-farmshare/corpusgen/relational_build.py:437-477 | a token list has only one list of maximal runs |
| RecordPadding.MergedCounts | 160m-farmshare/corpusgen/relational_build.py:437-477 | when no counted segment merges with its neighbour, encoding changes no payload or control count |
| RecordPadding.EncodedRecordIsSupplied | 160m-farmshare/corpusgen/relational_build.py:411-477 | a balanced record whose payloads and controls do not merge, once encoded, passes the per-record supply check |
| RecordPadding.SeparatedKeepsCounted | 160m-farmshare/corpusgen/relational_build.py:437-477 | in separated segments no payload or control is merged away |
| RecordPadding.RenderFact | 160m-farmshare/corpusgen/srgm_worlds.py:1557-1590 | the record of any fact is balanced exactly when some padding within the bound covers it, always when nine times its length fits, and once balanced it encodes to spans that pass the per-record supply check |
| HashmapSelection.Offer | 160m-farmshare/corpusgen/wikidata5m_hashmap.py:550-559 | the bounded heap keeps the best keys seen |
| HashmapSelection.BestIsPrefix | 160m-farmshare/corpusgen/wikidata5m_hashmap.py:319-324 | what the heap keeps is a prefix of all keys in sorted order |
| HashmapSelection.BestIsSmallest | 160m-farmshare/corpusgen/wikidata5m_hashmap.py:148-150 | the best keys are those of smallest digest, then smallest subject, among the keys whose subject and objects all have labels |
| HashmapSelection.ScanCandidates | 160m-farmshare/corpusgen/wikidata5m_hashmap.py:504-559 | after all rows each relation's heap holds labelled keys of it, at most its quota; a labelled key is left out only when the quota is full and every kept key has a smaller digest, or the same digest and a smaller subject; every counter is exact, whatever the row order |
| HashmapBuild.DisplayKeysDiffer | 160m-farmshare/corpusgen/wikidata5m_hashmap.py:244-260 | different keys have different display keys, whatever the labels contain |
| HashmapBuild.LabelValues | 160m-farmshare/corpusgen/wikidata5m_hashmap.py:596-621 | lists the objects of a key in rising order with their labels, or fails exactly when one has none |
| HashmapBuild.EmitRecords | 160m-farmshare/corpusgen/wikidata5m_hashmap.py:562-640 | emission of the retained keys never fails a requirement |
| HashmapBuild.CountsReconcile | 160m-farmshare/corpusgen/wikidata5m_hashmap.py:643-706 | when each relation has its quota every reconciliation equation holds, with 3000 records |
| HashmapBuild.QuotasSum | 160m-farmshare/corpusgen/wikidata5m_hashmap.py:153-156 | the quotas of the first relations sum to the closed form, 3000 for thirty-two |
| HashmapBuild.BuildDataset | 160m-farmshare/corpusgen/wikidata5m_hashmap.py:709-823 | the dataset is built exactly when every relation has its quota of eligible keys; its 3000 records are then the quota's smallest keys of each relation by digest and subject, in rising order of digest, subject and relation, with their labels and all their objects, and every count is what the triples and the labels say |
| HashmapBuild.MissingAre | 160m-farmshare/corpusgen/wikidata5m_hashmap.py:536-546 | the refused keys are those whose subject has no label, and those with a label where some object has none |
| IgsmProblems.ValuesUnique | 160m-farmshare/corpusgen/igsm_lite.py:249-260 | grounded definitions have one valuation |
| IgsmProblems.Evaluate | 160m-farmshare/corpusgen/igsm_lite.py:249-260 | memoised recursion returns that value |
| IgsmProblems.ListedAreTrue | 160m-farmshare/corpusgen/igsm_lite.py:57-64 | every statement is true of the values modulo 23: sums, differences and products leave the stated remainder |
| IgsmProblems.DrawnInRange | 160m-farmshare/corpusgen/igsm_lite.py:98-166 | drawn leaves are below 23, and constants are second operands from 1 to 22 |
| IgsmProblems.DistractorIgnored | 160m-farmshare/corpusgen/igsm_lite.py:155-166 | a distractor changes nobody's dependency closure |
| IgsmProblems.GenerateProblem | 160m-farmshare/corpusgen/igsm_lite.py:86-207 | the statements are those the draws call for; for every draw the query's closure holds exactly `op` computed quantities and no distractor, and the answer is the query's value |
| LazyRegex.FoundMatches | 160m-farmshare/corpusgen/igsm_lite.py:210-219 | what the backtracking search finds is a match: the literals with its groups between them make up the text |
| LazyRegex.MatchIsFound | 160m-farmshare/corpusgen/igsm_lite.py:210-219 | whatever groups match, a match is found, and at the first group in which they differ it has the shorter lazy group, the longer number or the earlier word |
| LazyRegex.SearchIsLeftmost | 160m-farmshare/corpusgen/igsm_lite.py:244-247 | a search finds the leftmost place at which something matches |
| IgsmText.SentenceParses | 160m-farmshare/corpusgen/igsm_lite.py:210-219 | each statement parses back to itself, and to no other kind, under lazy backtracking expressions |
| IgsmText.Sentence | 160m-farmshare/corpusgen/igsm_lite.py:98-126 | the printed sentence of each kind of statement, word for word |
| IgsmPrompt.SplitJoin | 160m-farmshare/corpusgen/igsm_lite.py:226-226 | joining sentences with spaces and cutting after full stops are inverse |
| IgsmPrompt.JoinCut | 160m-farmshare/corpusgen/igsm_lite.py:173-173 | wherever the sentences are cut, the two parts are joined with one space |
| IgsmPrompt.PromptParses | 160m-farmshare/corpusgen/igsm_lite.py:222-247 | the whole prompt parses back to its statements, in order, and its query |
| IgsmRoundTrip.NamesAreNames | 160m-farmshare/corpusgen/igsm_lite.py:77-83 | no generated name can be mistaken for a word of a sentence |
| IgsmRoundTrip.NamesDiffer | 160m-farmshare/corpusgen/igsm_lite.py:77-83 | different word triples are different names |
| IgsmRoundTrip.GenerateAndSolve | 160m-farmshare/corpusgen/igsm_lite.py:86-262 | the statements are those drawn over the drawn names, the prompt prints them in any shuffled order and parses back to them, and what the parsed definitions alone say of the query is the generator's answer |
| GraphSchedule.FactCycle.Next | 160m-farmshare/corpusgen/srgm_worlds.py:1440-1451 | the k-th fact handed out is the one of rank k modulo the class's size |
| GraphSchedule.EveryFactRendered | 160m-farmshare/corpusgen/srgm_worlds.py:1540-1560 | one pass renders every fact of a world |
| GraphSchedule.FewerBatchesDrop | 160m-farmshare/corpusgen/srgm_worlds.py:1544-1547 | no smaller number of batches has room for every fact |
| GraphSchedule.RenderPass | 160m-farmshare/corpusgen/srgm_worlds.py:1519-1608 | records come in whole blocks of seven peripheral facts, two central facts and a rule; it stops exactly at the first world that lacks a class, or without worlds |
| MixturePlan.Choose | 160m-farmshare/corpusgen/relational_build.py:2262-2277 | the component proportionally furthest behind, the first of them in order, or none exactly when all have their tokens |
| MixturePlan.StepKeeps | 160m-farmshare/corpusgen/relational_build.py:2262-2343 | a step of the chosen component keeps all components in proportion up to one unit, and below target plus one unit |
| MixturePlan.StepLacksLess | 160m-farmshare/corpusgen/relational_build.py:2262-2343 | every step lowers what is lacking, so the loop ends |
| MixtureLoop.ChooseBand | 160m-farmshare/corpusgen/relational_build.py:2301-2316 | the least-used allowed band is the one whose turn it is |
| MixtureLoop.KindAt | 160m-farmshare/corpusgen/srgm_worlds.py:1519-1608 | however often the pass is repeated, the place in its ten gives a graph record's kind |
| MixtureLoop.AddRecord | 160m-farmshare/corpusgen/relational_build.py:2320-2343 | a planned record keeps every counter equal to what the plan contains |
| MixtureLoop.RoundingExactly | 160m-farmshare/corpusgen/relational_build.py:2514-2526 | the rounding report holds if and only if the alias records take no more than graph's target and ten of the longest of them |
| MixtureLoop.RoundingCanFail | 160m-farmshare/corpusgen/relational_build.py:2514-2526 | a planned corpus of twelve alias records of eight tokens, with the first mixture's shares of a hundred tokens, is finished and fails the rounding report |
| MixtureLoop.PlanMixture | 160m-farmshare/corpusgen/relational_build.py:2236-2343 | the loop ends, with a plan exactly when the natural text holds its target; then every component has its tokens, components stay in proportion, streams are taken in order, and the ten-record report holds exactly when the alias records leave graph below its target |
| MixtureLoop.BandsEven | 160m-farmshare/corpusgen/relational_build.py:2301-2319 | within a phase no allowed band has two records more than another, and no later one more than an earlier |
| MixtureLoop.CurriculumHolds | 160m-farmshare/corpusgen/relational_build.py:2300-2319 | reasoning records before a fifth of the corpus have one hop, those before half of it at most two; within a phase a longer band is never ahead of a shorter one and never two records behind |
| MixtureLoop.EveryFactPlanned | 160m-farmshare/corpusgen/relational_build.py:2286-2294 | once the graph stream has gone through a pass, every fact is in the plan |

## Left out

- Files, SQLite, JSON lines, archives, manifests, digests and directory renames: tables are sequences, sets and maps; SQL aggregates are comprehensions over them.
- Argument type checks (`bool` against `int`, dtype, class): arguments have their Dafny types.
- The concrete rank digest, route policy, tokenizer and composition hash: arbitrary functions.
- Malformed schedule lines are one value `Malformed`: JSON decoding itself is not modelled. The scan is run on the whole schedule, so a schedule error takes precedence over a leak found in an earlier record.
- SidecarAudit.VerifyWeightSidecars: is modelled on tables of the form the ledger writes; a hand-edited database whose demand or candidate table disagrees with its rows is outside it.
- PatternScan.IterPatternMatches: patterns are distinct and nonempty, as its callers pass them; matches are returned as a list instead of one by one.
- SidecarAudit.CheckContent: the order of the checks is the source's, but which of several failing payloads is named first is not stated.
- The writer's range digests and component counters, and the route statistics.
- Deduction sentences, prompt text and shuffling: `DeductionProblem.Reasoning` gives the told lines as values.
- The chain of thought text of a modular arithmetic problem, and its structure hash; white space in `IgsmPrompt` is ASCII white space; recursion on cyclic definitions, which the generator never prints, is outside `IgsmRoundTrip.SolveFromPrompt`.
- Decoding: logits are an arbitrary score per row and step, and which of several best-scored ids is taken is not stated; left padding and the key-value cache are left out.
- `extract_spans`: candidate spans are given to `QueryTries.QueryTrie`.
- Wikidata: the root selection digest is a given ranking; aliases, prompts and metadata that no check reads are left out; the overlay is a value, so that it leaves the base store alone is not a theorem about aliasing.
- Worlds: the entity rows of the legacy generator, and its pairs as a whole; world manifests and alias surfaces.
- `_item` prompts and answer choices of the evaluation pairs.
- Reasoning record rendering, and the rows of actions and answers: `MixtureLoop` takes its streams' token lengths as given, and targets are exact rationals in place of floats.
- HashmapSelection.Offer: the binary heap is a set with its greatest-ranked member, so the array layout of `heapq` is not modelled; relation selection by frequency is left out.
- Model evaluation, statistics, figures, templates, and the validation dataclasses of the schema and split files.
