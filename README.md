# Convoy-scene extraction and causal-link scoring, modelled in Dafny

This project models two offline scripts that work on highD-style vehicle-trajectory recordings.

**The convoy-scene extractor** (`code/utilities/extract_two_agent_convoy_scenes.py`) runs these stages for each recording:

1. It keeps the *candidate* agents: no lane change and at least 10 s of frames. Some candidates are also *volatile*: their velocity spread is at least 20 % of the maximum velocity.
2. It groups the frame table by agent id.
3. For each volatile agent (the convoy *head*), it looks for a single consistent follower (the *tail*), then checks the headway and the shared frame window.
4. It admits *independent* agents greedily. Each one must keep the shared window at least 10 s long and bring a lane not used yet.
5. It trims every participant's frames to the negotiated window.
6. It keeps the metadata rows that overlap the window, and the frame rows of those agents.

The header of the per-scene kinematics table and its distance-travelled columns are modelled as well.

**The scorer** (`code/utilities/evaluate_performance.py`) does the following:

- It classifies each reported causal link of a scene as a true or a false positive against the known head and tail.
- It tallies the links in the script's nested tables, which overwrite rather than merge.
- It derives the false-negative and true-negative counts.
- It sums the counts over all scenes.
- It computes precision, recall, fallout and F1.

The model follows the scripts' behaviour where it is unusual:

- The head's lane is that of the first frame that reports a follower.
- An agent already used in a scene can still head a later one. The used set only filters independents.
- The head and the tail stay in the independent pass. After the first admission they are skipped because they are used.
- A later false positive with the same cause replaces the earlier one instead of being merged.
- The independents share one distance accumulator; see "## Findings".

The window test `(end - start) / frameRate >= 10` becomes `end - start >= 10 * frameRate` over integers. `ConvoyData.LongEnoughInSeconds` proves the two forms agree for a positive frame rate.

Modules:

| file | module | what it holds |
|---|---|---|
| `convoy_data.dfy` | `ConvoyData` | the records, the thresholds and the window test |
| `candidate_filter.dfy` | `CandidateFilter` | the candidate and volatile tables in insertion order |
| `frame_grouping.dfy` | `FrameGrouping` | grouping the frame table by id |
| `pairing.dfy` | `Pairing` | the follower scan and the pair checks |
| `negotiation.dfy` | `Negotiation` | admitting the independents |
| `trimming.dfy` | `Trimming` | trimming the frames and filtering the tables |
| `scene_extraction.dfy` | `SceneExtraction` | the loop over one recording, with its seven outcome counters |
| `kinematic_output.dfy` | `KinematicOutput` | the table header and the distance columns |
| `scoring.dfy` | `Scoring` | the scorer |

The stateful loops are methods over local variables. Each method's `ensures` ties its results to a specification function of its inputs: `Negotiate` to the greedy pass `Negotiation.Greedy`, `PairAll` to the per-head fold `SceneExtraction.Run`, `ExtractRecording` to `SceneExtraction.Extracted`, `AccumulateRow` to the cumulative distance of the positions walked so far. The properties are proved as lemmas about those functions and as further `ensures` of the methods. The scripts have no classes: their state is a set of module-level locals and dictionaries. Ordered dictionaries are modelled as a key-order sequence plus a map.

## Model

| member | source | states |
|---|---|---|
| ConvoyData.LongEnoughInSeconds | code/utilities/extract_two_agent_convoy_scenes.py:253 | for a positive frame rate, the integer window test holds iff the frame span divided by the frame rate is at least 10 s |
| ConvoyData.LongEnoughIsProper | code/utilities/extract_two_agent_convoy_scenes.py:250-253 | a window that passes the test with a positive frame rate has its start strictly before its end |
| CandidateFilter.InsertKeyKeepsDistinct | code/utilities/extract_two_agent_convoy_scenes.py:170 | inserting a key into an ordered dictionary keeps the key order free of duplicates and adds exactly that key |
| CandidateFilter.CatalogueMembership | code/utilities/extract_two_agent_convoy_scenes.py:165-170 | an id is a key of the candidate table iff some metadata row with that id has no lane change and at least 10 s of frames |
| CandidateFilter.CatalogueValue | code/utilities/extract_two_agent_convoy_scenes.py:165-170 | the stored row is the last qualifying row with that id; it carries the id and qualifies |
| CandidateFilter.CatalogueOrderMatchesKeys | code/utilities/extract_two_agent_convoy_scenes.py:165-170 | the candidates' iteration order has no duplicates and lists exactly the table's keys |
| CandidateFilter.VolatileOrderSound | code/utilities/extract_two_agent_convoy_scenes.py:168-173 | an id is volatile iff some row with that id is a candidate whose velocity spread is at least 0.2 of its maximum velocity; no id is repeated; every volatile id is a candidate |
| CandidateFilter.SelectCandidates | code/utilities/extract_two_agent_convoy_scenes.py:165-173 | the loop over the metadata builds exactly the candidate order, the candidate table and the volatile order |
| FrameGrouping.LastRun | code/utilities/extract_two_agent_convoy_scenes.py:193-201 | the run that a row extends or starts is non-empty and starts with that row's id |
| FrameGrouping.RunsLast | code/utilities/extract_two_agent_convoy_scenes.py:193-201 | after a row is processed, the current run belongs to that row's id |
| FrameGrouping.ExtendWellFormed | code/utilities/extract_two_agent_convoy_scenes.py:193-201 | processing one row keeps every run non-empty and of a single id |
| FrameGrouping.RunsWellFormed | code/utilities/extract_two_agent_convoy_scenes.py:188-204 | every run built from the frame table is non-empty and holds rows of one id |
| FrameGrouping.ExtendFlatten | code/utilities/extract_two_agent_convoy_scenes.py:193-201 | processing one row appends exactly that row to the concatenation of the runs |
| FrameGrouping.RunsFlatten | code/utilities/extract_two_agent_convoy_scenes.py:188-204 | the runs, concatenated, give back the frame table in its original order |
| FrameGrouping.RowsWithIdEmpty | code/utilities/extract_two_agent_convoy_scenes.py:188-204 | an id with no rows has no rows selected for it |
| FrameGrouping.GroupsStep | code/utilities/extract_two_agent_convoy_scenes.py:193-204 | one more row changes only its id's group: the row is appended when it continues the current run and that id already has a group; otherwise the group becomes that single row |
| FrameGrouping.GroupsKeys | code/utilities/extract_two_agent_convoy_scenes.py:188-204 | an id has a group iff some frame row has that id |
| FrameGrouping.ContiguousPrefix | code/utilities/extract_two_agent_convoy_scenes.py:188-204 | rows of one id that are contiguous stay contiguous when the last row is dropped |
| FrameGrouping.ContiguousBefore | code/utilities/extract_two_agent_convoy_scenes.py:193-194 | when an id's rows are contiguous and the last row has that id, so does the row before it |
| FrameGrouping.GroupStarts | code/utilities/extract_two_agent_convoy_scenes.py:195-201 | the first row of an id starts that id's group with exactly its rows |
| FrameGrouping.GroupContinues | code/utilities/extract_two_agent_convoy_scenes.py:193-194 | a row that follows a row of its own id is appended to that id's group |
| FrameGrouping.GroupUnchanged | code/utilities/extract_two_agent_convoy_scenes.py:193-201 | a row of another id leaves an id's group unchanged |
| FrameGrouping.ContiguousGroup | code/utilities/extract_two_agent_convoy_scenes.py:188-204 | for an id whose rows are contiguous, its group is exactly its rows, in their original order |
| FrameGrouping.GroupIsLastRun | code/utilities/extract_two_agent_convoy_scenes.py:188-204 | an id's entry in `track_frames` is the last maximal run of rows with that id: a slice of the table whose rows all have the id, preceded by a row of another id or by the start, and followed by no row of that id |
| FrameGrouping.GroupsWellFormed | code/utilities/extract_two_agent_convoy_scenes.py:188-204 | every entry of `track_frames` is non-empty and all its rows carry the entry's id |
| FrameGrouping.GroupFrames | code/utilities/extract_two_agent_convoy_scenes.py:188-204 | the loop over the frame table builds exactly the grouping specification |
| Pairing.FirstReporting | code/utilities/extract_two_agent_convoy_scenes.py:224-228 | the first frame whose followingId is positive, with no positive followingId before it; none if no frame reports one |
| Pairing.ConsistentFollower | code/utilities/extract_two_agent_convoy_scenes.py:224-236 | the scan yields p iff p is positive, some frame reports p and no frame reports another positive follower |
| Pairing.ScanFollower | code/utilities/extract_two_agent_convoy_scenes.py:224-233 | the scan loop returns the consistent follower; when there is one, the lane it leaves is that of the first frame that reports a follower |
| Pairing.CheckPair | code/utilities/extract_two_agent_convoy_scenes.py:215-255 | each rejection reason holds iff its own check fails and the earlier checks pass: head headway in [0, 20), no consistent follower, follower not volatile, follower headway outside [0, 10), shared window too short; a pair that passes has a volatile, close, consistent tail and the shared window, and every pair that meets all the checks is accepted |
| Negotiation.UnsuitablePersists | code/utilities/extract_two_agent_convoy_scenes.py:269-282 | an agent rejected against a window and a lane list stays rejected once the window narrows and lanes are added |
| Negotiation.RejectionsPersist | code/utilities/extract_two_agent_convoy_scenes.py:261-291 | an admission keeps every earlier rejection a rejection |
| Negotiation.NarrowedWindow | code/utilities/extract_two_agent_convoy_scenes.py:269-285 | the narrowed window lies within the pair window; each bound is the pair's own or that of an admitted independent |
| Negotiation.AdmittedDistinct | code/utilities/extract_two_agent_convoy_scenes.py:281-289 | admitted independents are pairwise distinct, because each one brings a lane of its own |
| Negotiation.AdmitKeeps | code/utilities/extract_two_agent_convoy_scenes.py:262-293 | admitting an unused agent whose window is long enough and whose lane is new keeps the admission invariant |
| Negotiation.ConsiderKeeps | code/utilities/extract_two_agent_convoy_scenes.py:261-293 | considering one more agent of the candidate order keeps what the greedy pass has settled: admissions valid against the pair window, the used set grown by exactly the scene's agents, and every unused agent passed over unsuitable against the current window and lanes |
| Negotiation.GreedyFacts | code/utilities/extract_two_agent_convoy_scenes.py:257-293 | the greedy pass over any prefix of the candidate order leaves its admissions valid, its window inside the pair window, the used set grown by exactly the scene's agents, and every unused agent it passed over unsuitable against its window and lanes |
| Negotiation.GreedyAdmitsAny | code/utilities/extract_two_agent_convoy_scenes.py:257-297 | the greedy pass admits some independent iff some candidate unused on entry is suitable against the pair window and the head's lane alone |
| Negotiation.Negotiate | code/utilities/extract_two_agent_convoy_scenes.py:257-293 | the loop's results are exactly the greedy first-come pass `Greedy` over the candidate order, each agent considered once against what the earlier ones left; every admitted independent is a candidate unused on entry, and after the first admission never the head or the tail; each brings a lane not used before, so `used_lanes` starts with the head's lane, has no duplicates and one more entry than there are independents; each covers the narrowed window, which stays long enough and inside the pair window; the used set grows by exactly head, tail and the independents, and only when one is admitted; every candidate left unused is unsuitable against the final window and lanes, so the greedy pass is maximal |
| Trimming.TrimMembers | code/utilities/extract_two_agent_convoy_scenes.py:301-305 | a frame is kept iff it is in the input and start <= frame <= end |
| Trimming.TrimMultiplicity | code/utilities/extract_two_agent_convoy_scenes.py:301-305 | a frame inside the window is kept as often as it occurs; a frame outside it, never |
| Trimming.TrimAppend | code/utilities/extract_two_agent_convoy_scenes.py:301-305 | trimming distributes over concatenation, so the original order is kept |
| Trimming.TrimConsecutiveParts | code/utilities/extract_two_agent_convoy_scenes.py:301-305 | for frames numbered consecutively, the part before the window and the part after it are dropped, and the part inside is kept whole |
| Trimming.TrimConsecutive | code/utilities/extract_two_agent_convoy_scenes.py:301-319 | for frames numbered consecutively that cover the window, trimming gives the contiguous slice of end - start + 1 frames |
| Trimming.TrimAll | code/utilities/extract_two_agent_convoy_scenes.py:301-305 | frames that all lie in the window are kept unchanged |
| Trimming.TrimNone | code/utilities/extract_two_agent_convoy_scenes.py:301-305 | frames that all lie outside the window are all dropped |
| Trimming.TrimFrames | code/utilities/extract_two_agent_convoy_scenes.py:301-305 | the append loop builds exactly the trimmed list |
| Trimming.Ids | code/utilities/extract_two_agent_convoy_scenes.py:353 | the ids of the kept metadata rows, one for each row, in order |
| Trimming.OverlappingMembers | code/utilities/extract_two_agent_convoy_scenes.py:350-354 | a metadata row is kept iff it is in the table, its initialFrame is before the window's end and its finalFrame is after the window's start |
| Trimming.RowsOfIdsMembers | code/utilities/extract_two_agent_convoy_scenes.py:361-363 | a frame row is kept iff it is in the table and its id is among the present ids |
| Trimming.TrimTables | code/utilities/extract_two_agent_convoy_scenes.py:343-363 | the two loops build the kept metadata rows, the present ids and the kept frame rows |
| Trimming.CoveringRowIsPresent | code/utilities/extract_two_agent_convoy_scenes.py:350-354 | an agent whose interval covers a proper window is among the present ids |
| SceneExtraction.TrimParticipants | code/utilities/extract_two_agent_convoy_scenes.py:301-319 | head, tail and each independent get their own frames trimmed to the window |
| SceneExtraction.TrimEach | code/utilities/extract_two_agent_convoy_scenes.py:301-305 | one trimmed list per independent, in admission order, each that independent's frames trimmed to the window |
| SceneExtraction.EmittedScene | code/utilities/extract_two_agent_convoy_scenes.py:257-319 | the scene built from a greedy pass that admitted an independent is negotiated and trimmed, lies in the pair window with its bounds the latest start and earliest end of the pair and its independents, uses no agent used before, grows the used set by exactly its participants and leaves every unused candidate unsuitable against its window and lanes |
| SceneExtraction.NegotiateScene | code/utilities/extract_two_agent_convoy_scenes.py:257-319 | the outcome is success or "no suitable independent", and it is success iff some candidate unused on entry is suitable against the pair window and the head's lane; a scene exists iff the outcome is success; the outcome, the scene and the new used set are those of the greedy pass `Greedy`, the scene built from it by trimming every participant; the scene keeps the pair's ids, starts at the latest and ends at the earliest frame of the pair and its independents, adds no already-used independent, and every candidate left unused is unsuitable against its window and lanes; the used set grows by exactly its participants, or not at all |
| SceneExtraction.Attempted | code/utilities/extract_two_agent_convoy_scenes.py:215-299 | an iteration yields a scene exactly when its outcome is success |
| SceneExtraction.ProcessHead | code/utilities/extract_two_agent_convoy_scenes.py:215-319 | the outcome and scene are those of the reference iteration `Attempted`: a rejected pair gives its rejection reason; an accepted pair gives success iff some unused candidate is suitable against the pair window and the head's reporting lane, and "no suitable independent" otherwise; an emitted scene is valid for this head, its window is the pair window narrowed by its independents, every candidate left unused is unsuitable against it, and the used set grows by exactly its participants |
| SceneExtraction.ParticipantsWithin | code/utilities/extract_two_agent_convoy_scenes.py:291-293 | each scene's participants are among all the participants so far |
| SceneExtraction.LookupsHold | code/utilities/extract_two_agent_convoy_scenes.py:165-218 | when every candidate has frame rows, every volatile agent is a candidate and every candidate has a group |
| SceneExtraction.EmitKeepsScenes | code/utilities/extract_two_agent_convoy_scenes.py:289-299 | appending a valid scene whose independents are all unused keeps the invariant of the scenes emitted so far |
| SceneExtraction.PairNext | code/utilities/extract_two_agent_convoy_scenes.py:215-319 | one iteration over the head at position i yields the outcome and scene of `Attempted` against the agents of the scenes so far; a rejected pair keeps its reason; an accepted pair succeeds iff some candidate not in any earlier scene is suitable against the pair window and the head's lane; a scene is appended exactly on success and the invariant of the emitted scenes is kept |
| SceneExtraction.CountStep | code/utilities/extract_two_agent_convoy_scenes.py:208-299 | one more outcome adds one to its own count and leaves the other counts unchanged |
| SceneExtraction.TallyTotal | code/utilities/extract_two_agent_convoy_scenes.py:208-299 | the seven counts of a sequence of outcomes add up to its length |
| SceneExtraction.RunCounts | code/utilities/extract_two_agent_convoy_scenes.py:215-299 | the per-head fold records one outcome per head and emits one scene per success |
| SceneExtraction.CountOutcome | code/utilities/extract_two_agent_convoy_scenes.py:221-299 | incrementing the counter of one more outcome keeps every counter equal to the number of outcomes of its kind |
| SceneExtraction.PairAll | code/utilities/extract_two_agent_convoy_scenes.py:206-299 | the scenes and the per-head outcomes (one per volatile agent, in order) are exactly those of the reference fold `Run`; each counter equals the number of outcomes of its kind; the seven counters add up to the number of volatile agents and success equals the number of scenes; all scenes are valid, and no independent of a later scene was part of an earlier one |
| SceneExtraction.ExtractRecording | code/utilities/extract_two_agent_convoy_scenes.py:156-319 | for one recording, the scenes and outcomes are exactly those of the reference extraction `Extracted` (none without volatile candidates, otherwise `Run` over them); each counter counts its outcome; the counters add up to the number of volatile candidates and success counts the scenes; each scene is headed by a volatile candidate and valid against the candidate table and the grouping; independents are never reused |
| SceneExtraction.DescriptorIdsPresent | code/utilities/extract_two_agent_convoy_scenes.py:350-354 | every participant of an emitted scene is among the present ids of the scene's trimmed metadata table |
| KinematicOutput.FieldNames | code/utilities/extract_two_agent_convoy_scenes.py:20-36 | the header loop produces the layout: time_index, then the columns of c0, c1 and i0 to i{n-1} for the mode, where the all-variables flag wins over the velocity flag |
| KinematicOutput.ColumnsOfMembers | code/utilities/extract_two_agent_convoy_scenes.py:20-33 | a column is present iff its agent and its quantity are |
| KinematicOutput.ColumnsOfLength | code/utilities/extract_two_agent_convoy_scenes.py:20-33 | each agent contributes one column per quantity |
| KinematicOutput.ColumnsOfDistinct | code/utilities/extract_two_agent_convoy_scenes.py:20-33 | distinct agents and distinct quantities give distinct columns |
| KinematicOutput.IndependentsMembers | code/utilities/extract_two_agent_convoy_scenes.py:22-33 | the independents are i0 to i{n-1}, each once |
| KinematicOutput.AgentsShape | code/utilities/extract_two_agent_convoy_scenes.py:20-33 | the agents are c0, c1 and the n independents, each once |
| KinematicOutput.LayoutShape | code/utilities/extract_two_agent_convoy_scenes.py:20-36 | the header has 1 + w(n + 2) columns, where w is 3 in the all-variables mode and 1 otherwise; time_index comes first; no name repeats; a column for agent a and quantity q is present iff a is c0, c1 or some i{j} with j < n, and q belongs to the mode |
| KinematicOutput.CumulativeDistance | code/utilities/extract_two_agent_convoy_scenes.py:57-63 | one distance value for each sample |
| KinematicOutput.DistanceNeverDecreases | code/utilities/extract_two_agent_convoy_scenes.py:57-70 | for a non-negative distance, the distance travelled is 0 at the first row, never negative and never decreases |
| KinematicOutput.DistanceSteps | code/utilities/extract_two_agent_convoy_scenes.py:57-63 | each row adds exactly the distance from the previous position |
| KinematicOutput.AdvanceWalks | code/utilities/extract_two_agent_convoy_scenes.py:57-63 | one update of an accumulator writes the next cumulative distance and remembers the new position |
| KinematicOutput.AccumulateDistance | code/utilities/extract_two_agent_convoy_scenes.py:40-63 | one accumulator run over an agent's positions writes exactly its cumulative distances |
| KinematicOutput.RowSlice | code/utilities/extract_two_agent_convoy_scenes.py:72-74 | one position for each independent at a row |
| KinematicOutput.AccumulateRow | code/utilities/extract_two_agent_convoy_scenes.py:72-79 | the inner loop over the independents continues the shared accumulator over their positions at this row |
| KinematicOutput.PositionColumns | code/utilities/extract_two_agent_convoy_scenes.py:40-79 | as written: the row count is the shorter of the two convoy agents' frame lists; c0.p and c1.p are the cumulative distances of the head and the tail; the i{j}.p values, read row by row, are the cumulative distance of one walk over all the independents' positions |
| KinematicOutput.SharedAccumulatorMixesAgents | code/utilities/extract_two_agent_convoy_scenes.py:72-79 | two independents that stand still get 0, 1 in the first row and 2, 3 in the second; their own cumulative distances are 0 |
| KinematicOutput.IndependentDistances | code/utilities/extract_two_agent_convoy_scenes.py:72-79 | corrected: independent j's column is the cumulative distance of its own positions over the rows |
| KinematicOutput.StationaryAgentTravelsNothing | code/utilities/extract_two_agent_convoy_scenes.py:57-79 | with a distance that is 0 from a position to itself, an agent that never moves has distance 0 in every row |
| Scoring.EntriesRemove | code/utilities/evaluate_performance.py:36-42 | counting the inner entries cause by cause: one cause contributes the size of its inner table |
| Scoring.RecordSingletons | code/utilities/evaluate_performance.py:26-34 | recording a link keeps every inner table at exactly one entry, and adds at most its cause as a key |
| Scoring.TallyEffectsSingletons | code/utilities/evaluate_performance.py:22-34 | the effects of one cause keep every inner table at one entry |
| Scoring.TallySingletons | code/utilities/evaluate_performance.py:19-34 | every inner table of the TP and FP tables has exactly one entry |
| Scoring.EntriesOfSingletons | code/utilities/evaluate_performance.py:36-42 | when every inner table has one entry, the entries number as many as the causes |
| Scoring.CountsAreCauses | code/utilities/evaluate_performance.py:26-42 | tp_count and fp_count equal the number of outer keys of their tables |
| Scoring.RecordLinkClassified | code/utilities/evaluate_performance.py:24-34 | a link goes to the TP table iff both ends are head or tail, and to the FP table otherwise; the tables stay keyed by reported causes |
| Scoring.TallyEffectsClassified | code/utilities/evaluate_performance.py:22-34 | one cause's effects leave the TP table empty iff none is a true positive, and the FP table empty iff all are |
| Scoring.TallyClassification | code/utilities/evaluate_performance.py:19-34 | the tables are keyed by reported causes; the TP table is empty iff no reported link joins head and tail; the FP table is empty iff every reported link does |
| Scoring.CountsBoundedByCauses | code/utilities/evaluate_performance.py:26-42 | tp_count and fp_count are each at most the number of distinct cause ids |
| Scoring.FalseNegativeIffNoTruePositive | code/utilities/evaluate_performance.py:44-45 | fn_count is 1 iff no reported link is a true positive, and 0 iff some is |
| Scoring.RecordPairShape | code/utilities/evaluate_performance.py:26-29 | with head different from tail, recording a true-positive link that is not a self-link keeps at most one entry in the TP table |
| Scoring.TallyEffectsPairShape | code/utilities/evaluate_performance.py:22-29 | the same for all the effects of one cause |
| Scoring.TallyPairShape | code/utilities/evaluate_performance.py:19-29 | with head different from tail and no self-links, the TP table has at most one key: a reverse link increments the existing entry |
| Scoring.TruePositivesAtMostOne | code/utilities/evaluate_performance.py:26-38 | with head different from tail and no self-links, tp_count is at most 1 |
| Scoring.ScoreExamples | code/utilities/evaluate_performance.py:11-49 | with head 1, tail 2 and 3 possible links: {1: [2]} gives (1, 0, 0, 2); no links give (0, 0, 1, 2); {3: [1]} gives (0, 1, 1, 1); {3: [1, 2]} gives fp_count 1 because the second link overwrites the first |
| Scoring.PairCountClosedForm | code/utilities/evaluate_performance.py:74-75 | twice the number of unordered pairs of n agents is n(n - 1) |
| Scoring.PossibleLinksArePairs | code/utilities/evaluate_performance.py:74-75 | total_possible_links is the number of unordered pairs among head, tail and the independents, and at least 1 |
| Scoring.TallyLinks | code/utilities/evaluate_performance.py:16-34 | the nested loops build exactly the tallied TP and FP tables, including the overwriting |
| Scoring.CountEntries | code/utilities/evaluate_performance.py:36-42 | the counting loops count every inner entry of a table |
| Scoring.ScenePerformance | code/utilities/evaluate_performance.py:11-49 | returns the scene's (tp, fp, fn, tn): the counts of the two tables, fn 1 exactly when tp is 0, and tn as what the other three leave of total_possible_links |
| Scoring.EvaluateScenes | code/utilities/evaluate_performance.py:57-84 | the accumulation loop's totals are the per-scene sums of the four counts |
| Scoring.ScorePartitions | code/utilities/evaluate_performance.py:44-47 | a scene's four counts add up to its total_possible_links; tp and fp are non-negative and tp + fn is at least 1 |
| Scoring.TotalsPartition | code/utilities/evaluate_performance.py:74-84 | the totals add up to the sum of all scenes' possible links; tp, fp and fn are non-negative; tp + fn is at least the number of scenes |
| Scoring.Precision | code/utilities/evaluate_performance.py:89-92 | precision lies in [0, 1]; it is 0 iff tp is 0, which covers the guarded zero denominator; it is 1 iff tp > 0 and fp is 0 |
| Scoring.Recall | code/utilities/evaluate_performance.py:96 | recall lies in [0, 1]; it is 0 iff tp is 0 and 1 iff fn is 0 |
| Scoring.Fallout | code/utilities/evaluate_performance.py:94 | fallout is 0 iff fp is 0, and lies in [0, 1] for non-negative counts |
| Scoring.F1 | code/utilities/evaluate_performance.py:98 | F1 lies in [0, 1] and is 0 iff tp is 0 |
| Scoring.RecallAndF1Defined | code/utilities/evaluate_performance.py:81-98 | over at least one scene, the recall and F1 denominators are positive |
| Scoring.F1IsHarmonicMean | code/utilities/evaluate_performance.py:89-98 | when tp > 0, F1 is the harmonic mean of precision and recall |
| Scoring.FalloutDefined | code/utilities/evaluate_performance.py:74-94 | over at least one scene, if every scene has an independent, distinct head and tail and no self-links, then fp + tn is at least twice the number of scenes, so fallout is defined |

## Left out

- Command-line parsing, directory checks and the number of recordings taken from a directory listing (extractor lines 111-136; scorer lines 52-55, 64). These are configuration.
- Reading and writing CSV and JSON files, `shutil.copy`, the progress and summary `print`s, and `output_to_file_json_meta`. These are file plumbing. Rows are taken as records whose fields are already parsed as integers or reals.
- A recording whose metadata file is empty (extractor lines 152-154). This is an I/O condition.
- The acceleration and velocity cells of the kinematics table (extractor lines 46-55, 80-91). Each is a `float` copy of a frame field. The model covers the header and the distance columns.
- `np.linalg.norm`: the Euclidean distance is a parameter of type `Distance`. Its floating-point value is not modelled. The monotonicity lemma assumes only that it is non-negative.
- `KinematicOutput.PositionColumns`: requires every independent to have at least as many frames as there are rows. With fewer, the script raises `IndexError` at its first read of that independent's frame in the row: line 50 in the all-variables mode (the only mode that writes the position columns), line 86 in the velocity mode and line 91 otherwise.
- `CandidateFilter.SelectCandidates`: states the 10 s test as `numFrames >= 10 * frameRate`, which equals the script's division only for a positive frame rate. `SceneExtraction.ExtractRecording` requires a positive frame rate; with a zero one the script raises `ZeroDivisionError` at line 169.
- `CandidateFilter.SelectCandidates`: requires every candidate row to have a non-zero maximum velocity. The script divides by it at line 172 and raises `ZeroDivisionError` otherwise. Velocities are exact reals rather than floats.
- `SceneExtraction.ExtractRecording`: requires every candidate to have frame rows, which is stronger than what the script needs. The script raises `KeyError` only when a lookup reaches an agent without frames: every volatile head at line 218, a volatile tail at line 243, and a non-volatile candidate at line 267 only if some pair reaches negotiation while that candidate is still unused. Recordings where a candidate without frames is never looked up, and the script still succeeds, are not modelled.
- Identifiers are integers throughout. The trimmed frame filter compares the `id` strings of the two tables (lines 353, 362). This gives the same result as long as both tables write an id with the same digits.
- Frame numbers are compared as integers. The script converts them to `float`, which is exact for frame numbers of realistic size.
- `Scoring.Recall`: requires `tp + fn != 0`. The script does not guard this denominator (line 96); `Scoring.RecallAndF1Defined` shows that it is non-zero over at least one scene.
- `Scoring.Fallout`: requires `fp + tn != 0`. The script does not guard this denominator (line 94); `Scoring.FalloutDefined` gives conditions under which it is positive.
- `Scoring.F1`: requires a non-zero denominator (line 98). Recall and F1 are exact reals rather than floats.
- The mean and standard deviation of the execution times (scorer lines 86, 100-101). These are floating-point statistics over a field that is only passed through.
- Causal links are a sequence of (cause, effects) pairs in the order of the JSON object. The conversion of their string keys with `int()` is not modelled.
- The script shares one accumulator among the independents (lines 73-81), while the head and the tail each have their own (lines 57-63 and 65-71). The model follows the script and also gives the per-agent version; see "## Findings".

## Findings

| source | as written | input that shows it | evidently intended | confidence | as-written member | corrected member |
|---|---|---|---|---|---|---|
| code/utilities/extract_two_agent_convoy_scenes.py:72-79 | all independents update the same `independent_distance_travelled` and `independent_previous_position`, independent by independent within each row | two independents that stand still at different positions over two rows: with d the distance between them, the i0.p and i1.p cells are 0 and d in the first row, and 2d and 3d in the second | each i{j}.p is the distance that independent j itself has travelled, as c0.p and c1.p are for the head and the tail; an agent that does not move stays at 0 | high; not executed | KinematicOutput.SharedAccumulatorMixesAgents | KinematicOutput.IndependentDistances |
