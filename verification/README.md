# Verified model of the EDA agent's state machines

The EDA agent drives chip-design flows from a chat. Behind its input and output sit several pieces of plain state-and-loop logic whose promises span many functions. This project models that logic in Dafny and proves those promises for every environment: every LLM reply, stage result, timing report, clock reading and process death is an arbitrary input, usually a function from the iteration (or the position within a run) to a value.

`dafny verify dfyconfig.toml` checks everything.

## What is modelled

**Diagnosis that learns** (`Rules`, `Weights`, `Engine`, `Catalogue`, `Learning`, `Diagnosis`, with arithmetic in `Stepping`). Inference scores every rule of a catalogue on a feature vector, multiplies by a learned weight, caps, filters, sorts stably and reports three. Confirming a cause moves the weights. The two form a dynamical system; `Catalogue` says on raw feature values what the shipped rules score and when they are reported; `Learning` proves exactly when repeated confirmation makes a cause the first hypothesis, and in how many rounds.

**Conversation memory and the loop that drives it** (`Messages`, `Pairing`, `Eviction`, `Memory`, `Outbound`, `Sessions`, `Planner`, `Conversation`, `Streaming`). A history is bounded by message count, by bytes and by tokens; all three bounds are one notion, the longest suffix of whole groups (a message with the tool results behind it) that fits. `Pairing` says message by message what it means that calls and results fit, and `Outbound` what is sent. `Planner` runs whole turns over that memory, `Sessions` stores and restores it, `Conversation` chains turns, saves and loads to whole sessions, `Streaming` reassembles replies from fragments.

**The job queue under concurrency** (`Jobs`, `Protocol`, `Guarantees`, `Store`, `Sweeping`, `Worker`, `Drain`, `Flow`). A transition system over the job table: any number of submitters, workers, guarded cancellations, read-then-write cancellations and stale sweeps interleave, workers die, and their process ids may come back. Each SQL statement or transaction that runs on its own is one step; reads that are followed by a separate write are steps of their own. `Store` ties the store's methods to the same statement functions, `Sweeping` a whole sweep to the steps of the protocol, `Worker` the polling loop and `Flow` the stages of a job to the store. `Drain` says what a worker's whole run amounts to while all others go on acting on the table.

**The tuning loops** (`Tuning`, `SingleStage`, `StageRuns`, `Itinerary`, `Multistage`, `ClosedLoop`, with `Lineage`). Single-stage tuning, multi-stage tuning, and the closed loop that infers, tries an experiment, verifies it and confirms the cause.

**The Innovus backend's script and retries** (`Blockage`, `Wording` and `Cumulative` with `Searching` and `Text`, `Backoff`). The blockage script that each call reads back and extends, and capped exponential backoff.

`Wrappers` holds the option type.

## Where the code and its documentation differ

The model follows the code.

- `weights.py:22-24` lets all fired rules lose half a step when the confirmed cause is not among the first three; the code lowers only the hypotheses it is given (`weights.py:106-110`), and those are the at most three shown ones. `Learning.PenaltyAsDocumented` says exactly when that makes no difference.
- `rules.py:14-17` documents a normalisation over all fired rules and confidence thresholds of 0.7 and 0.4; `engine.py:33-44` normalises nothing and uses 0.65 and 0.35: `Engine.ConfidenceAsDocumented`.
- `planner.py:245` invents an id for a call that came without one, but the stored assistant message keeps the call without it, so the result answers nothing: `Planner.PairingNeedsOwnIds`.
- A tool that raises leaves its assistant message in memory with open calls: `Planner.TurnEndsCompleteUnlessRaised`.
- A turn with more calls than the message bound allows evicts its own assistant message and orphans results: `Eviction.TurnOutcome`.
- `cancel_job_impl` reports success without looking at what its write met: `Guarantees.CancelRace`, `Guarantees.ReportedCancelIsTrueIffUnstarted`.
- A stale sweep can overwrite a job that finished after it was read (`Guarantees.SweepRace`), and its probe takes a process it may not signal for dead (`Guarantees.MistakenSweep`; exactly when that matters: `Guarantees.SweptIsFinalIffDead`). A reused process id makes a dead worker's job look owned: `Guarantees.ReuseRace`, `Guarantees.OwnershipSurvivesCleanReuse`.
- Multi-stage tuning can mark its session failed, more than once, and still complete it later: `Multistage.FailThenComplete`, and exactly when not in `Multistage.Tune`.
- The closed loop's result counts convergence in earlier calls on the same object, and never checks a run with id 0 against the target: `ClosedLoop.OptimizationLoop.Orchestrate`.
- A blockage reason with a closing brace cuts the inherited script short, one that mentions the command shifts the labels, and a run id that holds the marker hides the block: `Cumulative.CumulativeScript`, `Cumulative.BraceBreaksTheScript`, `Cumulative.MarkerBreaksTheScript`.

## Model

| member | source | states |
|---|---|---|
| Rules.HitsBounded | eda_agent/agent/inference/rules.py:88-103 | the summed weight of the met conditions lies between 0 and the total weight |
| Rules.HitsExtremes | eda_agent/agent/inference/rules.py:88-103 | the sum is the total exactly if every weighted condition is met, and 0 exactly if none is |
| Rules.ScoreRange | eda_agent/agent/inference/rules.py:88-103 | scores lie in [0, 1], and are 1 exactly if there is any condition weight, all weighted conditions and no weighted anti-condition are met; without condition weight they are 0 |
| Rules.ScoreMonotone | eda_agent/agent/inference/rules.py:46-103 | meeting more conditions and fewer anti-conditions never lowers a score |
| Rules.CatalogueWellFormed | eda_agent/agent/inference/rules.py:108-305 | the shipped catalogue has six distinct rules, no negative weight, and thresholds between 0.25 and 0.30 |
| Catalogue.ThresholdMeans | eda_agent/agent/inference/rules.py:27-53 | what each of the five operators says below, at and above the threshold; a missing feature meets nothing |
| Catalogue.FurtherStaysMet | eda_agent/agent/inference/rules.py:46-53 | a met condition stays met when its feature moves further past the threshold |
| Catalogue.CatalogueScores | eda_agent/agent/inference/rules.py:83-305 | for every feature vector the score of every shipped rule, written out in comparisons of feature values |
| Catalogue.CatalogueReport | eda_agent/agent/inference/engine.py:149-182 | from the raw feature values alone: which shipped rule is reported at which place when no weight is stored |
| Weights.RuleWeights.UpdateWeights | eda_agent/agent/inference/weights.py:65-114 | the three-case update through a dictionary of new values equals the specified feedback, also for repeated ids in the list; which rows it writes, and that it counts one more confirmation for exactly these |
| Weights.RuleWeights.PenaliseShown | eda_agent/agent/inference/weights.py:106-111 | the loop over the shown rules lowers each by half a step from its stored value, however often it is listed |
| Weights.ClampMeans | eda_agent/agent/inference/weights.py:46-49 | values in [0.10, 2.00] are stored as they are, others as the bound they exceed |
| Weights.RuleWeights.PersistUpdates | eda_agent/agent/inference/weights.py:117-165 | upserting row by row, in any order, is the map update of multipliers and one more confirmation for exactly those rules |
| Weights.FeedbackEffect | eda_agent/agent/inference/weights.py:65-114 | exact effect on each rule as read: the confirmed one rises, none else does, and who falls by how much, clamped |
| Weights.FeedbackInBounds | eda_agent/agent/inference/weights.py:46-49 | a confirmation keeps every multiplier in [0.10, 2.00] |
| Weights.MultipliersStayInBounds | eda_agent/agent/inference/weights.py:46-114 | so does every sequence of arbitrary confirmations from the empty table |
| Engine.FireRules | eda_agent/agent/inference/engine.py:149-157 | the loop collects exactly the rules that reach their threshold, in catalogue order |
| Engine.Infer | eda_agent/agent/inference/engine.py:149-182 | the report is the first three of the ranking, rank by rank |
| Engine.SortRanked | eda_agent/agent/inference/engine.py:159-160 | a stable descending sort puts better scores first and ties in catalogue order |
| Engine.RankingCorrect | eda_agent/agent/inference/engine.py:149-166 | the ranking holds exactly the rules that fire, strictly ordered by score, then catalogue position |
| Engine.RankingUnique | eda_agent/agent/inference/engine.py:159-160 | any list with these two properties is the ranking |
| Engine.OmittedAreBehind | eda_agent/agent/inference/engine.py:162-166 | a fired rule that is not shown is behind all three that are |
| Engine.ReportPlace | eda_agent/agent/inference/engine.py:149-182 | a rule is hypothesis k + 1 if and only if it is among the first three, reaches its threshold, and exactly k rules that reach theirs come before it; its entry tells rank, weighted and raw score, multiplier and confidence band |
| Engine.Reported | eda_agent/agent/inference/engine.py:159-166 | it is reported if and only if it reaches its threshold and fewer than three such rules come before it |
| Engine.ReportLength | eda_agent/agent/inference/engine.py:162-166 | there are as many hypotheses as rules that reach their threshold, up to three |
| Engine.TopScoreDecides | eda_agent/agent/optimization_loop.py:330-344 | testing the first reported score decides for all rules that fire, shown or not, whether any reaches the threshold |
| Engine.ConfidenceAsDocumented | eda_agent/agent/inference/engine.py:33-44 | the confidence is the documented one if and only if the score lies outside [0.35, 0.4) and [0.65, 0.7) |
| Learning.RoundEffect | eda_agent/agent/inference/weights.py:95-111 | a round of infer and confirm raises the confirmed rule, raises no other, and lowers the leader if that is another |
| Learning.PenaltyAsDocumented | eda_agent/agent/inference/weights.py:106-110 | when the confirmed cause was not shown, the update is the documented one if and only if every fired rule that was not shown is at the smallest multiplier anyway, as with at most three fired rules |
| Learning.NoOvertaking | eda_agent/agent/inference/engine.py:149-182 | whoever is ahead of the confirmed rule afterwards was ahead of it before |
| Learning.LeadIsKept | eda_agent/agent/inference/weights.py:95-111 | once first, a cause stays first while it is confirmed |
| Learning.RoundUsesPotential | eda_agent/agent/inference/weights.py:65-114 | every round in which the confirmed rule is not first uses up potential, over the sort, the cap and the clamp |
| Learning.LeadingNeedsCanLead | eda_agent/agent/inference/engine.py:149-182 | with no multipliers in bounds can a rule be first unless it can lead |
| Learning.LearningConverges | eda_agent/agent/inference/weights.py:46-114 | for any rules, features, step and start: a cause is first at some time if and only if it can lead, and then from round Potential on for good |
| Learning.CatalogueCanLead | eda_agent/agent/inference/rules.py:108-305 | in the shipped catalogue a cause can lead exactly if twice its raw score reaches its threshold |
| Learning.CatalogueLearning | eda_agent/agent/inference/weights.py:41-114 | there, from no stored weights, confirming makes it first within 200 rounds and for good, or never |
| Diagnosis.InferenceStore.Diagnose | eda_agent/agent/inference/engine.py:76-106 | a report computed with the current weights is stored under a new id, or under none with id -1 |
| Diagnosis.InferenceStore.Confirm | eda_agent/agent/inference/engine.py:199-285 | a known id records the cause and feeds its stored report back; an unknown one changes nothing |
| Diagnosis.InferenceStore.TrainOn | eda_agent/agent/inference/engine.py:111-285 | alternating diagnosis and confirmation through stored records is the system the convergence theorem is about |
| Messages.ShrinkIsBestCut | eda_agent/agent/memory.py:126-143 | dropping groups one by one ends at the longest suffix of whole groups that fits, whatever fitting means |
| Messages.SuffixPaired | eda_agent/agent/memory.py:126-143 | a suffix of whole groups of a paired (complete) history is paired (complete) |
| Messages.ShrinkKeepsPairing | eda_agent/agent/memory.py:192-207 | dropping groups keeps pairing and completeness for every budget |
| Pairing.PairedMeans | eda_agent/agent/memory.py:234-237 | paired means: only user, assistant and tool messages, and every tool message is the first answer to a call of the latest assistant message, with only tool messages between |
| Pairing.CompleteMeans | eda_agent/agent/memory.py:126-143 | complete means: paired, and every call that has an id is answered |
| Eviction.EvictThenAppend | eda_agent/agent/memory.py:86-88 | evicting early and again later is evicting once, unless the history was emptied inside a group |
| Eviction.GroupAsBatch | eda_agent/agent/memory.py:86-143 | a group that fits, appended message by message, ends as if appended whole |
| Eviction.HistoryIsWindow | eda_agent/agent/memory.py:86-143 | with groups no larger than the bound the history is the longest group-aligned suffix of all messages ever added |
| Eviction.TurnOutcome | eda_agent/agent/memory.py:126-143 | for any number of calls: a turn within the bound is kept whole; a larger one loses everything but orphaned results, exactly how many |
| Eviction.EvictKeepsPairing | eda_agent/agent/memory.py:126-143 | count eviction keeps pairing and completeness |
| Memory.AgentMemory.Add | eda_agent/agent/memory.py:86-88 | appends, then keeps the longest suffix of whole groups within the bound |
| Memory.AgentMemory.AddUser | eda_agent/agent/memory.py:90-91 | as Add, with a user message |
| Memory.AgentMemory.AddAssistant | eda_agent/agent/memory.py:93-98 | as Add, with the text and the calls |
| Memory.AgentMemory.AddToolResult | eda_agent/agent/memory.py:100-124 | as Add, with the result cut to the limit and a note of the missing length |
| Memory.AgentMemory.EvictIfNeeded | eda_agent/agent/memory.py:126-143 | the nested pop loops compute exactly the group-aligned cut |
| Memory.TruncateMeans | eda_agent/agent/memory.py:103-117 | an overlong result keeps its front, and the note tells how many characters are missing |
| Memory.AgentMemory.GetMessages | eda_agent/agent/memory.py:145-165 | the outgoing list: system prompt, serialised history, trimmed when a budget is given |
| Memory.AgentMemory.ShrinkToByteBudget | eda_agent/agent/memory.py:192-207 | the pop loops compute the group-aligned cut for the byte size |
| Memory.AgentMemory.LoadMessages | eda_agent/agent/memory.py:258-300 | the loop with its set of open ids is the sanitiser followed by eviction |
| Memory.AgentMemory.FromDict | eda_agent/agent/memory.py:225-247 | rebuilds memory from any payload |
| Memory.SanitisedIsPaired | eda_agent/agent/memory.py:258-300 | any stored list whatever is restored to a paired history |
| Memory.SanitisedIsSelection | eda_agent/agent/memory.py:258-300 | restoring picks stored messages in order and takes every user and assistant message |
| Memory.SanitisedIsLongest | eda_agent/agent/memory.py:258-300 | no paired selection that takes the whole dialogue keeps more messages |
| Memory.SanitiseInvertsSerialise | eda_agent/agent/memory.py:167-177 | a paired history comes back from its stored form with the same stored form |
| Memory.SerialiseKeepsPairing | eda_agent/agent/memory.py:167-177 | serialising neither makes nor breaks pairing or completeness |
| Memory.TrimToTokenBudget | eda_agent/agent/memory.py:379-410 | the loop on the rest of the list is the group-aligned cut behind the system head |
| Memory.TrimmingIsOptimal | eda_agent/agent/memory.py:379-410 | trimming keeps the head and the longest fitting group-aligned suffix, or the head alone, is the identity when all fits, and keeps pairing |
| Memory.OutgoingKeepsPairing | eda_agent/agent/memory.py:145-165 | every prompt and every token budget sends a list as well paired as the history |
| Outbound.OutgoingCarries | eda_agent/agent/memory.py:145-177 | what is sent is the system prompt and, one for one, the history from some group on, each message with its role, text, calls, name and id; all of it without a budget, else the most groups that fit |
| Outbound.UserIsHeard | eda_agent/agent/memory.py:145-177 | a history that ends with a user message is sent with its text at the end, unless not even that fits the budget |
| Outbound.EstimateMeans | eda_agent/agent/memory.py:389-396 | what one message and one call add to the estimate |
| Sessions.SessionStore.SaveSession | eda_agent/agent/session_store.py:223-296 | writes the byte-bounded, serialised memory as the whole row, and shrinks the memory itself |
| Sessions.SessionStore.LoadSession | eda_agent/agent/session_store.py:153-220 | a stored row is sanitised and evicted into a new memory; a missing one gives an empty memory |
| Sessions.EvictSerialised | eda_agent/agent/memory.py:126-177 | eviction and serialisation commute |
| Sessions.SaveThenLoad | eda_agent/agent/session_store.py:153-296 | for any paired history: loading gives back what was saved (cut to 40 messages), paired, saving again writes the same row, and the row is the longest suffix within the byte limit or empty |
| Sessions.SavedIsLoaded | eda_agent/agent/session_store.py:153-296 | field by field and without mention of the stored form: the row holds the last groups of the history that fit 524288 bytes, the loaded history the last of these with at most 40 messages |
| Planner.Run | eda_agent/agent/planner.py:202-308 | request i carries the bounded history of everything said so far, at most max_iterations requests, exactly when the turn goes on, and which answer or failure each way of ending gives, a request that itself raises included; each request carries the last groups of that history field by field, the first one with what the user said at its end |
| Planner.Respond | eda_agent/agent/planner.py:214-302 | one reply adds its group to the memory and ends the turn exactly in the listed cases |
| Planner.GroupMeans | eda_agent/agent/planner.py:214-287 | what an iteration adds, message by message: content, or else reasoning, with the calls, then the result of each call up to the first exception under its name and id |
| Planner.ContinuesMeans | eda_agent/agent/planner.py:214-302 | another request follows if and only if the reply asked for tools and did not stop, all tools returned, and none submitted a job or flow |
| Planner.LastSubmissionMeans | eda_agent/agent/planner.py:289-298 | of several submissions the last one counts |
| Planner.LastTextMeans | eda_agent/agent/planner.py:308-320 | the text a turn falls back to is that of the latest assistant message that has any |
| Planner.RunTools | eda_agent/agent/planner.py:242-298 | results are added in order up to the first exception; the last submission counts |
| Planner.GroupPaired | eda_agent/agent/planner.py:232-287 | what a reply with distinct ids adds is paired, and complete exactly if no call raised |
| Planner.PairingNeedsOwnIds | eda_agent/agent/planner.py:244-287 | when nothing raises, an iteration's messages are paired if and only if every call brought an id of its own |
| Planner.TurnStaysPaired | eda_agent/agent/planner.py:202-308 | over a whole turn eviction never touches the open group, and pairing and completeness are kept |
| Planner.RequestsAreSendable | eda_agent/agent/planner.py:202-308 | every list sent to the LLM, after eviction and trimming, has each result answering its call and each call answered |
| Planner.TurnEndsCompleteUnlessRaised | eda_agent/agent/planner.py:202-308 | a turn leaves a complete history if and only if no tool raised |
| Conversation.SessionStaysSound | eda_agent/agent/session_store.py:153-296 | over any sequence of turns, saves, loads and removals, memory and stored row stay paired, and complete as long as no tool raised |
| Conversation.EveryRequestIsSendable | eda_agent/agent/planner.py:202-308 | in every such session each request of each turn has every result answering its call, and every call answered if no tool raised in an earlier turn |
| Conversation.TakeTurn | eda_agent/agent/planner.py:202-308 | the turn of a session is a run of the loop on the memory |
| Conversation.SaveNow | eda_agent/agent/session_store.py:223-296 | and its other events are what the session store does |
| Streaming.MergeFragment | eda_agent/agent/planner.py:846-862 | merging a fragment keeps each slot equal to what all fragments so far say about its call |
| Streaming.Accumulate | eda_agent/agent/planner.py:804-862 | the loop over chunks collects all text and all fragments |
| Streaming.Reassemble | eda_agent/agent/planner.py:864-881 | calls come out once per index in ascending order, with a new id where none was sent |
| Streaming.SortIndices | eda_agent/agent/planner.py:871-871 | lists a set of indices in ascending order |
| Streaming.AllJoin | eda_agent/agent/planner.py:838-866 | texts, reasoning and fragments cut at ascending offsets into chunks join to the whole again |
| Streaming.FinishMeans | eda_agent/agent/planner.py:834-834 | the finish reason is the last one given, or "stop" |
| Streaming.IdMeans | eda_agent/agent/planner.py:846-857 | the id of a call is the last one given for it |
| Streaming.NameMeans | eda_agent/agent/planner.py:858-860 | and so is its name |
| Streaming.KindMeans | eda_agent/agent/planner.py:846-855 | its type is that of its first fragment |
| Streaming.ListUnique | eda_agent/agent/planner.py:871-871 | there is only one such list |
| Streaming.EmitArguments | eda_agent/agent/planner.py:861-862 | the fragments sent between two states of a schedule carry exactly the argument text between them |
| Streaming.EmitId | eda_agent/agent/planner.py:856-857 | an id comes through exactly if some fragment carries it, whichever it is and however often |
| Streaming.FragmentsCarryTheCalls | eda_agent/agent/planner.py:846-862 | however calls are cut and interleaved, and whichever fragments bring ids, names and types, the fragments say of each call what was delivered, and nothing of any other |
| Streaming.StreamAndReassemble | eda_agent/agent/planner.py:787-881 | reassembly inverts fragmentation: any cutting of texts and fragments into chunks and any interleaving of the calls gives back texts and calls in ascending order, with the last finish reason given, each as delivered, with a new id where none came; a call delivered whole comes back as it was |
| Streaming.WholeWhenDelivered | eda_agent/agent/planner.py:846-862 | a call with an id comes back as it was if and only if its id and name were sent and its first fragment brought its type, if that is not the default |
| Protocol.RowsStep | eda_agent/queue/store.py:186-383 | in no step does a row vanish, change its creation data or claim traces, or become pending again |
| Protocol.InvStep | eda_agent/queue/store.py:278-383 | every step of every participant keeps the protocol's invariant |
| Guarantees.ClaimedAtMostOnce | eda_agent/queue/store.py:319-347 | in every interleaving no job is claimed twice |
| Guarantees.GrantedCancelIsFinal | eda_agent/queue/store.py:371-383 | a cancellation that returned True means the job was not and never will be claimed, and stays cancelled |
| Guarantees.ReportedCancelIsTrueIffUnstarted | eda_agent/agent/tool_impl_job.py:157-172 | the read-then-write cancellation tells the truth, for every continuation, exactly if the job had no start time at its write: then it is never claimed and stays cancelled |
| Guarantees.CancelRace | eda_agent/agent/tool_impl_job.py:157-172 | a run in which a job is reported cancelled and yet ends in success |
| Guarantees.SweepRace | eda_agent/queue/store.py:278-313 | a run in which a sweep turns a successful job into a failed one |
| Guarantees.MistakenSweep | eda_agent/queue/store.py:287-301 | a run in which a probe takes a live worker for dead, and a job marked failed ends in success |
| Guarantees.OldestFirst | eda_agent/queue/store.py:319-347 | of two claims the earlier took the older job, if both were in the table |
| Guarantees.OnlyLateWritesBreakTheLifecycle | eda_agent/queue/store.py:278-383 | in every interleaving, whatever has gone wrong before: a step moves some job against the life cycle if and only if it is such a late write, or a worker's end write to a job that was cancelled or swept meanwhile |
| Guarantees.OnlyGapsBreakTheLifecycle | eda_agent/queue/store.py:278-383 | as long as fields and owners are in order, a step moves some job against the life cycle if and only if it is a late write of a read-then-write cancellation or sweep |
| Guarantees.ReachesIsPathOfMoves | eda_agent/queue/store.py:49-55 | what Lifecycle calls reachable follows from chains of intended moves, and a terminal status reaches only itself |
| Guarantees.Lifecycle | eda_agent/queue/store.py:278-383 | outside those gaps, with right probes and clean reuse of process ids, over whole runs: statuses only move as intended, terminal ones stay, timestamps and worker ids fit the status, a cancelled job has an end time exactly if the read-then-write cancellation reported it, a live worker owns at most one running job |
| Guarantees.SweptIsFinalIffDead | eda_agent/queue/store.py:287-301 | a running job that a sweep marks failed stays failed, however the run goes on undisturbed, if and only if its worker is dead at that moment |
| Guarantees.OwnershipSurvivesCleanReuse | eda_agent/queue/store.py:319-347 | a reused process id keeps every running job with its worker if and only if its former owner left none behind |
| Guarantees.ReuseRace | eda_agent/queue/store.py:319-347 | a run in which a reused process id owns two running jobs |
| Jobs.OldestExists | eda_agent/queue/store.py:326-343 | a table with pending jobs has an oldest one |
| Store.JobStore.CreateJob | eda_agent/queue/store.py:186-236 | inserts a pending job with nothing but its request and creation time |
| Store.JobStore.ClaimPendingJob | eda_agent/queue/store.py:319-347 | takes an oldest pending job, noting start time and worker and nothing else, and nothing exactly if none is pending |
| Store.JobStore.MarkDone | eda_agent/queue/store.py:349-369 | writes status, run, message and end time whatever the status was |
| Store.JobStore.CancelJob | eda_agent/queue/store.py:371-383 | cancels exactly if pending, and says so |
| Store.JobStore.CancelJobImpl | eda_agent/agent/tool_impl_job.py:157-172 | without interference: not found, refused with the status, or cancelled |
| Store.JobStore.FixStaleJobs | eda_agent/queue/store.py:278-313 | without interference, in any order of the rows and for any answers of the probe: exactly the running jobs whose worker is not found become failed, at the time of the sweep and otherwise unchanged, all others stay as they are, and the jobs asked for are listed once each, newest first |
| Sweeping.SweepIsRun | eda_agent/queue/store.py:278-301 | the table a sweep leaves is that of its read followed by one write for each stale entry read, in any order, as steps of the protocol |
| Sweeping.CancelIsRun | eda_agent/agent/tool_impl_job.py:157-172 | the read-then-write cancellation without interference is its two steps: the read goes through if and only if the job is pending, and what the write leaves |
| Sweeping.StepsAreUsedUp | eda_agent/queue/store.py:186-383 | no read, claim or submission allows its step twice |
| Flow.RequestedIsSlice | eda_agent/agent/tool_impl_run_stage.py:140-158 | a request is served if and only if it names everything or supported stages in flow order, and then is everything, or exactly the stages from the first to the last named |
| Flow.LowerMeans | eda_agent/agent/tool_impl_run_stage.py:142-158 | how stage names are put into small letters |
| Flow.StagesMean | eda_agent/agent/tool_impl_run_stage.py:167-240 | stage k is run as number k + 1 on top of the run of the stage before, and reported as it went |
| Flow.RunStages | eda_agent/agent/tool_impl_run_stage.py:167-240 | runs a prefix of the slice up to the first failure or exception, parents chained, one edge per consecutive pair |
| Flow.LastDecides | eda_agent/agent/tool_impl_run_stage.py:242-251 | looking at the results found is the same as asking whether every requested stage ran and succeeded |
| Flow.ResultsDetermined | eda_agent/agent/tool_impl_run_stage.py:167-240 | what a finished loop returns is determined by the outcomes of the stages up to the first failure |
| Flow.RunFlow | eda_agent/agent/tool_impl_run_stage.py:140-260 | the results are exactly those of the stages up to the first failure; on normal return the session gets exactly one closing update, completed if and only if every requested stage succeeded; it raises if and only if nothing was requested or a stage raises before any fails |
| Worker.ExecuteJob | eda_agent/queue/worker.py:73-150 | a job ends in success if and only if everything it asked for ran and succeeded; the run noted is that of its stage, or the last one with an id of a flow, however far it went, and none after an exception; other jobs are untouched; the end time is that of the call |
| Worker.AccomplishedMeans | eda_agent/queue/worker.py:89-108 | a flow job without a first stage asks for everything its backend supports |
| Worker.LastRunMeans | eda_agent/queue/worker.py:108-113 | the run noted is the last one whose id is not zero |
| Worker.IdleMeans | eda_agent/queue/worker.py:189-207 | idle time counts from the end of the latest job, or from the start |
| Worker.PollOnce | eda_agent/queue/worker.py:191-195 | one poll executes an oldest pending job, if there is one, whatever others do to the table meanwhile |
| Worker.RunWorker | eda_agent/queue/worker.py:189-207 | with an idle limit and finitely many submissions, amid any acts of other participants, the worker terminates, exactly at the first poll at which it has been idle for the limit, with nothing pending left; every poll is logged |
| Worker.IdleRankDecreases | eda_agent/queue/worker.py:196-205 | every idle poll brings the idle limit closer |
| Worker.FewerPending | eda_agent/queue/worker.py:192-195 | once submissions have ended, every job taken leaves fewer pending ones |
| Drain.ProtocolPersists | eda_agent/queue/store.py:186-383 | every step of the protocol is one of the acts a worker's run allows for |
| Drain.ExecutedOnce | eda_agent/queue/worker.py:189-207 | in every such run no job is taken twice |
| Drain.OlderFirst | eda_agent/queue/store.py:326-343 | of two jobs taken the earlier is not younger, if the later was in the table by then |
| Drain.RunIsSorted | eda_agent/queue/store.py:326-343 | if creation times follow arrival, the whole run is sorted by them |
| Drain.QueueIsDrained | eda_agent/queue/worker.py:189-207 | if others only submit, every job that was pending at any poll was taken by the worker and has ended as its execution says |
| Drain.DrainQueue | eda_agent/queue/worker.py:189-207 | first in, first out, and drain, of one worker's run: alone at the queue it executes every job that was pending at the start or at any poll, each exactly once, in order of creation, each ending as its execution says, and exits with none pending |
| Lineage.EdgesSnoc | eda_agent/agent/tool_impl_run_stage.py:187-202 | extending a chain of runs adds the edge from its last run |
| Tuning.BestIsMaximum | eda_agent/agent/tool_impl_tuning_ppa.py:160-166 | the running best is a maximum of the recorded slacks, and absent exactly if none was recorded |
| Tuning.ImprovesMeans | eda_agent/agent/tool_impl_tuning_ppa.py:160-166 | a slack improves the best if and only if it exceeds every slack recorded before |
| SingleStage.Recorded | eda_agent/agent/tool_impl_tuning_ppa.py:70-172 | what one more run does to the records, the best slack and the recorded decisions |
| SingleStage.TracesMean | eda_agent/agent/tool_impl_tuning_ppa.py:120-160 | the recorded decisions are the pairs of neighbouring runs, as far as these went through |
| SingleStage.Tune | eda_agent/agent/tool_impl_tuning_ppa.py:61-238 | runs form a parent chain, decisions are exactly the consecutive pairs, improved marks exactly the strict running maxima, only the last run can fail or meet the target, exactly one closing update, completed if and only if met |
| StageRuns.Lineage.RunStage | eda_agent/agent/tool_impl_tuning_ppa.py:327-407 | a stage run gets the next sequence number and the latest successful run as parent, and consumes the pending decision at the first run with an id |
| StageRuns.Lineage.Decide | eda_agent/agent/tool_impl_tuning_ppa.py:453-494 | a decision is taken on the latest successful run, with none pending |
| StageRuns.DecisionsExtend | eda_agent/agent/tool_impl_tuning_ppa.py:377-400 | a run keeps the pending decision open or is the target it is recorded with: none is recorded twice or dropped |
| Itinerary.RerunMeans | eda_agent/agent/tool_impl_tuning_ppa.py:293-313 | a rerun starts at the stage named, or at the start stage if that is no stage, or at synth |
| Itinerary.RunsMean | eda_agent/agent/tool_impl_tuning_ppa.py:324-350 | the parent of a run is the latest run before it that went through with an id, its parameters those of the latest decision about its stage that had any |
| Multistage.RunSuffix | eda_agent/agent/tool_impl_tuning_ppa.py:313-410 | an iteration runs a prefix of the flow from the rerun stage on, short only after a failure |
| Multistage.RunIteration | eda_agent/agent/tool_impl_tuning_ppa.py:308-435 | an iteration is run, judged by its finish timing or by the timing queried for its last run, and described |
| Multistage.Tune | eda_agent/agent/tool_impl_tuning_ppa.py:266-509 | for every environment: each iteration reruns synth, floorplan, place, cts, route, finish from the bottleneck just decided on, or else from where the rules above say, stage by stage; sequence numbers 1, 2, 3, ... over all iterations, each trace leads from a decision's run to the first run after it, whose parent it is, exactly one decision per iteration that allows one, best is the maximum, the last update is completed if and only if the last iteration met the target, and there is exactly one update if and only if at most one iteration failed, and none before a met target |
| Multistage.FailThenComplete | eda_agent/agent/tool_impl_tuning_ppa.py:364-375 | an environment in which a session is marked failed and then completed |
| ClosedLoop.SelectionAvoidsRisk | eda_agent/agent/optimization_loop.py:270-305 | the experiment is for the top cause: its first low-risk one, or its first one exactly if it has no low-risk one |
| ClosedLoop.ConfirmingTheTopReinforces | eda_agent/agent/inference/weights.py:95-100 | confirming the top cause of a stored report moves that rule up a step and touches no other |
| ClosedLoop.VerdictMeans | eda_agent/agent/optimization_loop.py:196-238 | what verification says in terms of the new run |
| ClosedLoop.SourcesMean | eda_agent/agent/optimization_loop.py:146-160 | each iteration diagnoses the newest run that has an id |
| ClosedLoop.OptimizationLoop.Iterate | eda_agent/agent/optimization_loop.py:152-238 | converged means target met, or that on the new run no rule that fires reaches the threshold |
| ClosedLoop.OptimizationLoop.ConfirmCured | eda_agent/agent/optimization_loop.py:246-249 | confirming a record's top cause reinforces its rule alone, if the inference was stored, and changes nothing otherwise |
| ClosedLoop.OptimizationLoop.RunIterations | eda_agent/agent/optimization_loop.py:149-253 | the loop of one call: records, path and confirmation as in Orchestrate, and the run left to diagnose last |
| ClosedLoop.OptimizationLoop.Orchestrate | eda_agent/agent/optimization_loop.py:146-264 | at most max_iterations records, only the last converged or without experiment, edges one path from the baseline, at most one confirmation, exactly if the last record converged with a stored inference, which moves one multiplier up and no other; the result also counts earlier calls |
| Blockage.AddBlockages | eda_agent/backends/innovus.py:444-516 | inherits the previous block, labels on from its count, and refuses at the first invalid blockage |
| Wording.CheckMeans | eda_agent/backends/innovus.py:487-500 | for which of three reasons a blockage is refused |
| Wording.CommandReadsBack | eda_agent/backends/innovus.py:502-506 | split at its blanks, a command names the corners asked for, without their fractions and in order, and the kind |
| Wording.LabelReadsBack | eda_agent/backends/innovus.py:501-505 | the line before it carries the number and the reason, or a default reason with the same number |
| Blockage.FullText | eda_agent/backends/innovus.py:502-506 | a block holds a brace exactly if a reason does, and the command once per blockage exactly if no reason mentions it |
| Blockage.ExtractInverts | eda_agent/backends/innovus.py:476-483 | for every run id, the block is read back whole if and only if it holds no closing brace and the header does not hold the marker, or quotes that very block behind it |
| Blockage.ColonFreeHeader | eda_agent/backends/innovus.py:509-513 | every run id without a colon gives a header without the marker |
| Cumulative.BlockGrows | eda_agent/backends/innovus.py:487-516 | inherited text and new commands join to the full list, one indentation short |
| Cumulative.CumulativeScript | eda_agent/backends/innovus.py:466-516 | along any chain of calls every script reads back as all blockages requested so far, once, in order, labelled 1, 2, 3, ..., if and only if no reason holds a closing brace or mentions the command and no header hides the block; behind headers without the marker the reasons alone decide for the last script |
| Cumulative.BraceBreaksTheScript | eda_agent/backends/innovus.py:477-481 | an accepted request whose script does not read back |
| Cumulative.MarkerBreaksTheScript | eda_agent/backends/innovus.py:477-510 | a run id that holds the marker and no brace spoils the script of every accepted request |
| Backoff.ConfigureMeans | eda_agent/backends/innovus.py:129-132 | which settings are raised to their least value |
| Backoff.WaitNext | eda_agent/backends/innovus.py:549-549 | capping at every step is capping once: wait k is min(max, initial * multiplier^k) |
| Backoff.WaitsMean | eda_agent/backends/innovus.py:539-549 | the first wait is the initial one, each further one the one before times the multiplier, up to the cap |
| Backoff.WaitsGrow | eda_agent/backends/innovus.py:541-549 | from the second wait on waits only grow, up to the cap |
| Backoff.TotalBounded | eda_agent/backends/innovus.py:541-549 | n waits take at most the first one plus n - 1 caps |
| Backoff.SshRun | eda_agent/backends/innovus.py:538-556 | repeats only after transient failures, at most retries attempts, with exactly these waits, together at most the first one and the cap for each further one |
| Backoff.WaitForConnectivity | eda_agent/backends/innovus.py:607-621 | reachable if and only if one of the allowed probes succeeds, no probe follows it, exactly these waits, and the same bound on their sum |

## Left out

- Rounding of reported scores to four digits, and floating point in general: scores, weights, slacks and waits are exact reals, so a score that rounding lifts over a threshold is not seen.
- Comparison operators outside the five the catalogue uses, and the texts a report carries (names, evidence, summary, next action).
- Weights.RuleWeights.PersistUpdates: the time of the last update of a row.
- Diagnosis.InferenceStore.Confirm: the case memory that is written beside the weights, and the time of the confirmation.
- Failures of best-effort persistence (decision traces, session updates, weights): taken to succeed, except for storing an inference, which may fail.
- Tool-call ids, names and types that are present but not strings, and messages whose content is not text.
- Context extraction from tool results, similar-case lookup and the sub-agent cycle.
- Prompt-mode rewriting of messages and replies, and the retry with a smaller budget after a timeout; Memory.OutgoingKeepsPairing covers every budget.
- Legacy session table layouts, session listing and database failures while loading.
- JSON and byte encoding: sizes are arbitrary functions of the message list or the call.
- submit_job_impl and run_eda_flow_async_impl: argument checks and defaults before the insert.
- Store.JobStore.CreateJob: takes the creation time as the time of the insert; the code reads the clock just before.
- Store.JobStore.FixStaleJobs: the probe is a given set of worker ids that are not found.
- Worker.RunWorker: without an idle limit the loop does not end and is not modelled, nor are signals; others act before a poll and between a claim and the end of its job; a poll interval of zero is covered if every idle poll takes some time anyway.
- Worker.ExecuteJob: the log path and the wording of error messages.
- Flow.LowerMeans: letters outside ASCII.
- Flow.RunFlow: an exception in a stage leaves the session without any closing update, as in the code; archiving and stage outcomes are not modelled.
- Multistage.Tune: the environment's callbacks do not raise; in the code such an exception leaves the session open. The branch for an iteration without stages cannot be reached and is absent.
- SingleStage.Tune: the same holds for its callbacks.
- ClosedLoop.OptimizationLoop.Orchestrate: numeric conversion of experiment parameters, and creation of a session by the wrapper function.
- Blockage.AddBlockages: the remote shell is taken to store the script unchanged, which needs reasons and run ids without a line that reads EOF; coordinates that are no numbers are absent.
- Backend adapters, report parsers, parameter catalogue, guardrails, HTTP interface and command line.
