# InsiEDR: a verified model of the stateful core

The project models the parts of the InsiEDR server in which state, concurrency or arithmetic
interact, and proves what their callers rely on:

- the durable task queue: the Redis protocol with any number of workers, crashes, lost replies,
  promotion and reaping (`RedisProtocol`, `RedisSafety`, `RedisOwnership`, `RedisLifecycle`,
  `RedisRecovery`, `RedisTermination`), the client and the worker loop as code (`TaskQueue`), many workers at once
  (`RedisReplicas`), the PostgreSQL queue (`PgQueue`, `PgTermination`, `PgReplicas`), and the life of
  one task that both refine (`TaskLife`);
- risk fusion and its feedback loop (`RiskFusion`, `RiskAggregator`, `RiskTheorems`, `RiskInNumbers`, `ModelBridge`);
- heuristic correlation scoring and the shipped rules (`CorrelationDecay`, `HeuristicRules`,
  `Heuristics`, `HeuristicTheorems`, `DomainActivation`, `HeuristicContext`,
  `HeuristicSilence`, `ShippedRules`);
- the SQL splitter and the migration runner (`SqlSplitter`, `SqlQuotes`, `MigrationRunner`);
- the ClickHouse micro-batcher and its dead-letter files (`Batcher`, `DlqFiles`, `Ledger`, `DlqNames`);
- the in-process cache and the two-tier cache over several replicas (`LruCache`, `TieredCache`);
- the online baseline and the z-score detector (`Baseline`, `BaselineTheorems`, `ZScore`);
- weekly partition maintenance (`Partitions`);
- shared helpers (`Reals`, `Text`).

Code that works step by step is written as methods of classes over the same fields and proved
against specification functions; protocols are state machines over their atomic steps, and a run is
any sequence of steps. Scores, weights and cache times are reals; queue times are whole
microseconds, the risk-history and partition times whole seconds.

Findings, each with a lemma that shows it and one that says when it does not happen:

- a worker that overruns the stale limit, or a failed HDEL in `fail`, lets two workers execute one
  task at once (`SlowWorkerDuplicates`, `RefusedReleaseDuplicates`); every task is in one place all
  along exactly if neither happens (`OwnershipExactly`);
- the PostgreSQL queue has no reaper: a crash at work, a lost claim reply or a refused status
  update leaves the row in `running` for good (`StrandedExactly`, `StrandedForever`);
- dead-letter replay takes no lock: rows spooled to a file between its read and its removal are in no
  place any more (`OvertakenReplayLoses`), nor are rows spooled to a name that a second replay of the
  same file removes (`TwoReplaysLose`). No row is lost exactly if no step writes to a removed file,
  removes rows that no replay holds, or abandons the only copy (`LostExactly`); with one replay on a
  name at a time, exactly if nothing is written between read and removal or after it
  (`OneReplayLosesExactly`). Rows are inserted twice exactly if a replay inserts from a file that
  another has inserted from before (`TwoReplaysRepeat`, `Interleave`);
- dead-letter replay reads the table from the second part of the file name, which is the table
  exactly when its name has no underscore (`ReplayFindsTableIff`);
- a baseline window shorter than one day is no average (`ShortWindowOvershoots`, `MeansStayBetween`);
- the corroboration guard is not monotone: for all features short of a severe scenario, a pipeline
  score of 50 alone ends at 10 and one of 40 at 28 or more (`GuardIsNotMonotone`); stronger payloads
  keep the score exactly under the condition of `StrongerPayloadNeverHurts`;
- a detection in a new domain can lower the heuristic score: one harmless web request does so for a
  user who reads twenty thousand files on a hundred machines (`ThirdDomainCanLowerRisk`); it happens
  exactly under a condition on the old peaks and the new one (`NewDomainLowersRiskIff`);
- a z-score threshold below 0 flags every payload (`AnomalousExactly`);
- two cache keys can share one Redis entry (`StoredCollides`), and a set begun before an invalidate can
  write Redis after it and bring its value back (`LateWriteSurvives`), though not for longer than
  `LateWritesExpire` says;
- a username equal to a role's key has its payloads counted twice in the role
  (`KeyAsUsernameBreaksSum`); the role is the sum of its users exactly if there is no such user or no
  other (`RoleIsSumOfUsers`);
- `docs/DETECTION_PIPELINE.md` describes the heuristic score as a floor and levels at 40, 70 and 90;
  the code averages it and uses 35, 60 and 85. The code is followed: the heuristic score is a floor
  exactly if the other sources outweigh it (`HeuristicFloorIff`), never if it stands alone above 0
  (`UnsupportedHeuristicsAreDiluted`), as some features make it (`HeuristicsAreNoFloor`).

## Model

| member | source | states |
|---|---|---|
| `TaskLife.MoveDecreases` | server/task_queue.py:128-141 | every claim, completion, failure and promotion of a task decreases a measure over remaining attempts and location |
| `TaskLife.LifeIsBounded` | server/task_queue.py:128-141 | a task's life has at most 3 * max(1, max_attempts) - 1 moves, at most max(1, max_attempts) dispatches, and a total back-off of at most 10 s * (4^(max_attempts-1) - 1)/3 |
| `TaskLife.UnluckyReaches` | server/task_queue.py:134-141 | the task whose every attempt fails reaches all three numbers, so the bounds are tight |
| `TaskLife.DelaysClosedForm` | server/task_queue.py:138 | the delays 10 s, 40 s, 160 s ... of the first n failures sum to 10 s * (4^n - 1)/3 |
| `RedisSafety.AtLeastOnce` | server/task_queue.py:213-243 | after every run, an enqueued task is in Redis or in a worker's hand inside a window, was handled, exhausted its attempts, or was lost by a step inside one of the two windows |
| `RedisSafety.LostExactlyInWindows` | server/task_queue.py:282-330 | a task is lost if and only if some step of the run crashed or failed between BLPOP and HSET or between HDEL and ZADD |
| `RedisSafety.NextPlaced` | server/task_queue.py:273-335 | no single step makes a placed task disappear other than into success, exhaustion or loss |
| `RedisSafety.AttemptsAreBounded` | server/task_queue.py:287-323 | a claimed record's attempts never pass max(1, max_attempts) plus the times it was reaped; a record in the retry set has attempts left |
| `RedisSafety.RetriesWait` | server/task_queue.py:314-324 | unless reaped, a record that failed on attempt n is not popped before that failure plus 10 s * 4^(n-1) |
| `RedisSafety.NewPending` | server/task_queue.py:213-243 | pending records only come from enqueue, from matured retries and from the reaper |
| `RedisOwnership.RunSettles` | server/task_queue.py:213-335 | in clean runs, where the reaper takes no live worker's claim and no release of a task to be retried is refused, Redis and the workers agree, in both directions, with one home per task |
| `RedisOwnership.ExclusiveOwnership` | server/task_queue.py:224-243 | if every live worker is in time whenever the reaper runs and every release of a task to be retried takes hold, each task is in at most one place (two queues, the running hash, or a live worker's hand) and executed by at most one live worker, with any number of replicas |
| `RedisOwnership.OwnershipExactly` | server/task_queue.py:213-335 | no task is ever in two places along a run if and only if no step of it reaps a live worker's record and no release of a task to be retried is refused |
| `RedisOwnership.ReapSweeps` | server/task_queue.py:228-243 | in clean runs the reaper takes exactly the stale records without a live worker |
| `RedisOwnership.SettledIsSingle` | server/task_queue.py:285-292 | a state that agrees with one home per task has no task in two places, nor twice in one |
| `RedisRecovery.ClaimStamps` | server/task_queue.py:286-292 | a claim counts one attempt and stamps the record with its time, answered or not |
| `RedisRecovery.ReapReturns` | server/task_queue.py:228-243 | a reaper step takes a record from the running hash to the pending list if it was claimed before the cutoff and leaves it otherwise |
| `RedisRecovery.ReapedAfterTenMinutes` | server/task_queue.py:361-380 | with the shipped limit that is if and only if more than 600 s have passed since the claim |
| `RedisRecovery.PromotionReturns` | server/task_queue.py:213-222 | a promotion step does so with a retry if and only if the cutoff has reached its score |
| `RedisRecovery.CrashedTaskReturns` | server/task_queue.py:224-243 | in every clean run the task of a worker that crashed stays in the running hash until the first reaper whose cutoff lies past its claim, and that one makes it pending again |
| `RedisLifecycle.RunIsChain` | server/task_queue.py:273-335 | in a fault-free run a task's successive states form one chain of the abstract life |
| `RedisLifecycle.RedisTaskIsBounded` | server/task_queue.py:304-335 | hence the bounds on moves, dispatches and total back-off hold for each task of a fault-free run |
| `RedisLifecycle.QuietMeansFinished` | server/task_queue.py:457-472 | when a fault-free run has come to rest every task was handled or used up its attempts |
| `RedisTermination.EffectiveStepsAreBounded` | server/task_queue.py:213-335 | however long a fault-free run goes on, its claims, completions, failures, reschedulings and promotions that move something are at most 6 * max(1, max_attempts) - 2 per task enqueued |
| `RedisTermination.Progress` | server/task_queue.py:432-455 | a fault-free run that has not come to rest has an effective fault-free step: now, while something is pending, and otherwise no later than any retry is due |
| `RedisTermination.ComesToRest` | server/task_queue.py:432-472 | every fault-free run can be continued without new tasks until it rests, and then each task was handled or used up its attempts |
| `RedisLifecycle.SlowWorkerDuplicates` | server/task_queue.py:361-380 | with every command applied, a worker that overruns the stale limit leads to two live workers executing one task |
| `RedisLifecycle.RefusedReleaseDuplicates` | server/task_queue.py:309-324 | a refused HDEL in fail leads to the same although nobody overruns |
| `TaskQueue.Redis.PromoteScript` | server/task_queue.py:213-222 | moves exactly the records whose score the cutoff has reached, in score order, to the end of the pending list |
| `TaskQueue.Redis.ReapScript` | server/task_queue.py:228-243 | moves exactly the running records claimed before the cutoff to the end of the pending list, counts them, and leaves every other one |
| `TaskQueue.Redis.RangeByScore` | server/task_queue.py:214 | lists every matured record once, by ascending score |
| `TaskQueue.RedisTaskQueue.Enqueue` | server/task_queue.py:251-271 | is an enqueue step of the protocol unless the RPUSH is refused; returns the id only when answered |
| `TaskQueue.RedisTaskQueue.PromoteRetries` | server/task_queue.py:348-359 | is one promotion step; no due record is left in the retry set |
| `TaskQueue.RedisTaskQueue.PopAndClaim` | server/task_queue.py:280-295 | is the exact sequence of protocol steps of a claim for every outcome of its two commands; a task is returned exactly if the worker owns it |
| `TaskQueue.RedisTaskQueue.Pop` | server/task_queue.py:280-285 | is the BLPOP step for each outcome; the head is returned exactly if it was answered |
| `TaskQueue.RedisTaskQueue.FileClaim` | server/task_queue.py:286-292 | counts the attempt, stamps the record and files it under its id |
| `TaskQueue.RedisTaskQueue.Complete` | server/task_queue.py:297-302 | is the completing HDEL step, applied or not |
| `TaskQueue.RedisTaskQueue.Fail` | server/task_queue.py:304-335 | releases, then files for retry or marks exhausted, exactly as the attempt count says |
| `TaskQueue.RedisTaskQueue.Release` | server/task_queue.py:304-312 | is the HDEL step of a failed task, applied or not |
| `TaskQueue.RedisTaskQueue.File` | server/task_queue.py:317-324 | schedules the record at the current time plus 10 s * 4^(n-1) |
| `TaskQueue.RedisTaskQueue.ReapStale` | server/task_queue.py:361-391 | is one reaper step: every record claimed more than stale_seconds ago is pending again, every other one still running |
| `TaskQueue.TaskWorker.Dispatch` | server/task_queue.py:457-472 | handles and completes, or raises and fails, with the exact steps; afterwards the worker is free |
| `TaskQueue.TaskWorker.Poll` | server/task_queue.py:438-455 | one pass is: reap when 60 s have passed, promote, claim the head, dispatch it |
| `TaskQueue.TaskWorker.Loop` | server/task_queue.py:432-455 | the whole loop of one worker is a run of the protocol, pass by pass |
| `TaskQueue.RunExtends` | server/task_queue.py:438-455 | steps taken by a worker lengthen the run of the protocol |
| `RedisReplicas.Replicas.Step` | server/task_queue.py:273-335 | one command of any thread, at any moment its pass allows, takes exactly the enabled steps of the protocol that it names, on the Redis contents and the threads' variables |
| `RedisReplicas.Replicas.Interleave` | server/task_queue.py:432-472 | any commands of any number of workers and clients in any order, crashes between any two included, make a run of the protocol; every id handed out is placed, ended or lost in a window, and each task is in one place all along exactly if the run is clean |
| `PgQueue.PgTaskQueue.Enqueue` | server/task_queue.py:54-75 | inserts one pending row with a new id unless refused or max_attempts does not fit SMALLINT; the table is then that of the protocol after an insert step, or after none |
| `PgQueue.PgTaskQueue.SelectNext` | server/task_queue.py:92-99 | picks a row that is neither at work nor ended, due, unlocked, and of smallest scheduled_at, or there is none |
| `PgQueue.PgTaskQueue.ClaimNext` | server/task_queue.py:77-122 | takes exactly that row, counts the attempt, and returns it only when the commit was answered; table and worker are those of the protocol after the claim step |
| `PgQueue.PgTaskQueue.Complete` | server/task_queue.py:124-126 | marks the row completed and is a completion step of the protocol, applied or not |
| `PgQueue.PgTaskQueue.Fail` | server/task_queue.py:128-141 | reschedules after the back-off while attempts remain, else marks the row failed; is a failure step of the protocol, applied or not |
| `PgQueue.RunOwned` | server/task_queue.py:87-100 | in every run a running row has at most one live worker, whose counts are the row's |
| `PgQueue.RunIsChain` | server/task_queue.py:77-141 | in every run, crashes included, a row's states form one chain of the abstract life |
| `PgQueue.PgTaskIsBounded` | server/task_queue.py:134-141 | at most max(1, max_attempts) claims and the total back-off bound, in every run |
| `PgQueue.PgAttemptsAreBounded` | server/task_queue.py:87-100 | a running row's attempts are between 1 and max(1, max_attempts) |
| `PgQueue.PgRetriesWait` | server/task_queue.py:92-96 | a retry is claimed no earlier than its failure plus 10 s * 4^(n-1) |
| `PgQueue.StrandedExactly` | server/task_queue.py:147-184 | a running row has no live worker if and only if a crash at work, an unseen claim or a refused update happened to it |
| `PgQueue.StrandedForever` | server/task_queue.py:92-99 | no later step of any run touches such a row |
| `PgTermination.PgWorker.Dispatch` | server/task_queue.py:457-472 | completes the row if its handler returns, fails it if it raises or there is none, as one step of the protocol; afterwards the worker is free |
| `PgTermination.PgWorker.Poll` | server/task_queue.py:438-455 | one pass lengthens a run of the protocol by the claim and the completion or failure of the row it selected; it claims nothing only if no unlocked row is due |
| `PgTermination.PgWorker.TakeOne` | server/task_queue.py:77-122 | one claim lengthens the run of the protocol by enabled steps and takes the row it selected |
| `PgReplicas.Replicas.Step` | server/task_queue.py:77-141 | one transaction of any thread takes exactly the enabled steps it names |
| `PgReplicas.Replicas.Interleave` | server/task_queue.py:77-184 | any transactions of any number of workers and clients in any order, crashes included, make a run of the protocol; a running row's attempts stay in bounds and it lacks a live worker exactly if one of the three faults happened to it |
| `PgTermination.EffectiveStepsAreBounded` | server/task_queue.py:77-141 | however long a fault-free run goes on, its claims, completions and failures are at most 2 * max(1, max_attempts) per row |
| `PgTermination.RestMeansFinished` | server/task_queue.py:124-141 | when a fault-free run has come to rest every row is completed or failed |
| `PgTermination.Progress` | server/task_queue.py:77-122 | until then some claim, completion or failure is possible: now, while somebody is at work, and otherwise no later than any waiting row is due |
| `PgTermination.ComesToRest` | server/task_queue.py:77-141 | every fault-free run can be continued without new rows until each row is completed or failed |
| `RiskFusion.ResidualNonIncreasing` | server/risk/aggregator.py:103-112 | (100 - s) * boost(s) is non-increasing on [0,100] for confidences up to 1 |
| `RiskFusion.RawScoreMonotoneInOne` | server/risk/aggregator.py:103-115 | raising one detector score never lowers the fused score although it changes its own weight and the normaliser |
| `RiskFusion.RawScoreMonotone` | server/risk/aggregator.py:103-115 | the fused score is monotone in all four scores together |
| `RiskFusion.RawScoreBetween` | server/risk/aggregator.py:114-115 | the fused score lies between the smallest and the largest detector score |
| `RiskInNumbers.RawScoreBalances` | server/risk/aggregator.py:103-115 | the fused score is the point at which the sources balance with weights 0.70, 0.10, 0.05, 0.15 times 1 + 2 * ((s - 40)/60)^2 * c from a score of 40 on |
| `RiskInNumbers.QuietScoresAreAveraged` | server/risk/aggregator.py:103-115 | below 40 everywhere it is 0.70 ml + 0.10 z + 0.05 auth + 0.15 heuristics |
| `RiskFusion.HeuristicFloorIff` | server/risk/aggregator.py:103-115 | the fused score is at least the heuristic score if and only if the weighted sum of the other scores' distances from it is not negative |
| `RiskAggregator.VerifyCriticalCorroboration` | server/risk/aggregator.py:187-216 | returns exactly whether one of the four corroboration conditions holds |
| `RiskAggregator.CollectAnomalousFeatures` | server/risk/aggregator.py:225-256 | collects exactly the contributions of anomalies and the features over their watermark |
| `RiskAggregator.MapCertScenarios` | server/risk/aggregator.py:218-319 | returns the scenarios of the three kill chains for those features |
| `RiskAggregator.FuseDetectors` | server/risk/aggregator.py:69-101 | the loop computes, per source, the scores and confidences specified by detector name |
| `RiskAggregator.AggregateDetectors` | server/risk/aggregator.py:39-185 | is fusion, smoothing, guard, clamp and level in this order, with a score in [0,100] |
| `RiskTheorems.ScoresAreMaxima` | server/risk/aggregator.py:82-101 | each source ends with the largest of its initial value and the scores of the detectors feeding it |
| `RiskInNumbers.ConfidencesAreMaxima` | server/risk/aggregator.py:82-101 | each source ends with the largest of its initial confidence and those of the detectors feeding it |
| `RiskInNumbers.ShippedDetectorsFeed` | server/risk/aggregator.py:92-101 | advanced_pipeline, zscore and auth_burst feed one source each, tamper_detector none |
| `RiskTheorems.SevereExactly` | server/risk/aggregator.py:258-317 | a critical or high scenario exists exactly if one of the three feature combinations is present |
| `RiskInNumbers.SevereInNumbers` | server/risk/aggregator.py:225-317 | when no detector calls an anomaly, a severe scenario exists exactly for one of three kill chains in the numbers of the features |
| `RiskInNumbers.AnomalousExactly` | server/risk/aggregator.py:225-256 | a feature is anomalous exactly if an anomaly names it or its own number crosses its watermark |
| `RiskInNumbers.CorroboratedInNumbers` | server/risk/aggregator.py:187-216 | with the shipped rules a payload is corroborated exactly by ml 75 with confidence 0.80 and a second signal, ml 85 with confidence 0.85, or a kill chain |
| `RiskInNumbers.CorroboratedExactly` | server/risk/aggregator.py:187-216 | for any heuristics a fourth way is their score of 50 with two active domains |
| `RiskTheorems.ScenariosMonotone` | server/risk/aggregator.py:258-319 | more anomalous features never remove a scenario or a severe one |
| `RiskTheorems.AssessmentBounds` | server/risk/aggregator.py:117-160 | a level above low implies corroboration; history adds at most 15 beyond 0.85 * raw |
| `RiskInNumbers.HistoryBlends` | server/risk/aggregator.py:117-127 | a corroborated score is 0.85 of the raw one plus 0.15 of the largest recent one up to 100, or the raw one without history |
| `RiskInNumbers.HigherHistoryRaises` | server/risk/aggregator.py:117-127 | raising the recent maximum from p to q within (0, 100] raises a corroborated score by exactly 0.15 * (q - p) |
| `RiskInNumbers.HistoryCaps` | server/risk/aggregator.py:117-148 | an uncorroborated raw score below 35 is capped at 10 exactly if the recent maximum, up to 100, is at least (700 - 17 * raw)/3 |
| `RiskInNumbers.CapStartsAt35` | server/risk/aggregator.py:133-148 | without history exactly the uncorroborated scores from 35 on are capped |
| `RiskInNumbers.LevelsInNumbers` | server/risk/aggregator.py:153-160 | critical from 85, high from 60, medium from 35 |
| `RiskTheorems.GuardIsNotMonotone` | server/risk/aggregator.py:69-151 | for every feature vector without a severe scenario and every confidence, a payload whose only detector is the pipeline at 50 ends at 10, and the same at 40 ends at 28 or more |
| `RiskTheorems.MoreEvidenceNeverHurts` | server/risk/aggregator.py:117-151 | stronger evidence scores at least as high if and only if it is corroborated or below 35 before the guard, or the weaker is before it at most 10 or at least 35 |
| `RiskTheorems.StrongerPayloadNeverHurts` | server/risk/aggregator.py:69-151 | for detector lists and feature sets: higher scores and more anomalous features keep or raise the final score under exactly that condition |
| `RiskTheorems.StrongerEvidence` | server/risk/aggregator.py:187-319 | higher detector scores and more anomalous features raise the fused score and never turn corroboration off |
| `RiskTheorems.HeuristicConditionNeverFires` | server/risk/aggregator.py:203-206 | with the shipped rules the heuristic score stays at most 22.5, so the condition at 50 cannot hold |
| `RiskTheorems.UnsupportedHeuristicsAreDiluted` | server/risk/aggregator.py:69-115 | for every feature vector, a heuristic score above 0 without detectors gives a lower fused score |
| `RiskTheorems.HeuristicsAreNoFloor` | server/risk/aggregator.py:69-115 | there are features that the shipped rules score above the fused score |
| `ModelBridge.Bridge.OrderedFeatures` | server/model_bridge.py:213-218 | gives every column a number and lists exactly the columns the payload does not supply |
| `ModelBridge.Bridge.ProcessPayload` | server/model_bridge.py:343-373 | saves the assessed event and, exactly when the level is neither critical nor high, feeds the baseline the columns the payload supplied |
| `ModelBridge.FeedbackNeverAmplifies` | server/risk/aggregator.py:117-151 | over runs of any length, if every raw score is at most B then so is every emitted score |
| `ModelBridge.AlarmsAreCorroborated` | server/risk/aggregator.py:133-160 | every saved event above low stems from a payload whose evidence was corroborated |
| `ModelBridge.WindowMaxBounds` | server/risk/aggregator.py:119-123 | the window maximum is bounded by whatever bounds the saved scores |
| `ModelBridge.WindowMaxExactly` | server/risk/aggregator.py:119-120 | it is the largest score of that user since that time, or 0 |
| `CorrelationDecay.SupportingSumIsScaledDecay` | heuristics/detector.py:211-215 | the sum over indices with 0.2^(idx+1) equals the nested decay sum |
| `CorrelationDecay.GroupScoreOrderIndependent` | heuristics/detector.py:202-217 | the group score depends only on the multiset of values |
| `CorrelationDecay.GroupScoreIsMaximal` | heuristics/detector.py:202-217 | sorting descending gives the largest decay sum over all orderings |
| `CorrelationDecay.GroupScoreFiveQuarters` | heuristics/detector.py:208-217 | the group score is between the capped primary and 5/4 of the primary |
| `CorrelationDecay.GroupScoreInsert` | heuristics/detector.py:202-217 | inserting a non-negative detection never lowers the group score |
| `CorrelationDecay.GroupScoreRaise` | heuristics/detector.py:202-217 | raising a detection never lowers the group score |
| `HeuristicRules.DetectScenarios` | heuristics/logon_rules.py:32-139 | the appending loop yields exactly the hits of the rules that fire, in order |
| `HeuristicRules.FiredExactly` | heuristics/logon_rules.py:62-139 | a hit is reported if and only if its rule fires |
| `HeuristicRules.LogonRules` | heuristics/logon_rules.py:62-139 | no rule of the table is worth more than 18 after its confidence |
| `HeuristicRules.FileRules` | heuristics/file_rules.py:62-177 | no rule of the table is worth more than 18 after its confidence |
| `HeuristicRules.HttpRules` | heuristics/http_rules.py:62-222 | no rule of the table is worth more than 18 after its confidence |
| `HeuristicRules.DeviceRules` | heuristics/device_rules.py:49-59 | no rule of the table is worth more than 18 after its confidence |
| `Heuristics.ClassifyDetections` | heuristics/detector.py:165-191 | classifies, discounts and assigns a group to each detection |
| `Heuristics.GroupDetections` | heuristics/detector.py:193-196 | each group holds its detections in order; groups keep first-occurrence order |
| `Heuristics.ScoreGroup` | heuristics/detector.py:202-219 | the loop's score is the group score; the domain is the primary's |
| `Heuristics.PeakDomains` | heuristics/detector.py:229-235 | the dictionary built is the map of domain peaks |
| `Heuristics.DetectInsiderThreat` | heuristics/detector.py:116-276 | the whole evaluation equals its specification for every feature vector and profile |
| `HeuristicContext.TrustedProcessDiscounts` | heuristics/detector.py:173-178 | a trusted build process leaves exactly a fifth of a file detection, half of a transfer over the network, and all of every other one |
| `HeuristicContext.BenignPathDiscounts` | heuristics/detector.py:180-181 | a benign path leaves exactly a quarter of every detection |
| `HeuristicContext.FullValue` | heuristics/detector.py:165-204 | without either a detection is worth score times confidence times sensitivity |
| `HeuristicContext.ContextExactly` | heuristics/detector.py:133-162 | process, path and profile are each the first of their names that is given; a process is trusted exactly if it is in the list in lower case |
| `HeuristicContext.HarmlessContextNeverRaises` | heuristics/detector.py:165-254 | for every feature vector a trusted process, a benign path or both never raise the score |
| `HeuristicContext.GitNeverScoresHigher` | heuristics/detector.py:160-254 | the same for the vector with git.exe as its process |
| `HeuristicContext.BenignPathNeverScoresHigher` | heuristics/detector.py:160-254 | the same for the vector with a benign path |
| `HeuristicContext.BaseRiskBalances` | heuristics/detector.py:243-245 | the weighted mean is the point at which the active domains balance with weights 0.35, 0.30, 0.20, 0.15 |
| `HeuristicContext.SuperposeInNumbers` | heuristics/detector.py:237-254 | one domain counts 0.40 of its peak, several their mean, with 5 points for the third and 5 for the fourth from 35 on, up to 100 |
| `HeuristicSilence.PositiveExactly` | heuristics/detector.py:116-276 | for every feature vector, profile and context the score is above 0 exactly if one of the suspicious conditions holds of its numbers |
| `HeuristicSilence.WorthsInNumbers` | heuristics/logon_rules.py:62-139 | what each rule of the four tables is worth after its confidence |
| `Heuristics.MembersNonEmpty` | heuristics/detector.py:194-196 | a group exists exactly if it has a detection |
| `HeuristicTheorems.PeaksAreMaxima` | heuristics/detector.py:229-233 | a domain is active exactly if some group is in it, and its peak is the largest score of its groups |
| `HeuristicTheorems.RiskMonotone` | heuristics/detector.py:229-254 | with the same active domains, higher group scores never lower the overall score |
| `HeuristicTheorems.MoreDetectionsNeverLowerRisk` | heuristics/detector.py:193-254 | inserting a detection never lowers the overall score if groups share a domain and the active domains stay |
| `HeuristicTheorems.RaisedDetectionNeverLowersRisk` | heuristics/detector.py:193-254 | raising a detection never lowers the overall score if groups share a domain |
| `HeuristicTheorems.NewDomainLowersBaseIff` | heuristics/detector.py:243-245 | activating a domain lowers the weighted mean of the peaks if and only if its peak is below it |
| `DomainActivation.SuperposeFallsIff` | heuristics/detector.py:229-254 | for all peaks and every new domain: the returned score falls if and only if the new weighted mean is below 0.40 of a single old peak; below the old mean, where that is under 35; else below 35, or below the old mean less the five points of bonus gained and, from three domains on, below 90 |
| `DomainActivation.NewDomainPeaks` | heuristics/detector.py:193-235 | a detection in a domain not active before adds that domain with the detection's own value and changes no other peak |
| `DomainActivation.NewDomainLowersRiskIff` | heuristics/detector.py:193-254 | for all detections whose groups share a domain, such a detection lowers the overall score if and only if that condition holds of the old peaks |
| `DomainActivation.ThirdDomainCanLowerRisk` | heuristics/detector.py:116-255 | two feature vectors that differ in one harmless web request: for every profile the shipped rules score the one with the request lower |
| `HeuristicTheorems.GroupBound` | heuristics/detector.py:202-218 | detections worth at most 18 give group scores of at most 22.5 |
| `HeuristicTheorems.ShippedRulesStayLow` | heuristics/detector.py:116-255 | for every feature vector, context and profile the group scores and the risk are at most 22.5, the severity is LOW and the bonus 0 |
| `ShippedRules.OneDomainPerGroup` | heuristics/detector.py:102-113 | two emitted scenario names with one correlation group infer one domain |
| `ShippedRules.ShippedDetectionsAreCoherent` | heuristics/detector.py:165-196 | so the detections of any group the shipped rules produce share one domain |
| `ShippedRules.ShippedDetectionsOnlyAdd` | heuristics/detector.py:193-254 | leaving out one shipped detection never raises the score while the active domains stay |
| `SqlSplitter.SplitSqlStatements` | server/storage/migration_runner.py:8-45 | the loop, with at most one flag set at any time, yields the trimmed non-empty pieces |
| `SqlSplitter.PiecesRejoin` | server/storage/migration_runner.py:8-45 | the untrimmed pieces rejoined with semicolons are the input |
| `SqlSplitter.PiecesAreWellCut` | server/storage/migration_runner.py:20-37 | no piece holds a top-level semicolon and all but the last end outside quotes |
| `SqlSplitter.CutIsUnique` | server/storage/migration_runner.py:20-37 | a text rejoined from such pieces is cut into exactly them again |
| `SqlSplitter.EmittedStatements` | server/storage/migration_runner.py:31-45 | every emitted statement is non-empty, trimmed and re-splits to itself |
| `SqlSplitter.SplitJoinSplit` | server/storage/migration_runner.py:8-45 | split(join(";", split(x))) == split(x) for every text |
| `SqlQuotes.QuotedStays` | server/storage/migration_runner.py:19-30 | a passage in single, double or dollar quotes is kept whole, whatever semicolons and other quotes it holds |
| `SqlQuotes.CutAtSemicolons` | server/storage/migration_runner.py:19-45 | a row of plain characters, quoted passages and semicolons is cut exactly at its semicolons |
| `SqlQuotes.EveryTextIsCut` | server/storage/migration_runner.py:8-45 | every text is such a row, up to a passage that is never closed, so that says where every text is cut |
| `SqlQuotes.BlockIsOneStatement` | server/storage/migration_runner.py:19-45 | a block of the form DO $$ ... $$; is one statement |
| `SqlQuotes.StripTakesOnlySpace` | server/storage/migration_runner.py:31-45 | trimming removes white space at the ends and nothing else |
| `MigrationRunner.Database.RunSqlScript` | server/storage/migration_runner.py:48-74 | commits all effective statements or none, and succeeds exactly if none raises |
| `MigrationRunner.EveryStatementRuns` | server/storage/migration_runner.py:48-74 | on SQLite, when every statement succeeds, exactly the statements of the script take effect, in order |
| `MigrationRunner.EffectiveIsPicked` | server/storage/migration_runner.py:48-74 | in general the statements that take effect are, in order, those that are not blank and succeed; comments are passed over |
| `MigrationRunner.Database.ApplicableExactly` | server/storage/migration_runner.py:146-152 | PostgreSQL gets every file in order, SQLite exactly those whose name does not end in _pg.sql |
| `MigrationRunner.Database.ExecuteFile` | server/storage/migration_runner.py:154-163 | executes one file in its own transaction and logs it |
| `MigrationRunner.Database.RecordFile` | server/storage/migration_runner.py:165-185 | records the file exactly if it is not yet recorded |
| `MigrationRunner.Database.ApplyFile` | server/storage/migration_runner.py:146-185 | a completed file is recorded next in order; a crash may come between the steps |
| `MigrationRunner.Database.ApplyMigrationsDir` | server/storage/migration_runner.py:84-187 | an undisturbed run completes; a completed run has recorded all applicable files; a run after it executes nothing if it can read the records, and executes a file again if it cannot |
| `MigrationRunner.Database.RunMany` | server/storage/migration_runner.py:84-187 | any number of runs with crashes and failures keep the log sound, and one undisturbed run among them leaves every applicable file recorded |
| `MigrationRunner.SoundAppend` | server/storage/migration_runner.py:146-185 | executing or recording the next file keeps the log sound |
| `MigrationRunner.AtMostOneAhead` | server/storage/migration_runner.py:146-185 | the records are a prefix of the list and at most one later file was executed |
| `MigrationRunner.NoFileStartsEarly` | server/storage/migration_runner.py:146-185 | no file starts before all earlier ones are recorded |
| `Batcher.ClickHouseBatcher.AddMany` | server/storage/clickhouse_batcher.py:110-124 | appends the rows to the table's buffer and books them as queued |
| `Batcher.ClickHouseBatcher.TakeSnapshot` | server/storage/clickhouse_batcher.py:126-132 | takes all buffered rows into snapshots and empties the buffers |
| `Batcher.ClickHouseBatcher.FlushTableWithRetry` | server/storage/clickhouse_batcher.py:164-194 | inserts at the first attempt that succeeds, else spools or drops; with max_retries below 1 the rows are dropped without an error |
| `Batcher.ClickHouseBatcher.SpoolToDlq` | server/storage/clickhouse_batcher.py:196-216 | opens the named file and writes to it: the written rows are in the file, the rest is dropped |
| `Batcher.ClickHouseBatcher.OpenFile` | server/storage/clickhouse_batcher.py:199-202 | appends to the file of that name or makes it, one step of the directory |
| `Batcher.ClickHouseBatcher.WriteFile` | server/storage/clickhouse_batcher.py:202-216 | writes the rows to the open file, whether or not it still has its name; what is not written is dropped |
| `Batcher.ClickHouseBatcher.FlushAll` | server/storage/clickhouse_batcher.py:126-135 | empties the buffers; all their rows are inserted when every table has an attempt that succeeds, none when none has |
| `Batcher.ClickHouseBatcher.Stop` | server/storage/clickhouse_batcher.py:92-104 | a running batcher ends with empty buffers; a stopped one is left alone |
| `Batcher.ClickHouseBatcher.ReplayFile` | server/storage/clickhouse_batcher.py:228-242 | undisturbed, inserts the rows into the table read from the name, then removes the file; a failing step leaves it; misrouting is recorded |
| `Batcher.ClickHouseBatcher.ReadFile` | server/storage/clickhouse_batcher.py:228-233 | holds the rows the file has at that moment |
| `Batcher.ClickHouseBatcher.InsertHeld` | server/storage/clickhouse_batcher.py:228-236 | inserts the rows held, and no others, into the table read from the name; those inserted before become copies |
| `Batcher.ClickHouseBatcher.UnlinkHeld` | server/storage/clickhouse_batcher.py:239-240 | removes whatever file the name leads to by then |
| `Batcher.ClickHouseBatcher.ReplayDlq` | server/storage/clickhouse_batcher.py:218-244 | undisturbed, removes exactly the files that are asked for and can be replayed, leaves the others alone, and returns the rows inserted |
| `Batcher.Interleave` | server/storage/clickhouse_batcher.py:106-244 | under any interleaving, the steps inside spools and replays included, every row ever queued is in exactly one of buffered, in flight, inserted, in a file, replayed, dropped or missing; all rows are kept (under a name, inserted, or at least held by a replay) if and only if no step of the directory's run loses one, which without a replay under way means that none is missing; ClickHouse gets copies if and only if some step inserts rows once more |
| `Batcher.NothingLost` | server/storage/clickhouse_batcher.py:186-216 | with the dead-letter queue on, working disks, an attempt and no losing step, nothing is lost once buffers, snapshots and replays are empty; with all files replayed into their own tables ClickHouse holds every row queued, and nothing more exactly if there are no copies |
| `Batcher.MissingExactly` | server/storage/clickhouse_batcher.py:218-244 | without a replay under way, no row is missing if and only if every row is kept |
| `Batcher.BufferedExtend` | server/storage/clickhouse_batcher.py:115-119 | appending to one buffer adds exactly those rows to the buffered total |
| `DlqFiles.StepKeeps` | server/storage/clickhouse_batcher.py:196-242 | a step on the files keeps every row exactly if all were kept and the step is none of the three losing ones |
| `DlqFiles.LostExactly` | server/storage/clickhouse_batcher.py:196-242 | for every interleaving of spools and of any number of replays: no row is lost if and only if no step wrote to a removed file, removed rows no replay holds, or abandoned the only copy |
| `DlqFiles.ShortByWrites` | server/storage/clickhouse_batcher.py:228-242 | what a replay holds falls short of its file by exactly the rows written since it read |
| `DlqFiles.OneReplayLosesExactly` | server/storage/clickhouse_batcher.py:228-242 | with at most one replay on a name at a time, no row is lost if and only if nothing was written to a file between its read and its removal, nor after it |
| `DlqFiles.OvertakenReplayLoses` | server/storage/clickhouse_batcher.py:228-242 | a run in which a spool writes between read and removal loses that row |
| `DlqFiles.TwoReplaysLose` | server/storage/clickhouse_batcher.py:228-242 | two replays of one file lose a row spooled between their removals |
| `DlqFiles.TwoReplaysRepeat` | server/storage/clickhouse_batcher.py:228-242 | a run in which two replays read one file inserts its row twice |
| `DlqNames.OriginOfStem` | server/storage/clickhouse_batcher.py:201 | the file name determines the table it came from |
| `DlqNames.ReplayFindsTableIff` | server/storage/clickhouse_batcher.py:229-230 | replay reads the right table exactly when the name has no underscore |
| `DlqNames.FilterExactly` | server/storage/clickhouse_batcher.py:218-219 | replaying one table takes exactly the files of that table, of tables whose name goes on from it after an underscore, and of a table and time it spells out |
| `LruCache.InMemoryCacheProvider.Get` | server/api/cache.py:127-137 | drops an expired entry, moves a hit to the young end, answers only unexpired values |
| `LruCache.InMemoryCacheProvider.Set` | server/api/cache.py:139-147 | replaces the entry or evicts the oldest; raises only on an empty store without room |
| `LruCache.InMemoryCacheProvider.ClearPattern` | server/api/cache.py:157-163 | removes and counts exactly the matching keys |
| `LruCache.RunAgrees` | server/api/cache.py:121-163 | after any calls each stored entry is the ideal map's and the size is within max_items |
| `LruCache.HitIsLatest` | server/api/cache.py:127-137 | a hit is the last value set for the key, unexpired and not invalidated since |
| `LruCache.RunAccounted` | server/api/cache.py:127-147 | a live key is present with only recently touched keys behind it, unless max_items others were touched or it expired |
| `LruCache.RecentKeysHit` | server/api/cache.py:127-147 | an unexpired, uninvalidated key is hit if fewer than max_items other keys were touched since |
| `TieredCache.StoredCollides` | server/api/cache.py:217-220 | two keys share a Redis entry exactly if one is the other with the namespace spelled out |
| `TieredCache.Redis7CacheProvider.Get` | server/api/cache.py:222-232 | answers the stored value until its expiry, nothing when disconnected or failing |
| `TieredCache.Redis7CacheProvider.Set` | server/api/cache.py:234-243 | stores for max(1, floor(ttl)) seconds |
| `TieredCache.TieredCache.Get` | server/api/cache.py:306-320 | local hit, else Redis hit copied for three seconds or the default ttl, whichever is shorter, else nothing |
| `TieredCache.TieredCache.Set` | server/api/cache.py:322-328 | writes the local tier, then Redis when it is alive |
| `TieredCache.TieredCache.Invalidate` | server/api/cache.py:330-333 | removes the key locally, and in Redis when it is alive |
| `TieredCache.BoundedStaleness` | server/api/cache.py:306-328 | whatever any replica returns at t was set by a call begun at some s with t <= s + max(ttl, max(1, floor(ttl)) + min(default, 3) + delay) + setDelay, delay and setDelay being the durations of a get and of a set |
| `TieredCache.StalenessIsReached` | server/api/cache.py:306-328 | the second term of the bound, both delays included, is reached to the instant |
| `TieredCache.InvalidateTakesEffect` | server/api/cache.py:330-333 | after an invalidate that reaches Redis, with no set begun since and none begun before reaching Redis since, every replica misses once max(longest ttl, min(default, 3) + delay) has passed; sets that still write the local tier add setDelay to the ttl |
| `TieredCache.LateWritesExpire` | server/api/cache.py:306-333 | whatever sets begun before still write, and wherever, every replica misses once max(longest ttl, max(1, floor(longest)) + min(default, 3) + delay) + setDelay has passed without a new set |
| `TieredCache.LateWriteSurvives` | server/api/cache.py:322-333 | a set begun when the invalidate runs writes Redis after it, and its value is returned up to the second of these terms |
| `Baseline.BaselineEngine.UpdateSingleBaseline` | server/baseline/engine.py:68-129 | the loops compute the specified merge and record of one profile |
| `Baseline.BaselineEngine.MergeBuffer` | server/baseline/engine.py:73-88 | merges every buffered feature into mean and deviation and clears the buffer |
| `Baseline.BaselineEngine.RecordFeatures` | server/baseline/engine.py:93-102 | counts each known feature as supplied or missing |
| `Baseline.BaselineEngine.UpdateBaseline` | server/baseline/engine.py:131-135 | updates the user, then the role |
| `Baseline.BaselineEngine.GetDeviationVector` | server/baseline/engine.py:137-155 | measures each feature against the user after five samples, else the role, else itself |
| `BaselineTheorems.MeansStayBetween` | server/baseline/engine.py:73-84 | after any run each learned mean lies between the smallest and largest value supplied, for windows of at least a day |
| `BaselineTheorems.DecayIsWeight` | server/baseline/engine.py:36-40 | the decay is in [0,1] exactly for windows of at least one day |
| `BaselineTheorems.ShortWindowOvershoots` | server/baseline/engine.py:36-40 | for every other window three days of values in [0,1] give a mean outside |
| `BaselineTheorems.StdsAndCounts` | server/baseline/engine.py:82-102 | learned deviations are at least max(10, 0.25 * abs(mean)); supplied plus missing never pass the profile count |
| `BaselineTheorems.MergeInNumbers` | server/baseline/engine.py:73-88 | average and deviation move by the decay towards the day's average and its distance from the new one; the deviation stays above 10 and a quarter of the average |
| `BaselineTheorems.OneMergeADay` | server/baseline/engine.py:68-73 | payloads of one day leave averages and deviations alone, the first one of another day merges |
| `BaselineTheorems.BufferInNumbers` | server/baseline/engine.py:93-102 | the buffer holds the sum and number of the values supplied since the last merge |
| `BaselineTheorems.CountedExactlyOnce` | server/baseline/engine.py:91-102 | each update counts every learned or supplied feature exactly once and no other |
| `BaselineTheorems.RoleIsSumOfUsers` | server/baseline/engine.py:131-135 | each role's counts are the sums over its users if and only if no user has the role's key as name or no other user of the role counted |
| `BaselineTheorems.KeyAsUsernameBreaksSum` | server/baseline/engine.py:131-135 | a user named like the key beside one other: the role counts three payloads and its users four |
| `BaselineTheorems.DeviationsAreDamped` | server/baseline/engine.py:143-154 | an unlearned feature deviates by 0, a learned one by at most a tenth of its distance |
| `BaselineTheorems.DeviationInNumbers` | server/baseline/engine.py:143-154 | after five values of the user's own the user's profile counts, before that the role's if it has seen the feature, else the deviation is 0 |
| `ZScore.ZScoreDetector.Detect` | server/detectors/zscore_detector.py:18-61 | contributions are exactly the spikes; the running maximum is the largest; score and verdict follow from it |
| `ZScore.AnomalousExactly` | server/detectors/zscore_detector.py:50-59 | for thresholds of at least 0 a payload is anomalous exactly if a feature spikes; below 0 always |
| `ZScore.HigherValuesScoreHigher` | server/detectors/zscore_detector.py:38-59 | raising values or reporting more features never lowers the score |
| `ZScore.FloorIsAlreadyThere` | server/detectors/zscore_detector.py:43-44 | for every profile the engine can have stored the detector's clamp changes nothing |
| `ZScore.ZInNumbers` | server/detectors/zscore_detector.py:41-46 | a learned feature counts its distance in learned deviations, one never learned a tenth of its value |
| `Partitions.Table.DropOldPartitions` | scripts/retention_cleanup.py:24-42 | leaves exactly the weeks that end at or after the cutoff and counts the others |
| `Partitions.Table.CreateFuturePartitions` | scripts/retention_cleanup.py:44-58 | adds exactly the Mondays of this and the following weeks |
| `Partitions.Table.Cleanup` | scripts/retention_cleanup.py:60-82 | one run is a drop followed by four weeks of creation |
| `Partitions.AlignedAreDisjoint` | scripts/retention_cleanup.py:48-51 | no two partitions cover one moment |
| `Partitions.DropsOnlyOldRows` | scripts/retention_cleanup.py:33-39 | a dropped partition holds no row at or after the cutoff |
| `Partitions.NothingOlderIsLeft` | scripts/retention_cleanup.py:24-58 | after any runs every week left reaches up to the retention of the latest run, or past that run |
| `Partitions.ArrivalsAreCovered` | scripts/retention_cleanup.py:44-58 | what arrives up to 21 days after a run has its partition |
| `Partitions.LaterArrivalsAreNot` | scripts/retention_cleanup.py:44-58 | a second later it may have none |
| `Partitions.NoDayUncovered` | scripts/retention_cleanup.py:24-58 | with runs at most four weeks apart no retained moment from the first run on is uncovered |
| `Partitions.LongGapUncovers` | scripts/retention_cleanup.py:44-58 | a second more between runs can leave every moment of a whole week uncovered |

## Left out

- Rounding: scores are reals, so `round(..., 6)`, `round(..., 2)` and binary floating point are not modelled.
- Clock skew: one shared clock that never goes back; several clock readings of one worker pass are one reading.
- JSON: records are stored as values, so decoding errors and non-string keys are not modelled.
- Redis order: equal scores and hash entries come in any order; scripts and single commands are atomic.
- TaskQueue.TaskWorker.Loop: this loop is one worker's alone, and so is `PgTermination.PgWorker.Poll`; `RedisReplicas.Replicas.Interleave` and `PgReplicas.Replicas.Interleave` cover the same commands of any number of workers in any order.
- RedisOwnership.OwnershipExactly: ids are fresh, as UUIDs are taken to be; what a crashed worker held is no longer in its hand.
- PgQueue.PgTaskQueue.ClaimNext: the row locks of concurrent claims are a parameter, and a commit is one atomic step.
- Batcher.Interleave: the critical sections and attempts, and the opening, writing, reading, inserting and removing of a file, are its atomic actions; waiting, notification and the batch-size trigger only choose when a snapshot is taken, and racing telemetry counters are not modelled.
- Batcher.ClickHouseBatcher.FlushTableWithRetry: an insert that raises has stored nothing.
- DlqFiles.LostExactly: a file is read whole rows at a time; a torn last line only makes that replay fail, as an abandoned one does.
- LruCache.InMemoryCacheProvider.ClearPattern: the glob pattern is any predicate on keys; None is never cached.
- TieredCache.BoundedStaleness: Redis expires exactly on time, pattern deletion removes any set of entries, and serialisation errors are not modelled.
- MigrationRunner.Database.RunSqlScript: the database either executes a statement, reports it empty, or raises; implicit commits by the engine are not modelled.
- SqlSplitter.SplitSqlStatements: comments are not special, as in the code; the full PostgreSQL lexer is not modelled.
- HeuristicTheorems.MoreDetectionsNeverLowerRisk: assumes that groups share a domain; `ShippedRules` proves that for the shipped rules.
- Heuristics.DetectInsiderThreat: benign paths are any predicate, lower-casing is ASCII, text in a numeric feature does not raise, and the evidence texts are not modelled.
- ModelBridge.Bridge.ProcessPayload: detector results and the table of alternative feature names are parameters, and columns hold numbers or nothing; keystroke timings, persistence of model outputs and alerts are not modelled.
- RedisTermination.ComesToRest: that some worker and the clock do go on is fairness of the scheduler, which is not modelled; the bound on effective steps holds without it.
- Partitions.Table: partition names are taken to parse back to their start; names that do not are ignored by the code and not modelled.
- Model training and inference, cryptography, HTTP routing, streaming, webhooks, logging, configuration and the frontend.
