# SUM-Optimization feedback loop, modelled in Dafny

SUM-Optimization couples a mode-choice model with a fleet simulator. The
simulator models a new shared-mobility service, written NSM throughout.
Each iteration of the inner loop does the following:

- samples demand from a request pool;
- lets every traveller choose among walk, bike, car, public transit and NSM with a multinomial-logit model;
- hands the NSM requests to the simulator;
- merges the simulator's outcomes back onto the travellers;
- lets travellers re-choose after the service they got;
- folds service statistics and re-estimated coefficients into exponentially smoothed trackers;
- stops when the NSM mode share settles.

This project models that arithmetic and proves what it promises:

- `setup.dfy` (module `Setup`): the statistics tracker `StatGroup`, as a class whose `Add` appends in place, and the seed tables and constants. The smoothed history is tied to a recursive specification `Smoothed`, whose recurrence, convex-combination bound and prefix property are proved.
- `dcacalc.dfy` (`DcaCalc`): the choice engine over an array of traveller rows. It covers availability rules, linear utilities, `exp(u) * av` weights, probabilities, the draw of a mode and the restricted redraw that excludes NSM. `exp` is any positive function. Each random draw is an explicit uniform number in [0,1), and the chosen mode is the first whose cumulative probability exceeds it.
- `fleetpy.dfy` (`FleetPy`) and `pydict.dfy` (`PyDict`): the fleet-simulator interface.
  - the parameter allow-list and the scenario rows with their zero-padded names;
  - the missing-file tolerance when reading results;
  - mean and spread aggregation;
  - reconciliation of outcomes with the tri-state `served` flag (-1 never requested, 0 unserved, 1 served);
  - the reassignment of unserved requests;
  - per-replication traveller statistics.
- `util.dfy` (`Util`): the mode split of a choice column.
- `sample.dfy` (`Sample`): the sample size with round-half-to-even, and sampling without replacement as a prefix of a random permutation.
- `inner_loop.dfy` (`InnerLoop`): one iteration's work on traveller tables.
  - the simulation window;
  - demand realisation for each replication, with the break when nobody chooses NSM;
  - the post-simulation re-choice by `served` state;
  - the values each stage of one iteration reads, stated by `SimulatedFrom` and `StagesFrom`.
- `driver.dfy` (`Driver`): the state carried across iterations, as the class `Framework`.
  - the two trackers, the per-mode split histories and the stopping flags;
  - per-iteration recording of the mode split, service and user statistics and coefficient means;
  - the percentage-point convergence test;
  - one iteration (`Measure`, then `InnerLoop.Postsimulation`, then `CloseIteration`, composed by `Iteration`) and the loop over iterations (`Run`);
  - the final report.

  The trackers' current smoothed values are read as `StatGroup.Current()`. This is the map `GetAllCurrentSmooth` returns, as its contract proves. The re-choice over all replications is the specification `PostsimTables`, which the in-place loop `UpdateAllAfterSimulation` is proved to compute.
- `records.dfy`, `statistics.dfy` and `wrappers.dfy`: the traveller row, mean and spread, and `Option`/`Result`.

Where the source raises an exception, the model returns a `Failure`, `None` or `false`.

## Model

| member | source | states |
|---|---|---|
| Setup.NextSmoothBetween | Optimization/util/setup.py:52-53 | for a weight in [0,1] the new smoothed value lies between the previous smoothed value and the new raw value; weight 0 keeps the previous value, weight 1 takes the raw one |
| Setup.Smoothed | Optimization/util/setup.py:49-54 | the smoothed history has one entry per raw value and starts at the seed |
| Setup.SmoothedAppend | Optimization/util/setup.py:49-54 | appending a raw value appends exactly one smoothed value, computed from the last smoothed value |
| Setup.SmoothedPrefix | Optimization/util/setup.py:49-54 | every prefix of a smoothed history is the smoothed history of the raw prefix, so later adds never rewrite earlier smoothed values |
| Setup.SmoothedRecurrence | Optimization/util/setup.py:52-53 | smoothed[t] = smoothed[t-1]*(1-w) + raw[t]*w at every index, and lies between those two values for w in [0,1] |
| Setup.SmoothedWithin | Optimization/util/setup.py:52-53 | when every raw value lies in [lo, hi] and w is in [0,1], every smoothed value does too |
| Setup.AppendKeepsSlots | Optimization/util/setup.py:49-54 | appending a value, a p-value and the next smoothed value to one statistic keeps the tracker invariant: equal lengths, and smooth equals the smoothed raw history |
| Setup.SeedDict | Optimization/util/setup.py:30-36 | the dictionary holds exactly the seeded statistics; each maps to the one-element list of its seed, except a statistic named "pval", which gets the bare 1.0 |
| Setup.SeedSlotsOk | Optimization/util/setup.py:30-36 | freshly seeded value, smooth and pval dictionaries satisfy the tracker invariant |
| Setup.StatGroup.constructor | Optimization/util/setup.py:19-36 | every statistic is seeded with its initial value in all three histories, including pval; the weight and key order are kept |
| Setup.StatGroup.Add | Optimization/util/setup.py:38-54 | appends exactly one entry to the statistic's value, pval and smooth lists, the smoothed one being prev*(1-w)+v*w; every other statistic is unchanged; an unknown name or "pval" fails and changes nothing |
| Setup.StatGroup.GetSmooth | Optimization/util/setup.py:57-66 | the last smoothed value, which equals the last entry of the smoothing of the raw history; None for an unknown name or "pval" |
| Setup.LastOfEach | Optimization/util/setup.py:74-77 | a map with exactly the dictionary's keys, each mapped to its list's last entry; None when a "pval" scalar is met |
| Setup.StatGroup.GetAllCurrentSmooth | Optimization/util/setup.py:68-77 | the snapshot has exactly the tracked keys, each mapped to its current smoothed value; the tracker is not modified |
| Setup.StatGroup.SmoothHeld | Optimization/util/setup.py:19-54 | in a valid tracker the smooth keys are the seeded names, and every statistic other than "pval" holds a non-empty list |
| Setup.StatGroup.ExportHeld | Optimization/util/setup.py:19-54 | in a valid tracker every statistic other than "pval" holds three lists of equal length, which the export needs |
| Setup.ZippedRows | Optimization/util/setup.py:92-96 | one export row per index i of a statistic, with iter = i and the raw, smoothed and p-value at i |
| Setup.ZipRows | Optimization/util/setup.py:92-96 | the inner export loop produces exactly the zipped rows of one statistic |
| Setup.ExportShape | Optimization/util/setup.py:90-97 | the export has as many rows as the smoothed histories have entries in total, and each statistic contributes its zipped rows in key order |
| Setup.Export | Optimization/util/setup.py:90-97 | the outer export loop yields the export rows of the statistics in order, with the total-length row count; None when it reaches a "pval" statistic |
| Setup.StatGroup.ToGgplot | Optimization/util/setup.py:79-97 | the long-format history: one row per (statistic, iteration), as many rows as the smoothed lists have entries; None when a "pval" statistic makes the source raise |
| Setup.SeedTablesDistinct | Optimization/util/setup.py:130-153 | the coefficient and NSM seed tables name each statistic once, as dictionaries do |
| Setup.ServiceRateScenario | Optimization/util/setup.py:145-153 | a service-rate tracker seeded with 0.2 and weight 0.25 that records 0.8 reports a smoothed value of 0.35 |
| DcaCalc.Availability | Optimization/util/dcacalc.py:46-55 | a column rule copies the named column and fails if it is absent; a rate of 0 or 1 applies uniformly; a rate strictly between gives 1 exactly when the draw is below it; any other rate fails |
| DcaCalc.FirstFailingRule | Optimization/util/dcacalc.py:46-55 | the first mode whose rule cannot be applied to the table; every earlier rule applies |
| DcaCalc.AvailsThrough | Optimization/util/dcacalc.py:46-55 | after n rules, the first n availability flags hold their rules' values and the others are untouched |
| DcaCalc.AvailsThroughStep | Optimization/util/dcacalc.py:46-55 | applying rule m to a row with m flags written gives the row with m+1 flags written |
| DcaCalc.CalcAllAvailabilities | Optimization/util/dcacalc.py:25-56 | succeeds exactly when every rule applies to every row; each row gets its flags for all modes before the first failing rule, as the exception leaves the table |
| DcaCalc.RuleAppliesToAll | Optimization/util/dcacalc.py:46-55 | decides whether one rule applies to every row |
| DcaCalc.WriteColumn | Optimization/util/dcacalc.py:46-55 | writes one mode's availability flag in every row and nothing else |
| DcaCalc.CoefsOf | Optimization/util/dcacalc.py:72-77 | reading coefficients succeeds exactly when every coefficient name is a key |
| DcaCalc.UtilitiesLinear | Optimization/util/dcacalc.py:72-77 | every utility equals ASC + B_TIME*time + B_COST*cost, plus B_RISK*(1 - service rate) for NSM only; walk and bike have cost 0 |
| DcaCalc.UtilitiesServiceRateOnlyNsm | Optimization/util/dcacalc.py:72-77 | the non-NSM utilities depend on neither the service rate nor the NSM attributes |
| DcaCalc.UtilitiesNoCostForActiveModes | Optimization/util/dcacalc.py:73-74 | walk and bike utilities do not depend on the cost coefficient |
| DcaCalc.UtilityNsmMonotone | Optimization/util/dcacalc.py:77 | with a negative risk coefficient a higher service rate strictly raises the NSM utility |
| DcaCalc.CalcAllUtilities | Optimization/util/dcacalc.py:59-80 | every row gets its five utilities and nothing else changes |
| DcaCalc.WeightUses | Optimization/util/dcacalc.py:95 | a mode's weight depends only on that mode's utility |
| DcaCalc.ExpsZeroIffUnavailable | Optimization/util/dcacalc.py:95 | a mode's weight is 0 exactly when it is unavailable, and is positive for an available mode |
| DcaCalc.ExpTotalPositive | Optimization/util/dcacalc.py:92-97 | with non-negative flags and one available mode the weight total is positive |
| DcaCalc.ExpsNonNegative | Optimization/util/dcacalc.py:92-97 | with non-negative flags every weight is non-negative and an available mode's weight is positive |
| DcaCalc.TotalPositive | Optimization/util/dcacalc.py:96-97 | non-negative weights with one positive weight have a positive total |
| DcaCalc.ExpsThrough | Optimization/util/dcacalc.py:93-96 | after n modes of the loop, the first n weights are written and the rest are untouched |
| DcaCalc.ExpsThroughStep | Optimization/util/dcacalc.py:93-96 | one loop turn writes exactly the next mode's weight |
| DcaCalc.ExpsThroughAll | Optimization/util/dcacalc.py:93-96 | after all five turns every weight is written |
| DcaCalc.WriteWeight | Optimization/util/dcacalc.py:95 | writes one mode's weight in every row and nothing else |
| DcaCalc.AddWeights | Optimization/util/dcacalc.py:96 | each row's running total grows by that row's weight of the mode |
| DcaCalc.CalcAllExps | Optimization/util/dcacalc.py:82-100 | every row gets its five weights exp(u)*av and exp_total equal to their sum; nothing else changes |
| DcaCalc.RecalcNsmRow | Optimization/util/dcacalc.py:117-119 | only the NSM utility, the NSM weight and exp_total change; exp_total is again the sum of the five weights |
| DcaCalc.RecalcNsmMatchesFullRecompute | Optimization/util/dcacalc.py:103-120 | on a fully scored row, the partial NSM recomputation gives exactly the utilities, weights and total of a full recomputation with the new service rate |
| DcaCalc.RecalcNsmUtilAndExp | Optimization/util/dcacalc.py:103-120 | every row is recomputed as RecalcNsmRow says |
| DcaCalc.ProbsOf | Optimization/util/dcacalc.py:135-137 | the quotients are undefined (NaN) exactly when the total is 0 |
| DcaCalc.ProbsDistribution | Optimization/util/dcacalc.py:135-137 | with the total equal to the sum of the weights and non-zero, the probabilities sum to 1, are 0 exactly for zero-weight modes, and are non-negative for non-negative weights |
| DcaCalc.UnavailableNeverLikely | Optimization/util/dcacalc.py:92-137 | from availability flags through weights to probabilities, an unavailable mode gets probability 0 and the probabilities sum to 1 |
| DcaCalc.CalcAllProbs | Optimization/util/dcacalc.py:123-138 | every row gets the probabilities of its weights and total; nothing else changes |
| DcaCalc.PrefixMonotone | Optimization/util/dcacalc.py:158 | cumulative sums of non-negative probabilities never decrease |
| DcaCalc.Pick | Optimization/util/dcacalc.py:158 | the drawn index is one whose cumulative interval contains the uniform number, and it has positive probability |
| DcaCalc.PickUnique | Optimization/util/dcacalc.py:158 | the drawn index is the only one whose cumulative interval contains the uniform number, so mode m is drawn with probability p[m] |
| DcaCalc.SelectChoice | Optimization/util/dcacalc.py:141-158 | succeeds exactly on defined, non-negative probabilities summing to 1; the result is a mode of positive probability whose cumulative interval holds the draw |
| DcaCalc.SelectChoiceAfterProbs | Optimization/util/dcacalc.py:92-158 | after the probability step a row with one available mode always gets a choice, and never an unavailable one |
| DcaCalc.SelectFromWeights | Optimization/util/dcacalc.py:135-158 | drawing from the probabilities of non-negative weights, one positive, succeeds on a positive-weight mode |
| DcaCalc.Rescaled | Optimization/util/dcacalc.py:179-186 | the four non-NSM probabilities rescaled by their sum |
| DcaCalc.RescaledSumsToOne | Optimization/util/dcacalc.py:179-186 | with a non-zero remainder the rescaled probabilities sum to 1 |
| DcaCalc.RescaledNonZero | Optimization/util/dcacalc.py:181-184 | a non-zero rescaled probability comes from a non-zero original one |
| DcaCalc.ReassignUnserved | Optimization/util/dcacalc.py:164-191 | succeeds exactly when the remainder is non-zero and the rescaled weights are non-negative; the result is never NSM and has non-zero probability |
| DcaCalc.ReassignAfterProbs | Optimization/util/dcacalc.py:179-189 | after the probability step, a row with an available non-NSM mode can always be reassigned |
| DcaCalc.ReassignFromWeights | Optimization/util/dcacalc.py:179-189 | reassignment from the probabilities of non-negative weights, one non-NSM weight positive, succeeds |
| FleetPy.GetFleetpyParams | Optimization/util/fleetpy.py:11-28 | keeps exactly the allow-listed keys of the configuration, with their values, in configuration order |
| FleetPy.FilterStep | Optimization/util/fleetpy.py:25-27 | one turn of the filter loop keeps the result equal to the filter of the keys seen so far |
| FleetPy.FilterKeep | Optimization/util/fleetpy.py:26-27 | storing an allow-listed key extends the filtered result by that key |
| FleetPy.FilterSkip | Optimization/util/fleetpy.py:26 | a key outside the allow-list leaves the filtered result as it was |
| FleetPy.DefaultsWellFormed | Optimization/util/fleetpy.py:43-55 | the default scenario names each column once |
| FleetPy.ParseDecimalOfDecimal | Optimization/util/fleetpy.py:65 | a number's decimal digits read back as the number |
| FleetPy.Pad3 | Optimization/util/fleetpy.py:65 | the zero-padded form has at least three characters |
| FleetPy.Pad3RoundTrip | Optimization/util/fleetpy.py:65-67 | the zero-padded form reads back as the number, so it is injective |
| FleetPy.Pad3Examples | Optimization/util/fleetpy.py:65 | 7 gives "007", 42 gives "042", and 1234 keeps all four digits |
| FleetPy.Decimal | Optimization/util/fleetpy.py:65 | a number's decimal form has at least one digit |
| FleetPy.DecimalExamples | Optimization/util/fleetpy.py:65 | 7, 42 and 1234 are written as "7", "42" and "1234" |
| PyDict.UpdateTwice | Optimization/util/fleetpy.py:66-67 | setting scenario_name and rq_file for a new replication overwrites the previous replication's values, so rows do not depend on earlier rows |
| PyDict.UpdateSame | Optimization/util/fleetpy.py:66-67 | setting the two fields to the values they already hold changes nothing |
| FleetPy.ScenarioNamesDistinct | Optimization/util/fleetpy.py:64-67 | different replications get different scenario names and different demand files |
| FleetPy.Overridden | Optimization/util/fleetpy.py:43-59 | the scenario holds the default keys and the supplied keys; supplied values win, and the other defaults stay |
| FleetPy.RowWellFormed | Optimization/util/fleetpy.py:65-68 | a scenario row names each column once |
| FleetPy.RowsOfRows | Optimization/util/fleetpy.py:64-68 | there are exactly numReps rows, and row r is the scenario with replication r's name and demand file |
| FleetPy.EmitRows | Optimization/util/fleetpy.py:64-68 | the row loop writes exactly those rows, in order |
| FleetPy.ScenarioRows | Optimization/util/fleetpy.py:30-68 | numReps rows with a common header; row r is the overridden scenario with scenario_name and rq_file set for r, and every other value is shared |
| PyDict.Put | Optimization/util/fleetpy.py:59 | storing a key keeps the dictionary well formed: an existing key keeps its position and a new key goes last |
| PyDict.ApplyOverrides | Optimization/util/fleetpy.py:58-59 | after the override loop the scenario has the default keys followed by the new supplied keys, and its values are the defaults overridden by the parameters |
| PyDict.OverridesDone | Optimization/util/fleetpy.py:58-59 | once every parameter has been stored, the scenario is the override of the defaults |
| PyDict.OverrideStep | Optimization/util/fleetpy.py:58-59 | storing the next parameter extends the override by that parameter |
| FleetPy.PresentCount | Optimization/util/fleetpy.py:149-160 | every replication is either read or counted as missing |
| FleetPy.MissingThresholdExamples | Optimization/util/fleetpy.py:164 | with 10 replications 3 missing files are fatal and 2 are not; exactly a quarter is tolerated; none missing is never fatal |
| FleetPy.GetFleetpySimdataAllreps | Optimization/util/fleetpy.py:138-167 | fails exactly when more than a quarter of the files are missing; otherwise returns the files that were read, in replication order, numReps - missing of them |
| FleetPy.ValuesInNonEmpty | Optimization/util/fleetpy.py:183 | a key that occurs in a table has at least one value there |
| FleetPy.Series | Optimization/util/fleetpy.py:182-188 | a key's value list is never empty |
| FleetPy.Aggregate | Optimization/util/fleetpy.py:190-200 | the sample deviation is used exactly for two or more values that are all finite, and zero otherwise; the mean is finite exactly when all values are |
| FleetPy.CalcFleetpySimstats | Optimization/util/fleetpy.py:170-201 | succeeds exactly on a non-empty list whose later tables only use keys of the first; the keys are those of the first table, each with the aggregate of its series |
| FleetPy.SeriesStep | Optimization/util/fleetpy.py:185-188 | appending table j's values extends every series by that table's values |
| FleetPy.KeysKnownStep | Optimization/util/fleetpy.py:187-188 | one more table has known keys exactly when the earlier tables do and its own keys are in the first table |
| FleetPy.KeysKnownPrefix | Optimization/util/fleetpy.py:185-188 | known keys of all tables imply known keys of every prefix |
| FleetPy.FirstValues | Optimization/util/fleetpy.py:183 | the comprehension maps each key of the first table to the one-element list of its last value |
| FleetPy.FirstStep | Optimization/util/fleetpy.py:183 | one step of the comprehension keeps each key mapped to its last value so far |
| FleetPy.KeysOfSnoc | Optimization/util/fleetpy.py:187 | a table with one more row has that row's key added |
| FleetPy.ValuesInSnoc | Optimization/util/fleetpy.py:187 | a table with one more row has that row's value appended to its key's values |
| FleetPy.AppendValues | Optimization/util/fleetpy.py:187-188 | appends each value of a later table to its key's list; fails exactly at a key the first table lacks |
| FleetPy.AppendStep | Optimization/util/fleetpy.py:188 | one append keeps the lists equal to the values seen so far |
| FleetPy.ConcatOnePerTable | Optimization/util/fleetpy.py:185-188 | when every table reports a key once, its list has one value per table, in replication order |
| FleetPy.SeriesOnePerReplication | Optimization/util/fleetpy.py:182-200 | with one value per replication, a key's series is those values in replication order, and a single replication gets the zero spread |
| FleetPy.ServedOutcomes | Optimization/util/fleetpy.py:229 | the outcomes kept are exactly those with a pickup time |
| FleetPy.MatchOf | Optimization/util/fleetpy.py:239 | a match is a served outcome with the traveller's request id, and there is none exactly when no served outcome has that id |
| FleetPy.ReconcileRow | Optimization/util/fleetpy.py:234-251 | a matched traveller gets served = 1 and wait = pickup - request, travel = dropoff - pickup, total = their sum; an unmatched NSM chooser not already served gets 0; nothing else changes |
| FleetPy.ReconcileTriState | Optimization/util/fleetpy.py:237-250 | on a fresh traveller, served = 1 exactly when picked up, 0 exactly for an NSM chooser not picked up, -1 exactly for everyone else |
| FleetPy.ReconcileIdempotent | Optimization/util/fleetpy.py:239-250 | reconciling twice with the same outcomes equals reconciling once |
| FleetPy.UpdateRequestsUsersServed | Optimization/util/fleetpy.py:203-252 | None exactly when a file is missing; the table untouched when nobody was picked up; otherwise every traveller reconciled, with the row count kept |
| FleetPy.NoPickupLeavesNsmUnmarked | Optimization/util/fleetpy.py:229-232 | when nobody was picked up an NSM chooser keeps served = -1 rather than 0 |
| FleetPy.NothingServed | Optimization/util/fleetpy.py:229-230 | outcomes without pickup times leave no served outcomes |
| FleetPy.GetFleetpyUserdataAllreps | Optimization/util/fleetpy.py:255-270 | one entry per replication, None exactly where a file is missing, the reconciled table otherwise |
| FleetPy.UpdateFleetpyUnservedchoose | Optimization/util/fleetpy.py:273-292 | every row gets modified = 0 and prevchoice = choice; each served = 0 row is redrawn to a non-NSM mode with modified = 1; other choices are unchanged; unserved equals modified; fails if a redraw fails |
| FleetPy.ServedRows | Optimization/util/fleetpy.py:326 | only served = 1 rows are kept |
| FleetPy.RepMeansOf | Optimization/util/fleetpy.py:326-333 | the means of wait, travel and car time over the served rows, with ratio*car = wait + travel; fails when nobody was served, and when the mean car time is 0 (see Left out) |
| FleetPy.AggOf | Optimization/util/fleetpy.py:337-344 | the spread is zero exactly for a single replication |
| FleetPy.MeansOf | Optimization/util/fleetpy.py:325-333 | one set of means per replication |
| FleetPy.CalcUserstatsAllreps | Optimization/util/fleetpy.py:294-346 | succeeds exactly on a non-empty list of measurable tables; each statistic is the mean and spread of the per-replication means |
| FleetPy.UserStatsRatioBounds | Optimization/util/fleetpy.py:325-344 | the aggregated ratio lies between the smallest and largest per-replication ratio; with one replication it is that ratio with zero spread |
| Util.GetModeStats | Optimization/util/util.py:27-57 | count[m] is the number of rows choosing m and ratio[m] = count[m]/rows; keys are exactly the chosen modes, in ascending order |
| Util.OccurrenceSumSnoc | Optimization/util/util.py:50 | a new row adds one to the count of its mode's range |
| Util.OccurrencesSumToLength | Optimization/util/util.py:50-56 | every row is counted exactly once over the five modes |
| Util.CountSumIsOccurrenceSum | Optimization/util/util.py:53-55 | the counts of a mode split agree with the occurrences in the choice column |
| Util.RatioSumIsScaledCount | Optimization/util/util.py:56 | the ratios sum to the counts' sum divided by the row count |
| Util.ModeSplitTotals | Optimization/util/util.py:50-56 | the counts sum to the row count, and for a non-empty table the ratios sum to 1 |
| Util.RatiosInUnitInterval | Optimization/util/util.py:52-56 | every present ratio lies in (0, 1] |
| Util.OccurrencesBounded | Optimization/util/util.py:50 | no mode is chosen by more rows than there are |
| Util.OccurrenceAtMostSum | Optimization/util/util.py:50 | one mode's count is at most the count of a range of modes containing it |
| Records.Choices | Optimization/util/util.py:50 | the choice column has one entry per row, that row's choice |
| Statistics.Reals | Optimization/util/fleetpy.py:195 | the finite values of a list, in order |
| Statistics.SumBounds | Optimization/util/fleetpy.py:195 | a sum is bounded by the count times any bounds of the elements |
| Statistics.MeanBounds | Optimization/util/fleetpy.py:339 | the mean lies between any lower and upper bound of the values |
| Statistics.MeanConstant | Optimization/util/fleetpy.py:339 | the mean of a constant list is that constant |
| Sample.RoundHalfEven | Optimization/util/sample.py:59-60 | the result is within 1/2 of x and even on a tie |
| Sample.RoundHalfEvenUnique | Optimization/util/sample.py:59-60 | Python's rounding is the only integer within 1/2 that is even on a tie |
| Sample.RoundHalfEvenWithin | Optimization/util/sample.py:59-60 | rounding a value in [0, n] stays in [0, n] |
| Sample.SampleSizeExample | Optimization/util/sample.py:59-60 | a pool of 10000 with demand ratio 1.5 and file ratio 15 gives 1000 requests |
| Sample.SampleFits | Optimization/util/sample.py:59-61 | a demand ratio at most the file ratio gives a sample size between 0 and the pool size |
| Sample.ConfiguredSampleFits | Optimization/util/setup.py:106-109 | the configured ratios (1.252 and 15.10924) give a sample size that fits every pool |
| Sample.SampleRequestPool | Optimization/util/sample.py:42-63 | succeeds exactly when the size fits the pool; the sample has that size and consists of pool rows in draw order |
| Sample.SampleKeepsUniqueIds | Optimization/util/sample.py:61 | sampling without replacement keeps unique request ids unique |
| Sample.SampleOrderNotSorted | Optimization/util/sample.py:62 | the sample as written can be out of request-time order, because the sort's result is discarded |
| Sample.InsertByTime | Optimization/util/sample.py:62 | inserting into a time-sorted list keeps it sorted, one row longer, headed by the new row or the old head |
| Sample.InsertByTimeAdds | Optimization/util/sample.py:62 | the insertion adds exactly the new row and keeps every other row |
| Sample.SortByTime | Optimization/util/sample.py:62 | the result is time-sorted and a permutation of the input |
| Sample.SampleRequestPoolSorted | Optimization/util/sample.py:56-62 | the sort applied: succeeds exactly when the as-written sampler does, and returns the same requests in request-time order |
| Sample.UniqueIdsPermutation | Optimization/util/sample.py:62 | a permutation of rows with unique ids has unique ids |
| Sample.SortedSampleKeepsUniqueIds | Optimization/util/sample.py:61-62 | the sorted sample keeps unique request ids unique too |
| InnerLoop.MinTime | Optimization/inner_loop.py:42 | the minimum is one of the request times and at most each of them |
| InnerLoop.MaxTime | Optimization/inner_loop.py:43 | the maximum is one of the request times and at least each of them |
| InnerLoop.Ceil | Optimization/inner_loop.py:43 | the least integer at or above x |
| InnerLoop.SimWindow | Optimization/inner_loop.py:42-43 | fails on an empty pool; otherwise start is the floor of the earliest request time, end the ceiling of the latest, and every request time lies in [start, end] |
| InnerLoop.EstimatesOf | Optimization/inner_loop.py:67-81 | succeeds exactly when the NSM wait, ratio, service rate and all coefficients are present, and carries their current values |
| InnerLoop.WithNsmTimes | Optimization/inner_loop.py:67-69 | wait is the smoothed wait, travel is car time times the smoothed ratio, total is their sum; nothing else changes |
| InnerLoop.WithCosts | Optimization/inner_loop.py:73-75 | car cost = 0.1 l/km * 7.78 * distance, transit fare 6.0, NSM cost as configured; nothing else changes |
| InnerLoop.PresimRow | Optimization/inner_loop.py:66-100 | a realised row is marked -1, flags NSM use exactly for the NSM choice, keeps its id and car time, has the current NSM total time, and its chosen mode has positive probability |
| InnerLoop.PresimRowStages | Optimization/inner_loop.py:66-100 | a row fails exactly where its availability rules or its draw fail; otherwise it is the scored row with the drawn choice, marked -1 |
| InnerLoop.ConfiguredDemandAlwaysChooses | Optimization/inner_loop.py:78-92 | with the configured availability rates every row is realised, and its chosen mode is available to it |
| InnerLoop.ConfiguredAvailsApply | Optimization/util/setup.py:121-127 | every configured rule applies and gives 0 or 1 flags, and walking is always available |
| InnerLoop.Presim | Optimization/inner_loop.py:66-100 | one table's realisation fails exactly when some row fails |
| InnerLoop.RealizedRows | Optimization/inner_loop.py:66-100 | the realised table has one realised row per sampled row, in order |
| InnerLoop.PresimBreaksIffNoNsm | Optimization/inner_loop.py:94-98 | the loop breaks exactly when no row chose NSM |
| InnerLoop.PresimNsmRowGivesDemand | Optimization/inner_loop.py:94-98 | a row choosing NSM means the table is kept |
| InnerLoop.PresimDemandHasNsmRow | Optimization/inner_loop.py:94-98 | a kept table has a row choosing NSM |
| InnerLoop.PresimDemandShape | Optimization/inner_loop.py:91-100 | a kept table keeps the sampled ids in order, has an NSM user, marks every row -1, and flags exactly the NSM choosers |
| InnerLoop.ConfiguredPresimSucceeds | Optimization/inner_loop.py:78-100 | with the configured availability rules no replication's realisation fails |
| InnerLoop.Demands | Optimization/inner_loop.py:61-100 | one demand per replication |
| InnerLoop.DemandsAt | Optimization/inner_loop.py:61-100 | entry j is replication j's demand |
| InnerLoop.KeptPrefix | Optimization/inner_loop.py:94-105 | the kept tables are the first replications' tables in order; if fewer are kept, the next replication had no NSM user; a failure has a failing replication after only kept ones |
| InnerLoop.KeptStep | Optimization/inner_loop.py:94-105 | a failing replication fails the rest, one without NSM users ends it, and a kept table is prepended |
| InnerLoop.KeptStart | Optimization/inner_loop.py:59-61 | before the first replication, no table is collected and the whole loop's outcome is still ahead |
| InnerLoop.KeptAdvance | Optimization/inner_loop.py:61-105 | one turn: a failing replication fails the loop, one without NSM users ends it with the tables so far, a realised table is collected |
| InnerLoop.KeptEnd | Optimization/inner_loop.py:61-109 | after the last replication the loop keeps exactly the collected tables |
| InnerLoop.RealizeReplication | Optimization/inner_loop.py:62-100 | replication j realises the j-th replication's demand, failing exactly when it fails |
| InnerLoop.RealizeReplications | Optimization/inner_loop.py:59-109 | the loop returns exactly the kept tables, with a mode split describing each kept table's choices; it fails exactly when the kept-tables specification fails |
| InnerLoop.RealizeDemand | Optimization/inner_loop.py:62-100 | one replication's sample and realisation, as the specification says |
| InnerLoop.RealizeRows | Optimization/inner_loop.py:66-100 | the column passes over an array give exactly the table's realisation |
| InnerLoop.ChooseRows | Optimization/inner_loop.py:91-100 | drawing, the break and the -1 marking give exactly the table's realisation |
| InnerLoop.ScoreRows | Optimization/inner_loop.py:66-88 | the three column passes leave every row prepared with the current NSM times and costs, carrying the flags of the configured availability rules, and scored with its utilities, weights and probabilities |
| InnerLoop.ApplyAvails | Optimization/inner_loop.py:76-80 | every row's configured rules apply, and each row becomes itself with the five flags those rules give |
| InnerLoop.ScoredFrom | Optimization/inner_loop.py:66-88 | the three column passes, row by row, give the scored rows |
| InnerLoop.ChoiceFailureFails | Optimization/inner_loop.py:91 | a row whose draw fails makes the table's realisation fail |
| InnerLoop.ChosenRowsRealize | Optimization/inner_loop.py:91-100 | when every draw applies, the realised rows are the chosen rows marked -1 |
| InnerLoop.ChosenPresim | Optimization/inner_loop.py:91-100 | when every draw applies, the realisation is the marked table, or the break when nobody chose NSM |
| InnerLoop.PrepareAll | Optimization/inner_loop.py:66-75 | every row gets the current NSM times and the trip costs |
| InnerLoop.ScoreAll | Optimization/inner_loop.py:81-88 | every row gets its utilities, weights and probabilities |
| InnerLoop.DrawChoices | Optimization/inner_loop.py:91-92 | succeeds exactly when every row's draw applies and then sets every row's choice and NSM flag; otherwise the table is unchanged |
| InnerLoop.Marked | Optimization/inner_loop.py:100 | every row is marked -1 and nothing else changes |
| InnerLoop.MarkedAnyNsm | Optimization/inner_loop.py:94-100 | marking keeps whether anyone chose NSM |
| InnerLoop.MarkNotRequested | Optimization/inner_loop.py:100 | the table is its marked form |
| InnerLoop.ReassignedRow | Optimization/inner_loop.py:162 | prevchoice records the old choice; modified and unserved are 1 exactly for an unserved request, which ends on a non-NSM mode |
| InnerLoop.Refreshed | Optimization/inner_loop.py:168-175 | a served row keeps its measured NSM times and every other row gets the current ones; choice, flags and id are kept |
| InnerLoop.RedrawnRow | Optimization/inner_loop.py:178-188 | served and never-requesting rows draw a mode of positive probability and are marked modified; unserved rows keep their choice; times are unchanged |
| InnerLoop.PostsimRow | Optimization/inner_loop.py:157-190 | served and NSM-user flags stay as simulated; an unserved request ends on a non-NSM mode; served rows keep measured times and others get current ones; every row is marked modified |
| InnerLoop.PostsimRowSucceeds | Optimization/inner_loop.py:157-190 | a row scored from its availabilities, with walking available, is always re-chosen |
| InnerLoop.ReassignedRowSucceeds | Optimization/inner_loop.py:162 | the reassignment cannot fail on such a row, and keeps its utilities, flags and weights |
| InnerLoop.RedrawnRowSucceeds | Optimization/inner_loop.py:178-188 | the redraw cannot fail on such a row |
| InnerLoop.RefreshedKeepsWeights | Optimization/inner_loop.py:174-175 | refreshing keeps the probabilities equal to those of the new utilities |
| InnerLoop.UpdateAfterSimulation | Optimization/inner_loop.py:157-190 | succeeds exactly when every row's re-choice succeeds, and then every row is its post-simulation row |
| InnerLoop.ReassignedRows | Optimization/inner_loop.py:162 | the reassigned table is the row-wise reassignment |
| InnerLoop.ReassignFailureFails | Optimization/inner_loop.py:162 | a failing reassignment makes its row's re-choice fail |
| InnerLoop.RechooseRows | Optimization/inner_loop.py:168-188 | on a reassigned table, the rest of the re-choice gives exactly the post-simulation rows |
| InnerLoop.RefreshAll | Optimization/inner_loop.py:168-175 | every row is refreshed with the current estimates |
| InnerLoop.RedrawAll | Optimization/inner_loop.py:178-188 | succeeds exactly when every row's redraw does, and then every row is redrawn |
| InnerLoop.RefreshNsmTimes | Optimization/inner_loop.py:168-170 | rows not served get the current NSM times; served rows are unchanged |
| InnerLoop.RedrawWhere | Optimization/inner_loop.py:178-180 | rows in the given served state draw again and are marked modified; others are unchanged; fails if a draw fails |
| InnerLoop.ConfiguredRulesApply | Optimization/util/setup.py:121-127 | with the configured rules every rule applies to every row of any table, so the availability pass cannot raise |
| InnerLoop.SplitsDescribeSnoc | Optimization/inner_loop.py:104-105 | appending a kept table together with its own mode split keeps each split describing the table in the same position |
| InnerLoop.PresimFiles | Optimization/inner_loop.py:103 | one presimulation file per replication: the kept table for each replication that was kept, absent after the break |
| InnerLoop.Presimulation | Optimization/inner_loop.py:59-109 | KeyError when a smoothed NSM value or coefficient is missing; otherwise the kept tables of the demand realised from those values, failing exactly when that fails, with mode splits describing the kept tables |
| InnerLoop.PostsimTableRows | Optimization/inner_loop.py:157-190 | one replication's re-choice succeeds exactly when every row's does, and then row k is re-chosen with that replication's k-th uniform numbers |
| InnerLoop.PostsimTablesRows | Optimization/inner_loop.py:157-190 | the re-choice of every replication succeeds exactly when no row's re-choice raises, and then each table is its rows re-chosen one by one |
| InnerLoop.UpdateTable | Optimization/inner_loop.py:158-190 | the passes over one replication's table, in place, give exactly that replication's re-choice, failing where it fails |
| InnerLoop.UpdateAllAfterSimulation | Optimization/inner_loop.py:157-190 | the loop over the replications returns exactly every replication's re-choice, failing at the first one that raises |
| InnerLoop.Postsimulation | Optimization/inner_loop.py:157-190 | KeyError when a smoothed value is missing; on success the trace extends the given first stages with the estimates read from the NSM values after recording and the coefficients of the start, and the re-chosen tables, so the whole iteration satisfies StagesFrom |
| Driver.ValueItems | Optimization/inner_loop.py:146-148 | one (name, value) item per entry, in order |
| Driver.PvalItems | Optimization/inner_loop.py:299-305 | one (name, p-value) item per entry, in order |
| Driver.Appended | Optimization/util/setup.py:49-50 | appending keeps the keys and each slot's kind |
| Driver.AppendedAt | Optimization/util/setup.py:49-50 | with distinct names, each named history gains exactly its item's value at the end |
| Driver.AppendedOther | Optimization/util/setup.py:49-50 | a history no item names is unchanged |
| Driver.AppendedSnoc | Optimization/util/setup.py:49-50 | one more item appends to its statistic's history |
| Driver.AddEach | Optimization/inner_loop.py:146-148 | succeeds exactly when every entry names a seeded list statistic, and then each value and p-value is appended to its history |
| Driver.AddedAll | Optimization/inner_loop.py:146-148 | adding every entry leaves the appended histories |
| Driver.AddNext | Optimization/inner_loop.py:147-148 | one add extends the histories by the next entry, or fails on an unknown statistic |
| Driver.ListsHeld | Optimization/util/setup.py:30-36 | a valid tracker holds every statistic other than "pval" as lists |
| Driver.ModeColumn | Optimization/inner_loop.py:135-137 | one value per replication, that replication's entry for the mode |
| Driver.WithMeans | Optimization/inner_loop.py:133-138 | the histories keep their modes |
| Driver.CollectColumn | Optimization/inner_loop.py:135-137 | collects a mode's entries over the replications; fails exactly when one lacks the mode |
| Driver.AppendModeMeans | Optimization/inner_loop.py:134-138 | each mode the first replication lists gains the mean over the replications; fails on an empty list or a missing mode |
| Driver.MissingEntryUncovered | Optimization/inner_loop.py:135-137 | a listed mode missing from some replication makes the mode-split means fail (KeyError) |
| Driver.CoveredBelowStep | Optimization/inner_loop.py:134-137 | a mode whose entries all exist extends the set of modes known to be present in every replication |
| Driver.AppendBelowAt | Optimization/inner_loop.py:134-138 | after visiting the modes below n, the histories have the same modes; each visited mode with a value gained it, every other mode is unchanged |
| Driver.ColumnMeansStep | Optimization/inner_loop.py:134-138 | visiting a mode appends its column mean when it is listed and tracked, and changes nothing else |
| Driver.MeansBelowAll | Optimization/inner_loop.py:133-138 | once every mode is visited with the column means, every listed mode is present in every replication and the histories are exactly those of WithMeans |
| Driver.AppendedRatiosInUnitInterval | Optimization/inner_loop.py:133-138 | each appended mean ratio lies in (0, 1] and the history grows by one |
| Driver.MeanPositive | Optimization/inner_loop.py:138 | the mean of positive values is positive |
| Driver.ConvergedInPercentagePoints | Optimization/inner_loop.py:315-319 | for shares in [0,1] the loop stops exactly when the NSM share moved by at most threshold/100 |
| Driver.ConvergenceExamples | Optimization/inner_loop.py:315-319 | 1.5% to 1.41% stops at threshold 0.5 but not at 0.02; iteration 0 never stops |
| Driver.ReportAt | Optimization/inner_loop.py:338-344 | reads the four KPIs at one raw index and the mode shares at another, in percent; fails exactly where a lookup would |
| Driver.CorrectedReportsLastMeasurement | Optimization/inner_loop.py:338-344 | after i+1 measurements the corrected report carries the last measurement of each KPI and iteration i's mode shares |
| Driver.ReportIndexCounterexample | Optimization/inner_loop.py:338-341 | after one iteration measuring occupancy 2.5, the report as written gives the seed 1.0 and the corrected one gives 2.5 |
| Driver.ValueColumn | Optimization/inner_loop.py:303 | each replication's estimate of the coefficient |
| Driver.PvalColumn | Optimization/inner_loop.py:304 | each replication's p-value of the coefficient |
| Driver.CoefficientEntries | Optimization/inner_loop.py:299-305 | one add per coefficient of the first replication, in its order, with the means over replications |
| Driver.CoefficientEntryBounds | Optimization/inner_loop.py:299-305 | the tracked mean lies within bounds every replication respects, and the mean p-value in [0,1]; one replication gives its own values |
| Driver.CollectFit | Optimization/inner_loop.py:300-304 | collects a coefficient's values and p-values; fails exactly when a replication lacks it |
| Driver.CoefficientMeans | Optimization/inner_loop.py:299-305 | one entry per coefficient; fails on an empty list or a missing coefficient |
| Driver.SeedNames | Optimization/util/setup.py:145-153 | the NSM tracker holds the reported statistics, and neither seed table has "pval" |
| Driver.UserEntriesKnown | Optimization/inner_loop.py:146-148 | every user statistic is one the NSM tracker holds |
| Driver.ServiceEntriesKnown | Optimization/inner_loop.py:141-142 | both simulator statistics are ones the NSM tracker holds |
| Driver.MeasurementsRecorded | Optimization/inner_loop.py:141-148 | after both adds each reported KPI has grown by one and ends with this iteration's measurement |
| Driver.ServiceRecorded | Optimization/inner_loop.py:141-142 | the service rate and occupancy histories each gain the simulator's mean, and the others are unchanged |
| Driver.UserRecorded | Optimization/inner_loop.py:146-148 | the wait and ratio histories each gain the user mean, and the others are unchanged |
| Driver.SeededTrackers | Optimization/util/setup.py:142-153 | fresh trackers hold what the loop needs, with each reported KPI at its seed |
| Driver.NewTrackers | Optimization/util/setup.py:142-153 | two fresh trackers with weight 0.25, seeded from the NSM and coefficient tables |
| Driver.ModeStatsSeedComplete | Optimization/util/setup.py:156-163 | the seed table has a history for every mode |
| Driver.Framework.constructor | Optimization/inner_loop.py:37-50 | empty mode histories, flag cleared, last iteration set to the cap |
| Driver.Framework.NsmListsHeld | Optimization/util/setup.py:145-153 | every NSM statistic is held as a list |
| Driver.Framework.RecordModeSplit | Optimization/inner_loop.py:133-138 | each listed mode's ratio and count history gains its mean; fails, changing nothing, on an empty list or a missing mode |
| Driver.Framework.RecordServiceStats | Optimization/inner_loop.py:141-142 | adds the mean service rate and occupancy; fails exactly when either key is missing |
| Driver.Framework.RecordUserStats | Optimization/inner_loop.py:146-148 | adds each user statistic's mean |
| Driver.Framework.RecordCoefficients | Optimization/inner_loop.py:299-305 | adds each coefficient's mean value and p-value; fails exactly on disagreeing fits or an unseeded coefficient |
| Driver.Framework.CheckConvergence | Optimization/inner_loop.py:315-324 | stops exactly when i > 0 and the NSM share moved by at most the threshold, setting the flag and last iteration; fails if the history is too short |
| Driver.Framework.RecordMeasurements | Optimization/inner_loop.py:130-148 | the statistics returned are those of the evaluation files read, the kept tables reconciled with the outcomes and their user statistics; each listed mode's split histories gain their means; each KPI holds one more measurement, ending with this iteration's |
| Driver.Framework.RecordSimulatorStats | Optimization/inner_loop.py:130-142 | succeeds only when too few evaluation files are missing and later files use the first one's keys; then returns their aggregate statistics, appends each listed mode's mean to both split histories, and adds the mean service rate and occupancy to the NSM tracker |
| Driver.Framework.RecordTravellerStats | Optimization/inner_loop.py:143-148 | reconciles each replication's presimulation file with its outcomes; on success every reconciled table has well-defined means, the user statistics are theirs, and each statistic's mean is added to the NSM tracker |
| Driver.Framework.CloseIteration | Optimization/inner_loop.py:299-324 | fails when the fits disagree; otherwise appends each coefficient's mean value and p-value, counts the iteration and stops exactly when the NSM share settled, setting the flag and last iteration; the NSM tracker and split histories are untouched |
| Driver.Framework.Measure | Optimization/inner_loop.py:53-148 | demand is realised from the trackers' smoothed values at the start, and the values returned satisfy SimulatedFrom: estimates of the start, kept tables, their mode splits and this iteration's measurements; the split histories and the NSM tracker gain exactly those measurements |
| Driver.Framework.Iteration | Optimization/inner_loop.py:53-324 | one iteration in loop order: the trace starts from the trackers' values at the start, re-chooses with the NSM values after recording and the start's coefficients, and satisfies StagesFrom; the coefficient means are appended and the loop stops exactly on convergence |
| Driver.Framework.Run | Optimization/inner_loop.py:40-344 | fails on an empty pool; otherwise runs iterations until the NSM share settles or the cap is reached, and reports FinalReport of the last recorded iteration, with the last iteration at the converged one or the cap |
| Driver.Framework.FinalReport | Optimization/inner_loop.py:338-344 | fails when no iteration ran; otherwise reports each KPI's last raw measurement and the last iteration's mode shares in percent |

## Left out

- File I/O and printing: CSV reads and writes, `print_mode_stats`, `check_nulls`, `load_request_pool`, `get_config_results` and `write_fleetpy_constant_config_file`. Files become parameters: a missing or empty file is `None`.
- Running the fleet simulator (Optimization/inner_loop.py:116-127). It is an external process; its evaluation tables and per-request outcomes are inputs.
- Choice-model estimation with biogeme (Optimization/inner_loop.py:201-296). It is a foreign library; its per-replication fits are inputs.
- Floating point: values are reals.
  - `exp` is any positive function.
  - `stdev` is left symbolic.
  - NaN appears only where the source relies on it: a zero `exp_total`, non-finite simulator values and the zero remainder in the reassignment.
  - The sampler's tolerance on probability sums is exact equality.
- Randomness: every draw is an explicit parameter in [0,1), and a sample is a prefix of an explicit permutation of the pool.
- `dropna` in `calc_userstats_allreps`: traveller times are reals and never missing.
- The outer loop in Optimization/outer_loop_simple.py, the path modules and the scripts under Scripts/ and Utilities/.
- The time window is computed by `InnerLoop.SimWindow`; writing it into the constant configuration is file I/O.
- `Driver.AddEach`: when an add fails, the contract says nothing about the histories. The source leaves the earlier adds applied.
- `Driver.Framework.RecordModeSplit`: on failure it leaves the histories unchanged. The source may already have appended the ratio means before it raises on the count table.
- `Driver.Framework.Measure`, `Driver.Framework.Iteration` and `Driver.Framework.Run`: on failure they promise only the class invariant. The source raises there and may leave partly updated trackers behind.
- `Driver.Framework.Iteration`: the histories' growth by this iteration's measurements is stated by `Driver.Framework.Measure`, which it calls, and is not repeated in its own contract.
- `Driver.Framework.RecordServiceStats`: requires the two simulator means to be finite when present. The tracker holds reals, so a NaN mean cannot be added.
- `Driver.Framework.RecordSimulatorStats`: fails on a non-finite mean service rate or occupancy, where the source adds the NaN to the tracker and carries on. `Driver.Framework.RecordMeasurements` inherits this.
- `FleetPy.RepMeansOf`: a mean car time of 0 is a failure. In the source the numpy division gives an infinite or NaN ratio and the loop carries on with it; the trackers hold reals and cannot.
- `FleetPy.UpdateRequestsUsersServed`: requires each picked-up request id to occur once in the simulator's output. A repeated id would make the pandas merge duplicate traveller rows.
- `FleetPy.GetFleetpyUserdataAllreps`: the same requirement on the simulator's output.
- The two trackers are fields of `Driver.Framework`, built by `Driver.NewTrackers`, instead of module-level globals.
- The smoothing weight is not checked to lie in [0,1], and neither does the source check it. The convex-combination bounds are proved under that hypothesis.
- Where the code and its own documentation disagree, the model follows the code:
  - a statistic other than "pval" gets its seed, not 1.0, as its first p-value;
  - 3 missing evaluation files out of 10 are fatal;
  - the convergence threshold is in percentage points;
  - `sample_request_pool` returns the sample in draw order, because the sort result is discarded (`Sample.SampleOrderNotSorted`);
  - a replication without NSM users ends the replication loop, dropping that replication and every later one.

## Findings

| source | as written | input that shows it | evidently intended | confidence | as-written member | corrected member |
|---|---|---|---|---|---|---|
| Optimization/inner_loop.py:338-341 | the final KPIs are read at index i of the raw histories, whose index 0 is the seed, so they are the previous iteration's values | a run stopping after iteration 0 whose simulation measured occupancy 2.5 reports the seed 1.0 | read index i + 1, the last measurement | not executed | Driver.ReportAsWritten, Driver.ReportIndexCounterexample | Driver.ReportCorrected, Driver.CorrectedReportsLastMeasurement, Driver.Framework.FinalReport |
