# FlowForge verification model

A Dafny model of the algorithms and protocols inside FlowForge, a Go platform that moves records between systems, with
proofs of what they are for. Each module follows one component of the Go code; objects that the Go code updates in place
are classes whose methods are proved against a specification, loops are loops, and concurrent components are step
relations over the states between their critical sections.

- **Cron scheduler** (`Calendar`, `CivilDates`, `CronParser`, `CronLanguage`, `CronSearch`, `CronDays`, `CronRuns`,
  `Scheduler`): the expression parser, the search for the next run on its iteration budget over the Gregorian calendar
  (ISO 8601:2004, section 3.2.1), with the calendar counted day by day as its independent reference, the days matched
  beside those of the crontab utility, the runs of weekly and yearly expressions told from their texts, and the registry
  that fires due syncs.
- **Auto-mapper** (`EditDistance`, `FieldMatching`): two-row edit distance, name similarity, greedy field matching.
- **Expression engine** (`ExprLexer`, `ExprParser`, `ExprRoundTrip`, `ExprSoundness`, `ExprMeaning`): tokenizer and
  recursive-descent evaluator, with a printer and a denotation as references, and what expressions are worth told
  without the evaluator's own operations.
- **Concurrent buffers, limiters and caches** (`MessageBatching`, `AuditLog`, `TokenBucket`, `TokenStore`,
  `FixedWindow`, `TenantClients`).
- **Sync pipeline** (`SyncOrchestrator`, `FieldRenaming`, `Coercion`, `Transform`, `CompositeKeys`, `LoadSplit`) and
  **pagination** (`Pagination`).
- `Outcomes`, `Strings`, `Arithmetic` and `Sequences` hold what several modules use.

`dafny verify dfyconfig.toml` checks the project.

## What the proofs found

- `NextCronTime` is documented to return a time "at or after" its argument; the code answers strictly after it. The two
  are the same exactly when the argument is not itself a matching minute (`NextRunAtOrAfterIff`); for every minute, asked
  at a whole minute, they are not (`NextMinuteNotThisOne`).
- The search loop is documented as a limit of four years; it is a budget of 4*366*24*60 iterations, and
  because each non-matching day costs at most one, it covers the 400 years after which the calendar repeats: its error
  means that the expression never matches (`CronSearch.Search`).
- Day of month and day of week must both match. The crontab utility of IEEE Std 1003.1-2017 lets a day match by its date
  (month and day of month) or by its weekday, unless asterisks leave only one of them. The two agree about a day exactly
  when the weekday is an asterisk, or month and day of month are, or date and weekday both hold the day or neither does
  (`ExpressionAgreesIff`); `WithinMonthsAgreeIff` is the same for a rule that always wants the month. `0 0 1 * 5` differs
  on a first of January that is a Monday (`FirstButNotFriday`).
- A step so large that the 64-bit loop counter wraps makes a field hold extra values; `SteppedUnlessWrapped` gives the
  exact condition, `HugeStepWrapsAround` an expression.
- An expression for one date never runs exactly when no year, not even a leap year, has the date (`YearlyRun`).
- `typeCompatibility` calls its table bidirectional, but it is not symmetric: any type is better turned into a string
  than made from one (`TypesByCompatibility`). A text mapped to an integer gets the transform to a float
  (`MappingsTakeSourceToDest`).
- `nameSimilarity` divides a distance in characters by a length in bytes. It is still in [0, 1] and 1 only on equal
  normalised names.
- `Evaluate` accepts a text that only starts with an expression, such as `1 2` (`EvaluateSound`, `EvaluateComplete`,
  `TrailingTokenIgnored`); `WholeIff` says when the whole text is one.
- The rate limiter's cleanup changes no answer, and keeps the documented rate, exactly when the deleted bucket is full and
  no caller is between `getBucket` and `allow` (`DeletionUnseenIffQuiet`, `BoundedIffQuiet`); after any other deletion
  some calls are let through that should not be (`NoisyIsSeen`, `NoisyBreaksBound`, `DeletionUnderACaller`).
- The per-agent limiter lets through up to 2 * limit - 1 calls in one window length, and no more; a limit that is not
  positive still lets the call through that opens a window. Every limit has a run that reaches its bound
  (`WindowBoundIsTight`).
- A flush of the audit log keeps log order, whatever follows, exactly when no other flush is in flight or there is
  nothing to flush (`OrderKeptIffNoOverlap`).
- Modify signals are stored but no workflow consumes them (`ModifyHasNoEffect`), although the orchestrator's comment
  announces changes of parameters mid-flight.
- Applying the inverse of a one-to-one field mapping restores a record exactly when no unmapped field of the record has
  the name of a destination (`InverseRestores`).
- A primary key is the texts of its fields, joined with bars, and a missing field is written like null. The texts are
  determined exactly when there is one or none holds a bar (`TextsAreExact`). The values are determined exactly when,
  besides, every field is there and holds a string that is written like no number, boolean, null, list or object
  (`KeyIsExact`). A record with such a key is dropped exactly when an earlier one has the same values
  (`DroppedIffDuplicate`); with any other key, records that are no duplicates are dropped (`InexactKeyCollides`): the
  number 1 and the string "1" (`NumberAndTextCollide`), all records without the field (`LackingTheFieldCollides`), and
  strings with bars (`BarsCollide`).
- Coercing to an integer twice is coercing once exactly when the integer comes back from the float it is read as
  (`CoercionIsIdempotent`): always up to 2^53 (`SmallIntegersSurvive`), not for 2^53 + 1 (`LargeIntegerChanges`).
- A load reports each batch error once exactly when there is none or the destination is not healthy (`ReportedOnceIff`);
  a healthy destination gets each one twice (`BatchErrorsTwice`).
- With an empty results field, which the comment describes as "the root is the array", the offset paginator stops after
  the first page of a list that has a name; of a bare array the client decodes nothing, and no item ever arrives,
  whatever the results field (`CompleteIff`).

## Model

| member | source | states |
|---|---|---|
| Calendar.YearHoldsDay | internal/controlplane/scheduler/scheduler.go:397-436 | the year computed for a day by the 400/100/4/1-year division is the one whose days include it |
| Calendar.YearIsUnique | internal/controlplane/scheduler/scheduler.go:397-436 | no other year includes the day |
| Calendar.DateOfDayNumber | internal/controlplane/scheduler/scheduler.go:397-436 | reading the date of a constructed valid date gives the date back, leap days included |
| Calendar.DayNumberOfDate | internal/controlplane/scheduler/scheduler.go:397-436 | constructing a day's date gives the day back, and its month and day of month are in range |
| Calendar.MonthJumpStaysInMonth | internal/controlplane/scheduler/scheduler.go:417-421 | every day before the first of the next month is in the current month, across year ends |
| Calendar.MonthJumpAdvances | internal/controlplane/scheduler/scheduler.go:417-421 | the first of the next month is later than the current day |
| Calendar.CalendarRepeats | internal/controlplane/scheduler/scheduler.go:397-436 | month, day of month and weekday repeat every 146097 days, any number of cycles forwards or backwards |
| CivilDates.NextWeekday | internal/controlplane/scheduler/scheduler.go:409-426 | each day has the weekday that follows that of the day before |
| CivilDates.CountingDays | internal/controlplane/scheduler/scheduler.go:397-436 | day 0 is Monday, 1 January of year 1, and each day's date and weekday are those that follow the day before, month by month and leap year by leap year |
| CivilDates.UnixEpoch | internal/controlplane/scheduler/scheduler.go:397-436 | the first day of Unix time is found, a Thursday |
| CronParser.StepThrough | internal/controlplane/scheduler/scheduler.go:376-378 | the loop, with its wrapping 64-bit counter, adds exactly the looped values inside the field and ends |
| CronParser.ParsePart | internal/controlplane/scheduler/scheduler.go:341-394 | adds what one list element means to the values so far, or fails exactly when it means nothing |
| CronParser.ParseSingleField | internal/controlplane/scheduler/scheduler.go:327-338 | a comma list holds the union of its parts and fails if any part does |
| CronParser.ParseCronExpr | internal/controlplane/scheduler/scheduler.go:301-324 | the five fields agree with the expression's meaning; it fails exactly on expressions without one |
| CronLanguage.ParsedFieldsHoldSome | internal/controlplane/scheduler/scheduler.go:341-394 | every field of an expression that parses holds a value in range, so some hour and minute always fit |
| CronLanguage.SteppedUnlessWrapped | internal/controlplane/scheduler/scheduler.go:343-378 | a stepped range holds every step-th value and only those if and only if the wrapping counter does not fall back inside the field |
| CronLanguage.HugeStepWrapsAround | internal/controlplane/scheduler/scheduler.go:343-378 | a concrete expression whose field holds values outside its range because the counter wraps |
| CronLanguage.SameFieldsMatchAlike | internal/controlplane/scheduler/scheduler.go:409-415 | values below a field's range change no match |
| CronLanguage.PartRoundTrip | internal/controlplane/scheduler/scheduler.go:341-394 | printing one list element and parsing it gives its meaning |
| CronLanguage.FieldRoundTrip | internal/controlplane/scheduler/scheduler.go:327-338 | printing a list of elements and parsing it gives the union of their meanings |
| CronLanguage.CronRoundTrip | internal/controlplane/scheduler/scheduler.go:301-324 | printing five fields and parsing the expression gives what the fields mean |
| CronSearch.Search | internal/controlplane/scheduler/scheduler.go:403-436 | the jumping search returns the least matching whole minute strictly after the instant, and none if and only if no minute ever matches |
| CronSearch.MonthJump | internal/controlplane/scheduler/scheduler.go:417-421 | jumping to the next month passes over no match and goes forward |
| CronSearch.DayJump | internal/controlplane/scheduler/scheduler.go:422-426 | jumping to the next day passes over no match and goes forward |
| CronSearch.HourJump | internal/controlplane/scheduler/scheduler.go:427-431 | jumping to the next hour passes over no match and goes forward |
| CronSearch.StepKeepsBudget | internal/controlplane/scheduler/scheduler.go:406-434 | after the first day, each day that does not match costs at most one iteration |
| CronSearch.MatchRecurs | internal/controlplane/scheduler/scheduler.go:406-436 | a match anywhere recurs within 400 years after any minute |
| CronSearch.BudgetSuffices | internal/controlplane/scheduler/scheduler.go:406-436 | when the iterations are used up, nothing ever matches |
| CronSearch.AtOrAfterIff | internal/controlplane/scheduler/scheduler.go:394-404 | the least match strictly after an instant is the least one at or after it if and only if the instant is not itself a matching minute |
| Scheduler.NextRun | internal/controlplane/scheduler/scheduler.go:397-436 | the meaning of the next run: an error for an expression that does not parse or never matches, else the least match after the instant |
| Scheduler.NextCronTime | internal/controlplane/scheduler/scheduler.go:397-436 | parser and search together compute exactly that meaning, for every text and instant |
| CronDays.NextRunAtOrAfterIff | internal/controlplane/scheduler/scheduler.go:394-404 | a computed next run is the first at or after the instant, as documented, if and only if the instant is not itself a matching minute |
| CronDays.NextMinuteNotThisOne | internal/controlplane/scheduler/scheduler.go:394-404 | every minute, asked at instant 0, which matches, gives minute 1 |
| CronDays.DayRulesAgreeIff | internal/controlplane/scheduler/scheduler.go:409-426 | on a day the code agrees with the standard's crontab rule if and only if the weekday is an asterisk, or month and day of month are, or date and weekday both hold the day or neither does |
| CronDays.WithinMonthsAgreeIff | internal/controlplane/scheduler/scheduler.go:409-426 | the code differs from the either-day rule within the months held if and only if both day fields are restricted, the month is held and exactly one of them holds the day |
| CronDays.ExpressionAgreesIff | internal/controlplane/scheduler/scheduler.go:301-426 | the equivalence with the standard's rule for every expression that parses, with the asterisks in its text, and every day |
| CronDays.FirstButNotFriday | internal/controlplane/scheduler/scheduler.go:409-426 | the first of a month or Fridays: an expression and a day that the standard matches and the code does not |
| CronRuns.WeeklyRun | internal/controlplane/scheduler/scheduler.go:301-436 | the text of an expression for one weekday, hour and minute runs next at the one such minute within seven days |
| CronRuns.FridayAtNine | internal/controlplane/scheduler/scheduler.go:301-436 | nine o'clock on Fridays, asked on the Monday that the calendar begins with, is four days and nine hours later |
| CronRuns.YearlyRun | internal/controlplane/scheduler/scheduler.go:301-436 | the text of an expression for one date and time runs next in the first year that has the date after the instant, and never if and only if no year has it |
| Scheduler.Scheduler.ScheduleSync | internal/controlplane/scheduler/scheduler.go:123-168 | registers the sync with its next run, or leaves the registry alone when the expression has none |
| Scheduler.Scheduler.LoadFromRepo | internal/controlplane/scheduler/scheduler.go:251-293 | loads the active records with a computable next run, later ones over earlier ones |
| Scheduler.Scheduler.FireDueSyncs | internal/controlplane/scheduler/scheduler.go:201-248 | whatever the map order, exactly the due syncs whose start succeeds fire and get a new next run; the others are unchanged |
| Scheduler.NextRunFollowsBase | internal/controlplane/scheduler/scheduler.go:201-248 | over any run the next run is the first match since it was last computed, and computing it never fails again |
| Scheduler.DueWhenAMinuteMatched | internal/controlplane/scheduler/scheduler.go:201-248 | a sync is due at a tick if and only if a matching minute came since its next run was last computed |
| Scheduler.NoMinuteFiresTwice | internal/controlplane/scheduler/scheduler.go:201-248 | over any run with failing starts there are never more firings than matching minutes: missed ones collapse |
| Scheduler.EveryMinuteFiresOnce | internal/controlplane/scheduler/scheduler.go:201-248 | with ticks at most a minute apart and starts that succeed, firings are exactly the matching minutes |
| Scheduler.LastRunIsLastFiring | internal/controlplane/scheduler/scheduler.go:201-248 | over any run the last run is the instant of the last firing, and nothing but last and next run changes |
| Scheduler.LoadedIff | internal/controlplane/scheduler/scheduler.go:251-293 | a sync is registered by its last active record with an expression that runs, and otherwise stays as it was |
| EditDistance.LevenshteinDistance | internal/mapping/auto/automapper.go:216-266 | the two-row loop with swapped arguments computes the recursive edit distance |
| EditDistance.NoShorterChain | internal/mapping/auto/automapper.go:216-266 | no sequence of single-character edits between two texts is shorter than the distance |
| EditDistance.ShortestChain | internal/mapping/auto/automapper.go:216-266 | a sequence of exactly that many edits exists |
| EditDistance.DistanceIsSymmetric | internal/mapping/auto/automapper.go:216-266 | the argument swap is harmless |
| EditDistance.DistanceBounds | internal/mapping/auto/automapper.go:216-266 | the distance is between the difference of the lengths and the longer length |
| EditDistance.DistanceZero | internal/mapping/auto/automapper.go:216-266 | zero if and only if the texts are equal |
| EditDistance.TriangleInequality | internal/mapping/auto/automapper.go:216-266 | the distance is a metric |
| EditDistance.NameSimilarity | internal/mapping/auto/automapper.go:177-196 | in [0, 1], and 1 if and only if the names normalise alike |
| EditDistance.SimilarityBounds | internal/mapping/auto/automapper.go:177-196 | the similarity is bounded and symmetric although characters are divided by bytes |
| EditDistance.CharacterCounts | internal/mapping/auto/automapper.go:199-213 | underscores, hyphens, dots and spaces do not count wherever they stand in a name, and other characters count by their lower case |
| EditDistance.StylesAreAlike | internal/mapping/auto/automapper.go:177-213 | concrete names in different styles are fully similar |
| EditDistance.BytesAreTheLength | internal/mapping/auto/automapper.go:177-196 | one edit between names of one character, the longer of two bytes, leaves a similarity of one half |
| EditDistance.WidthsOfCharacters | internal/mapping/auto/automapper.go:189-195 | the first and last characters of each length in bytes are those of UTF-8 (RFC 3629, section 3) |
| EditDistance.NothingLeft | internal/mapping/auto/automapper.go:184-186 | a name of which nothing is left is not similar to any other |
| FieldMatching.ScorePairs | internal/mapping/auto/automapper.go:119-129 | lists every pair that reaches the minimum score once, and no other pair |
| FieldMatching.SortDescending | internal/mapping/auto/automapper.go:131-134 | a reordering of the pairs in descending order of score |
| FieldMatching.MatchFields | internal/mapping/auto/automapper.go:114-166 | the mappings render the greedy choice from some descending order of all candidates, and take source fields to destination fields |
| FieldMatching.GreedyIsOneToOne | internal/mapping/auto/automapper.go:136-166 | no field is used twice, and only listed pairs with unused fields are chosen |
| FieldMatching.GreedyIsStable | internal/mapping/auto/automapper.go:136-166 | a pair passed over shares a field with a chosen pair scoring at least as high |
| FieldMatching.GreedyIsHalfOptimal | internal/mapping/auto/automapper.go:136-166 | the choice is worth at least half of any one-to-one assignment of the pairs |
| FieldMatching.MatchFieldsGuarantees | internal/mapping/auto/automapper.go:114-166 | for any tie order the choice is one-to-one, maximal, stable and at least half optimal among all candidates |
| FieldMatching.HalfIsTight | internal/mapping/auto/automapper.go:114-166 | one half cannot be improved: for concrete fields and a mapper that goes by types, an outcome is worth exactly half of another assignment of candidates |
| FieldMatching.MappingsTakeSourceToDest | internal/mapping/auto/automapper.go:114-166 | each mapping takes the path of a source field to that of a destination field, with the score rounded to cents and the transform to the destination's type, and distinct paths are used once |
| FieldMatching.ScoreByWeight | internal/mapping/auto/automapper.go:169-173 | each weight counts its own similarity, and full similarity counts the whole weight |
| FieldMatching.TypesByCompatibility | internal/mapping/auto/automapper.go:270-292 | for each compatibility, just the pairs of types that have it; any type is better turned into a string than made from one |
| ExprLexer.Tokenize | internal/mapping/expression/engine.go:96-186 | the scanning loop yields the tokens of the lexical specification or fails with it |
| ExprLexer.LexRender | internal/mapping/expression/engine.go:96-186 | scanning rendered tokens gives the tokens back, signs before numbers included |
| ExprLexer.FirstOfText | internal/mapping/expression/engine.go:96-186 | in every context a token's text is scanned as that token if and only if the text after it does not run on with it |
| ExprLexer.LexSpread | internal/mapping/expression/engine.go:96-186 | tokens with any white space, or none, around them are scanned back if and only if none runs on into the text after it |
| ExprParser.Parser.ParseExpression | internal/mapping/expression/engine.go:212-259 | the sum loop agrees with the grammar in value and in position |
| ExprParser.Parser.ParseTerm | internal/mapping/expression/engine.go:262-294 | the product loop agrees with the grammar in value and in position |
| ExprParser.Parser.ParseUnary | internal/mapping/expression/engine.go:297-311 | negation agrees with the grammar |
| ExprParser.Parser.ParsePrimary | internal/mapping/expression/engine.go:314-396 | literals, fields and groups agree with the grammar |
| ExprParser.Parser.ParseWord | internal/mapping/expression/engine.go:334-380 | calls with their argument lists and reserved words agree with the grammar |
| ExprParser.ResolveField | internal/mapping/expression/engine.go:399-413 | walks a dotted path through nested maps, null where it leads nowhere |
| ExprParser.Evaluate | internal/mapping/expression/engine.go:55-70 | trimming, scanning and parsing compose to the specified evaluation |
| ExprRoundTrip.TreeReads | internal/mapping/expression/engine.go:212-396 | wherever a tree's tokens stand, parsing them at a level reads the tree's denotation and stops behind them |
| ExprRoundTrip.ParsePrinted | internal/mapping/expression/engine.go:212-396 | parsing a tree's tokens gives its denotation and stops exactly at the end marker |
| ExprRoundTrip.TokensPrintable | internal/mapping/expression/engine.go:96-186 | each token of any writable tree is one the scanner can produce after the token before it |
| ExprRoundTrip.EvaluatePrinted | internal/mapping/expression/engine.go:55-396 | evaluating a tree printed with the parentheses its precedence needs gives what the tree denotes, an error for none |
| ExprRoundTrip.EvaluateSpread | internal/mapping/expression/engine.go:55-396 | the same for the tokens with any white space between and around them, or none where they do not run together |
| ExprSoundness.LexIsCanonical | internal/mapping/expression/engine.go:96-186 | scanned punctuation tokens carry no text that could tell them apart |
| ExprSoundness.ExprSound | internal/mapping/expression/engine.go:212-396 | whatever the parser accepts is the printed form of some tree with the value it returned |
| ExprSoundness.ExprStops | internal/mapping/expression/engine.go:212-294 | where a parse ends, no operator follows |
| ExprSoundness.EvaluateSound | internal/mapping/expression/engine.go:55-70 | a successful evaluation is the denotation of a tree that the text starts with |
| ExprSoundness.EvaluateComplete | internal/mapping/expression/engine.go:55-70 | the denotation of any tree that the text starts with, up to a point where no operator follows, is the evaluation |
| ExprSoundness.WholeIff | internal/mapping/expression/engine.go:55-70 | a text that evaluates is a whole expression if and only if the end marker follows the tree it starts with |
| ExprSoundness.TrailingTokenIgnored | internal/mapping/expression/engine.go:64-69 | "1 2" evaluates to what "1" does |
| ExprMeaning.IntegersAreComputed | internal/mapping/expression/engine.go:55-311 | the text of any tree of whole numbers, true, false and null with the four operators evaluates to its value by a separate recursion, and to an error on division by zero |
| ExprMeaning.TenLessEightLessOne | internal/mapping/expression/engine.go:212-294 | "10 - 4 * 2 - 1" evaluates to 1 |
| ExprMeaning.TextsAreJoined | internal/mapping/expression/engine.go:212-245 | the text of a sum that begins with a text evaluates to its pieces in order, joined |
| ExprMeaning.OperandsAreConverted | internal/mapping/expression/engine.go:212-294 | between the values of two fields, plus joins texts, the operators take numbers, texts that read as numbers are converted, and lists and objects are errors |
| ExprMeaning.PathsAreFollowed | internal/mapping/expression/engine.go:399-413 | a path evaluates to the value that its names lead to through nested objects, and to null if they lead nowhere |
| ExprMeaning.CallGetsArguments | internal/mapping/expression/engine.go:334-380 | a call gets its arguments in the order in which they are written, and a name without a function is an error |
| ExprMeaning.WordsStandForValues | internal/mapping/expression/engine.go:334-380 | the texts true, false, null and nil evaluate to their values |
| MessageBatching.MessageHandler.FlushBatchLocked | internal/connector/protocol/handler.go:177-191 | empties the buffer, stops the timer and gives the batch to hand over |
| MessageBatching.MessageHandler.HandleRecord | internal/connector/protocol/handler.go:194-223 | buffers, cuts a full batch or arms the timer; a missing record only counts as an error |
| MessageBatching.MessageHandler.ProcessChannel | internal/connector/protocol/handler.go:159-168 | batches then buffer are what was buffered and the records up to the first error; batches are full but for the last of a clean end, which flushes |
| MessageBatching.NextKeepsOrder | internal/connector/protocol/handler.go:156-224 | no critical section loses, doubles or reorders a record |
| MessageBatching.NextKeepsTimed | internal/connector/protocol/handler.go:177-224 | at most one timer is armed, just while records wait, and stale callbacks do no harm |
| MessageBatching.RunsKeepInv | internal/connector/protocol/handler.go:156-224 | over all interleavings of routing, manual flushes and timers, batches as cut then buffer are the arrivals, batches hold 1 to batchSize records and each is handed over once |
| MessageBatching.PendingCallbackEmptiesBuffer | internal/connector/protocol/handler.go:177-224 | with a timeout, waiting records always have a timer callback to come, and it takes them all |
| MessageBatching.CleanCloseDeliversAll | internal/connector/protocol/handler.go:159-191 | after a final flush every record that arrived is in a batch |
| MessageBatching.WhatRunsKeep | internal/connector/protocol/handler.go:156-224 | over all interleavings, outright: batches then buffer are the records routed, batches hold 1 to batchSize, each is handed over once, records and messages without one are counted, and without batching all records are passed on |
| MessageBatching.RoutingCutsFullBatches | internal/connector/protocol/handler.go:194-223 | over all interleavings, routing a record cuts a batch if and only if it fills the buffer, and the batch has batchSize records |
| MessageBatching.OnlyFlushesCutShort | internal/connector/protocol/handler.go:156-224 | there are never more short batches than manual flushes and timer callbacks |
| MessageBatching.RoutedAlone | internal/connector/protocol/handler.go:194-223 | any records can be routed one after the other |
| TokenBucket.TokenBucket.Allow | internal/api/middleware/ratelimit.go:36-52 | refills, takes a token if there is one, and otherwise tells the wait |
| TokenBucket.RateLimiterStore.GetBucket | internal/api/middleware/ratelimit.go:70-79 | the key's bucket, or a full new one that is then the key's |
| TokenBucket.RateLimiterStore.Cleanup | internal/api/middleware/ratelimit.go:82-97 | an undisturbed sweep deletes exactly the buckets idle for over ten minutes |
| TokenBucket.LevelGrows | internal/api/middleware/ratelimit.go:40-43 | between two instants tokens grow, by no more than the refill |
| TokenBucket.IdleIsFull | internal/api/middleware/ratelimit.go:82-97 | a bucket left alone for ten minutes is full |
| TokenBucket.RetryAfterIsExact | internal/api/middleware/ratelimit.go:36-52 | a rejected caller with the bucket to itself is allowed at an instant if and only if retryAfter has passed |
| TokenBucket.RetrySecondsSuffice | internal/api/middleware/ratelimit.go:120-125 | waiting for the whole seconds of the Retry-After header is enough |
| TokenBucket.RetrySecondsAreLeast | internal/api/middleware/ratelimit.go:120-125 | the header announces the least whole number of seconds that is no shorter than the wait, one at least |
| TokenBucket.NewBucketServes | internal/api/middleware/ratelimit.go:20-52 | a new bucket serves exactly the limit per minute at once, and then tells to wait for one token's share of a minute |
| TokenBucket.EmptyBucketServes | internal/api/middleware/ratelimit.go:36-52 | an empty bucket left alone for up to a minute serves exactly that share of the limit |
| TokenStore.IdleDeletionIsQuiet | internal/api/middleware/ratelimit.go:82-97 | deleting a bucket still idle for ten minutes that nobody holds is quiet: the bucket is full and no caller is between getBucket and allow |
| TokenStore.NextIsSound | internal/api/middleware/ratelimit.go:36-97 | steps whose deletions are quiet keep held buckets in the map and tokens between 0 and the maximum |
| TokenStore.DeletionIsTransparent | internal/api/middleware/ratelimit.go:36-97 | over any run with quiet deletions every call is answered as by a store that never deletes |
| TokenStore.NoisyIsSeen | internal/api/middleware/ratelimit.go:36-97 | after a deletion that is not quiet, some calls are answered differently from a store that never deletes |
| TokenStore.DeletionUnseenIffQuiet | internal/api/middleware/ratelimit.go:82-97 | a deletion is quiet if and only if no continuation with quiet deletions answers any call differently from a store that never deletes |
| TokenStore.PassedIsPaid | internal/api/middleware/ratelimit.go:36-97 | calls let through are paid for by the tokens at the start and the refill since |
| TokenStore.RateBound | internal/api/middleware/ratelimit.go:36-97 | over any run with quiet deletions a key is let through at most rpm + rpm * (b - a) / 60 times from any instant a to any later b |
| TokenStore.LastFull | internal/api/middleware/ratelimit.go:36-97 | since an instant at which a bucket was full, the calls let through are exactly what was there and refilled, less what is left |
| TokenStore.NoisyBreaksBound | internal/api/middleware/ratelimit.go:36-97 | after a deletion that is not quiet, some calls take the key over the bound, counted from an instant at which its bucket was full |
| TokenStore.BoundedIffQuiet | internal/api/middleware/ratelimit.go:36-97 | a deletion is quiet if and only if every continuation with quiet deletions keeps every key within the bound in every stretch of time |
| TokenStore.DeletionUnderACaller | internal/api/middleware/ratelimit.go:70-97 | a run from the empty store, one request a minute allowed, in which a deletion under a caller lets two calls through at once |
| FixedWindow.RateLimiter.Allow | internal/mcp/security/auth.go:223-243 | counts the call in the agent's live window or opens one, and says whether it is within the limit |
| FixedWindow.RateLimiter.Cleanup | internal/mcp/security/auth.go:254-263 | removes exactly the windows at least two intervals old |
| FixedWindow.CleanupIsTransparent | internal/mcp/security/auth.go:254-263 | taking all cleanups out of a run changes the answer to no call |
| FixedWindow.StepUsesQuota | internal/mcp/security/auth.go:223-263 | each call let through uses up what its interval can still let through |
| FixedWindow.WindowBound | internal/mcp/security/auth.go:223-243 | in any half-open stretch of one interval at most 2 * limit - 1 calls of an agent pass, one if the limit is not positive |
| FixedWindow.WindowBoundIsTight | internal/mcp/security/auth.go:223-243 | for every limit, positive or not, a run reaches the bound |
| AuditLog.AuditLogger.Log | internal/security/audit/audit.go:110-134 | appends the event with missing fields filled in and tells when a batch is reached |
| AuditLog.StampedOnce | internal/security/audit/audit.go:110-134 | what an event says of itself stays, what is missing is filled in, and stamping again changes nothing |
| AuditLog.AuditLogger.PutBack | internal/security/audit/audit.go:186-198 | puts unwritten events before newer ones and keeps only the latest ten batches |
| AuditLog.AuditLogger.Flush | internal/security/audit/audit.go:173-200 | undisturbed, stores all buffered events in order, or keeps them when the write fails |
| AuditLog.LoggedIsAccountedFor | internal/security/audit/audit.go:110-199 | over all interleavings, logged events are those stored, in flight, buffered and dropped, each once |
| AuditLog.DropsOnlyOverflow | internal/security/audit/audit.go:186-198 | a step drops events if and only if it is a failed write that leaves over ten batches; ten then remain |
| AuditLog.NothingDroppedWithinCapacity | internal/security/audit/audit.go:186-198 | while no more than ten batches are unsaved, failing writes lose nothing |
| AuditLog.OneFlushKeepsOrder | internal/security/audit/audit.go:110-199 | with one flush at a time, stored events keep log order, dropped ones were the oldest unsaved, the rest wait in order |
| AuditLog.CloseSettlesEverything | internal/security/audit/audit.go:149-154 | after a run with one flush at a time, a last flush that succeeds leaves nothing buffered or in flight; what was not dropped is stored, in log order |
| AuditLog.OverlapReorders | internal/security/audit/audit.go:173-200 | from any state reached with one flush at a time, a flush begun while another is in flight can store later events before earlier ones |
| AuditLog.OrderKeptIffNoOverlap | internal/security/audit/audit.go:173-200 | beginning a flush keeps log order, however the run goes on one flush at a time, if and only if none is in flight or there is nothing to flush |
| AuditLog.TwoFlushesReorder | internal/security/audit/audit.go:173-200 | the shortest run that stores two events in the wrong order |
| AuditLog.InMemoryAuditStore.QueryEvents | internal/security/audit/audit.go:223-250 | the requested page of the matching events, latest first |
| AuditLog.PagesJoin | internal/security/audit/audit.go:235-250 | reading on where a page ended skips and repeats nothing |
| AuditLog.PageWithoutBounds | internal/security/audit/audit.go:235-250 | a limit or offset that is not positive bounds nothing |
| AuditLog.FoundOfSum | internal/security/audit/audit.go:226-233 | later events come first, and an event is found if and only if it matches |
| AuditLog.EverythingIsFound | internal/security/audit/audit.go:223-233 | a filter that asks for nothing finds all events, latest first |
| AuditLog.OwnersNarrow | internal/security/audit/audit.go:262-286 | asking for a tenant, user or action keeps just the events that have it, in order |
| AuditLog.ResourcesNarrow | internal/security/audit/audit.go:262-286 | so does asking for a resource type or resource |
| AuditLog.TimesNarrow | internal/security/audit/audit.go:262-286 | so do the bounds of time, which are included |
| SyncOrchestrator.Orchestrator.CheckSignals | internal/orchestration/workflows/sync_orchestrator.go:183-193 | stops when cancelled, blocks in the paused phase when paused, else goes on |
| SyncOrchestrator.Orchestrator.Wake | internal/orchestration/workflows/sync_orchestrator.go:193-207 | after a resume, stops if cancelled meanwhile, else restores the phase |
| SyncOrchestrator.Orchestrator.ExtractReturned | internal/orchestration/workflows/sync_orchestrator.go:59-72 | keeps the extraction's counts and goes on to the next check |
| SyncOrchestrator.Orchestrator.TransformReturned | internal/orchestration/workflows/sync_orchestrator.go:76-92 | keeps the transformation's counts and errors and goes on to the next check |
| SyncOrchestrator.Orchestrator.LoadReturned | internal/orchestration/workflows/sync_orchestrator.go:96-124 | completes the run and issues its record |
| SyncOrchestrator.Orchestrator.ChildError | internal/orchestration/workflows/sync_orchestrator.go:60-107 | fails the run and issues its record with the counts so far |
| SyncOrchestrator.NextKeepsInv | internal/orchestration/workflows/sync_orchestrator.go:23-207 | every step extends the history to the one that belongs to the place it leads to |
| SyncOrchestrator.HistoryIsTrace | internal/orchestration/workflows/sync_orchestrator.go:23-207 | over every run and signal order, what was started, recorded, alerted and returned is the one history for the current place, and the phase fits it |
| SyncOrchestrator.PhasesInOrder | internal/orchestration/workflows/sync_orchestrator.go:57-110 | a phase starts once, after all earlier ones started and succeeded and nothing else happened |
| SyncOrchestrator.RecordedOnce | internal/orchestration/workflows/sync_orchestrator.go:59-130 | the run record is issued once on completed and failed runs and never otherwise |
| SyncOrchestrator.TerminalIsFinal | internal/orchestration/workflows/sync_orchestrator.go:23-207 | completed, failed and cancelled are never left |
| SyncOrchestrator.CancelStopsPhases | internal/orchestration/workflows/sync_orchestrator.go:183-207 | once a cancel is applied before a check, no further phase ever starts |
| SyncOrchestrator.NoChildWhilePaused | internal/orchestration/workflows/sync_orchestrator.go:183-207 | paused if and only if blocked, no child then, and no child starts while a pause or cancel is requested |
| SyncOrchestrator.PauseRestoresPhase | internal/orchestration/workflows/sync_orchestrator.go:189-204 | a pause ends, after any signals, in the exact phase it began in, or in cancellation |
| SyncOrchestrator.SignalsAreTakenUp | internal/orchestration/workflows/sync_orchestrator.go:158-207 | signals are taken up at any time but between a check and its child, and change nothing else at once |
| SyncOrchestrator.SignalsTakeEffect | internal/orchestration/workflows/sync_orchestrator.go:158-207 | a pause blocks the run at its next check, one taken back does not, and a cancel ends it, also after a pause |
| SyncOrchestrator.ModifyHasNoEffect | internal/orchestration/workflows/sync_orchestrator.go:170-178 | taking modify signals out of a run changes nothing else |
| SyncOrchestrator.ResultsAreAnswers | internal/orchestration/workflows/sync_orchestrator.go:53-139 | over every run and signal order, the result of a complete run is what the three children answered, that of a failed one its error alone, that of a cancelled one what was extracted with its checkpoint |
| SyncOrchestrator.FailuresAreRecorded | internal/orchestration/workflows/sync_orchestrator.go:59-107 | the record of a failed run counts what the phases before did, and the alert names the phase |
| SyncOrchestrator.CancelTellsWhy | internal/orchestration/workflows/sync_orchestrator.go:183-207 | a cancelled run returns the reason of the cancel, and whether it was paused |
| SyncOrchestrator.CleanRun | internal/orchestration/workflows/sync_orchestrator.go:23-139 | a run without signals and failures, whatever the children answer, has this one history |
| FieldRenaming.RenameFields | internal/orchestration/activities/transform_activities.go:52-72 | the renamed record does not depend on the order in which fields are visited |
| FieldRenaming.MovedIff | internal/orchestration/activities/transform_activities.go:52-58 | under a one-to-one mapping a destination holds the source's value, and is absent if and only if the source is |
| FieldRenaming.InverseRestores | internal/orchestration/activities/transform_activities.go:52-72 | mapping and inverse mapping restore a record if and only if no unmapped field has the name of a destination |
| FieldRenaming.RenamedField | internal/orchestration/activities/transform_activities.go:52-72 | under any mapping a name holds the field that the last mapping moves there, else the record's own unmapped field |
| Coercion.CoercionIsIdempotent | internal/orchestration/activities/transform_activities.go:192-312 | coercing a coerced value again, after it was written and read back, changes nothing if and only if a timestamp is in its written form and an integer comes back from the float it is read as |
| Coercion.SmallIntegersSurvive | internal/orchestration/activities/transform_activities.go:227-251 | every integer up to 2^53 comes back |
| Coercion.LargeIntegerChanges | internal/orchestration/activities/transform_activities.go:227-251 | the text of 2^53 + 1 becomes that integer, and 2^53 the second time |
| Coercion.FlagsConvert | internal/orchestration/activities/transform_activities.go:192-284 | flags as texts, integers and floats |
| Coercion.FlagsComeBack | internal/orchestration/activities/transform_activities.go:192-284 | a flag converted to a text, integer or float and then to a bool is the flag again |
| Coercion.WholeNumbersComeBack | internal/orchestration/activities/transform_activities.go:192-269 | a whole number comes back from its text |
| Coercion.FractionsComeBack | internal/orchestration/activities/transform_activities.go:192-269 | so does a number with a fraction |
| Coercion.NumbersConvert | internal/orchestration/activities/transform_activities.go:192-284 | a number is true if and only if it is not zero, and becomes the integer next to it towards zero, as does a text that reads as a float only |
| Coercion.TextsConvert | internal/orchestration/activities/transform_activities.go:192-312 | a text becomes what it reads as, or is an error |
| Coercion.NullIsEmpty | internal/orchestration/activities/transform_activities.go:192-312 | null becomes the empty or zero value of each target |
| Coercion.OnlyWrittenOut | internal/orchestration/activities/transform_activities.go:192-312 | lists and objects become texts and nothing else |
| Coercion.NumbersAsTimes | internal/orchestration/activities/transform_activities.go:286-312 | a number is a time in whole seconds |
| Coercion.UnknownChangesNothing | internal/orchestration/activities/transform_activities.go:192-207 | a type that is not known changes nothing |
| Coercion.BuildCoercions | internal/orchestration/activities/transform_activities.go:123-135 | the conversion table of a stream, later mappings over earlier ones |
| Coercion.CoercionsAskedFor | internal/orchestration/workflows/transform.go:51-65 | a stream has conversions if and only if one of its mappings asks for one |
| Coercion.LastMappingDecides | internal/orchestration/activities/transform_activities.go:123-135 | a field is converted to what its last mapping that asks for a conversion says |
| Coercion.CoerceFields | internal/orchestration/activities/transform_activities.go:150-162 | in any field order the record comes out the same, and each failing field is reported once and kept |
| Coercion.FieldsAfter | internal/orchestration/activities/transform_activities.go:150-162 | the record keeps its fields; unasked, null and failing ones keep their values, all others have the converted one |
| Coercion.ActiveIsTrue | internal/orchestration/activities/transform_activities.go:116-188 | the numbers 1 and 0 in a field mapped to a bool become true and false |
| Transform.MapFields | internal/orchestration/activities/transform_activities.go:32-98 | the records that can be read and written, renamed, in order; the others are reported |
| Transform.CoerceTypes | internal/orchestration/activities/transform_activities.go:116-188 | the records that can be read and written, converted, in order; the others and bad fields are reported |
| Transform.NavigateFieldPath | internal/orchestration/activities/transform_activities.go:408-422 | the value at a nested path, null where there is none |
| Transform.ExtractPrimaryKey | internal/orchestration/activities/transform_activities.go:391-404 | the joined key fields, or nothing for unreadable data |
| Transform.Deduplicate | internal/orchestration/activities/transform_activities.go:329-386 | keeps the records that are new, and input is output plus duplicates |
| Transform.DedupKeepsFirst | internal/orchestration/activities/transform_activities.go:345-376 | of each stream and key exactly the first record is kept, and all records without a key, in order |
| Transform.DedupIsIdempotent | internal/orchestration/activities/transform_activities.go:345-376 | deduplicating again changes nothing |
| Transform.SameKeys | internal/orchestration/activities/transform_activities.go:345-376 | no key disappears |
| Transform.TransformWorkflow | internal/orchestration/workflows/transform.go:15-105 | the three steps compose, and input less output less dropped is at most the number of errors |
| Transform.NoCoercion | internal/orchestration/workflows/transform.go:51-76 | skipping the conversion step when no mapping asks for one loses nothing |
| Transform.TransformKeepsOrder | internal/orchestration/workflows/transform.go:34-105 | the output is an order-preserving image, record by record renamed then converted, of a subsequence of the input |
| Transform.OnlyDataChanges | internal/orchestration/activities/transform_activities.go:80-85 | a stage changes a record's data and nothing else |
| Transform.StageData | internal/orchestration/activities/transform_activities.go:32-188 | a record that comes out of a stage has its own fields, renamed or converted by the mappings of its stream |
| Transform.LossIsReported | internal/orchestration/activities/transform_activities.go:32-188 | a record does not come out if and only if its loss is reported by its place, and a field is reported if and only if it cannot be converted |
| Transform.KeyOfStream | internal/orchestration/activities/transform_activities.go:329-345 | the key configured for the sync comes before the stream's own, and the last configuration that has one decides |
| Strings.JoinUnambiguous | internal/orchestration/activities/transform_activities.go:403-403 | two or more parts are the only ones of their number with their joined text if and only if none holds the separator |
| CompositeKeys.TextsAreExact | internal/orchestration/activities/transform_activities.go:391-404 | no other texts of their number join to the same key if and only if there is one or none holds a bar |
| CompositeKeys.KeyIsExact | internal/orchestration/activities/transform_activities.go:391-404 | a record's key determines what its key fields hold if and only if all are there and hold strings, each written like no value of another kind, and there is one or none holds a bar |
| CompositeKeys.SameKeyIff | internal/orchestration/activities/transform_activities.go:391-404 | a record with such a key and any other record have the same key if and only if stream and values of the key fields agree |
| CompositeKeys.DroppedIffDuplicate | internal/orchestration/activities/transform_activities.go:350-376 | a record with such a key is dropped if and only if an earlier record of the stream holds the same values in all key fields |
| CompositeKeys.InexactKeyCollides | internal/orchestration/activities/transform_activities.go:345-404 | for any other key there are contents of the key fields whose records are dropped after it although they are no duplicates |
| CompositeKeys.LackingRecordsCollide | internal/orchestration/activities/transform_activities.go:345-404 | records that lack the same key fields and agree in the others share a key, and only the first is kept |
| CompositeKeys.NumberAndTextCollide | internal/orchestration/activities/transform_activities.go:345-404 | of a record with the number 1 as its id and one with the string 1 the second is dropped |
| CompositeKeys.LackingTheFieldCollides | internal/orchestration/activities/transform_activities.go:345-404 | of any two records without the only key field the second is dropped |
| CompositeKeys.BarsCollide | internal/orchestration/activities/transform_activities.go:345-404 | a concrete pair of different string keys with bars of which the second is dropped |
| TenantClients.TemporalClient.Store | internal/orchestration/client.go:289-299 | the first client stored for a tenant stays, and is the one to return |
| TenantClients.TemporalClient.ClientForTenant | internal/orchestration/client.go:269-300 | a call undisturbed by others returns the client then cached, keeps all clients cached before, and fails only when the tenant has none and dialing fails |
| TenantClients.CacheIsKept | internal/orchestration/client.go:272-299 | whatever calls come later, a tenant that has a client keeps it: every later lookup finds the same one |
| TenantClients.RunKeepsInv | internal/orchestration/client.go:269-300 | over all interleavings no client is in two places, none is lost, and what is returned is what is cached |
| TenantClients.OneClientPerTenant | internal/orchestration/client.go:269-300 | all successful calls for a tenant return the same client, however far apart, and it is never closed |
| TenantClients.EachClientOnce | internal/orchestration/client.go:269-300 | each dialed client is cached, held by exactly one call in progress, or closed exactly once, and only one of these |
| TenantClients.NothingLeaks | internal/orchestration/client.go:269-300 | with no call in progress, a dialed client is cached if and only if it was not closed |
| LoadSplit.DeterminePartitions | internal/orchestration/activities/extract_activities.go:177-228 | the partitions of the estimate, or of the discovered streams when there is none |
| LoadSplit.PartitionsTile | internal/orchestration/activities/extract_activities.go:197-220 | one to eight contiguous ranges from 0 to the total, none smaller than a batch unless alone |
| LoadSplit.EachPositionOnce | internal/orchestration/activities/extract_activities.go:197-220 | every record position is in exactly one partition |
| LoadSplit.PartitionsAreEven | internal/orchestration/activities/extract_activities.go:197-220 | there are as many partitions of 1000 records as fit, one to eight; all before the last are of one size, and the last has fewer than their number more |
| LoadSplit.SplitIntoBatches | internal/orchestration/workflows/load.go:115-132 | the slicing loop cuts the batches of the specification |
| LoadSplit.BatchesCover | internal/orchestration/workflows/load.go:115-132 | batches concatenate to the records, hold 1 to batchSize each, and all but the last are full |
| LoadSplit.ConfirmWrite | internal/orchestration/activities/load_activities.go:104-160 | confirmed if and only if the destination is healthy, the counts agree and no batch reported an error |
| LoadSplit.LoadWorkflow | internal/orchestration/workflows/load.go:17-112 | every batch is written once by its index; counts and errors are those of the outcomes and the confirmation, and no error means that all records were loaded |
| LoadSplit.WrittenAndFailed | internal/orchestration/workflows/load.go:56-70 | batches written and batches failed are all batches, and each failure is reported |
| LoadSplit.LoadIsHonest | internal/orchestration/workflows/load.go:42-112 | no error is reported if and only if every batch was written without complaint, all records were written and the destination is healthy |
| LoadSplit.BatchErrorsTwice | internal/orchestration/workflows/load.go:84-99 | with a healthy destination each batch error is reported twice as often as the batches reported it |
| LoadSplit.BatchErrorsAndOne | internal/orchestration/workflows/load.go:84-99 | with any other destination the errors are those of the batches and then one of the confirmation |
| LoadSplit.ReportedOnceIff | internal/orchestration/workflows/load.go:84-99 | each batch error is reported just as often as the batches reported it if and only if there is none or the destination is not healthy |
| LoadSplit.OutcomesOfSum | internal/orchestration/workflows/load.go:56-70 | counts and errors of outcomes are the sums of those of their parts, in order |
| LoadSplit.CleanLoad | internal/orchestration/workflows/load.go:17-112 | a load whose writes go well loads every record in all batches and reports nothing |
| LoadSplit.OneBatchFails | internal/orchestration/workflows/load.go:17-112 | a load in which one write fails loads all other records and reports the failure, the missing records and the failure again |
| Pagination.OffsetPaginator.NextPage | connectors/common/pagination.go:49-68 | first page, then on as long as the last page was full, by offset or by page number |
| Pagination.OnlyListsCount | connectors/common/pagination.go:86-99 | only a list under the results field counts |
| Pagination.StreamPages | connectors/common/http_client.go:418-450 | hands over the server's pages in order up to the first event that stops it, with one request per page, by offsets from zero or pages from one; of a bare array nothing, with one request |
| Pagination.PagesAreComplete | connectors/common/http_client.go:418-450 | the pages are all items in order, each once, in floor(n / pageSize) + 1 requests |
| Pagination.CompleteIff | connectors/common/pagination.go:86-99 | of a named list all items arrive if and only if the paginator has its name or one page is enough, of a bare array if and only if there are none; with an empty results field at most one page arrives |
| Strings.SplitJoin | internal/controlplane/scheduler/scheduler.go:327-338 | splitting joined parts gives the parts back |
| Strings.FieldsJoin | internal/controlplane/scheduler/scheduler.go:301-306 | cutting words joined by spaces gives the words back |
| Strings.AtoiDecimal | internal/controlplane/scheduler/scheduler.go:346-351 | reading a printed 64-bit number gives the number back |
| Strings.SignsAreRead | internal/controlplane/scheduler/scheduler.go:346-351 | a sign is read along, and a number beyond 64 bits is an error |
| Strings.SpaceCharacters | internal/controlplane/scheduler/scheduler.go:301-306 | words end at the twenty-five white-space characters of Unicode |

## Left out

- Connector API calls, OAuth, JWT, TLS, encryption, provisioning: network clients and cryptography in libraries that are not part of this model.
- REST and GraphQL handlers, the MCP gateway and tools, command line, metrics, tracing, logging, user interface, Python CDK: plumbing without invariants of this kind.
- JSON text: reading and writing are partial functions that may fail. A document that is `null` counts as one without fields.
- Floating point: scores, tokens, rates and coerced numbers are exact; the expression engine's floats are uninterpreted, as is its table of functions. Reading an integer back as a float is a function of the library; converting floats beyond 64 bits is left open.
- Go's integer types inside expression data, and integer widths elsewhere than in the cron step counter; with them the overflow in `splitIntoBatches` for batch sizes near the maximum.
- Temporal's retries, timeouts and durability: a child or activity returns a result or an error. That coroutines switch only at blocking calls is taken from Temporal.
- Progress after a pause: the resume channel is also read by the signal handler, so only safety is stated.
- Progress fractions, durations and timestamps of sync results, and the severities of alerts.
- Wall-clock reads: instants are parameters that do not decrease. Time zones other than UTC and daylight saving are out.
- The messages of errors: which error, for which record or batch, is kept.
- `SuggestMappings`, schema extraction and the choice of streams around `matchFields`; the order in which the sort leaves ties is arbitrary in the model.
- Routing of state, log, control and schema messages, and message decoding, in the protocol handler.
- The response headers of the rate limiter other than Retry-After, and the choice of its key.
- Glob and scope matching in the MCP security package; shutdown of the tenant clients.
- URL building and encoding, cursor and link paginators, `FetchAllPages`: `StreamPages` is modelled with the offset paginator, as new, and a server that answers every query.
- TokenStore.DeletionIsTransparent: holds for runs whose deletions are quiet, because otherwise it is false; DeletionUnseenIffQuiet gives the exact condition.
- TokenStore.RateBound: holds for runs whose deletions are quiet, because otherwise it is false; BoundedIffQuiet gives the exact condition.
- A limit of zero requests a minute, where nothing is ever let through, is the one exception to both conditions.
- FixedWindow.WindowBound: without a reset of the agent's window, which starts a new count.
- Pagination.StreamPages: for a positive page size, because with any other the loop never ends.
- Scheduler.Scheduler.FireDueSyncs: starting workflows is a set of syncs whose start succeeds; concurrent changes of the registry during a tick are not modelled.
- Registries, the template store, visual mapping, schema differences, the column buffer, the lifecycle manager and quota checks: each is a lookup, a comparison or a counter whose meaning is what its few lines say.
- Merged partition state and the checkpoint saved before the load: the code promises nothing about them that could be stated.
