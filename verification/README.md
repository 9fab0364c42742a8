# nfddos, verified

nfddos is a daemon that watches flow records for traffic over configured limits. This project models five parts of it
that carry state, and proves what each is for.

- **Configuration parser** (`ConfigTables`, `ConfigSyntax`, `ConfigReference`, `ConfigMeaning`, `ConfigDriver`).
  `ConfigTables` holds the packed LALR tables of `config.tab.c`, each a function on its index range, and unpacks them.
  `ConfigSyntax` gives the tokens, the statements of `config.y`, how each is spelled and what each does.
  `ConfigReference` reads token sequences statement by statement. `ConfigDriver` is the shift/reduce loop on its two
  stacks, with semantic actions that assign the fields of `Options` and reach for `$0` below their right-hand side.
  It returns, on every token sequence, what the reference reading gives: 0 exactly for the spelled configurations
  whose statements are all accepted, and in every other case 1 with the effects of the statements before the failure.
- **Action table** (`Actions`). Slots of pointers to running actions, START when a profile goes over its limit, STOP
  when it has not been over it for the delay. Commands are a log, and every reading of the clock is a parameter.
- **Flow queue** (`FlowQueue`, `QueueThreads`). Rotation of numbered files and extraction from them, as code on a
  directory and as steps of two threads of which one extracts without holding the lock.
- **Histogram counter** (`Histogram`). A ring of time slots updated in place, with cached totals and cached peaks.
- **Rule ids and rule statistics** (`RuleIds`, `RuleStatistics`). The cyclic id allocator and the count of active
  rules of the older daemon in `main.c`.

Where the code does not do what it is for, the model follows the code and the exact condition is proved.

- `action.c:232` tests for the last index where the search ends one past it. A new action put into the last slot is
  freed while its slot still points to it; once that has happened, with no free slot left, START is issued for actions
  no slot holds (`Actions.FirstFailureDangles`). An upsert does what it is for if and only if a slot below the last one
  is free (`Actions.UpsertMeetsIffRoom`), and the same condition at every upsert is equivalent to the table being right
  at every point of a run (`Actions.RunIsGood`).
- `config.y:110` stores the stop command as the start command; no configuration can change the stop command
  (`ConfigMeaning.StopCommandNeverSet`), and the start command is the one asked for unless another stop command comes
  after it (`ConfigMeaning.StartCommandIsLast`).
- `config.y:129` keeps a limit in bits per second as it is, `config.y:132` divides it by eight
  (`ConfigMeaning.FactorAgreesExcept`).
- `queue.c:29-34` leaves the top file alone when its source is missing, and files from before the start stay around
  until they are rotated out. Extraction yields exactly such files in addition to its windows
  (`FlowQueue.ExtractsWindows`); from an empty directory on, only a stale top file (`QueueThreads.ExtractionIsWindows`).
- `main.c:209` asks for an update that lies past the end of the window, which the update itself has just moved; the
  removal it guards is never issued (`RuleStatistics.RunCounts`).
- `main.c:75-78` reports an exhausted pool with a 0 that is also a valid id, so that two rules can share it
  (`RuleIds.TwoRulesShareZero`). Active rules have different ids throughout a run if and only if each new one finds a
  free id or no active rule with id 0 (`RuleIds.RunIsApart`).
- `histcounter.c:71-80` empties a slot only when its place is used again. After a gap in the traffic, slots that have
  dropped out of the window still count: the cached totals are those of the window if and only if no such slot holds
  anything (`Histogram.TotalIsWindowPlusStale`, `Histogram.CachedTotalsAreWindow`).
- `histcounter.c:108` adds each time stamp to `time`, which `histcounter.h` describes as the last one; `time` is left out.

## Model

| member | source | states |
|---|---|---|
| `ConfigTables.Decides` | config.tab.c:1408-1475 | In every state and for every lookahead the packed tables shift exactly along the unpacked automaton's edge, and take the default reduction (or error) otherwise. |
| `ConfigTables.GotoDefault` | config.tab.c:1658-1668 | No goto ever uses the packed table: the state after a reduction depends on the nonterminal alone. |
| `ConfigTables.NoErrorTransition` | config.tab.c:1774-1785 | No state can shift the error token. |
| `ConfigTables.StackDetermined` | config.tab.c:1323-1400 | Two state stacks that follow the automaton and have the same top are equal, and at most 13 high. |
| `ConfigTables.ReduceShape` | config.tab.c:1478-1670 | A reduction finds its whole right-hand side on the stack, continues from the parent of the state it enters, and lowers a rank that starts at 4 or less. |
| `ConfigTables.TreeFacts` | config.tab.c:661-671 | Every state has one level on the stack, at most 13, and a rank of at most 4, the bound on reductions before the next shift. |
| `ConfigReference.OptionSpelled` | config.y:100-112 | A recognised option statement is spelled out, token by token, where it was recognised. |
| `ConfigReference.OptionRecognised` | config.y:97-112 | Wherever an option statement is spelled and ended by a semicolon, exactly that one is recognised. |
| `ConfigReference.ParamRecognised` | config.y:122-135 | The same for the parameters of a profile. |
| `ConfigReference.ExecuteConfig` | config.y:89-135 | Executing the events of a configuration one by one has the effect its statements have, up to the first refusal. |
| `ConfigReference.SentenceRead` | config.y:89-135 | Reading the spelling of any configuration lists its statements in order, to the end. |
| `ConfigReference.CompleteIsSentence` | config.y:89-135 | Every token sequence that can be read to its end spells a configuration. |
| `ConfigReference.LanguageOfParser` | config.y:89-135 | Result 0 if and only if the tokens spell a configuration none of whose statements is refused; the settings are those the configuration means, however it is read. |
| `ConfigMeaning.LastDecides` | config.y:96-134 | The last statement with a value for a field decides; without one the old value stays. |
| `ConfigMeaning.MeaningIs` | config.y:89-135 | A configuration is accepted if and only if its input filters, profiles and parameters are, each on the settings the statements before it leave. Then every field has the value of its last statement or its old value, what the command line gave stays, and each profile is made of its own parameters, limits never given being 0. Otherwise the settings are those before the first refused statement, less the input filter it dropped. |
| `ConfigMeaning.FieldsOfParser` | config.y:89-135 | The same of the outcome of parsing: result 0 exactly for spelled configurations that are so accepted, with these settings. |
| `ConfigMeaning.NumberOptionsAsWritten` | config.y:101-111 | Each option with a number, written out token by token as the only one of a file, sets its own field and no other. |
| `ConfigMeaning.TextOptionsAsWritten` | config.y:102-110 | The same for the options with a text, the stop command setting the start command. |
| `ConfigMeaning.ParamsAsWritten` | config.y:126-134 | Each parameter, written out as the only one of a profile, sets its own field of that profile: bits per second bytes, packets pkts, flows flows. |
| `ConfigMeaning.ParametersStayHome` | config.y:118-134 | An accepted configuration adds exactly its profiles, in order, each built from the parameters between its own braces; a refused one changes no profile that was there before. |
| `ConfigMeaning.TreeBack` | config.y:89-135 | The configuration tree is recovered from the tokens it spells, up to empty rules. |
| `ConfigMeaning.SpellingDeterminesTree` | config.y:114-120 | Two trees with the same spelling differ in empty rules only. |
| `ConfigMeaning.StopCommandNeverSet` | config.y:109-110 | No configuration changes the stop command; setting it is setting the start command. |
| `ConfigMeaning.StartCommandIsLast` | config.y:109-110 | The start command is the argument of the last start or stop command; it is the one asked for if and only if no stop command with another argument comes after the last start command, and the stop command only if none other than the present one is asked for. |
| `ConfigMeaning.FactorAgreesExcept` | config.y:129-134 | A limit means the same with its factor multiplied out, except exactly for nonzero limits in bits per second. |
| `ConfigDriver.CodeTranslates` | config.tab.c:460-498 | Translating the code the scanner returns gives the token's symbol. |
| `ConfigDriver.ShiftShape` | config.tab.c:1448-1466 | A shift keeps the stacks in shape: linked states, the last tokens' values on top, the open profile in its slots. |
| `ConfigDriver.PopShape` | config.tab.c:1652-1670 | So does popping a right-hand side and pushing its left-hand side. |
| `ConfigDriver.NothingOpenBelow` | config.y:118 | When a profile is opened, no slot on the stack refers to another one. |
| `ConfigDriver.Reduces` | config.tab.c:1478-1640 | Every reduction finds the values its action reads, and takes exactly the statement it completes from what remains to be read. |
| `ConfigDriver.ActionIsEvent` | config.tab.c:1501-1632 | The action of a rule does what its statement does, on the profile opened last when it reads `$0` below its right-hand side. |
| `ConfigDriver.NoMoveIsStuck` | config.tab.c:1468-1476 | A state without a move on the next token is one where no statement can go on. |
| `ConfigDriver.StepReduce` | config.tab.c:1478-1670 | Before a reduction, the outcome of the parse is what follows from its action's effect; an aborting action decides it. |
| `ConfigDriver.Options.SetInputFilter` | config.c:74-91 | An empty filter is refused untouched, a bad one after dropping the old one. |
| `ConfigDriver.Options.ActOnOption` | config.tab.c:1503-1560 | The field assignments of the option actions are the effects of their statements: the one field each is about has the given value, all others their old one. |
| `ConfigDriver.Options.ActOnProfile` | config.tab.c:1585-1632 | The parameter actions change exactly the profile they are given. |
| `ConfigDriver.Options.Act` | config.tab.c:1490-1635 | The action switch on the value stack, with its offsets below the top, has the effect and leaves the value its rule calls for. |
| `ConfigDriver.Stacks.Push` | config.tab.c:1454-1462 | Both stacks grow by one. |
| `ConfigDriver.Stacks.Pop` | config.tab.c:1302 | Both stacks lose the same number of entries. |
| `ConfigDriver.Stacks.Replace` | config.tab.c:1652-1670 | The right-hand side is replaced by the state its left-hand side leads to, with the value of the action. |
| `ConfigDriver.Stacks.RecoverFromError` | config.tab.c:1770-1800 | Error recovery pops every state and never resumes. |
| `ConfigDriver.NextDecision` | config.tab.c:1402-1476 | The decision is right even where no token is read for it. |
| `ConfigDriver.ReduceBy` | config.tab.c:1478-1670 | A reduction keeps the parse on track for the same outcome, or its action's refusal is that outcome. |
| `ConfigDriver.ShiftTo` | config.tab.c:1448-1466 | A shift keeps the parse on track for the same outcome. |
| `ConfigDriver.Round` | config.tab.c:1328-1670 | Every round keeps the parse on track or returns its outcome, and makes progress; the relocation branch is dead. |
| `ConfigDriver.YyParse` | config.tab.c:1222-1864 | On every token sequence the parser terminates with 0 or 1 and with exactly the outcome of the reference reading, effects before a failure included. |
| `ConfigDriver.CfgParse` | config.c:35-71 | Loading the file succeeds if and only if its tokens spell a configuration whose statements are all accepted; then every field is that of the last statement about it and each added profile has its own parameters only, and otherwise the options are left as of the first refused statement. |
| `Actions.UpsertMeetsIffRoom` | action.c:190-268 | An upsert makes the name live with these counters, leaves other names alone and issues START exactly for a new name, with the first free slot as its id, if and only if the name is live or a slot below the last is free. |
| `Actions.WithoutRoom` | action.c:222-253 | What happens otherwise, on any table: a dangling last slot and failure if that slot is free, or a START for an action that is in no slot. |
| `Actions.TwoSlotsHoldOneAction` | action.c:231-236 | On two slots the second profile dangles and the third is started in no slot. |
| `Actions.LastSlotUnused` | action.c:222-236 | In no run, with room or without, is the last slot ever live. |
| `Actions.LastSlotFree` | action.c:222-236 | While there is always room, the last slot stays free. |
| `Actions.FirstFailureDangles` | action.c:222-253 | In any run the first upsert without room fails and leaves the last slot dangling, and exactly those that find it so issue a START for an action in no slot. |
| `Actions.UpsertKeepsInv` | action.c:190-268 | An upsert with room keeps the table right: ids, names, alternation, distinct directories, agreement with the history. |
| `Actions.ExpireKeepsInv` | action.c:271-299 | Expiry keeps it too, the clock being read anew at every slot. |
| `Actions.ExpireLeaves` | action.c:277-295 | Expiry clears exactly the slots that are overdue when they are looked at. |
| `Actions.ExpireLogs` | action.c:277-295 | A pass logs one STOP for each slot it clears, in slot order, with the name, start time and id of its action, and nothing else. |
| `Actions.RunKeepsInv` | nfddos.c:164-169 | The invariant of every run of evaluations and expiry passes in which every upsert finds room and the clock does not run backwards. |
| `Actions.RunIsGood` | action.c:190-299 | Over a whole run: ids are slots, one entry a name, START and STOP alternate for each name, each STOP with the start time and id of the START before it, ending in the START of the live action while it is live, no two actions share start time and id - if and only if every upsert finds room. |
| `Actions.LiveAfterPass` | nfddos.c:164-169 | After a pass the live names carry the counters and time of their latest over-limit evaluation, at most the delay ago; all others are overdue. |
| `Actions.LiveIffRecent` | action.c:277-295 | With one reading of the clock for the pass, a name is live if and only if it was over its limit within the delay. |
| `Actions.LimitIsRate` | action.c:309-319 | The integer test of one rate reaches a limit exactly when the window holds limit times seconds units. |
| `Actions.OverLimitIs` | action.c:309-319 | The three tests together: a profile is over its limit if and only if one of its limits is set and the window holds that limit times seconds of bytes, packets or flows. |
| `Actions.ActionTable.SearchName` | action.c:205-211 | The lookup loop finds the first slot of the name. |
| `Actions.ActionTable.SearchFree` | action.c:223-229 | The search loop finds the first free slot. |
| `Actions.ActionTable.Refresh` | action.c:256-264 | Only time and counters of the one action change. |
| `Actions.ActionTable.Place` | action.c:223-229 | A new action gets the index of its slot as id. |
| `Actions.ActionTable.Upsert` | action.c:190-268 | The code on pointers, table and log does exactly what `Upserted` says, dangling pointer included, and is safe to go on with when there was room. |
| `Actions.ActionTable.Expire` | action.c:271-299 | The loop over the slots does exactly what `Expired` says; the overdue slots are cleared, and the log gets one STOP for each with the start time and id of its action. |
| `Actions.ActionTable.EvalProfile` | action.c:302-331 | An evaluation upserts, and returns 1, exactly when a limit on bytes, packets or flows is set and reached; without limits it does nothing, even for a window of no length. |
| `FlowQueue.KeepSelects` | queue.c:71-77 | What is kept are the records at an increasing list of places, exactly those of records the filter accepts, or all places without a filter. |
| `FlowQueue.ExtractSelects` | queue.c:56-85 | Extraction selects so from files min(backtrack, queue_num), ..., 1 one after the other, and is empty for a backtrack of 0 or less. |
| `FlowQueue.WindowsSelect` | queue.c:56-85 | What comes from the windows is so selected from the flows of the last min(backtrack, queue_num) completed ones, in the order they were stored. |
| `FlowQueue.RenamesAt` | queue.c:29-34 | The descending renames move every file up by one at once; only a missing source leaves its target. |
| `FlowQueue.ShiftMirrors` | queue.c:28-45 | After a shift file k again holds the window k shifts ago, whether or not file 0 could be opened. |
| `FlowQueue.ShiftClean` | queue.c:28-45 | A shift leaves nothing in the directory that is older than the first window. |
| `FlowQueue.AppendMirrors` | nfddos.c:107-113 | Storing a flow extends the current window only. |
| `FlowQueue.ExtractsWindows` | queue.c:56-85 | Extraction yields what foreign files hold and then the matching flows of the last windows, oldest first, each once; it is just those windows if and only if foreign files hold nothing that matches. |
| `FlowQueue.NoLeftover` | queue.c:56-85 | With nothing older than the run in the directory, the only foreign file is a top file whose successor had none to replace it with; what it adds is given exactly. |
| `FlowQueue.StaleTopIsRead` | queue.c:29-43 | A top file that was not replaced is extracted again. |
| `FlowQueue.Queue.Shift` | queue.c:15-46 | The rotation loop in place, with its failure. |
| `FlowQueue.Queue.Store` | nfddos.c:106-113 | The reader's write: file 0 only, dropped when it is not open. |
| `FlowQueue.Queue.CopyFile` | queue.c:71-77 | The record loop appends exactly the records the filter accepts, in order, or all of them without a filter. |
| `FlowQueue.Queue.AddFlow` | queue.c:49-88 | The file loop, for any backtrack, selects exactly the flows the filter accepts from files min(backtrack, queue_num), ..., 1, in order, passing over those that are missing or cannot be opened. |
| `QueueThreads.InitialInv` | nfddos.c:257-260 | The invariant holds when the threads start. |
| `QueueThreads.MoveKeepsInv` | nfddos.c:106-169 | Every single step of either thread keeps it. |
| `QueueThreads.RunKeepsInv` | nfddos.c:106-169 | Over every interleaving the files mirror the windows, also half way through a rotation, and an extraction under way has copied what it should have up to its position. |
| `QueueThreads.MutualExclusion` | nfddos.c:106-113 | With a lock taken only when nobody has it, the threads are never in their critical sections together. |
| `QueueThreads.AtomicExtraction` | action.c:177-179 | An extraction interleaved with the reader yields what it would have yielded at once when it was begun. |
| `QueueThreads.RunKeepsClean` | queue.c:28-45 | From an empty directory on, no interleaving leaves a file older than the run. |
| `QueueThreads.ExtractionIsWindows` | queue.c:49-88 | From an empty directory on, an interleaved extraction yields exactly the flows the filter accepts of the last min(backtrack, queue_num) completed windows, in the order they were stored, after those of a stale top file if it is read; if every new file could be opened, of those windows alone. |
| `QueueThreads.FlowsKept` | nfddos.c:106-113 | In every run the windows together hold, in order and each once, exactly the flows received except those stored while file 0 was not open; at most one is still in hand. |
| `QueueThreads.StoresGoOn` | nfddos.c:106-113 | While an extraction is under way, any flows can be received and stored before its next step. |
| `QueueThreads.ExtractionEnds` | queue.c:65-85 | Whatever the reader is doing, an extraction can be carried to its end. |
| `QueueThreads.ExtractionAndStores` | nfddos.c:106-113 | So wherever an extraction can begin there is a run in which any given flows are stored during it and it ends. |
| `QueueThreads.RotationGoesOn` | nfddos.c:151-154 | With the lock free the dumper can rotate the files, whether or not the new one can be opened. |
| `Histogram.SlotHoldsRun` | histcounter.c:64-108 | Whatever the order of updates, a slot holds the contributions to its time slot since another one displaced it. |
| `Histogram.SlotAtItsIndex` | histcounter.c:67-80 | A slot that holds anything is at the index its time slot is congruent to. |
| `Histogram.SlotHoldsTotal` | histcounter.c:64-107 | While updates are less than the ring behind, a slot holds all contributions to its time slot, and no later one of its class has any. |
| `Histogram.SplitGrows` | histcounter.c:64-107 | A contribution in time goes to the window and displaces only stale content. |
| `Histogram.SplitSlides` | histcounter.c:64-107 | When the window moves on without a contribution, what leaves it turns stale and stays in the sum. |
| `Histogram.TotalIsWindowPlusStale` | histcounter.c:64-107 | While updates are in time, gaps or not, the sum of the ring is the contributions of the last n time slots plus what slots out of the window hold; it is the window alone if and only if these hold nothing. |
| `Histogram.CachedTotalsAreWindow` | histcounter.c:64-107 | The same of the cached totals of the counter in memory. |
| `Histogram.RingIsWindow` | histcounter.c:64-107 | Without gaps each slot in the window holds all contributions to its time slot, and the sum of the ring is the sum of all contributions in the last n time slots. |
| `Histogram.GapKeepsOldSlots` | histcounter.c:71-80 | An instance: two time slots, a gap apart, on a ring of three, with the older one still in the total. |
| `Histogram.Rounds` | histcounter.c:33-42 | The number of slots of an interval is its duration over the slot size, rounded up. |
| `Histogram.RoundSlot` | histcounter.c:64-68 | The loop visits that many consecutive time slots, from the one of the start time on, aligned or not. |
| `Histogram.RoundContributes` | histcounter.c:64-107 | Each round adds one equal share to the time slot of its time stamp, and the loop goes on exactly while there is a share left. |
| `Histogram.SlotsCover` | histcounter.c:64-68 | The j-th contribution goes to the time slot that holds the time j slot lengths after the start. |
| `Histogram.LittleIsLost` | histcounter.c:45-47 | Fewer units than slots are lost to rounding. |
| `Histogram.RingWithinTotal` | histcounter.c:102-107 | The ring never holds more than was contributed. |
| `Histogram.AverageAtMostPeak` | histcounter.c:125-151 | The reported mean is at most the reported peak, for bytes and packets, floors included. |
| `Histogram.PerSecondIs` | histcounter.c:127-128 | The reported rate is the largest multiple of 1000 that is no more than the exact rate per second. |
| `Histogram.BitsPerSecondIs` | histcounter.c:127-128 | In bits it is the largest multiple of 8000. |
| `Histogram.BeginOfIs` | histcounter.c:149-154 | The reported time is where its time slot begins. |
| `Histogram.HistCounter.constructor` | histcounter.c:8-23 | A zeroed structure starts as the empty ring with right caches. |
| `Histogram.HistCounter.RescanBytes` | histcounter.c:83-89 | The rescan finds a maximum over all slots. |
| `Histogram.HistCounter.RescanPkts` | histcounter.c:91-97 | The same for packets. |
| `Histogram.HistCounter.Evict` | histcounter.c:71-98 | Emptying a slot keeps totals and peaks right; the subtraction cannot underflow. |
| `Histogram.HistCounter.Accumulate` | histcounter.c:102-117 | Adding to a slot keeps totals and peaks right. |
| `Histogram.HistCounter.AddToSlot` | histcounter.c:64-119 | One round is one contribution to the history. |
| `Histogram.HistCounter.Add` | histcounter.c:27-122 | An update adds its equal shares to consecutive time slots, none for a duration of zero, and leaves all caches right. |
| `Histogram.HistCounter.GetAvg` | histcounter.c:125-130 | The mean rates, in bits and packets per second, are those of the true sum over all slots, rounded down to whole units a millisecond. |
| `Histogram.HistCounter.GetPeak` | histcounter.c:147-154 | The peak rates are those of fullest slots, rounded likewise; the time is the beginning of the time slot of one with the most packets. |
| `RuleIds.NextIsFirstFree` | main.c:57-84 | The id handed out is the first free one from the cursor on in cyclic order, whenever there is one. |
| `RuleIds.NextFollowsCursor` | main.c:57-84 | In the order from the cursor on and around the end of the pool, no free id is before the one handed out. |
| `RuleIds.AfterExhaustion` | main.c:65-79 | An exhausted search hands out 0 and moves the cursor on by one: the next rule gets the first id given back after the old place, and that place last. |
| `RuleIds.OneGivenBack` | main.c:57-84 | If one id is given back after exhaustion, the next rule gets that one. |
| `RuleIds.IdPool.GetNextId` | main.c:57-84 | The search loop on the bits, with the 0 it returns when all are taken. |
| `RuleIds.IdPool.Release` | main.c:158-162 | A removal frees the bit of its id and no other. |
| `RuleIds.NewKeepsIdsApart` | main.c:125-127 | A new rule keeps ids apart if and only if an id is free or no active rule has id 0. |
| `RuleIds.DelKeepsIdsApart` | main.c:154-162 | A removal keeps ids apart whether or not its command went through. |
| `RuleIds.RunConserves` | main.c:119-165 | In every run, exhausted or not: ids taken plus rules added with none left are active rules plus failed removals plus ids given back twice. So it is known exactly when the pool is exhausted. |
| `RuleIds.RunIsApart` | main.c:119-165 | At every point of a run active rules have different ids, all marked as taken, if and only if each rule added finds a free id or no active rule with id 0; then no id is given back twice. |
| `RuleIds.EnoughIds` | main.c:119-165 | That is so if active rules and failed removals never use up the pool when a rule is added. |
| `RuleIds.TwoRulesShareZero` | main.c:75-78 | On a pool of one id two rules have id 0, and removing both gives it back twice. |
| `RuleStatistics.StatNode.UpdateStats` | main.c:168-188 | An update counts traffic, or closes the window. |
| `RuleStatistics.StatNode.EvalNode` | main.c:189-223 | An evaluation reports or removes, and moves the counter with the command. |
| `RuleStatistics.SoundNeverRemoved` | main.c:207-217 | The removal guard is never enabled. |
| `RuleStatistics.StepKeepsInv` | main.c:168-385 | Packets, copies of templates and evaluations keep the counter right; templates never see traffic. |
| `RuleStatistics.RunCounts` | main.c:168-385 | In every run the counter is the number of reported nodes, and no removal is issued. |
| `RuleStatistics.CountsItsWindow` | main.c:168-186 | In every run a node has counted exactly the bytes and packets of the packets for it since its window was opened, all within the window; the window was opened when the node was made or by a packet, not counted, that came when the last one had run out. |
| `RuleStatistics.OverIs` | main.c:196 | A node is over its limit if and only if 100 times its whole bytes per second times 8 exceed limit times threshold. |
| `RuleStatistics.StepReports` | main.c:196-220 | A step reports a node exactly when it evaluates it and finds it over its limit, at the time of its last update. |
| `RuleStatistics.ReportedIffOver` | main.c:189-223 | In every run the reported nodes are exactly those some evaluation found over their limit. |
| `RuleStatistics.ActiveOnlyGrows` | main.c:189-223 | So the counter never goes down. |

## Left out

- The scanner (`config.l`, `lex.yy.c`): parsing starts from tokens; numbers fit an int and factors are 1000 or 1000000.
- The 300 entries of yytranslate are written by ranges; tokens the grammar does not use are one symbol.
- Profiles (`profile.c` is not part of this model): creating one, and setting its filter or fields, may be refused for any
  reason that depends on the settings so far and the argument; a pointer to a profile is its position in the list.
- Truncation of strings at MAX_STRING, debug messages, and the destructor calls that only print.
- ConfigDriver.Stacks.Pop: the value stack slot above the top keeps its old value, as in C; a rule with an empty right-hand
  side may copy it, and no action ever reads the copy.
- Action directories, profile dumps, filter expressions and the flow file of an action: a START stands for their creation.
- Memory allocation failures, and external commands that fail: their result is ignored by the callers, except for the
  removal of rules in the older daemon.
- Actions.ActionTable.EvalProfile: a limit together with a window of zero seconds, where the division faults, is no input.
- Actions.FirstFailureDangles: a dangling slot is never taken for a free one or for a name; in C, what reading the freed
  action yields is undefined.
- Per-profile aggregation of flows, the database, shared memory, signals, sleeping, and the general filter of the reader.
- QueueThreads.AtomicExtraction: the files it reads can be opened; `FlowQueue.Queue.AddFlow` has the case where one cannot.
- QueueThreads.RunKeepsInv: buffering inside a flow file is not modelled; a record is in its file once it is written.
- Histogram.HistCounter.Add: counters are unbounded; by `RingWithinTotal` nothing wraps while the grand total fits 64 bits.
  The field `time`, and `histc_free`.
- Time slot numbers beyond a 31-bit int, which the code would truncate.
- Trie lookup in the older daemon (any node may be found), packet capture, reloading of its configuration, and the limit of
  fifty updates in one evaluation pass.
