# Signal copier: a verified model

This project models the core of a trading-signal copier written in Python:

- **Position controller** (`PartialClosingManager`). It registers the orders the execution engine placed. On every tick it prunes tickets the venue no longer shows and closes unmanaged ("ghost") positions. It records the first take-profit each managed position has reached and plans one partial close per hit. On a first-target hit it secures the position's group: it moves the stop-losses to the open price and cancels the group's pending orders. It keeps its map of managed tickets in a JSON state file.
- **Execution engine** (`MT5Handler`). It holds the pip-size rule, the filling mode and the risk-based lot sizing. It maps each signal entry to an order kind and a request, and hands every accepted order to the controller's registration queue.
- **Signal text parser** (`parse_signal_message`, `format_signal_for_posting`). It finds the signal header in a channel message and cuts the signal section after its stop-loss line. It cleans the section's lines and reads the entry, the second direction, the take-profits and the stop-loss from them. The same file holds two more rules. The CSV header of the export is the sorted set of all keys. The Monday window covers Sunday 23:00 to Tuesday 01:00.
- **Symbol aliases** (`SYMBOL_MAP` and its inversion).

The modules follow the program:

| module | what it models |
|---|---|
| `Closing` | the controller as a class whose methods update its fields |
| `Reconcile` | the same behaviour as functions |
| `StateStore` | the state file |
| `Execution` | the execution engine |
| `Venue` | the trading venue, as a request log plus an answer function; and the registration queue |
| `SignalPatterns` | the parser's regular expressions, as matchers with Python `re` semantics |
| `SignalExtractor` | the parser and the formatter |
| `SignalExport` | the CSV header |
| `SignalWindow` | the Monday window |
| `Symbols` | the alias table |
| `Text`, `Dicts`, `Rounding`, `Wrappers` | Python's string, dictionary and rounding behaviour |

Exceptions that the source does not catch where they arise are modelled as outcomes. These are:

- a zero volume step;
- a zero `num_tps` after a target was recorded;
- `int()` or `float()` rejecting a take-profit or stop-loss text;
- a state file that cannot be opened, or state JSON that is not an object, which escapes the constructor.

Each of these outcomes ends the enclosing loop as the exception would.

## Model

| member | source | states |
|---|---|---|
| Symbols.ForwardLookups | config_symbols.py:4-17 | SYMBOL_MAP is exactly the eleven alias-to-broker pairs. |
| Symbols.ReverseKeysAreBrokerNames | config_symbols.py:20 | The keys of the reverse map are exactly the broker names of the forward map. |
| Symbols.ReverseRoundTrip | config_symbols.py:20 | For every broker name v, SYMBOL_MAP[REVERSE_SYMBOL_MAP[v]] == v. |
| Symbols.ReverseKeepsLastAlias | config_symbols.py:4-20 | Where aliases share a broker name, the inversion keeps the alias written last (DJ30, GER40, USOIL). |
| Symbols.EntriesHaveDistinctAliases | config_symbols.py:4-17 | The literal names each alias once, so no entry of the literal is overwritten. |
| Dicts.BuildMapLookup | config_symbols.py:20 | A dict built from pairs has key k iff some pair has key k; its value comes from the last such pair. |
| Dicts.InvertedKeysAreValues | config_symbols.py:20 | With distinct keys, inverting a dict gives the original values as keys. |
| Dicts.InvertedRoundTrip | config_symbols.py:20 | With distinct keys, looking up the inverse and then the original returns the starting value. |
| StateStore.LoadAfterSave | partial_closing_manager.py:20-38 | Loading what a save wrote, in any member order, gives back the saved map. |
| StateStore.ReadBackSerialisation | partial_closing_manager.py:26 | Every name written by a save reads back with int() as its ticket, and rebuilding the dict gives the map. |
| StateStore.LoadOutcomes | partial_closing_manager.py:20-30 | Loading raises exactly for a file that cannot be opened or JSON that is not an object; a missing file or text that is not JSON gives an empty map. |
| StateStore.BadNameDiscardsAll | partial_closing_manager.py:26-29 | A member name that int() rejects raises ValueError, and the whole state becomes empty. |
| StateStore.ParsedMembers | partial_closing_manager.py:26 | Each member, in order, becomes the pair of its name read as an integer and its record. |
| Text.ParseIntOfIntToString | partial_closing_manager.py:26 | int(str(k)) == k for every integer ticket k. |
| Closing.DistinctTicketsDistinctNames | partial_closing_manager.py:38 | Different tickets are written under different JSON names. |
| Closing.SerialisationOfWritten | partial_closing_manager.py:36-38 | Entries written once each, under their ticket as text, make a serialisation of the map. |
| Closing.NewManager | partial_closing_manager.py:11-18 | Construction fails exactly when loading the state raises; otherwise the new manager holds the loaded map, a fresh empty queue and a lowered stop flag. |
| Closing.PartialClosingManager.constructor | partial_closing_manager.py:11-18 | The manager holds the given handlers, settings, file and loaded map, a fresh empty queue and a lowered stop flag. |
| Closing.PartialClosingManager.SaveState | partial_closing_manager.py:32-40 | The file then holds every entry, each once, under its ticket as text; the map is unchanged. |
| Closing.PartialClosingManager.Stop | partial_closing_manager.py:46-49 | The stop flag is raised and the file holds a serialisation of the unchanged map. |
| Closing.PartialClosingManager.ProcessRegistrationQueue | partial_closing_manager.py:98-114 | The queue is drained in order into the map (Registered). The result is true iff the queue was non-empty. |
| Closing.PartialClosingManager.FindHandlerByLogin | partial_closing_manager.py:259-263 | Returns the first handler with the login, or None iff no handler has that login. |
| Closing.PartialClosingManager.ClosePartial | partial_closing_manager.py:278-313 | Sends exactly the close CloseAttempt computes, or nothing. It raises exactly for a zero volume step. |
| Closing.PartialClosingManager.CloseFull | partial_closing_manager.py:265-266 | A partial close of the position's whole volume. |
| Closing.PartialClosingManager.CleanupClosedTrades | partial_closing_manager.py:116-137 | Ghost closes are sent as GhostCloses says. Then the map is pruned to active tickets; changed iff some entry went. Nothing is pruned if a close raised. |
| Closing.PartialClosingManager.CloseUnmanaged | partial_closing_manager.py:122-129 | The venue log and the raise are those of GhostCloses over the snapshot. |
| Closing.PartialClosingManager.DropInactive | partial_closing_manager.py:131-137 | The map is pruned to the active tickets; changed iff some entry was inactive. |
| Closing.PartialClosingManager.ScanTargets | partial_closing_manager.py:166-180 | The scan loop returns FirstHit: the first target not yet closed that the price reached. |
| Closing.PartialClosingManager.CheckTarget | partial_closing_manager.py:171-179 | For a target not closed yet, the result is true iff a BUY ask reaches tp - buffer or a SELL bid reaches tp + buffer, with the buffer only on target 1 and only with a non-zero pip size. |
| Closing.PartialClosingManager.DecidePosition | partial_closing_manager.py:148-197 | One position's decision step, equal to DecideStep. |
| Closing.PartialClosingManager.DecideOnPositionActions | partial_closing_manager.py:139-198 | Map, actions, changed flag and raise are those of Decide over the snapshot. |
| Closing.PartialClosingManager.SecurePosition | partial_closing_manager.py:218-235 | Sends the stop move to the open price. The entry is marked secured only when the venue reports done and the ticket is still managed. |
| Closing.PartialClosingManager.SecureTradeGroup | partial_closing_manager.py:200-207 | The map and the log are those of SecureAll over the snapshot positions. |
| Closing.PartialClosingManager.DeletePendingOrder | partial_closing_manager.py:268-276 | Exactly one removal request is sent; its reply changes nothing. |
| Closing.PartialClosingManager.CancelPendingOrdersForGroup | partial_closing_manager.py:209-216 | The log is that of CancelAll over the snapshot orders. |
| Closing.PartialClosingManager.ApplyActions | partial_closing_manager.py:78-91 | Map, log and raise are those of ApplyAll: actions in order, each group secured once. |
| Closing.PartialClosingManager.RunOnce | partial_closing_manager.py:51-91 | One pass does what RunPass says. The queue ends empty, and the file holds exactly the map RunPass saved. |
| Reconcile.RegisteredKeys | partial_closing_manager.py:98-114 | After draining, a ticket is managed iff it was managed before or some task names it. |
| Reconcile.RegisteredUntouched | partial_closing_manager.py:98-114 | An entry no task names keeps its record. |
| Reconcile.RegisteredNamed | partial_closing_manager.py:100-111 | A ticket some task names gets a fresh record from the last such task. The record has no closed targets, is not secured and has no pending volume. |
| Reconcile.RegisteredSnoc | partial_closing_manager.py:100-111 | One more task overwrites its ticket's entry with a fresh record. |
| Reconcile.PrunedKeepsActive | partial_closing_manager.py:131-137 | Pruning keeps exactly the managed tickets that are active, with their records unchanged. It changes the map iff some managed ticket was inactive. |
| Reconcile.GhostClosesOnlyUnmanaged | partial_closing_manager.py:122-129 | Every close the ghost check sends targets a snapshot position that is not managed and has a handler. |
| Reconcile.GhostClosesComplete | partial_closing_manager.py:122-129 | Unless a close raised, every unmanaged position with a handler and a sendable close gets that close. |
| Reconcile.GhostClosesRaiseStops | partial_closing_manager.py:124-129 | Once a ghost close raises, the rest of the snapshot is not visited. |
| Reconcile.CloseAttemptBounds | partial_closing_manager.py:278-306 | A close is sent only for a positive volume of a known symbol, on the opposite side, with the login as magic number. Its volume is the stepped volume and lies between volume_min and the position's volume. |
| Reconcile.StepVolumeWholeSteps | partial_closing_manager.py:288-292 | The close volume is a whole number of volume steps, unless the cap to the position's volume applies. |
| Reconcile.StepVolumeNearRequested | partial_closing_manager.py:289-290 | Uncapped, the close volume is within half a step of max(requested, volume_min). |
| Reconcile.FirstHit | partial_closing_manager.py:166-197 | Returns the first unclosed target that is hit, and no unclosed target before it is hit (BUY at ask >= tp - buffer, SELL at bid <= tp + buffer). |
| Reconcile.PositionHit | partial_closing_manager.py:148-180 | A hit is reported only for a managed position with a handler, metadata and prices; it is a target not recorded yet that the price reached, and no earlier unrecorded target was reached. |
| Reconcile.DecideStepPlans | partial_closing_manager.py:148-197 | Without a hit nothing changes; a hit records target i+1 in closed_tps; a close is planned iff num_tps != 0; the group's securing follows iff the hit is target 1 of a non-empty group not yet secured or planned. |
| Reconcile.DecideAllKeepsEntries | partial_closing_manager.py:166-183 | Deciding only appends target numbers of the signal to closed_tps, keeps them duplicate-free, and only grows the action list. |
| Reconcile.DecideAllPlans | partial_closing_manager.py:166-195 | Every planned close is of a snapshot position for round(original_volume / num_tps, 2) and for a target its price reached, unrecorded when the pass began and recorded in closed_tps at its end. Every securing is of a group not yet secured or planned, right after the close of target 1 of one of its tickets. |
| Reconcile.DecideAllSecuresOnce | partial_closing_manager.py:143-195 | No group is planned for securing twice in one decision pass. |
| Reconcile.DecideAllChangedIffActions | partial_closing_manager.py:181-189 | Without a raise, the pass reports a change iff it planned at least one action. |
| Reconcile.DecideAllRaiseStops | partial_closing_manager.py:184 | A zero num_tps raises after the target was recorded, and the later positions are not visited. |
| Reconcile.SecureAllTouchesGroup | partial_closing_manager.py:200-235 | Securing marks an entry secured only after a done stop move. Every request sent is a stop move of an unsecured member of the group. |
| Reconcile.SecureAllSecuresOnlyWhenDone | partial_closing_manager.py:218-235 | is_secured becomes true only for a ticket whose stop move the venue reported done. |
| Reconcile.SecureAllSendsStopMoves | partial_closing_manager.py:200-207 | Every request sent is a stop move to the open price of a snapshot position that is a managed, unsecured group member with a handler. |
| Reconcile.SecureAllComplete | partial_closing_manager.py:200-232 | Every managed, unsecured group member with a handler (the first snapshot entry for its ticket) gets its stop move to the open price; if the venue reports that move done, the entry ends up secured. |
| Reconcile.CancelAllTouchesGroup | partial_closing_manager.py:209-216 | Cancelling changes nothing but the log. It removes only orders managed under the group. |
| Reconcile.CancelAllComplete | partial_closing_manager.py:209-216 | Every snapshot order managed under the group whose login has a handler is removed. |
| Reconcile.ApplyAllSecuresOnlyWhenDone | partial_closing_manager.py:78-91 | Applying the actions secures only on done replies, and once a close raised nothing more happens. |
| Reconcile.ApplyAllRaiseStops | partial_closing_manager.py:81-94 | A close that raises ends the application; the remaining actions are skipped. |
| Reconcile.SecureGroupOnce | partial_closing_manager.py:84-89 | A group secured once in a pass is not secured again by a second action naming it. |
| Reconcile.PassManagesActive | partial_closing_manager.py:51-76 | Unless the ghost check raised, a pass manages exactly the registered tickets the snapshot shows active. |
| Reconcile.PassSavesWhenChanged | partial_closing_manager.py:58-76 | The pass saves iff a task was drained, an entry was pruned or an action was planned. It saves the decided map, in which the target of every close it goes on to send is already recorded. |
| Execution.FillingMode | mt5_handler.py:59-68 | The filling mode is immediate-or-cancel, whether or not the symbol is known. |
| Execution.PipSize | mt5_handler.py:70-84 | There is no pip size iff the symbol is unknown. Otherwise it is 1, 0.01, 0.0001 or ten points. |
| Execution.CashSymbolPip | mt5_handler.py:75-76 | A broker name containing "Cash" has a pip of 1. |
| Execution.GoldPip | mt5_handler.py:79-80 | XAUUSD with two or three digits has a pip of 0.01. |
| Execution.AliasTargetsPipSize | mt5_handler.py:70-84 | Every broker name in the alias table has a pip of 1, except gold, which has 0.01 at two or three digits. |
| Execution.TargetCount | mt5_handler.py:124 | The number of targets is num_tps, or 1 when num_tps <= 0. |
| Execution.LotSize | mt5_handler.py:86-139 | Each failure, in source order, happens iff its condition holds: no account info, no symbol info, zero stop distance, invalid tick info, zero risk per lot, zero volume step (raises). |
| Execution.ZeroRiskPerLotIffZeroTickValue | mt5_handler.py:116-120 | With a non-zero stop distance, the risk per lot is zero iff the tick value is zero. |
| Execution.LotSizeOfValidInputs | mt5_handler.py:122-139 | With valid inputs, the volume is the rounded, capped total of n equal shares. |
| Execution.CeilStepBounds | mt5_handler.py:130 | Rounding up to whole steps overshoots by less than one step. |
| Execution.ShareBounds | mt5_handler.py:128-130 | Each share covers the raw share and volume_min, is a whole number of steps, and is the least such multiple. |
| Execution.UncappedTotal | mt5_handler.py:131-132 | Below volume_max, the total is n shares unchanged. |
| Execution.UncappedTotalSplitsEvenly | mt5_handler.py:128-132 | Unless the cap applies, the total splits into n equal shares of whole steps, each at least volume_min. |
| Execution.CappedTotalWithinLimits | mt5_handler.py:131-136 | The total before rounding lies between volume_min and volume_max. |
| Execution.CapCanBreakEvenSplit | mt5_handler.py:130-132 | A capped total need not split into whole steps per target. |
| Execution.Round2OfHundredths | mt5_handler.py:139 | round(x, 2) leaves a whole number of hundredths unchanged. |
| Execution.GoldScenario | mt5_handler.py:86-139 | Balance 10000, 1% risk and four gold targets give 0.08 lots (entry 2950) and 0.12 lots (entry 2940), split into four equal shares of 0.02 and 0.03 lots. |
| Execution.OrderKindKnownIff | mt5_handler.py:151-157 | An entry gets an order kind iff it is a market entry whose direction is a table key, or BUY/SELL with LIMIT/STOP. |
| Execution.PendingKeyShape | mt5_handler.py:151-153 | A composed key the table knows is BUY or SELL, an underscore, and LIMIT or STOP. |
| Execution.EntryKinds | mt5_handler.py:151-153 | The six direction and entry-type pairs map to their six order kinds. |
| Execution.PlanOrder | mt5_handler.py:148-180 | Skips an unknown kind or a market entry without a tick. It raises only for a zero step. A submitted request carries the right fields, a positive volume, the entry's price only when pending, and the IOC filling. |
| Execution.ExecuteEntriesTagsRequests | mt5_handler.py:141-182 | Running the entries only appends. Every request is an order with the login as magic number, the group in its comment and the signal's symbol. |
| Execution.ExecuteEntriesRegistersTrade | mt5_handler.py:184-190 | Every registration carries the login, the signal, its group and a positive volume. |
| Execution.ExecuteEntriesRegistersAccepted | mt5_handler.py:182-190 | The registered tickets are exactly those the venue reported done, in sending order. |
| Execution.CrashIsFinal | mt5_handler.py:141-145 | After a raise, no further entry is attempted. |
| Execution.ExecuteEntriesSplit | mt5_handler.py:144-145 | Running a concatenation of entries is running the second part from where the first ended. |
| Execution.Handler.constructor | mt5_handler.py:10-16 | The handler trades its account and feeds the given registration queue. |
| Execution.Handler.ExecuteSingleOrder | mt5_handler.py:148-194 | One entry: the venue log, the queue and the raise are those ExecuteStep gives. |
| Execution.Handler.ExecuteTrade | mt5_handler.py:141-146 | The entries in order until one raises: log, queue and raise as ExecuteEntries gives. |
| Venue.Venue.Send | partial_closing_manager.py:224 | The request is appended to the venue's log, and the reply is the answer to it given the earlier requests. |
| Venue.RegistrationQueue.Put | mt5_handler.py:190 | The registration is appended to the queue. |
| Venue.RegistrationQueue.IsEmpty | partial_closing_manager.py:100 | True iff the queue holds nothing. |
| Venue.RegistrationQueue.Get | partial_closing_manager.py:101 | Removes and returns the oldest registration. |
| Text.SplitJoin | exact_format_extractor.py:185-192 | Joining lines that contain no line break and then splitting at '\n' gives the lines back. |
| SignalPatterns.SpaceEndUnique | exact_format_extractor.py:157 | A whitespace run followed by a non-space is the run a greedy \s* takes. |
| SignalPatterns.DaxTokenEnd | exact_format_extractor.py:157 | DAX\s*40 ends two characters after the greedy whitespace run. |
| SignalPatterns.SymbolEndsAreTokens | exact_format_extractor.py:157 | The symbol alternation tries only symbol tokens (named instruments or 3 to 8 alphanumerics). |
| SignalPatterns.TokensAreSymbolEnds | exact_format_extractor.py:157 | The symbol alternation tries every symbol token. |
| SignalPatterns.FirstTpOne | exact_format_extractor.py:157 | The lazy .*? stops at the first Tp1 (Tp\s*1) after the entry part, and None means there is none. |
| SignalPatterns.RestAt | exact_format_extractor.py:157 | After the symbol: whitespace, BUY/SELL, whitespace, NOW or "limit from" with a number, then a Tp1 later. |
| SignalPatterns.HeaderAt | exact_format_extractor.py:157-159 | A header match is a symbol token followed by the rest of the header, and its direction reads BUY or SELL in some case. |
| SignalPatterns.HeaderAtFails | exact_format_extractor.py:157-159 | The header fails at p only when no symbol token at p is followed by the rest of the header. |
| SignalPatterns.Search | exact_format_extractor.py:159 | re.search returns the leftmost match, and None means no match anywhere. |
| SignalPatterns.FindAllMatches | exact_format_extractor.py:215 | Everything findall returns is a match, left to right and without overlap. |
| SignalPatterns.FindAllMissesNothing | exact_format_extractor.py:234 | findall skips no match: none starts before the first, between two, or after the last. |
| SignalExtractor.First | exact_format_extractor.py:169 | re.search over a text: the match is the leftmost; None iff there is no match at any position. |
| SignalExtractor.All | exact_format_extractor.py:215 | re.findall over a text yields only matches of the pattern, within the text. |
| SignalExtractor.Float | exact_format_extractor.py:236 | float() on a captured number succeeds iff the text has a digit and at most one dot; the value is never negative. |
| SignalExtractor.FloatOfDigits | exact_format_extractor.py:236 | float() of digits without a dot is the integer they spell. |
| SignalExtractor.FloatOfDotted | exact_format_extractor.py:236 | float() of whole.frac is the digits without the dot divided by ten to the number of decimals. |
| SignalExtractor.FloatExamples | exact_format_extractor.py:236 | float("2960") == 2960.0, float("2960.5") == 2960.5 and float(".5") == 0.5. |
| SignalExtractor.FloatRejectsExamples | exact_format_extractor.py:236 | float() rejects "." and "1.2.3". |
| Text.ParseDecimalOfDotted | exact_format_extractor.py:236 | Python's float() of whole.frac, for digit runs with at least one digit, is the integer whole+frac divided by ten to the length of frac. |
| Text.DigitsValueAppend | exact_format_extractor.py:236 | Appending digits multiplies the value by ten per digit appended and adds the appended digits' value. |
| SignalExtractor.CutSection | exact_format_extractor.py:165-181 | The section is cut at the first line break after the first SL match, or 10 characters past it; with no SL match it is not cut. |
| SignalExtractor.DropTrailingNonAscii | exact_format_extractor.py:187 | Removes exactly the trailing run of non-ASCII characters. |
| SignalExtractor.LStripDots | exact_format_extractor.py:218 | lstrip('.') removes exactly the leading dots. |
| SignalExtractor.EntryValueSkipsDots | exact_format_extractor.py:216-222 | An entry value is float() of the captured text after its leading dots. |
| SignalExtractor.EntryValueExamples | exact_format_extractor.py:216-222 | ".2960" is read as the price 2960.0. |
| SignalExtractor.CleanLinesShape | exact_format_extractor.py:184-189 | The kept lines are all non-empty, stripped at the front and ASCII at the end. |
| SignalExtractor.SignalTextLines | exact_format_extractor.py:184-192 | raw_message is empty iff no line survives cleaning. Split at '\n', it gives back exactly the clean lines. |
| SignalExtractor.NotASignalIff | exact_format_extractor.py:157-248 | Parsing gives None iff no symbol token anywhere is followed by the rest of the header. |
| SignalExtractor.ParsedHeader | exact_format_extractor.py:195-204 | symbol is the stripped leftmost header token, direction is BUY or SELL in some case, and raw_message is the cleaned text from the header on. |
| SignalExtractor.ReadEntry | exact_format_extractor.py:207-223 | Market iff 'NOW' occurs in raw_message upper-cased. Otherwise the points are the limit-from values float() accepts, in order: no more than the matches, none negative. |
| SignalExtractor.SomeValuesRead | exact_format_extractor.py:214-223 | Skipping rejected values keeps accepted ones only, in order; all accepted means all kept; all rejected means empty. |
| SignalExtractor.ReadSecondDirection | exact_format_extractor.py:225-229 | direction2 is set iff the entry is limit, the text contains "and ", and "and BUY/SELL" matches. It then reads BUY or SELL. |
| SignalExtractor.TakeProfitPairOfMatch | exact_format_extractor.py:232-237 | A take-profit match's key is "tp" with the digits' value; the pair exists iff float() accepts the value. |
| SignalExtractor.TakeProfitLookup | exact_format_extractor.py:232-238 | take_profits has key k iff some match gives key k; its value comes from the last such match. |
| SignalExtractor.ReadStopLoss | exact_format_extractor.py:240-244 | stop_loss is present iff an SL match exists. Its value is float() of the first match's number and is never negative. |
| SignalExtractor.RaisedIff | exact_format_extractor.py:232-244 | Parsing raises iff a take-profit value or the stop-loss value is rejected by float(). |
| SignalExtractor.PostedText | exact_format_extractor.py:362-374 | The posted text is the cleaned lines of the message's section, joined by '\n'. It splits back into those clean lines. |
| SignalExport.Sorted | exact_format_extractor.py:291 | sorted(list(names)): strictly increasing in Python string order, with exactly the set's elements. |
| SignalExport.SortedUnique | exact_format_extractor.py:291 | Two strictly sorted lists with the same elements are equal, so the header row is determined by its set. |
| SignalExport.BelowTotal | exact_format_extractor.py:291 | Python string order is total on distinct strings. |
| SignalExport.BelowTransitive | exact_format_extractor.py:291 | Python string order is transitive. |
| SignalExport.CsvHeaders | exact_format_extractor.py:281-291 | Nothing iff there are no signals. Otherwise the sorted collected keys without take_profits. |
| SignalExport.HeadersAreRowKeys | exact_format_extractor.py:281-304 | A column exists iff it is a key of some flattened row, so every row fits the header. |
| SignalExport.FixedColumns | exact_format_extractor.py:281-291 | A non-empty export has every fixed key as a column and never take_profits. |
| SignalWindow.Weekday | exact_format_extractor.py:405 | weekday() of an ordinal is in 0..6 and is 0 exactly on Mondays. |
| SignalWindow.TargetMonday | exact_format_extractor.py:404-416 | The target is a Monday from five days back to tomorrow, and it is tomorrow iff today is a Sunday. |
| SignalWindow.TargetMondayUnique | exact_format_extractor.py:404-416 | Any Monday from five days back to tomorrow is the target. |
| SignalWindow.TargetMondayMostRecent | exact_format_extractor.py:414-416 | When today is not a Sunday, the target is today or earlier and no Monday on or before today is later than it. |
| SignalWindow.MondayWindow | exact_format_extractor.py:422-429 | The window is 26 hours long. |
| SignalWindow.MondayWindowLocal | exact_format_extractor.py:108-116 | A UTC message time is kept iff its local time is between Sunday 23:00 and Tuesday 01:00 around the target, both ends included. |
| SignalWindow.MondayInsideWindow | exact_format_extractor.py:422-429 | Every second of the target Monday, local time, is inside the window. |
| SignalWindow.WindowDays | exact_format_extractor.py:422-429 | The window starts on a Sunday and ends on a Tuesday. |

## Left out

- Threads, locks, the daemon thread, `time.sleep` and the catch-all of `run` are left out. A single pass of `run` is modelled sequentially over a snapshot of positions, orders and market data.
- MetaTrader calls are modelled as data and a request log. Symbol info and ticks are a fixed `Market` for a whole pass or trade, and the venue's replies are an answer function of the request history.
  - Connection handling, `connect_mt5`, `disconnect_mt5`, `_get_all_open_positions` and `_get_all_pending_orders` are not modelled; the snapshot is their result.
- The account balance is a parameter fixed for a whole `execute_trade`.
- Closing.PartialClosingManager.SecurePosition: re-checking under the controller's lock that the ticket is still managed is a plain membership test. There is no concurrency to race with.
- Floating point: prices and volumes are exact reals. Python's `round` is modelled as round-half-even on the exact value. Binary rounding error is not modelled.
- File I/O: a failing write in `_save_state` is not modelled (the source only logs it). JSON types inside a record are not modelled either: records are values.
- SignalExtractor.Float: float() is modelled only on the digit-and-dot texts the patterns capture. Underscores, exponents, signs, `inf`/`nan` and surrounding whitespace cannot occur there.
- Text.ParseInt: Python's int() also accepts Unicode digits and underscore separators (`int("1_000")`); neither is modelled, and `\d` is taken as ASCII digits only.
- StateStore.BadNameDiscardsAll: a state-file name with underscore separators, such as `"1_000"`, counts as rejected here, where Python reads 1000. Saves never write such names.
- Execution.PipSize: `broker_symbol.upper()` is modelled on ASCII letters only, as for ReadEntry below.
- SignalExtractor.ReadEntry: `str.upper()` is modelled on ASCII only. Characters whose upper-case form contains N, O or W (such as U+0149) are not modelled.
- Telegram I/O is not part of this model: `connect`, `extract_signals`, `extract_all_channels`, `post_signal_to_channel` and `close`. Nor are the wall-clock age filter, the parsing and printing of date strings, the CSV and JSON file writes, and `export_to_json`.
- SignalWindow.MondayWindowLocal: only the comparison itself is modelled. Telegram's message dates and the `strptime` of the window strings are left out.
- The remaining repository files are not part of this model: the entry point, the script keeper, the secure configuration and the security monitoring, and the parser's test script.
