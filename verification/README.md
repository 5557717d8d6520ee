# Verification of the evaluation and release tooling

These Dafny modules model the logic of the Python tooling under `scripts/` that decides whether an
evaluation campaign or a release can be trusted, and the two reference programs that the fixture
generators write out, and prove properties of that model. `dafny verify dfyconfig.toml` checks all
of it.

Code that updates state in place is modelled by classes and methods with the source's loops, each
proved against a specification; what the source promises is then proved about the specification,
over every input, every run or every interleaving. The modules whose names end in Facts or Laws say
what the results are in the inputs themselves, without the functions that the code and its
specification share.

| file | models |
|---|---|
| LaunchRecord, CampaignOwnership, AdmissionEvidence, ContainerCleanup, MeasuredLaunch | the machine lock, the durable launch record, admission after a crash, container cleanup, and one measured launch (`scripts/bench/runner.py`) |
| ProcessForest, NativeSupervisor | the subreaper loop over a forking, reparenting process tree (`scripts/bench/native_supervisor.py`) |
| Calculator, CalculatorText, CalculatorErrors, CalculatorLaws | the reference calculator of fixture t8 (`scripts/bench/make_tasks.py`) |
| ProviderActivity, ActivityFacts, UsageAccounting, UsageFacts | counts and token totals from one event stream (`scripts/bench/observations.py`, `scripts/bench/bench.py`) |
| Stock, Inventory, OrderBook (modules Stock, Inventories, Orders), StockFacts, OrderFacts, ShortShipment | the reference warehouse of fixture m6 (`scripts/bench/make_large_tasks.py`) |
| RequestTelemetry, TelemetryFacts | request counts from a table of spans (`scripts/bench/codex_otel.py`) |
| ProcessTree | the processes and the memory of a launched tree (`scripts/bench/resource_lifecycle.py`) |
| TagPublishing | racing publishers of a version tag (`scripts/release_identity.py`) |
| CampaignSchedule, CampaignIntegrity, MissingRows, CampaignManifest, IntegrityFacts, LatencyStatistics, LatencyFacts | schedule, completeness and statistics of a campaign (`scripts/bench/campaign.py`) |
| SubscriptionLedger | the request ledger of a subscription campaign (`scripts/bench/subscription_campaign.py`) |
| FoldEconomics, FoldFacts | what compactions cost and bought (`scripts/bench/fold_economics.py`) |
| FaintText | rewriting faint text for the terminal emulator (`scripts/ui/capture_tui.py`) |
| SetSums, Sequences, Text, Wrappers | sums over sets, lists, whitespace and digits, result shapes |

## Assumptions

What the code asks of its surroundings is modelled as steps of an environment or as parameters:

- The kernel lock is exclusive and ends with its holder; a torn lock file may decode to anything.
- A Windows job ends when its owner dies. A process ID that is not alive stays so during a check.
- The container daemon may be unreachable, may carry out a creation late, and finds "no such container" only if there is none at that moment. Its client refuses to start where a create ID file stands, and writes one only when the daemon has answered.
- Every orphan is adopted by the supervisor or by an older living member of the tree, and a call of the supervisor takes at most some fixed time.
- A tag store creates a ref at most once and never changes an object; any answer may be lost or denied.
- The record's JSON text starts with "{", does not end in a blank, and decodes to what was encoded.
- Digests and span pseudonyms are injective; a schedule's seed digest is a number.
- SKUs and warehouses are numbered in the order in which their names sort.

## Where a promise holds only on a condition

- A dead owner's container is taken as gone after forced removal and inspection alone; the acknowledgment that a normal cleanup demands is not asked for, and an admission without it removes the evidence for later ones. `EvidenceDecides` gives the exact condition on what can be seen of a run, `BlindAdmissionOverlaps` the overlap after every violation, and `CarefulIsNeverBlind` shows that asking would be enough.
- `integrity_errors` derives the expected arms from the rows when it is not given them, so dropping the only row of a third arm passes. `MissingRowFailsUnless` is the exact condition and `DroppedArmPasses` an input; a manifest gives the arms, and there `NoRowLessOrMore` holds.
- `keep_faint` compares spellings, so "02" or "022" keep their meaning but are not moved, and it takes one operand for every colour selector but "2". `ShownRightIff` and `StreamShownIff` are the exact conditions where nothing but attributes is moved, `OneParameter` and `SelectorWithoutOperands` are failing families.
- Shipping sells what was held or what is on hand, whichever is less: an adjustment may have taken reserved stock in between. `ShipSellsTheOrderIff`, `AdjustKeepsCovered` and `ActionKeepsBook` say exactly when it has not, and `ShipsShort` is a run in which it has.
- The wait for ended children has no deadline of its own. `WaitsWithoutEnd` is a tree that holds it for any number of waits; the time limit of `ReapDescendants` is kept up to the members and the births there are, and `WaitsAttainTheirBound` shows that no better bound holds for the waits.

## Model

| member | source | states |
|---|---|---|
| LaunchRecord.PersistCrashPoints | scripts/bench/runner.py:713-727 | At every crash point of the overwrite a file that held text still holds text and never reads as blank; when the overwrite is done the stripped text is exactly the new record; cutting to its length then leaves exactly the new record, whether the old one was longer or shorter. |
| LaunchRecord.StripPadding | scripts/bench/runner.py:718-722 | The padding that `persist` appends is removed again by the `strip()` of the next campaign, for every record and every pad length. |
| LaunchRecord.LockFile.Write | scripts/bench/runner.py:722 | Writing character by character leaves the old file with its first characters replaced, and nothing else. |
| LaunchRecord.CampaignOwner.constructor | scripts/bench/runner.py:706-711 | A new owner leaves the file holding exactly its active record. |
| LaunchRecord.CampaignOwner.Persist | scripts/bench/runner.py:713-727 | On return the file equals the encoded record, whatever it held before. |
| LaunchRecord.CampaignOwner.Begin | scripts/bench/runner.py:729-741 | A launch is recorded, in memory and in the file, before it happens; over an unresolved one it is refused and nothing changes. |
| LaunchRecord.CampaignOwner.Complete | scripts/bench/runner.py:743-747 | Exactly the token in flight resolves the launch; any other token, or none in flight, is an error and changes nothing. File and memory stay equal. |
| LaunchRecord.CampaignOwner.Finish | scripts/bench/runner.py:749-752 | The record becomes clean only if nothing is in flight; otherwise it stays as evidence. |
| CampaignOwnership.ReconcileAbandoned | scripts/bench/runner.py:787-815 | True only for a readable record of a dead owner whose every entry is a removed container of ours or a Windows job. |
| CampaignOwnership.OwnMachine | scripts/bench/runner.py:845-863 | A campaign takes the machine exactly if the lock file is blank, clean, or reconcilable; then the file holds its own record, and a refusal leaves the file alone. The code is a run of the machine below. |
| CampaignOwnership.LeaveMachine | scripts/bench/runner.py:864-873 | The end of a campaign is a run of the machine to one that is free again; a record with a launch in it stays in the file as it is. |
| CampaignOwnership.AtMostOne | scripts/bench/runner.py:592-604 | In every state that keeps the invariant at most one launch is outstanding, by any owner, dead or alive. |
| CampaignOwnership.AdmissionFindsNoWork | scripts/bench/runner.py:787-863 | At an admission no earlier process tree or container is alive; and nothing is left at all if the create ID file of every container named in the record is there. |
| CampaignOwnership.StepKeepsInv | scripts/bench/runner.py:713-873 | Every step of the machine (acquire, admit, write one character, shorten, begin, launch, land, acknowledge, end, complete, finish, release, crash, new process) keeps the ownership invariant, if an admission asks for these create ID files. |
| CampaignOwnership.RunKeepsInv | scripts/bench/runner.py:713-873 | So does every run of such steps from a fresh lock file, with crashes between any two of them. |
| CampaignOwnership.CampaignsNeverOverlap | scripts/bench/runner.py:787-873 | Over every run whose admissions ask for the acknowledgment: at most one launch outstanding, campaigns are admitted onto an idle machine only, nothing runs while a record is being written, and an owner sees only its own current launch. |
| CampaignOwnership.PersistFinishes | scripts/bench/runner.py:713-727 | From any point of a write the machine can reach its end, and the file is then exactly the record. |
| CampaignOwnership.DiesWhileCreating | scripts/bench/runner.py:592-604 | For every record of a dead owner's container launch without a create ID file, whatever else there is to be seen, a state can be reached in which the creation is still pending. |
| CampaignOwnership.AcknowledgmentDecides | scripts/bench/runner.py:486-495 | In runs whose earlier admissions all asked for the create ID files: of all states that look like this one, none has a creation pending if and only if the create ID file of the recorded workspace is there. |
| CampaignOwnership.UnacknowledgedAdmissionOverlaps | scripts/bench/runner.py:798-813 | From there `_reconcile_abandoned` admits a second campaign and the first one's container then comes alive. |
| CampaignOwnership.RecordDecides | scripts/bench/runner.py:787-863 | What each complete record does to the next campaign: clean never blocks, active blocks until the owner is dead, an intent blocks until its kind of work is proven gone, and a native Linux run always blocks. |
| CampaignOwnership.AdmitsExactly | scripts/bench/runner.py:757-859 | For every text in the lock file, in the members of the record it decodes to: a campaign may start exactly if the text is blank, or the record is of version 1 and either finished with nothing in flight, or of an owner whose number is positive and not alive and whose every entry is a removed container of ours or a Windows job. |
| AdmissionEvidence.EvidenceDecides | scripts/bench/runner.py:787-873 | For every run of the code: campaigns exclude one another in all runs with the same visible evidence (files, live processes, create ID files, steps) if and only if no admission in it was blind, that is, over a container launch that had been tried and whose create ID file was not there. |
| AdmissionEvidence.RunTracks | scripts/bench/runner.py:713-873 | In a run without a blind admission, whatever is outstanding has been seen to be launched and its intent is still in the file. |
| AdmissionEvidence.MayBePending | scripts/bench/runner.py:486-495 | Evidence of a launch without its create ID file also fits a run in which the creation is still pending. |
| AdmissionEvidence.BlindAdmissionOverlaps | scripts/bench/runner.py:798-813 | After any first blind admission the older container can come alive while the new campaign owns the machine. |
| AdmissionEvidence.CarefulIsNeverBlind | scripts/bench/runner.py:478-495 | Asking for the create ID files at every admission, as a normal cleanup does, is enough. |
| AdmissionEvidence.CarelessButSighted | scripts/bench/runner.py:595-604 | Asking is not always needed: an owner that died between recording its intent and launching leaves a record without a create ID file, and an admission over it leaves campaigns apart. |
| MeasuredLaunch.Measure | scripts/bench/runner.py:498-590 | What a container or a process tree goes through while its command is run and cleaned up is, step by step, a run of the machine; on a verdict that cleanup is complete nothing is outstanding. |
| MeasuredLaunch.Execute | scripts/bench/runner.py:592-604 | One measured launch: intent first, then the run and its cleanup, and the intent is cleared exactly on the verdict that its work is gone. That verdict is stated for each kind of work: what the acknowledgment said of a container, the job's end, or an empty process tree with a valid report. From it follows what the machine requires of a completion. |
| MeasuredLaunch.ExecuteNative | scripts/bench/runner.py:532-589 | Cleanup is complete exactly if the supervisor could not be started, or left a valid report, could watch its children, and no process is left. |
| ContainerCleanup.TraceFacts | scripts/bench/runner.py:498-529 | Whatever the daemon and the client do, an ended client and a removed container stay so, and evidence of a creation is only there after it. |
| ContainerCleanup.GoneStays | scripts/bench/runner.py:457-470 | A container that is gone with no creation pending never comes back. |
| ContainerCleanup.ExecuteContainer | scripts/bench/runner.py:498-529 | Reported cleanup means gone for good, in every interleaving of client, daemon and removal, and also if the client could not be started; for a started client and a reachable daemon it is reported exactly if the creation was acknowledged, by the ID file where there is one and by the client's success where there is none. A container that is there when the time is up is removed in any case, even if the client cannot be reaped. |
| ContainerCleanup.AbsenceIsProofUnlessPending | scripts/bench/runner.py:486-495 | For a reaped client, finding no container settles the matter exactly if no creation is pending, and an acknowledgment excludes one. |
| ProcessForest.StepKeepsInv | scripts/bench/native_supervisor.py:28-50 | Fork, exit with adoption, and reaping keep every member below the supervisor or an older living member, and never take away a child of the supervisor. |
| ProcessForest.TraceKeepsInv | scripts/bench/native_supervisor.py:28-50 | So does every run of the members, so the process IDs the supervisor signals are never recycled ones. |
| ProcessForest.TopAncestor | scripts/bench/native_supervisor.py:30-33 | Every member, however far detached, has an ancestor that is a child of the supervisor. |
| ProcessForest.ChildlessIsEmpty | scripts/bench/native_supervisor.py:34-38 | No child means no descendant, living or zombie, and the other way round. |
| ProcessForest.EmptyStaysEmpty | scripts/bench/native_supervisor.py:34-38 | Nothing can join a tree that has no member. |
| ProcessForest.WaitsAreBounded | scripts/bench/native_supervisor.py:34-38 | No more waits in a row can find an ended child than there were members and have been births meanwhile. |
| ProcessForest.WaitsAttainTheirBound | scripts/bench/native_supervisor.py:34-38 | That bound is attained, from every tree and for every number of births a living member can give. |
| ProcessForest.WaitsWithoutEnd | scripts/bench/native_supervisor.py:34-38 | A tree of never more than two members, each forking and ending, lets any number of waits in a row succeed: the inner loop, which does not look at the clock, has no time limit. |
| NativeSupervisor.ReapEnded | scripts/bench/native_supervisor.py:34-38 | The inner loop says "no child" exactly if the supervisor has none, and waits successfully at most once for every member there was or has been born meanwhile; that it ends at all rests on finitely many steps of the members in the run observed. |
| NativeSupervisor.KillChildren | scripts/bench/native_supervisor.py:41-47 | Signals current children of the supervisor only, with members acting between any two signals; if it reports success, exactly all those listed have been signalled, and otherwise only some of them. A signal may work late. |
| NativeSupervisor.ReapDescendants | scripts/bench/native_supervisor.py:28-50 | Returns true exactly in a state without any member, and does so whenever the kernel obliges, the members take no step of their own and the time limit leaves a pause for each. It returns, after the time limit, within one pause and two calls for every process there was or has been born, so only births can hold it. |
| NativeSupervisor.Supervise | scripts/bench/native_supervisor.py:53-87 | A report of complete cleanup means that nothing the command started is left, now or after any later steps. If the kernel obliges, the members take no more steps and there are fewer than a thousand of them, cleanup is complete. The exit says whether the launch was possible, the wait was interrupted, the command was still running when it was over, or had ended; and all is over within the limit, the two and the ten seconds, and the calls for the members there were. |
| NativeSupervisor.RunCommand | scripts/bench/native_supervisor.py:67-85 | When the cleanup of descendants begins, the command itself is over, or it has been killed, if the kernel obliges, and was given two seconds to end. |
| Calculator.Expr | scripts/bench/make_tasks.py:874-880 | The loop over `+` and `-` computes the specified left-associative parse and terminates. |
| Calculator.Term | scripts/bench/make_tasks.py:883-889 | The same for `*` and `/`. |
| Calculator.Unary | scripts/bench/make_tasks.py:892-896 | Whatever begins with a unary is read as that unary and nothing more; nothing else is accepted. |
| Calculator.Atom | scripts/bench/make_tasks.py:899-910 | The same for a number or a parenthesis. |
| Calculator.Evaluate | scripts/bench/make_tasks.py:864-871 | Every grammatical list of tokens gives what its tree stands for, and no other list gives a value. |
| Calculator.UnaryComplete | scripts/bench/make_tasks.py:892-910 | A unary tree's tokens, with anything behind them, parse to its value and leave the rest. |
| Calculator.TermComplete | scripts/bench/make_tasks.py:883-889 | The same for terms. |
| Calculator.ExprComplete | scripts/bench/make_tasks.py:874-880 | The same for expressions. |
| Calculator.UnarySound | scripts/bench/make_tasks.py:892-910 | Whatever is accepted as a unary is the tokens of a unary tree with that value. |
| Calculator.TermSound | scripts/bench/make_tasks.py:883-889 | The same for terms. |
| Calculator.ExprSound | scripts/bench/make_tasks.py:874-880 | The same for expressions. |
| Calculator.EvaluateDecidesGrammar | scripts/bench/make_tasks.py:864-910 | A token list evaluates to a value exactly if some grammatical tree has these tokens and this value; a list whose tree has no value is reported as a division by zero. |
| Calculator.PrintThenEvaluate | scripts/bench/make_tasks.py:864-910 | Printing any arithmetic syntax tree with the usual precedence, left associativity and unary minus, and evaluating the tokens, gives the tree's value. |
| CalculatorLaws.SumsCompute | scripts/bench/make_tasks.py:874-880 | For an expression and a term that stand for x and y, the evaluation gives x + y and x - y. |
| CalculatorLaws.ProductsCompute | scripts/bench/make_tasks.py:883-889 | For a term and a unary that stand for x and y, it gives x * y and, unless y is zero, x / y. |
| CalculatorLaws.SignsCompute | scripts/bench/make_tasks.py:892-907 | A sign negates what follows it, and parentheses change nothing. |
| CalculatorLaws.LeadingDigit | scripts/bench/make_tasks.py:849-861 | Digits are read in the decimal system: the first of n + 1 digits counts for its value times ten to the n. |
| CalculatorLaws.WholeNumber | scripts/bench/make_tasks.py:849-861 | Digits alone are a number, and its value is theirs. |
| CalculatorLaws.DecimalFraction | scripts/bench/make_tasks.py:849-861 | A number with n digits behind the point, times ten to the n, is all its digits read without the point. |
| CalculatorLaws.NumbersAre | scripts/bench/make_tasks.py:849-861 | A number is digits, or digits, a point and digits, and nothing else is one. |
| CalculatorLaws.TextSum | scripts/bench/make_tasks.py:849-910 | For texts that give x and y, the text with a "+" between their parentheses gives x + y. |
| CalculatorLaws.TextDifference | scripts/bench/make_tasks.py:849-910 | With a "-" it gives x - y. |
| CalculatorLaws.TextProduct | scripts/bench/make_tasks.py:849-910 | With a "*" it gives x * y. |
| CalculatorLaws.TextQuotient | scripts/bench/make_tasks.py:849-910 | With a "/" it gives x / y, or a division by zero. |
| CalculatorLaws.TextNegation | scripts/bench/make_tasks.py:849-910 | A "-" in front of the parentheses gives -x. |
| CalculatorLaws.TextNumber | scripts/bench/make_tasks.py:849-910 | A number alone gives its value. |
| CalculatorLaws.SumsFromTheLeft | scripts/bench/make_tasks.py:874-880 | "r-s-t" is (r - s) - t. |
| CalculatorLaws.ProductsFromTheLeft | scripts/bench/make_tasks.py:883-889 | "r/s*t" is (r / s) * t. |
| CalculatorLaws.ProductBeforeSum | scripts/bench/make_tasks.py:874-889 | "r*s-t" is (r * s) - t. |
| CalculatorLaws.SumAroundProduct | scripts/bench/make_tasks.py:874-889 | "r+s*t" is r + (s * t). |
| CalculatorErrors.ErrorsAreExact | scripts/bench/make_tasks.py:864-910 | Each error is reported exactly if it is the first thing wrong when reading from left to right: no operand at the end or something else in its place, a parenthesis not closed, a complete quotient whose divisor is zero, something behind a complete expression, or no tokens at all. |
| CalculatorErrors.OperandPropagates | scripts/bench/make_tasks.py:874-910 | An error met where an operand is expected is the error of the whole, whatever has been read before. |
| CalculatorErrors.DividesBeforeStray | scripts/bench/make_tasks.py:883-889 | A division by zero is reported even if no tree has the tokens, as in "1 / 0 )". |
| CalculatorText.Tokenize | scripts/bench/make_tasks.py:852-861 | The position loop of `tokenize` scans the right-stripped text. |
| CalculatorText.TokenizeDecidesLayout | scripts/bench/make_tasks.py:849-861 | A text gives these tokens exactly if it is their layout with blank gaps, adjacent numbers kept apart, and a blank tail. |
| CalculatorText.EvaluateText | scripts/bench/make_tasks.py:864-871 | Every text that writes out a grammatical tree, spaced in any way, gives what the tree stands for, and no other text gives a value. |
| CalculatorText.PrintedTextEvaluates | scripts/bench/make_tasks.py:849-910 | Every way of spacing out the print of a syntax tree evaluates to the tree's value. |
| ActivityFacts.Count | scripts/bench/observations.py:7-148 | One pass over the stream, field by field as written, gives the report of the fold, and that report counts what the events name, as the next two rows say. |
| ActivityFacts.RequestsReported | scripts/bench/observations.py:42-148 | Request counts are known exactly if there is telemetry, none of it is lost or unreadable and no request changes hands; then they are the numbers of coding requests, of attempts, of coding attempts and of prewarm attempts named by the starts in the stream, and of the coding requests first named after a reminder. They are complete exactly if the starts and the known ends name the same requests and the same attempts, and every attempt belongs to a request. |
| ActivityFacts.CallsReported | scripts/bench/observations.py:86-148 | Tool calls count by the positions of their first starts, and unidentified ones by every start: those announced as verifications by an earlier message as automatic runs, all others as calls of their names. |
| ProviderActivity.FoldKeepsAbsorbed | scripts/bench/observations.py:42-85 | What has been seen once stays absorbed through any further events. |
| ProviderActivity.ReplayChangesNoCount | scripts/bench/observations.py:42-144 | Replaying any provider observation, or the start of any identified tool call, anywhere after its first occurrence changes no reported count. |
| UsageAccounting.UsageTally.Charge | scripts/bench/bench.py:451-462 | After any charges each field is exactly the sum of what it was charged, or is unknown because something charged to it was not a token count. |
| UsageAccounting.ChargeIsExact | scripts/bench/bench.py:451-462 | One charge keeps totals exact or unknown. |
| UsageAccounting.UnknownPoisons | scripts/bench/bench.py:655-657 | Charging unknown amounts makes every total unknown. |
| UsageFacts.TallyIs | scripts/bench/bench.py:451-462 | A field has a total exactly if something was charged and every charge states a token count for it, a charge with more cached than read tokens stating neither; the total is then the sum. |
| UsageAccounting.NotesFacts | scripts/bench/bench.py:603-640 | The receipt tables hold, per attempt, exactly what the stream says of it, and the conflict flag is set exactly if some attempt's receipts are incomplete, malformed or disagree. |
| UsageAccounting.ReceiptsAreEndedAttempts | scripts/bench/bench.py:603-640 | Receipts and the activity pass know the same ended attempts. |
| UsageAccounting.AccountableAttempts | scripts/bench/bench.py:655-661 | If totals are reported, every started attempt has an undisputed full receipt, and no other has one. |
| UsageAccounting.SureIsUndisputed | scripts/bench/bench.py:641-650 | The attempts of `known_usage` are exactly those with agreeing, full receipts. |
| UsageAccounting.BuildLedger | scripts/bench/bench.py:601-640 | The loop over the events builds these tables. |
| UsageAccounting.KnownUsage | scripts/bench/bench.py:641-650 | `known_usage` is the sum over exactly those attempts, each once, and none if there is none. |
| UsageAccounting.TallyReceipts | scripts/bench/bench.py:655-690 | Totals are available exactly if the stream is accountable and no record was malformed; then they are the sums over distinct attempts. |
| UsageFacts.ObservedUsage | scripts/bench/bench.py:601-690 | Totals are reported exactly if nothing of the stream is lost, everything has come to a known end, every receipt states its four numbers and no two receipts of an attempt differ. Then, over one receipt of every started attempt, input is the sum of fresh, cached and written tokens, and cached, output and written tokens are their own sums, and `known_usage` is the same. In any other case no total is reported, and `known_usage` holds these sums over exactly the attempts whose receipts are all certain and agree; so do the counts of complete and unknown attempts. |
| UsageFacts.SettledIsAccountable | scripts/bench/bench.py:601-690 | These conditions on the events are exactly what the tables of the code come to. |
| UsageFacts.TrustedIsUndisputed | scripts/bench/bench.py:603-650 | An attempt counts as known exactly if it has receipts, each of them certain, and all saying the same. |
| Stock.AdjustEffect | scripts/bench/make_large_tasks.py:2190-2202 | An adjustment changes the stock of its SKU by its delta and nothing else. |
| Stock.AdjustKeepsCovered | scripts/bench/make_large_tasks.py:2190-2202 | It keeps reservations covered exactly if it takes no more than is available. |
| Stock.ReserveEffect | scripts/bench/make_large_tasks.py:2217-2230 | A reservation adds what the lines ask for, which was available, and leaves stock alone. |
| Stock.ReleaseEffect | scripts/bench/make_large_tasks.py:2232-2233 | A release gives back exactly what the order held. |
| Stock.CommitEffect | scripts/bench/make_large_tasks.py:2235-2242 | Shipping sells over all warehouses together exactly what was held of each SKU, or everything on hand where an adjustment had left less. |
| Stock.CommitSellsHeld | scripts/bench/make_large_tasks.py:2235-2242 | On covered stock it sells exactly what was held and changes no availability. |
| Inventories.Inventory.AddProduct | scripts/bench/make_large_tasks.py:2168-2182 | A new SKU with a usable name and price starts without stock; otherwise nothing changes, with the source's errors in the source's order. |
| Inventories.Inventory.AdjustStock | scripts/bench/make_large_tasks.py:2190-2202 | One level and the log change together, or nothing does, with the source's errors in the source's order. |
| Inventories.Inventory.OnHandQty | scripts/bench/make_large_tasks.py:2204-2209 | The sum over warehouses. |
| Inventories.Inventory.ReservedQty | scripts/bench/make_large_tasks.py:2211-2212 | The sum over orders. |
| Inventories.Inventory.Reserve | scripts/bench/make_large_tasks.py:2217-2230 | All lines or none. |
| Inventories.Inventory.Release | scripts/bench/make_large_tasks.py:2232-2233 | Removes and returns the order's reservation. |
| Inventories.Inventory.Commit | scripts/bench/make_large_tasks.py:2235-2242 | Sells the reservation SKU by SKU and warehouse by warehouse, in name order. |
| Orders.AllocationIsExact | scripts/bench/make_large_tasks.py:2405-2410 | Each order line is split into reserved and backordered without loss, and together the lines take exactly what the budget allows. |
| Orders.PlaceReservesWhatIsFree | scripts/bench/make_large_tasks.py:2380-2417 | A placed order asks for what its lines ask for and reserves, of each SKU, as much of it as is free. |
| Orders.PlaceKeepsBook | scripts/bench/make_large_tasks.py:2380-2417 | Placing keeps the book and covered stock. |
| Orders.CancelReturnsTheOrder | scripts/bench/make_large_tasks.py:2425-2437 | Cancelling makes available exactly what the order's lines had reserved. |
| Orders.ShipSellsTheOrder | scripts/bench/make_large_tasks.py:2439-2446 | On covered stock shipping sells exactly what was ordered of every SKU and changes no availability. |
| Orders.ShipSellsTheOrderIff | scripts/bench/make_large_tasks.py:2439-2446 | On any stock, shipping sells of a SKU what was ordered exactly if that much is on hand, and the lesser of the two otherwise. |
| Orders.ActionKeepsBook | scripts/bench/make_large_tasks.py:2374-2446 | Every action keeps the book, and keeps stock covered exactly if it is not an adjustment that takes reserved stock. |
| Orders.RunKeepsBook | scripts/bench/make_large_tasks.py:2190-2446 | In every run each stock level is the sum of its logged deltas and each order holds what its lines say; without such adjustments no SKU is ever reserved beyond its stock. |
| Orders.OrderBook.PlaceOrder | scripts/bench/make_large_tasks.py:2380-2417 | The method leads to the specified state or error; `PlaceDecided` says what that is, and `RepeatReturnsTheFirst` what a repeated reference gets in every run. |
| Orders.OrderBook.CancelOrder | scripts/bench/make_large_tasks.py:2425-2437 | Shipped orders are refused, cancelled ones left alone, others released. |
| Orders.OrderBook.ShipOrder | scripts/bench/make_large_tasks.py:2439-2446 | Only open orders ship. |
| ShortShipment.ShipsShort | scripts/bench/make_large_tasks.py:2190-2446 | For every quantity and every loss there is a run that reserves an order in full, loses some of the reserved stock and then ships less than was ordered. |
| StockFacts.AddDecided | scripts/bench/make_large_tasks.py:2168-2182 | What adding a product answers, in the source's order of errors, and exactly what it changes. |
| StockFacts.AdjustDecided | scripts/bench/make_large_tasks.py:2190-2202 | The same for an adjustment: one level, by its delta, and one entry of the log. |
| StockFacts.ReserveDecided | scripts/bench/make_large_tasks.py:2217-2230 | The same for a reservation: the first bad line decides the error; then too much of any SKU; else the order holds just so much more of every SKU. |
| StockFacts.CommitDecided | scripts/bench/make_large_tasks.py:2235-2242 | Selling a reservation empties the warehouses in the order of their names, logs every sale and nothing else, and leaves the other reservations alone. |
| OrderFacts.PlaceDecided | scripts/bench/make_large_tasks.py:2380-2417 | What placing an order answers in every case: a blank reference is refused; a reference that an order has is answered with that order and nothing changes; no lines are refused, and of bad lines the first decides; too much of a product that must not be backordered is refused; else the book has one order more, with the next number, this reference and these lines, each served from what the lines before it leave, open exactly if nothing is short. |
| OrderFacts.OneOrderPerRef | scripts/bench/make_large_tasks.py:2384-2385 | No two orders of a book have one reference. |
| OrderFacts.CancelDecided | scripts/bench/make_large_tasks.py:2425-2437 | What cancelling answers, by status, and exactly what it changes. |
| OrderFacts.ShipDecided | scripts/bench/make_large_tasks.py:2439-2446 | The same for shipping. |
| OrderFacts.OrdersLast | scripts/bench/make_large_tasks.py:2374-2446 | In every run an order stays in the book with its reference and its lines; only an open one is ever shipped, and what is shipped or cancelled stays so. |
| OrderFacts.RepeatReturnsTheFirst | scripts/bench/make_large_tasks.py:2380-2385 | In every run, after a reference has been placed, placing it again, with any lines and at any time, returns the first order and changes nothing. |
| RequestTelemetry.Walk | scripts/bench/codex_otel.py:137-149 | On any table the walk ends; it says "rooted" exactly if a chain of parents leads to an explicit root, and then finds that chain's nearest sampling span and whether any span of it is a warmup. |
| RequestTelemetry.PathIsUnique | scripts/bench/codex_otel.py:137-144 | In an unambiguous table there is at most one such chain. |
| RequestTelemetry.CycleIsNotRooted | scripts/bench/codex_otel.py:138-149 | A walk that returns to a span it has seen never reaches a root. |
| RequestTelemetry.DanglingIsNotRooted | scripts/bench/codex_otel.py:138-149 | Nor does one that meets a parent missing from the table. |
| RequestTelemetry.Index | scripts/bench/codex_otel.py:130-135 | The index is built exactly if no two spans share an identity and differ in anything, be it only the name. |
| RequestTelemetry.RequestMetrics | scripts/bench/codex_otel.py:120-159 | The loops compute the report, which is a function of the sets of records and spans. |
| RequestTelemetry.CompleteIff | scripts/bench/codex_otel.py:120-159 | Telemetry is complete exactly if there were no errors, some record counts, the table is unambiguous, and every counted record is rooted and is a prewarm or has a sampling ancestor. |
| RequestTelemetry.CompleteAccountsForAll | scripts/bench/codex_otel.py:136-159 | Then prewarm and sampled attempts add up to the provider attempts, and there are at most as many logical requests as sampled attempts. |
| RequestTelemetry.OrderDoesNotMatter | scripts/bench/codex_otel.py:126-159 | Neither order nor repetition of records or spans changes the report. |
| TelemetryFacts.Reported | scripts/bench/codex_otel.py:120-159 | In the chains of ancestors themselves: attempts are the distinct records not of the model list; the rest is known exactly if nothing failed, no spans conflict and every such record has a chain to a root with a warmup or a sampling span in it; then prewarms are the records with a warmup in their chain, and logical requests the distinct first sampling spans of the others. |
| ProcessTree.ReachedIsLeast | scripts/bench/resource_lifecycle.py:31-42 | The processes reached are contained in every set that has the root and is closed under children no older than it. |
| ProcessTree.TreeMembers | scripts/bench/resource_lifecycle.py:25-43 | Ends on any table, cyclic or not; none exactly if the root is gone or its number was reused; otherwise exactly the processes reached from the root through processes no older than it that are neither zombies nor dead, without repeats. |
| ProcessTree.TreeRss | scripts/bench/resource_lifecycle.py:46-48 | The memory of the tree counts every such process once. |
| TagPublishing.StepGrows | scripts/release_identity.py:302-328 | No step of any publisher, or of anyone else, changes or removes a ref or an object. |
| TagPublishing.StepKeepsInv | scripts/release_identity.py:283-328 | Every step keeps the invariant on what each publisher has found and done. |
| TagPublishing.TagsNeverMove | scripts/release_identity.py:283-328 | Over every run of any number of publishers a tag once created is never changed. |
| TagPublishing.OnlyOneCreates | scripts/release_identity.py:318-321 | At most one publisher of a tag is ever told that it created it. |
| TagPublishing.OneCommitPerTag | scripts/release_identity.py:291-328 | Publishers of one tag that succeed, at whatever time, have the same commit. |
| TagPublishing.SuccessLasts | scripts/release_identity.py:291-328 | What a successful publisher found, an annotated tag of exactly its commit, stays there for the rest of the run. |
| TagPublishing.ReadTag | scripts/release_identity.py:283-288 | "Not found" is no error; anything else unexpected is. |
| TagPublishing.RequireTagMatches | scripts/release_identity.py:291-299 | Undisturbed, a tag is accepted exactly if it is an annotated tag of exactly the commit. |
| TagPublishing.PublishTag | scripts/release_identity.py:302-328 | One publisher's code, with others acting between its calls and answers lost or denied, is a run of the machine; success means the tag is there and names exactly the commit; undisturbed it creates a missing tag and otherwise succeeds exactly on an identical one. |
| CampaignSchedule.Schedule | scripts/bench/campaign.py:59-73 | Duplicates and missing harnesses are refused; otherwise the loops give the plan. |
| CampaignSchedule.PlanAt | scripts/bench/campaign.py:66-73 | Where each run stands, and which harness it has: repetition by repetition, task by task, in contiguous blocks, rotated by the offset, the place of the task and the repetition. |
| CampaignSchedule.EveryRunOnce | scripts/bench/campaign.py:59-73 | Every harness, task and repetition together exactly once, and nothing else. |
| CampaignSchedule.LatinWindow | scripts/bench/campaign.py:69-72 | Of as many consecutive tasks as there are harnesses, each harness runs at each position in exactly one. |
| CampaignSchedule.LatinRepetitions | scripts/bench/campaign.py:60-72 | And of as many consecutive repetitions, each harness runs at each position of a task's block in exactly one. |
| CampaignSchedule.LeadsItsShare | scripts/bench/campaign.py:69-72 | Of any T consecutive tasks of a repetition in the plan, each of H harnesses runs first in T / H, rounded down or up. |
| CampaignIntegrity.IntegrityErrors | scripts/bench/campaign.py:86-146 | No error exactly for a complete campaign; otherwise an error is reported exactly if it has its cause: a missing, unexpected or repeated key, a row without a key, a campaign without a name, or a value of some row that is wrong in the way the error says. |
| CampaignIntegrity.CheckRow | scripts/bench/campaign.py:120-144 | A row raises exactly the errors that are true of it, by itself, against the first row and against its own harness's first row. |
| CampaignIntegrity.Scan | scripts/bench/campaign.py:106-145 | The loop over the rows reports exactly the errors that have their cause in some row, and nothing exactly if the rows fit together. |
| CampaignIntegrity.CompleteIsOneToOne | scripts/bench/campaign.py:103-146 | A complete campaign has exactly one row for every expected key, and no other row. |
| CampaignIntegrity.ReorderingIsIrrelevant | scripts/bench/campaign.py:86-146 | Completeness for given keys does not depend on the order of the rows, although the code compares with the first one. |
| IntegrityFacts.CompleteIsWhole | scripts/bench/campaign.py:76-146 | In the members of the rows: complete means one row and no more for each harness, task and repetition, and none besides; each of version 2, named, described, timed, isolated, and honest about the six parts of success; any two of one campaign, and of one build where they are of one harness. |
| IntegrityFacts.ExpectedAre | scripts/bench/campaign.py:99-106 | Which keys are expected: of the harnesses given, or else of those that some row names and of davinci and codex. |
| MissingRows.MissingRowFailsUnless | scripts/bench/campaign.py:99-146 | Leaving out a row of what passes goes unnoticed exactly if the arms are not given and the row is the whole of an arm beyond davinci and codex. |
| MissingRows.RepeatedRowFails | scripts/bench/campaign.py:99-146 | Repeating any row at any place is rejected, with the arms given or not. |
| MissingRows.DroppedArmPasses | scripts/bench/campaign.py:99-106 | Three arms of one task and repetition pass, and so do the first two alone, unless the third was asked for. |
| MissingRows.OrderedAnyWayPasses | scripts/bench/campaign.py:86-146 | Acceptance does not depend on the order of the rows, whether the arms are given or taken from them. |
| CampaignManifest.ManifestErrors | scripts/bench/campaign.py:149-193 | No error exactly if the manifest is usable, the rows are complete for its plan, and every row says what it pins. Otherwise the first thing missing in the manifest is reported alone, or else exactly the errors of the campaign and exactly what differs in each row. |
| CampaignManifest.RowErrors | scripts/bench/campaign.py:172-192 | What differs between a row and the manifest is reported exactly; without an identity for its harness a row is looked at no further. |
| IntegrityFacts.AcceptedIsPinned | scripts/bench/campaign.py:149-193 | In the members of manifest and rows: accepted means the whole campaign that the manifest plans, each row with the seven pinned members, the isolation and the identity of its harness, the two members that may be pinned, and the seven labels of its task. |
| CampaignManifest.AcceptedInAnyOrder | scripts/bench/campaign.py:149-193 | Acceptance by a manifest does not depend on the order of the rows. |
| CampaignManifest.NoRowLessOrMore | scripts/bench/campaign.py:149-171 | No row can be left out of what a manifest accepts, and none repeated. |
| CampaignManifest.AcceptedCount | scripts/bench/campaign.py:149-171 | An accepted campaign has harnesses times tasks times repetitions rows. |
| LatencyStatistics.PercentileInRange | scripts/bench/campaign.py:468-473 | A percentile lies between any bounds of the values. |
| LatencyStatistics.PercentileIgnoresOrder | scripts/bench/campaign.py:468-473 | It does not depend on the order of the values. |
| LatencyStatistics.PercentileGrows | scripts/bench/campaign.py:468-473 | It grows with the fraction. |
| LatencyStatistics.PercentileBelow | scripts/bench/campaign.py:468-473 | It grows with every single value. |
| LatencyStatistics.PercentileTimes | scripts/bench/campaign.py:468-473 | It scales with the values. |
| LatencyStatistics.MedianIsPercentile | scripts/bench/campaign.py:494-498 | The median is the percentile at one half. |
| LatencyFacts.PercentileIs | scripts/bench/campaign.py:468-473 | The percentile is the value at place (n - 1) times the fraction of the sorted values, with what is left of it taken from the step to the next value; and no other number is. |
| LatencyFacts.StatisticsAre | scripts/bench/campaign.py:490-498 | The four statistics: the medians divided, the median of the differences, the 90th percentiles divided, the median of the quotients. |
| LatencyFacts.PairsAre | scripts/bench/campaign.py:493-498 | They are over the durations before and after, the differences after less before, and the quotients after by before. |
| LatencyFacts.DrawnWhole | scripts/bench/campaign.py:490-492 | A resample is made of whole tasks, each in the place in which it was picked, however often. |
| LatencyStatistics.IntervalOf | scripts/bench/campaign.py:499-502 | The lower bound of an interval is never above the upper one. |
| LatencyStatistics.LatencyUncertainty | scripts/bench/campaign.py:476-503 | For every choice of resamples the four intervals are those of the four statistics over the resamples; unavailable exactly below two tasks or with unusable durations. |
| LatencyFacts.Reported | scripts/bench/campaign.py:476-503 | Each interval reaches from the percentile at 0.025 to that at 0.975 of its statistic over the resamples, and says whether no change lies in between. |
| LatencyFacts.UsableIs | scripts/bench/campaign.py:487-488 | Intervals are available exactly with two tasks, positive baselines and no negative duration. |
| LatencyStatistics.IntervalsWithinRatios | scripts/bench/campaign.py:490-502 | If every run took between lo and hi times as long as its baseline, so do all three ratio intervals say, whatever is resampled; so a uniform factor is found exactly and a uniform gain is never reported as no change. |
| LatencyStatistics.IntervalWithinDeltas | scripts/bench/campaign.py:490-502 | The same for the paired differences. |
| FaintText.KeepFaint | scripts/ui/capture_tui.py:32-50 | The loop over the parameters gives the specified rewriting. |
| FaintText.SplitJoin | scripts/ui/capture_tui.py:34-50 | Splitting what was joined gives the parameters back. |
| FaintText.KeptColour | scripts/ui/capture_tui.py:38-42 | A colour is copied with the four parameters behind a "2", or the two behind anything else, as far as there are any. |
| FaintText.KeptOther | scripts/ui/capture_tui.py:43-48 | Anywhere else "2" becomes "5", "22" is followed by "25", and the rest is copied. |
| FaintText.RefacedJoin | scripts/ui/capture_tui.py:32-50 | A sequence is rewritten by its parameters, and an empty one stands for a reset. |
| FaintText.IdealShows | scripts/ui/capture_tui.py:32-50 | Moving faint to blink at exactly the attributes that set or clear it shows any blink-free sequence right to a reader of the standard: same colours and attributes, blink exactly where faint was. |
| FaintText.KeptIsIdealIff | scripts/ui/capture_tui.py:36-49 | The code does exactly that if and only if it looks at a "2" or "22" by itself exactly where an attribute has that value; this is enough for showing a sequence right. |
| FaintText.ShownRightIff | scripts/ui/capture_tui.py:36-49 | A sequence in which the code moves nothing but attributes is shown right, whatever came before it, exactly if at its end blink has followed faint and every faint spelled otherwise is undone. |
| FaintText.RewrittenShows | scripts/ui/capture_tui.py:32-50 | So a reader of the standard sees the rewritten sequence right if the code understands it or it settles in that way. |
| FaintText.StreamShownIff | scripts/ui/capture_tui.py:29-50 | A stream whose sequences move nothing but attributes is shown right, whatever came before it, exactly if blink has followed faint at every text; what is unsettled in between does not matter. |
| FaintText.PlainIsAligned | scripts/ui/capture_tui.py:36-42 | Sequences with plainly written colours move nothing but attributes. |
| FaintText.StreamShows | scripts/ui/capture_tui.py:29-50 | Over streams of such sequences every piece of text keeps its attributes and blinks exactly where it was faint. |
| FaintText.PlainIsUnderstood | scripts/ui/capture_tui.py:36-49 | Sequences written without leading zeros and with direct or indexed colours are all understood; operands of 38, 48 and 58 are never mistaken for attributes. |
| FaintText.OneParameter | scripts/ui/capture_tui.py:43-48 | A parameter that stands alone is shown right exactly if faint is not spelled with leading zeros. |
| FaintText.SelectorWithoutOperands | scripts/ui/capture_tui.py:38-42 | Faint right after a colour whose selector is neither 2 nor 5 is lost, for every such selector. |
| SubscriptionLedger.Subscription.Snapshot | scripts/bench/subscription_campaign.py:62-72 | A run may start exactly if the ledger file still says what the campaign has accepted, all of it committed. |
| SubscriptionLedger.Subscription.StopReason | scripts/bench/subscription_campaign.py:75-93 | A run passes exactly if it ended well and its ledger keeps every earlier reservation, adds at least one and has all committed; only then is the ledger remembered. Otherwise the first thing wrong gives the reason. |
| SubscriptionLedger.LedgerStopIs | scripts/bench/subscription_campaign.py:52-93 | The same in the members of the ledger: version, root, limits, cap, halting and dispositions. |
| SubscriptionLedger.Subscription.RunOne | scripts/bench/bench.py:713-815 | One run is accepted exactly if both checks pass and nothing stops it before or after them; an accepted run keeps every reservation and adds at least one, and a ledger is remembered only if both checks pass. Any other run is refused or stopped for the first reason there is. |
| SubscriptionLedger.LaterStopIs | scripts/bench/bench.py:756-808 | What stops a run whose ledger has passed: its model, an inventory that cannot be taken, a forbidden artifact, or the way grading ended, in this order. |
| SubscriptionLedger.RunsWithinCap | scripts/bench/subscription_campaign.py:52-93 | Every accepted run adds a request, so accepted runs never exceed the request cap, and everything reserved is committed. |
| SubscriptionLedger.ReservationsLast | scripts/bench/subscription_campaign.py:86-92 | What one accepted run reserved, every later accepted ledger still says unchanged. |
| SubscriptionLedger.NothingBetweenRuns | scripts/bench/subscription_campaign.py:62-72 | What the first check of a run sees is exactly what the last check of the run before it accepted. |
| SubscriptionLedger.RunAll | scripts/bench/bench.py:713-762 | Runs one after another on one subscription make such a campaign, with the cap kept. |
| FoldEconomics.Groups | scripts/bench/fold_economics.py:147-156 | Exactly the longest runs of consecutive compaction attempts, in order. |
| FoldEconomics.WholeIsKnown | scripts/bench/fold_economics.py:116-124 | The whole sum is known exactly if every part is, and then equals the sum of the known parts. |
| FoldEconomics.MeasuredSpans | scripts/bench/fold_economics.py:161-163 | The groups kept are those with a completed request, and every completed compaction is in one. |
| FoldEconomics.Analyze | scripts/bench/fold_economics.py:159-184 | The loop gives one row for each such group, in order. |
| FoldFacts.RowsAre | scripts/bench/fold_economics.py:159-184 | What a row says, by positions in the log: the number, the first turn and the summed figures of its completed compactions; the sizes of the last completed coding request before them and of the first one after them, up to the next row; their difference; that difference, if it is one, times the coding requests up to the next row; and that less the cost. A figure is unknown exactly if a part of it is. |
| FoldFacts.MeasuredAre | scripts/bench/fold_economics.py:147-163 | The rows are about exactly the longest runs of compactions with a completed one among them. |
| FoldFacts.KnownSumIs | scripts/bench/fold_economics.py:115-118 | A total of the summary adds what is known and is unknown only if nothing is. |
| FoldEconomics.InExactlyOneRow | scripts/bench/fold_economics.py:164-167 | Each completed compaction request is in exactly one row. |
| FoldEconomics.NothingLost | scripts/bench/fold_economics.py:159-190 | Rows together have every completed compaction request; completed coding requests before the first row plus the later ones of all rows are all completed coding requests; the rows' input, output and durations together are those of all compactions. |
| FoldEconomics.SummaryIsExact | scripts/bench/fold_economics.py:188-193 | If every completed compaction reports its input, output or duration, the summary's total of it is exactly their sum. |

## Left out

- FaintText.KeptIsIdealIff: states exactness for the rewritten parameters; what is shown is decided exactly by `ShownRightIff` and `StreamShownIff`, but not for sequences in which the code moves an operand of a colour that is spelled with leading zeros.
- FaintText.RewrittenShows: is about a reader of the standard; how the terminal emulator itself reads is not part of this model.
- CampaignOwnership.CampaignsNeverOverlap: is about runs whose admissions ask for the acknowledgment, which the code does not; `EvidenceDecides` says for which runs of the code it holds.
- NativeSupervisor.ReapEnded: ends because a run that is observed has finitely many steps of the members; `WaitsWithoutEnd` shows that no bound is known beforehand.
- MeasuredLaunch.Execute: the verdict on a Windows job is a parameter.
- NativeSupervisor.ReapDescendants: that it succeeds in time is stated for members that take no more steps and a kernel that obliges; a tree that keeps forking can outlast any limit.
- UsageFacts.ObservedUsage: covers streams with provider observations; the branches for Codex, Droid and streams without observations only sum what the stream says.
- LatencyStatistics.LatencyUncertainty: is over real numbers and starts from the paired durations by task; floating-point rounding, the refusal of unmatched pairs, and the random choice itself are not modelled.
- CampaignIntegrity.IntegrityErrors: decoded values inside a row are compared by canonical text, a number that is not finite counts as equal to itself, and the order of the reported missing keys is not modelled.
- FoldEconomics.Analyze: the shares of cached input and the harness's own counters are not modelled.
- TagPublishing.PublishTag: the shape of version, commit and repository names is not modelled, nor a service that names the wrong object.
- Orders.OrderBook.PlaceOrder: prices, regions and time stamps are not modelled, and quantities are integers already.
- First and later request groups, reasoning tokens, completeness ratios and the mutation and batch counters of the event stream.
- Prices (`_half_up`, `price_line`), reports and exports of the warehouse.
- `prepare` of a subscription campaign, which only checks its arguments.
- `aggregate_available`, `metric` and the promotion, parity and rollout gates, each settled by reading one branch.
- The slots and the Windows byte lock around the lock file; opening and locking the file itself.
- Reading `/proc`, parsing `stat` lines, and the sampling threads around `tree_rss`.
- Git, HTTP, OTLP collection, JSON text, hashing, credentials, and everything that draws or drives a terminal.
- Unicode whitespace and digits: text is ASCII where it is split into tokens or numbers.
