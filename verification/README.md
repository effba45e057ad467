# Verified models of the load-measurement protocol and the static checks

This project models, in Dafny, the parts of the repository whose correctness is an argument rather
than a reading: the SIP load driver with the responder it measures and the contract its evidence
must meet, the API compatibility relation, three static analyses, and the small arithmetic the
evidence rests on.

`dafny verify dfyconfig.toml` checks the whole project.

## What is modelled

**The load protocol.** `SipMessages` is the vocabulary, with headers already parsed and digested
identifiers as free constructors of what they are digested from. `DriverModel` is the driver as a
step machine: what one offer, one datagram, one due timer or one expiry does to the whole state, with
time in integer milliseconds. `DriverProcess` is the driver as the object it is: a class whose
methods update the dialog table, the Call-ID index, the timer heap and the counters in place, and
whose loops (timers, socket, pump, admission, drain, run) are driven by an arbitrary monotone clock,
arbitrary batches of responses and an arbitrary moment of interruption; every method is tied to the
step machine, so what is proved of all runs of the machine holds of the process. `FixtureModel` is
the responder, both as a reaction function and as a class. `LoadSystem` joins them by two FIFO
channels that may lose any datagram; `LoadValidity` and `LoadConservation` prove what that system
keeps, for runs that offer each index once, and `LoadService` that a call without loss is served.

What one event does is also said a second time, event by event and without the machine's functions,
and the two accounts are proved to agree: `DriverSummary` for every counter, `DriverLatency` for the
latency samples, `DriverWire` for the datagrams, `DriverArming` for the timers, `DriverAnswers` for the
responses taken as answers, `DriverPacing` for the instants of the offers, `FixtureLedger` for the
responder. `DriverAccounting`, `DriverWatch` and
`DriverSamples` hold the driver's own invariants for every run, `DriverTimers` and `DriverEffects`
those of runs that offer each index once, and `ResultContract` and `PassPredicate` connect its
counters to the responses that came in, to the contract's equations and to the runner's verdict.
`DriverTimeouts` says exactly when a dialog can be timed out before its time, and `IndexReuse` shows a
run in which one is.

**API compatibility.** `Json` has JSON values with Python's two equalities and the first-difference
walk; `ApiCompat` and `ApiDocuments` the comparison, loop by loop; `ApiClients` an independent account
of what downstream code relies on. That every listed use survives an accepted change is the result
that matters; the converse, that the comparison refuses nothing else, holds because the uses include
a client relying on each recorded fact (an item's attributes, a variant's shape or hidden fields), and
it is what makes the relation's being a preorder a short proof. `ApiEdits` is a third account: which
single edits of a record are accepted. `ApiVersions` reads version texts. `ApiFilter` is the removal of
Experimental API, held against `ApiSupported`, which says what is left in terms of the documents
alone.

**Static analyses.** `CfgPredicates`, `CfgPlatforms`, `CfgGates`, `CfgRoutes`, `CfgCallers` and
`CfgReports` (cfg predicates and their parser, the required-atoms analysis, what platforms add to it,
the gates of lines and files, the gated-callers rule, exactly when its reports are true, and reports
of it that are not), `FeatureResolution` (Cargo features as a least fixpoint, which is what the rules of
`FeatureRules` on the manifests' text derive) and `CarrierChain` (the bounded search through a cyclic type graph).

**Evidence arithmetic.** `BoundedReader`, `Ladder` and `Percentiles`.

`Wrappers`, `KeyOrder` and `FiniteSets` are shared vocabulary.

## What the proofs found

- A 2xx other than 200 is counted as a final and ended as `rejected`, so a drained summary meets the
  contract's equations exactly when 200 was the only 2xx among the responses counted and no code
  exceeded 699 (`ResultContract.ResponsesMeetContract`); every other such code breaks a run
  (`ResultContract.OtherCodesRefused`).
- The runner's pass predicate does not include the contract's "a 100 for every offer" clause. A
  passing run can lack a 100 for at most one offer in a thousand, and one that does is refused by the
  contract (`PassPredicate.PassingRunTried`, `PassPredicate.PassedYetRefused`).
- Under `trying_100` a call whose 100 was lost, and no other, can have its correct 200 called invalid
  (`LoadValidity.InvalidExactlyWhenHurried`).
- The warm-up and measured index ranges overlap when the warm-up passes 1,000,000 dialogs, which the
  program does not check (`DriverProcess.Driver.Run`); a repeated index lets a stale timer end a young
  dialog (`IndexReuse.StaleTimerEndsAnother`), which can happen exactly when a timeout of the earlier
  use was still pending at the second offer (`DriverTimeouts.EndsEarlyExactlyWhenStale`), and never in a
  run that offers each index once (`DriverTimeouts.TimeoutsComeDue`).
- The loop that lifts rounded percentiles never changes a value (`Percentiles.Percentiles`).
- The carrier search remembers declarations by file and name; it is complete exactly when those
  identify each declaration (`CarrierChain.CompleteExactlyWhenDistinct`).
- Three kinds of false report of the gated-callers rule: a file named by two gated `mod` declarations
  is taken to require both gates; an ungated `mod` inside a gated file passes no gate on; and a choice
  between two Unix systems does not count as `unix` (`CfgReports`). Where atoms keep
  one polarity, and on platforms where there is no `not`, a report is true of a build exactly when some
  chain of declarations that does not require the atom leads to the item and none leads to a use,
  whatever the gates say (`CfgCallers.ReportTrueExactly`); on platforms the analysis misses
  exactly the atoms that branches entail in different words (`CfgPlatforms.UnseenExactly`).
- The comparison is transitive because no variant is recorded as both a tuple and a struct
  (`ApiClients.UnshapedVariantBreaksTheChain`).

## Model

| member | source | states |
|---|---|---|
| `LoadSystem.EvolvesInvariant` | scripts/comparative-load-driver.py:328-443 | over every run of driver and fixture that offers each index once, on FIFO channels that may lose datagrams: requests and replies in flight are the proper ones of their call, no INVITE travels behind a BYE of its call, a call in teardown is active or completed at the fixture |
| `LoadSystem.CompletedExactlyOnce` | scripts/comparative-load-driver.py:690-727 | the fixture completes no call twice; a dialog the driver ended as `completed` was completed there exactly once and is active there in no later state |
| `LoadSystem.OverForever` | scripts/comparative-load-driver.py:307-320 | a finished dialog keeps its outcome in every later state of a run that offers each index once |
| `LoadSystem.ActiveIsLive` | scripts/comparative-load-driver.py:704-726 | while every ended dialog ended completed, whatever the fixture holds active is a live dialog of the driver |
| `LoadSystem.NeverRefused` | scripts/comparative-load-driver.py:704-713 | with the driver bound no larger than the fixture bound and every ended dialog completed, no reachable state has a 503 sent or in flight |
| `LoadConservation.NextCredits` | scripts/comparative-load-driver.py:307-320 | one event credits a completion exactly when it moves a dialog to `completed` |
| `LoadConservation.CompletionsConserved` | scripts/comparative-load-driver.py:698-727 | over every run that offers each index once the driver reports no more completions than the fixture counted; completed, refused and active calls together never exceed the INVITEs received; active load stays within its high water and that within the bound |
| `LoadService.ServedWithoutLoss` | scripts/comparative-load-driver.py:690-727 | from every reachable state with nothing in flight and both sides on the same settings: a fresh index, offered while both have room and sent without fault, can be served to its end; it then is completed at the driver and, once more, at the fixture, no datagram is left, and no other dialog, error class or held call is different |
| `LoadValidity.InvalidByResponse` | scripts/comparative-load-driver.py:362-387 | a dialog becomes `invalid_message` exactly when a response of its own fails one of the listed tests |
| `LoadValidity.StepInvalid` | scripts/comparative-load-driver.py:385-387 | against the fixture, one step of the system does so exactly by delivering a 200 to a dialog that still waits for the 100 its policy requires, and then a 100 of that call was lost |
| `LoadValidity.InvalidExactlyWhenHurried` | scripts/comparative-load-driver.py:362-436 | over every run that offers each index once, with both sides on the same settings, whatever is lost, delayed or sent again: a dialog ends as `invalid_message` if and only if its 200 was delivered while it waited for a required 100, and only if a 100 of its own was lost |
| `LoadValidity.InvalidMessagesBounded` | scripts/comparative-load-driver.py:362-436 | the driver records no more `invalid_message` than there are calls of which a 100 was lost: none on lossless channels, none under the policy without provisionals |
| `LoadValidity.LostTryingIsBlamed` | scripts/comparative-load-driver.py:385-387 | from any start under `trying_100`, a run that loses the 100 of one call ends that dialog as `invalid_message` |
| `DriverAccounting.NextAccounted` | scripts/comparative-load-driver.py:264-325 | every event keeps: `active` is the size of the dialog table and within bound, the Call-ID index is its exact inverse, offered = completed + errors + live counted dialogs, the response tallies match the counters, and under `trying_100` every established dialog was tried |
| `DriverAccounting.RunAccounted` | scripts/comparative-load-driver.py:264-443 | the same in every reachable state |
| `ResultContract.SummaryMeetsContract` | scripts/comparative-load.py:715-780 | for every drained run: the summary meets the accounting clauses if and only if 200 was the only counted 2xx, no counted code exceeds 699 and, for a passed `trying_100` run, every offer got its 100 |
| `ResultContract.NextCounts` | scripts/comparative-load-driver.py:322-443 | an event changes a response tally exactly when it is the first 100, or the final, of a live counted dialog that does not end as invalid by it, and then by one under its own code |
| `ResultContract.TalliesTaken` | scripts/comparative-load-driver.py:322-325 | in every run each code is counted exactly as often as such responses of that code came in |
| `ResultContract.ResponsesMeetContract` | scripts/comparative-load.py:715-780 | for every drained run, read off the responses: the summary meets the accounting clauses if and only if those it counted had no 2xx but 200 and no code beyond 699 and, for a passed `trying_100` run, it counted a 100 for every offer |
| `ResultContract.OtherCodesRefused` | scripts/comparative-load-driver.py:400-417 | for every code in 201..299 or from 700 on and every status: a run in which it answers one counted dialog drains and fails the accounting clauses |
| `ResultContract.ProfileResponderAddsUp` | scripts/comparative-load.py:715-780 | a responder whose only 2xx is 200 and whose codes stop at 699 yields totals that add up, whatever else it sends |
| `PassPredicate.PassingRunTried` | scripts/comparative-load-run.py:684-705 | a run passing under `trying_100` has completed <= tried <= offered, lacks a 100 for at most one offer in a thousand, and meets the contract if and only if none is lacking and the codes were the profile's |
| `PassPredicate.PassedYetRefused` | scripts/comparative-load.py:752-756 | for every n >= 999 a run of n served dialogs and one INVITE the socket refused passes the runner's predicate and fails the contract |
| `DriverSamples.RunSampled` | scripts/comparative-load-driver.py:388-443 | in every run, indices offered twice included, no set-up or teardown sample is negative |
| `DriverLatency.RunTimes` | scripts/comparative-load-driver.py:388-443 | over every run, indices offered twice included: a set-up sample is taken exactly when a valid 200 takes a counted dialog out of its calling phase, and is the reading then less that of the last offer of its index; a teardown sample exactly when a 200 to its BYE completes a counted dialog, and is the reading then less that of its acceptance |
| `DriverSummary.CountersExact` | scripts/comparative-load-driver.py:264-468 | over every run each counter (offers, set-ups, the eight ways to end, retransmissions both ways, the warm-up pair) grows by exactly the number of its own events, written out one by one: `admission_refused` by the 503 answers to an INVITE, `rejected` by the other finals that are not 200, `transport_error` by the sends that raised, and so on |
| `DriverSummary.HighWaterExact` | scripts/comparative-load-driver.py:286-290 | the reported high water is the most dialogs live just after an offer of the measured phase was admitted |
| `DriverWire.NextSends` | scripts/comparative-load-driver.py:256-295 | one event of any run hands to the socket exactly: the INVITE of an admitted or due dialog; ACK and, unless that failed, BYE for the 200 waited for; the ACK again for a 200 heard again, of a finished dialog too; for any other final the ACK with the INVITE's branch and the response's To tag; a BYE due again |
| `DriverArming.NextArms` | scripts/comparative-load-driver.py:293-468 | one event of any run arms exactly: the pair of a transaction whose request was sent, 500 ms and 32 s ahead; the next retransmission, at twice the interval and for a BYE at most 4 s; and gives dialogs those intervals |
| `DriverAnswers.ObjectionExact` | scripts/comparative-load-driver.py:362-436 | what the driver objects to, header by header: branch, tags, CSeq and Contact against the identifiers of the dialog, the provisional policy, and the codes |
| `DriverAnswers.EndsExact` | scripts/comparative-load-driver.py:342-350 | a retransmitted 200 is acknowledged again when the last word of its CSeq ends in INVITE |
| `PassPredicate.RunLatency` | scripts/comparative-load-run.py:684-698 | over every run: the set-up record is that of the times from each counted dialog's last offer to its 200, one for each established dialog, the teardown record that of the times from acceptance to the 200 to the BYE, one for each completed; both pass the percentile check once they exist; a passing run took at most 250 ms for at least 99 of 100 of those set-ups |
| `DriverTimers.NextTimed` | scripts/comparative-load-driver.py:446-468 | every event keeps: the heap is in pop order, each live dialog has an unfired timeout at its INVITE time + 64*T1 and exactly one pending retransmission of its phase, and no dialog has sent more than its schedule allows |
| `DriverTimers.NextFrame` | scripts/comparative-load-driver.py:448-468 | one event leaves the state, the timers, the INVITEs and the BYEs of every dialog but its own untouched |
| `DriverTimers.RunTimed` | scripts/comparative-load-driver.py:446-468 | the same as NextTimed in every state reachable without offering an index twice |
| `DriverTimers.SendBudget` | scripts/comparative-load-driver.py:252-295 | however late timers fire, a dialog of a run that offers each index once sends at most 7 INVITEs and 11 BYEs |
| `DriverWatch.RunWatched` | scripts/comparative-load-driver.py:264-295 | in every reachable state, indices offered twice included, each live dialog has its own timeout, INVITE time + 64*T1, pending in a heap in pop order |
| `DriverWatch.NoneOutlivesTimerB` | scripts/comparative-load-driver.py:448-456 | once no due timer is left, no live dialog is as old as 64*T1 |
| `DriverTimers.InviteAgain` | scripts/comparative-load-driver.py:457-462 | a due INVITE retransmission means fewer than 7 were sent, and doubling its interval keeps the schedule |
| `DriverTimers.ByeAgain` | scripts/comparative-load-driver.py:463-468 | a due BYE retransmission means fewer than 11 were sent, and the capped doubling keeps the schedule |
| `DriverEffects.NextEffect` | scripts/comparative-load-driver.py:328-443 | one event, an offer being of an unused index, moves at most one dialog one stage, sends only messages proper to its new stage, and completes it only on a 200 to its BYE |
| `DriverProcess.RangesRepeat` | scripts/comparative-load-driver.py:530-550 | the indices of the two phases repeat exactly when the warm-up ran past 1,000,000 dialogs and something was measured |
| `DriverProcess.RunDistinct` | scripts/comparative-load-driver.py:264-295 | a run whose offers repeat no index is one to which the results on distinct indices apply |
| `DriverTimeouts.NextPatient` | scripts/comparative-load-driver.py:264-295 | every event keeps: no pending timeout of a live dialog comes due before its age is 64*T1, if none of its index did when it was offered |
| `DriverTimeouts.TimeoutsComeDue` | scripts/comparative-load-driver.py:446-456 | over every run that offers each index once: every timer that ends a dialog as `transaction_timeout` fires at least 64*T1 after its INVITE |
| `DriverTimeouts.EndsEarlyExactlyWhenStale` | scripts/comparative-load-driver.py:448-456 | in any run, for an offer within the bound and sends that get through: some continuation times the dialog out before the age of 64*T1 if and only if, as it is offered, a timeout of its index is pending that comes due before then |
| `IndexReuse.StaleTimerEndsAnother` | scripts/comparative-load-driver.py:448-456 | for every index: a run that offers it, serves it and offers it again ends the second dialog as `transaction_timeout` by a timer of the first, any chosen time below 500 ms after its INVITE |
| `DriverWatch.FireCountsDown` | scripts/comparative-load-driver.py:448-468 | one pass of the inner timer loop leaves strictly fewer due timers, since every re-armed deadline lies after `now` |
| `DriverProcess.RunTotals` | scripts/comparative-load-driver.py:264-305 | `offered` is the number of indices offered while counting, and nothing is `cleanup_timeout` unless expired |
| `DriverProcess.Driver.constructor` | scripts/comparative-load-driver.py:164-206 | an initial state: nothing live, armed or counted |
| `DriverProcess.Driver.Offer` | scripts/comparative-load-driver.py:264-295 | refused at the bound, else entered, counted, sent and armed as the step machine says, at a fresh clock reading |
| `DriverProcess.Driver.Established` | scripts/comparative-load-driver.py:388-399 | a valid 200 marks the dialog with fresh readings of the clock, its set-up sample and teardown start among them, and sends ACK and BYE with the timers of the step machine |
| `DriverProcess.Driver.HandleCalling` | scripts/comparative-load-driver.py:362-417 | the whole calling state, branch by branch, as the step machine |
| `DriverProcess.Driver.HandleBye` | scripts/comparative-load-driver.py:419-443 | the whole bye_sent state, branch by branch, as the step machine |
| `DriverProcess.Driver.HandleDatagram` | scripts/comparative-load-driver.py:328-443 | the run is extended by exactly this arrival and stays a run |
| `DriverProcess.Driver.RunDue` | scripts/comparative-load-driver.py:449-468 | the inner timer loop ends, with no due timer left |
| `DriverProcess.Driver.ReadBatch` | scripts/comparative-load-driver.py:474-482 | the datagrams of one wake-up are handled in order, each once |
| `DriverProcess.Driver.Pump` | scripts/comparative-load-driver.py:446-482 | of the loop's readings the last is the first past `until`, and every live dialog is then younger than 64*T1 |
| `DriverProcess.Driver.Admit` | scripts/comparative-load-driver.py:484-495 | exactly the next `admitted` indices were offered, all of them unless admission stopped; the k-th no earlier than `pace(k)` after the reading on entry, and at the first of the loop's readings since the offer before it that shows so, whatever the target answered; and none at a reading taken after the stop |
| `DriverPacing.PacedWait` | scripts/comparative-load-driver.py:488-494 | one more wait keeps every offer prompt: the reading that ends it is the first past the due time, and the offer is no earlier |
| `DriverProcess.Driver.Drain` | scripts/comparative-load-driver.py:497-502 | true exactly when nothing is live; gives up only at a reading past the bound; with clock readings at most bound - 64*T1 apart it always drains |
| `DriverProcess.Driver.DrainTurn` | scripts/comparative-load-driver.py:500-501 | ends the drain exactly at a reading past the deadline, and otherwise runs the event loop until the first reading 50 ms after the next, or past the deadline |
| `DriverProcess.Driver.ExpireLeftovers` | scripts/comparative-load-driver.py:504-508 | whatever was live is ended as `cleanup_timeout`, and the number returned is how many |
| `DriverProcess.Driver.Run` | scripts/comparative-load-driver.py:510-560 | nothing is left live; the offers are exactly the two index ranges, each paced from the first reading of its phase, without repetition exactly when the warm-up stayed below the second or nothing was measured, and then no dialog was timed out before the age of 64*T1; counting starts after the warm-up, only before a stop and only if that drained without expiring anything; nothing is offered after a stop; `offered` is what was admitted while counting; the summary meets the accounting clauses exactly when the codes and the 100s were the profile's; with clock readings close enough no drain fails and `cleanup_timeout` stays 0 |
| `FixtureModel.Fixture.ReceiveBatch` | scripts/comparative-load-driver.py:688-727 | a batch of requests changes the books and is answered as the reactions one after another |
| `FixtureLedger.BatchBooked` | scripts/comparative-load-driver.py:690-727 | after any batch: INVITEs are openings, overloads and repeats, counted so; every opening was completed or is still held; the high water is the most that was held |
| `FixtureLedger.BatchCodes` | scripts/comparative-load-driver.py:698-726 | the codes answered, in order: 200 after a 100 under `trying_100` to an opening, 503 to an overload, 200 to a repeat and to any BYE, nothing to an ACK |
| `Percentiles.RoundMonotone` | scripts/comparative-load-driver.py:120-122 | rounding half to even keeps order |
| `Percentiles.RoundExact` | scripts/comparative-load-driver.py:120-122 | rounding yields the nearest whole number and, halfway, the even one |
| `Percentiles.NearestRank` | scripts/comparative-load-driver.py:113-130 | p50, p95 and p99 are samples with enough samples at or below them and too few strictly below |
| `Percentiles.BoundCoversShare` | scripts/comparative-load-driver.py:120-130 | a rounded percentile is within a bound if and only if that share of the rounded samples is |
| `Percentiles.Lift` | scripts/comparative-load-driver.py:131-135 | each value becomes the largest up to it, the first included, so the result always rises, and values that rose already are untouched |
| `Percentiles.Percentiles` | scripts/comparative-load-driver.py:113-136 | no record without samples; otherwise the count, for 50, 95 and 99 the least whole number that this share of the rounded samples does not exceed, and the largest rounded sample: the final lift never changes anything |
| `Percentiles.MetricsValid` | scripts/comparative-load.py:558-567 | the record of any non-negative samples passes the contract's percentile check |
| `BoundedReader.Reader.TakeLine` | scripts/comparative-load.py:929-950 | one chunk of an unsettled first line: what is kept, queued and flagged depends on the bytes so far only |
| `BoundedReader.Reader.Take` | scripts/comparative-load.py:921-950 | one chunk keeps the evidence a function of the bytes so far |
| `BoundedReader.Reader.Run` | scripts/comparative-load.py:913-958 | however the stream is cut into reads: `data` is its prefix of length `limit`, exactly one readiness item holds the first line cut at min(limit, 4096), overflow and incomplete readiness hold exactly as the stream says |
| `BoundedReader.DrainedExact` | scripts/comparative-load.py:894-958 | nothing kept exceeds its limit and nothing that fits is dropped; overflow is reported if and only if something was dropped, of the stream or of its first line; the readiness item is incomplete if and only if it is the whole stream, without a newline |
| `BoundedReader.FirstLineMore` | scripts/comparative-load.py:929-934 | the first line of a longer stream |
| `Ladder.RunLadder` | scripts/comparative-load-run.py:755-783 | attempts rates up to the first two consecutive failures, every one five times, and lists exactly the others as omitted |
| `Ladder.RunnerFaithful` | scripts/comparative-load-run.py:755-783 | for every pass/fail history and ladder length the runner's evidence is faithful |
| `Ladder.OmittedAfterAgrees` | scripts/comparative-load.py:390-397 | before each rate and at the end the contract names exactly the rates the runner omits |
| `Ladder.Excused` | scripts/comparison-report.py:1234-1238 | the search for two consecutive dead rates |
| `Ladder.StopMeaning` | scripts/comparison-report.py:1234-1246 | nothing measured after the stop and nothing left out unjustified is exactly the stopping rule |
| `Ladder.LadderProblems` | scripts/comparison-report.py:1219-1275 | no complaint if and only if results and omission record are what the runner would have left |
| `Ladder.FaithfulUnique` | scripts/comparison-report.py:1219-1275 | for given outcomes there is only one such pair |
| `Ladder.LadderClimbs` | scripts/comparative-load.py:382-387 | each of the six rates is the least that reaches the ceiling when doubled once for every rate after it; they are distinct if and only if it exceeds 16 |
| `Json.FirstDifferenceExact` | scripts/api_compat.py:874-894 | no difference if and only if the values are equal, types included; a reported path is a real difference and everything before it in key order agrees |
| `KeyOrder.LexExact` | scripts/api_compat.py:877-882 | keys are walked in the order of Python's `sorted`: a prefix first, else by the first character that differs |
| `Json.LooseExact` | scripts/api_compat.py:1127-1163 | Python's `==` on JSON values: equal once every number, truth values included, is read as a real |
| `Json.LooseTransitive` | scripts/api_compat.py:1146-1163 | Python's `==` on JSON values is transitive |
| `ApiCompat.VariantDifferenceExact` | scripts/api_compat.py:897-945 | no difference if and only if the variant is equal, or reserved and only extended |
| `ApiCompat.MemberDifferenceExact` | scripts/api_compat.py:948-956 | no difference if and only if the member is equal but for a gained default |
| `ApiCompat.ReportsExact` | scripts/api_compat.py:1035-1043 | exactly the lost or changed children are reported |
| `ApiCompat.ChildProblems` | scripts/api_compat.py:1035-1043 | the loop over old children reports, in key order, each lost or changed one, and nothing exactly when all are kept |
| `ApiCompat.HeaderProblem` | scripts/api_compat.py:981-1020 | no header problem if and only if the common record is unchanged and a trait keeps its object safety |
| `ApiCompat.StructProblems` | scripts/api_compat.py:1023-1053 | nothing if and only if fields are kept and an open struct gained none, hidden or public |
| `ApiCompat.EnumProblems` | scripts/api_compat.py:1066-1083 | nothing if and only if variants are kept and an exhaustive enum gained none |
| `ApiCompat.MemberProblems` | scripts/api_compat.py:1084-1103 | nothing if and only if members are kept and every added one is optional |
| `ApiCompat.BodyProblems` | scripts/api_compat.py:1022-1117 | nothing if and only if the item is kept |
| `ApiCompat.CompatibilityProblems` | scripts/api_compat.py:959-1118 | reports exactly the Supported paths that are not kept, and says which are gone and which were reclassified |
| `ApiEdits.OtherEntryRefused` | scripts/api_compat.py:1006-1020 | any entry of an item but the six compared by rule, changed, added or dropped, is refused |
| `ApiEdits.ForeignEntryIgnored` | scripts/api_compat.py:1022-1103 | an item that is no struct, union, enum or trait may change five of the six freely |
| `ApiEdits.FieldAdded` | scripts/api_compat.py:1044-1064 | a public field more is accepted if and only if the item is a union, non-exhaustive or already has hidden fields |
| `ApiEdits.FieldHidden` | scripts/api_compat.py:1024-1032 | a first hidden field of a struct is accepted if and only if it is non-exhaustive |
| `ApiEdits.VariantAdded` | scripts/api_compat.py:1078-1083 | a variant more is accepted if and only if the enum is non-exhaustive |
| `ApiEdits.VariantFieldAdded` | scripts/api_compat.py:897-925 | a field more of a tuple variant is accepted if and only if the variant itself is non-exhaustive |
| `ApiEdits.MemberAdded` | scripts/api_compat.py:1096-1103 | a trait item more is accepted if and only if it is a function or constant with a default |
| `ApiEdits.ImplementationAdded` | scripts/api_compat.py:1105-1117 | an implementation more is accepted |
| `ApiEdits.ChildRemoved` | scripts/api_compat.py:1035-1117 | a field, variant, trait item or implementation less is refused |
| `ApiEdits.DynChanged` | scripts/api_compat.py:1000-1004 | a trait may become usable behind `dyn` and may not cease to be |
| `ApiEdits.DefaultChanged` | scripts/api_compat.py:948-956 | a default of a trait item may be gained and not lost |
| `ApiDocuments.DocumentProblems` | scripts/api_compat.py:1121-1168 | nothing if and only if the baseline accepts the candidate |
| `ApiDocuments.BaselineUpdateProblems` | scripts/api_compat.py:1171-1175 | the same with new packages allowed |
| `ApiVersions.MajorExact` | scripts/api_compat.py:1130-1141 | the major version read is n if and only if the text starts with n, a dot, a number, a dot and a number, printed without leading zeros |
| `ApiClients.UseSurvives` | scripts/api_compat.py:959-1118 | every client use of an item (naming it, its signature, fields, full literals, exhaustive matches, variants, trait impls, objects, implementations) survives an accepted change |
| `ApiClients.KeptExactlyWhenUsesSurvive` | scripts/api_compat.py:959-1118 | a change to an item is accepted if and only if no use of the modelled kinds breaks |
| `ApiClients.CompatibleExactlyWhenClientsCompile` | scripts/api_compat.py:959-1118 | a package is compatible if and only if every client made of such uses that compiled still compiles |
| `ApiClients.AcceptsReflexive` | scripts/api_compat.py:1121-1168 | a document is an update of itself if and only if its schema and major version are current |
| `ApiClients.AcceptsTransitive` | scripts/api_compat.py:1121-1175 | acceptance is transitive |
| `ApiClients.RolledKeepsFirst` | scripts/api_compat.py:1171-1175 | after any chain of accepted updates the last document has no problem against the first |
| `ApiClients.ClientsOutliveUpdates` | scripts/api_compat.py:1171-1175 | a client of the first document compiles against the last |
| `ApiClients.UnshapedVariantBreaksTheChain` | scripts/api_compat.py:915-945 | a variant recorded as both tuple and struct would break transitivity |
| `ApiFilter.FilterSupportedItems` | scripts/api_compat.py:671-728 | fails if and only if a supported path, stripped of its Experimental children, still holds an unresolved identity or refers beneath a root, and then names the first such path in key order and its least fault; otherwise keeps exactly the paths neither of whose names lies beneath a root, each with every supported variant, item and implementation unchanged, no other, and everything else as it was |
| `ApiFilter.ResolvedExact` | scripts/api_compat.py:648-657 | the references collected are those of the objects anywhere in the value that carry a `resolved` path |
| `ApiFilter.MarkersExact` | scripts/api_compat.py:660-668 | the markers collected are the texts anywhere in the value that start with `unresolved::` |
| `ApiFilter.NothingExperimental` | scripts/api_compat.py:671-728 | without roots the filter gives the items back, if none holds an unresolved identity |
| `ApiFilter.FilteredUntainted` | scripts/api_compat.py:671-728 | no kept path, definition, child, implementation header or reference lies at or below an Experimental root, and no identity is unresolved |
| `ApiFilter.FilterInStages` | scripts/api_compat.py:671-728 | refiltering an output with the same roots or more gives exactly what filtering the original with them gives, errors included |
| `ApiFilter.FilterIdempotent` | scripts/api_compat.py:671-728 | refiltering with the same roots changes nothing |
| `ApiFilter.MoreRootsKeepLess` | scripts/api_compat.py:671-728 | adding roots never adds a kept path, nor anything to a kept record |
| `CarrierChain.EdgeIsSuccessor` | scripts/check-audio-claims.py:1493-1511 | what the chase follows: a declaration in the same file, or every declaration when there is none |
| `CarrierChain.WalkSound` | scripts/check-audio-claims.py:1545-1567 | a returned chain spells a real unredacted path of at most six hops to a buffer |
| `CarrierChain.WalkComplete` | scripts/check-audio-claims.py:1545-1567 | any such path that repeats no file-and-name makes the walk answer |
| `CarrierChain.ChainExact` | scripts/check-audio-claims.py:1527-1567 | on any type graph a chain is returned if and only if a path of at most six hops, no two of whose declarations share file and name, reaches a buffer, and it spells the first of them in depth-first order |
| `CarrierChain.ChainComplete` | scripts/check-audio-claims.py:1527-1567 | where file and name identify a declaration: if and only if any path of at most six hops reaches a buffer |
| `CarrierChain.TwinIsMissed` | scripts/check-audio-claims.py:1548-1558 | of any two declarations of one name in one file, one hop apart, the second is never looked at |
| `CarrierChain.CompleteExactlyWhenDistinct` | scripts/check-audio-claims.py:1527-1567 | the search is complete on every crate with given declarations if and only if file and name identify each of them |
| `CarrierChain.RedactionNeverAdds` | scripts/check-audio-claims.py:1514-1524 | redacting more types never adds a report |
| `CarrierChain.ReportedInPopulation` | scripts/check-audio-claims.py:1570-1587 | every reported type is in the unredacted population |
| `FeatureResolution.CloseFeatures` | scripts/check-app-surface.py:309-326 | the least set holding the wanted features and closed under the crate's own activations |
| `FeatureResolution.VisitEdge` | scripts/check-app-surface.py:387-398 | one dependency edge: nothing beyond the least surface is added, and no change means the edge is met |
| `FeatureResolution.VisitCrate` | scripts/check-app-surface.py:382-398 | one crate: the same for its closure and all its edges |
| `FeatureResolution.Resolve` | scripts/check-app-surface.py:357-399 | terminates and returns the least map closed under defaults, own features, optional activation and feature requests, in whatever order crates and features are taken; a crate or feature is on it if and only if the rules on the manifests' text derive it from the roots |
| `FeatureResolution.ResolvedDerived` | scripts/check-app-surface.py:309-399 | the least closed map holds exactly what follows, in any number of steps, from: the roots and their `default`; own activations, which are the texts without a slash and not starting with `dep:`; dependencies not optional, or activated by a feature of their name or an enabled text `dep:n`, `n` or `n/...`; and the features an edge lists, defaults to or is asked for by `n/f` |
| `FeatureResolution.LineHonoured` | scripts/check-app-surface.py:329-354 | an enabled line `dep:n` or `n` of a crate that depends on n puts n on the surface; `n/f` also puts f on it |
| `FeatureRules.AsksPlainly` | scripts/check-app-surface.py:346-354 | for a name without a slash the text that asks for feature f of it is `n/f` |
| `FeatureResolution.ResolvedUnique` | scripts/check-app-surface.py:357-399 | there is one such map |
| `FeatureResolution.MoreRootsWiden` | scripts/check-app-surface.py:402-404 | adding an application only widens the surface |
| `CfgPredicates.Parse` | scripts/check-cfg-callers.py:322-346 | a parsed predicate ends strictly after it began and within the tokens |
| `CfgPredicates.ParsePrinted` | scripts/check-cfg-callers.py:322-346 | wherever a printed predicate stands, the parser reads exactly it, trailing commas included |
| `CfgPredicates.AtomsOfPrinted` | scripts/check-cfg-callers.py:370-387 | a printed predicate is readable and yields the required atoms of what was meant |
| `CfgPredicates.RequiredSound` | scripts/check-cfg-callers.py:349-367 | every configuration satisfying a predicate satisfies each required atom |
| `CfgPredicates.ParsePlain` | scripts/check-cfg-callers.py:304-346 | whatever parses from lexed tokens has no atom that could be taken for a negated one |
| `CfgPredicates.RequiredExact` | scripts/check-cfg-callers.py:349-367 | where every atom keeps one polarity, under at most a `not` of its own, and no `any` is empty: an atom or negated atom is required if and only if it holds in every satisfying configuration |
| `CfgPredicates.RequiredGaps` | scripts/check-cfg-callers.py:358-367 | each restriction is needed: an empty `any`, a double negation and an atom in both polarities each hide something every satisfying configuration has |
| `CfgGates.Enclosing` | scripts/check-cfg-callers.py:614-620 | the atoms of the scopes around a line |
| `CfgGates.EnclosingSound` | scripts/check-cfg-callers.py:614-620 | they hold in every configuration that compiles the line |
| `CfgGates.FileGates` | scripts/check-cfg-callers.py:687-710 | eight passes hand down everything along chains of up to eight gated declarations and nothing beyond the least inheriting assignment; what they say is true of every file declared once; once settled it is that assignment, and a shallow workspace always settles |
| `CfgGates.RanksShallow` | scripts/check-cfg-callers.py:695-708 | a workspace whose gated declarations nest at most seven deep is shallow |
| `CfgReports.TwiceDeclaredMisreports` | scripts/check-cfg-callers.py:700-707 | two gated declarations of one `mod`: an item is reported for lacking the second gate although its use compiles without it |
| `CfgReports.NestedModMisreports` | scripts/check-cfg-callers.py:698-707 | an ungated `mod` in a gated file is not followed: an item is reported for lacking a gate it is never compiled without |
| `CfgReports.ChoiceMisreports` | scripts/check-cfg-callers.py:390-409 | for any predicate without `not`: an item under it is reported for lacking an atom that every platform compiling it has, if and only if the atom is forced but not among what the analysis implies |
| `CfgReports.UnixUnseen` | scripts/check-cfg-callers.py:390-409 | `unix` is such an atom for an item for either of two Unix systems |
| `CfgPlatforms.Implied` | scripts/check-cfg-callers.py:390-409 | the atoms and what each entails |
| `CfgPlatforms.EntailedSound` | scripts/check-cfg-callers.py:390-409 | what an atom entails holds wherever it does, under the platform axioms |
| `CfgPlatforms.ForcedExact` | scripts/check-cfg-callers.py:349-409 | without `not`: an atom holds on every platform satisfying a predicate if and only if it is required once entailments are added at each atom, before branches are intersected |
| `CfgPlatforms.UnseenExactly` | scripts/check-cfg-callers.py:390-409 | exactly those atoms that the analysis, adding entailments after intersecting, does not list are held by every such platform although the predicate is taken not to entail them |
| `CfgPlatforms.ConjunctionSeen` | scripts/check-cfg-callers.py:349-409 | of a conjunction of atoms the analysis misses nothing any platform forces |
| `CfgRoutes.AvoidableExactly` | scripts/check-cfg-callers.py:687-710 | over a workspace of one-polarity predicates, or one without `not` and on platforms, however files are declared: a line is compiled somewhere with an atom false if and only if it and some chain of declarations to its file are free of the atom |
| `CfgCallers.Shared` | scripts/check-cfg-callers.py:750-768 | whether there is a use, and the atoms every use outside the declaration requires |
| `CfgCallers.ReportedAtomsNeeded` | scripts/check-cfg-callers.py:806-814 | no use compiles in any configuration where a reported atom is false |
| `CfgCallers.ImpliedAtomsHold` | scripts/check-cfg-callers.py:806-814 | every atom held back as implied holds wherever the item compiles |
| `CfgCallers.ReportTrueExactly` | scripts/check-cfg-callers.py:806-814 | over the same workspaces, whatever the gates say and however often files are declared: a report is true of a build (the item is compiled somewhere without the atom, no use is) if and only if a chain of declarations free of the atom leads to the item and none to a use |
| `CfgCallers.ReportedItemsOutlive` | scripts/check-cfg-callers.py:806-814 | where the gates suffice: a reported item is compiled somewhere with the atom false when every declaration on its route was handed down and the predicates on it need nothing the analysis does not see |
| `CfgCallers.SeenDeclarationsPassed` | scripts/check-cfg-callers.py:698-707 | once settled, every gated declaration was handed down |
| `CfgCallers.Check` | scripts/check-cfg-callers.py:771-825 | the findings are about exactly the gated items of files in a unit that no other crate can name (`pub` in a `src` root), whose covering predicates were all read and that lack an atom (used in their unit outside their declaration, every use needs it, nothing the item needs entails it), and name exactly those atoms; no use compiles where one is false in builds that declare each file once, the item does where its gates were handed down, and, over the workspaces of `CfgRoutes.AvoidableExactly`, the report is true of any build exactly when a chain of declarations free of the atom leads to the item and to no use; the gates hold all chains of up to eight declarations, settle when none is longer than seven, and once settled give each file exactly what the declarations naming it need where they stand |
| `CfgCallers.ExportedTestsCovered` | scripts/check-cfg-callers.py:792-796 | a `pub` item under a `tests`, `benches` or `examples` root is reported like any other |
| `CfgCallers.SettledBequeathed` | scripts/check-cfg-callers.py:687-710 | settled gates: an atom is inherited if and only if some gated `mod` that may mean the file needs it, by its own predicates or by what its file inherits |

## Left out

- DriverTimers.RunTimed: speaks of runs that offer no index twice, and so do SendBudget and all results on the joined system (`LoadSystem`, `LoadValidity`, `LoadConservation`); `DriverProcess.Driver.Run` says when the process runs so, and `IndexReuse.StaleTimerEndsAnother` what happens otherwise. `DriverAccounting.RunAccounted`, `DriverWatch.RunWatched`, `DriverSamples.RunSampled` and `DriverTimeouts.EndsEarlyExactlyWhenStale` need no such hypothesis.
- IndexReuse.StaleTimerEndsAnother: is a run of the step machine; that a process with a long warm-up repeats an index is in `DriverProcess.Driver.Run`, but no particular execution of the process is constructed.
- The small methods of `DriverProcess.Driver` and `FixtureModel.Fixture` that only mirror one step (arming, finishing, sending, refusals, stray responses, one timer pop) are verified but have no row of their own.
- LoadService.ServedWithoutLoss: starts with nothing in flight; what holds of calls whose datagrams interleave is in the invariants of `LoadSystem`.
- DriverProcess.Driver.Admit: how soon the loop reads the clock again is the clock's affair, so nothing bounds how late after its due instant an index is offered.
- DriverProcess.Driver.Drain: the clock is asked to be read often enough (at most bound - 32 s between readings, 8 s for the 40 s bound); without that a drain may fail, and the contract says nothing of it.
- ApiCompat.CompatibilityProblems: problems carry the kind of change, the child and the path of the difference instead of message text; a record whose fields have the wrong JSON type, on which the program raises, is read as if the field were empty; NaN is not a JSON number here.
- ApiClients.AcceptsTransitive: asks that no variant be recorded as both tuple and struct, which the extractor never does.
- ApiFilter.FilterSupportedItems: paths are taken in key order, the order in which the extractor writes them; a `resolved` entry that is not a string is ignored.
- FeatureResolution.Resolve: requires a manifest for every workspace dependency; the program raises when one cannot be read.
- Ladder.LadderProblems: takes results that passed the result contract, and does not model the schema and closed-key complaints about the omission file.
- CfgCallers.Check: takes scopes, declarations and mentions as the readers report them, and predicates as token lists of the lexer's shape; that no use compiles where a reported atom is false is about builds in which each file named by a gated declaration is declared once.
- CfgCallers.ReportedItemsOutlive: gives a condition in terms of the gates that suffices; `CfgCallers.ReportTrueExactly` has the exact one, on the declarations themselves.
- CfgRoutes.AvoidableExactly: a platform is what the checker's own entailments say it is, so nothing keeps two operating systems apart; where an atom occurs in both polarities in one workspace, or platforms are asked about and a `not` occurs, no equivalence is claimed.
- BoundedReader.Reader.Run: an exception while reading is the end of the stream; the consumer's side of the queue is not modelled.
- Percentiles.Percentiles: samples are exact reals, not floating-point numbers.
- Sockets, `select`, real clocks, signals, forks and process groups: adversarial inputs (responses, clock readings, failing sends, an interruption) stand for them.
- SHA-256 and SIP text: identifiers are equal exactly when what they are digested from is; datagrams that do not parse, and responses whose status is not three decimal digits, never reach the model.
- The timer heap: a sequence kept in pop order, equal deadlines in arming order, instead of an array heap.
- The counters of `Driver` are one record field of the class; the message texts a dialog caches are rebuilt from its index.
- Floating-point pacing: the due time of an offer is an arbitrary function of how many were admitted.
- The batch limit of 512 datagrams per wake-up: a batch may have any length.
- `RustdocApi`, `public_items` and toolchain checks in `scripts/api_compat.py`: extraction from rustdoc JSON.
- `read_source`, `extent_of`, `subject_of`, `type_body`, `followed_types` and the other readers of Rust text: their results are inputs.
- `reachable` in `scripts/check-audio-claims.py`, and the other rules of that file and of `scripts/check-app-surface.py`: they would add easier members of the kinds shown.
- The closed-key schema checks of manifests, results and reports: each is settled by reading one branch.
- Process supervision, packaging, release, documentation-link and report-index scripts: orchestration and text matching.
