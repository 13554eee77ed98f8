# Verified model of the agent marketplace core

A Dafny model of the parts of the marketplace that move value and keep its evidence: the wallet store,
the multi-milestone escrow machine above it, the Merkle tree and hash chains, the gates against
concurrent calls, spending policy with single-use approvals, measured reputation, discovery ranking and
the mailroom. Check it with `dafny verify dfyconfig.toml`.

How the model is laid out:

- **Wallet** is the specification of the value store; **WalletService** is the object itself, over live
  rows that all callers of `getOrCreate` share, proved against it; **WalletOutcomes** says when each call
  succeeds and what every balance then is. **LockQueue** is the per-key promise chain stepped at every await,
  for arbitrary critical sections; **WalletQueue** puts the wallet's own sections into it, await by await.
  **Spends** is the rolling spend row.
- **Escrow** is the specification of every escrow call, including what a call that throws leaves behind;
  **EscrowService** is the object, proved against it loop by loop. **EscrowInvariant** states what records
  and wallet agree on. **EscrowMoves**, **EscrowCalls** and **EscrowSettlement** prove what each step, call
  and sweep does; **EscrowOutcomes** says exactly when each call succeeds; **EscrowRuns** proves the
  invariant over whole runs with the exact guard of every call; **EscrowTerms** reads each call as the parties
  do - who gets what, on which hash or ruling - and **EscrowBooks** says what goes into spends and receipts;
  **EscrowFinality** says what is final, **EscrowLeftovers** that a hold no record names is never settled by
  any escrow call, and **EscrowExamples** has runs from the empty service that reach what the guards exclude.
- **Merkle**, **HashChain**, **Ledger** and **Board** are the evidence structures, with the hash functions
  as parameters that are assumed injective where a theorem needs it.
- **Idempotency** and **Nonce** are the two gates; **Policy**, **Approvals** and **SpendCaps** the
  delegation policy, its clearances and the caps over runs of one pay after another; **SpendRaces** has the
  pays overlap.
- **Reputation**, **Similarity**, **Ranking** and **Mailroom** are the measured signals and the messages.
- **Amounts**, **Outcomes**, **Sums**, **Products** and **Sorting** are small shared helpers.

Amounts are exact decimals (reals), times are integer milliseconds and days, wallet keys are pairs, and
fresh ids are names nobody used before. An exception is `Thrown(state, error)`: the services write live
objects, so a call that throws may have written already.

Where the code and its comments part, the model follows the code:

- `ledger.ts:76-79` calls the second head check sufficient; the value it compares was read before an
  await, so two appends can fork the chain (`Ledger.OverlappingAppendsFork`). The exact condition is
  `Ledger.StepKeepsChainIff` for a step and `Ledger.VerifiedIffUnraced` for a run.
- `approvals.ts:87-89` says nothing can come between status check and write; the status is read before an
  await, in `consume` and in `resolve`. Two overlapping redemptions both sign (`Approvals.RedemptionsRace`).
  Two overlapping resolutions that disagree flip the ruling (`Approvals.OverlappingRulingsFlip`), although
  `approvals.ts:60-63` calls a flip a conflict; two that agree bring a used approval back, which then clears a
  second signature (`Approvals.LateRulingSignsTwice`). The exact conditions are
  `Approvals.EndConsumeKeepsIff` and `Approvals.EndResolveKeepsIff` for a step and `Approvals.OrderIffSafe`
  for a run.
- `wallet/service.ts:204-208` says usage always reflects settled charges; a pay is judged on a reading from
  before it signs and records its spend after the rail has moved the value, so two overlapping pays can
  exceed a cap (`SpendRaces.OverlappingPaysExceed`). The exact condition is `SpendRaces.EveryPayWithinIff`.
- `escrow/service.ts:134-155` takes holds one by one and undoes none when a later one fails: the money stays
  locked in holds that no record names. `EscrowRuns.OpenKeepsIff` is the exact condition,
  `EscrowExamples.OpenCanStrand` a run, and `EscrowLeftovers.UnnamedForever` says that no escrow call ever
  settles such a hold.
- `escrow/service.ts:513-514` says the stake of unaffected milestones stays held after a slash; the code
  forfeits the whole stake at once (`EscrowMoves.SlashEffect`).
- `escrow/service.ts:323-332` gives a frivolous disputer's bond to the payee, also when the payee is the
  disputer: the disputer loses it if and only if it is not the payee (`EscrowOutcomes.FrivolousBondIff`;
  a run in which the payee has it back is `EscrowExamples.PayeeKeepsBond`).
- `release`, `capture` and `forfeit` test the hold before they take the lock
  (`wallet/service.ts:131-134`): `Wallet.SettleSafeIff` is the exact condition, and
  `WalletQueue.OverlappingReleasesPayTwice` a run in which two releases of one hold both pay.
- `escrow/service.ts:355-357` ends the whole escrow with a dispute that a checksum decides. What the other
  milestones had locked then stays locked for good: `EscrowFinality.DisputeStrandsIff` is the exact
  condition, `EscrowExamples.DisputeCanStrand` a run.
- `escrow/service.ts:193-201` lets a refunded milestone be delivered again and marks it before the settlement
  throws: `EscrowCalls.DeliverKeeps` is the exact condition, `EscrowExamples.RedeliveryCanBreak` a run.
- `mailroom/service.ts:320-371` reads the thread state and writes its successor later:
  `Mailroom.PersistKeepsFoldIff` is the exact condition for a step, `Mailroom.RunFoldsIff` and
  `Mailroom.RunOnwardIff` for a run.
- `ranking.ts:217-218` promises half the schema signal when only one schema is requested; the code gives all
  of it on a hit (`Ranking.SchemaFraction`).
- `reputation.service.ts:194-205` refuses a second currency only for receipts that move value:
  `Reputation.IngestedIffOneCurrency` is the exact condition.
- A timeout that refunds or releases never ends in `timed_out`: all milestones are settled by then and the
  recomputation that follows overwrites it with `released` or `resolved`
  (`EscrowSettlement.TimeoutEffect`).

## Model

| member | source | states |
|---|---|---|
| Wallet.RunKeepsInv | src/features/settlement/wallet/service.ts:78-193 | Over every run of credit, debit, hold, release, capture and forfeit, with calls that throw in between: no available balance goes negative and every wallet's held amount is the sum of its active holds |
| Wallet.ApplyKeepsInv | src/features/settlement/wallet/service.ts:78-193 | The same for one call, whatever it returns or throws |
| Wallet.HeldNonnegative | src/features/settlement/wallet/service.ts:103-128 | Held balances are never negative |
| Wallet.RunSettlesOnce | src/features/settlement/wallet/service.ts:130-193 | A hold keeps its owner, amount and reference for ever and leaves `active` at most once in any run |
| Wallet.RunConserves | src/features/settlement/wallet/service.ts:78-193 | Available plus held plus burned equals credits minus debits in every currency over every run, also when a hold is paid out to its own owner |
| Wallet.EmptyWallet | src/features/settlement/wallet/memory.ts:10-26 | A store without rows starts every such run: the invariant holds and every total is zero |
| Wallet.SettleSafeIff | src/features/settlement/wallet/service.ts:130-143 | The critical section of a settlement, entered after the state was tested outside the lock, keeps the books exactly when the hold is still active |
| Wallet.SectionsSafeIff | src/features/settlement/wallet/service.ts:130-193 | The same for the three sections: release, capture and forfeit |
| Wallet.BurnSafeIff | src/features/settlement/wallet/service.ts:178-192 | The same for a forfeit that pays nobody |
| WalletOutcomes.CreditOutcome | src/features/settlement/wallet/service.ts:78-85 | A credit succeeds exactly on a positive amount, which that wallet then has more; nothing else moves |
| WalletOutcomes.DebitOutcome | src/features/settlement/wallet/service.ts:87-99 | A debit succeeds exactly on a positive amount up to and including the whole balance, which falls by it; otherwise it throws invalid or insufficient and no balance or hold changes |
| WalletOutcomes.HoldOutcome | src/features/settlement/wallet/service.ts:103-128 | A hold is taken exactly on a positive amount up to the whole balance, which moves from available to held |
| WalletOutcomes.ReleaseOutcome | src/features/settlement/wallet/service.ts:130-143 | A release succeeds exactly on an active hold and gives its owner the amount back |
| WalletOutcomes.CaptureOutcome | src/features/settlement/wallet/service.ts:145-159 | A capture succeeds exactly on an active hold and pays all of it to the recipient |
| WalletOutcomes.ForfeitOutcome | src/features/settlement/wallet/service.ts:164-193 | A forfeit succeeds exactly on an active hold with a fraction in [0,1]; the recipient gets what is not burned |
| WalletOutcomes.DebitsCoveredIff | src/features/settlement/wallet/service.ts:87-99 | Any list of debits of one wallet goes through exactly if all are positive and the balance covers their sum, to the last unit |
| WalletService.WalletService.Credit | src/features/settlement/wallet/service.ts:78-85 | adds to the live row; a non-positive amount throws and changes nothing; the new state is the one of the specification the properties are proved about |
| WalletService.WalletService.Debit | src/features/settlement/wallet/service.ts:87-99 | takes from the live row; without cover it throws and leaves a zeroed row behind; the new state is the one of the specification the properties are proved about |
| WalletService.WalletService.Hold | src/features/settlement/wallet/service.ts:103-128 | moves available to held and appends an active hold, or throws; the new state is the one of the specification the properties are proved about |
| WalletService.WalletService.Release | src/features/settlement/wallet/service.ts:130-143 | returns an active hold to its owner, or throws not found or conflict; the new state is the one of the specification the properties are proved about |
| WalletService.WalletService.Capture | src/features/settlement/wallet/service.ts:145-159 | moves an active hold to the recipient, correct also when both parties share one live row; the new state is the one of the specification the properties are proved about |
| WalletService.WalletService.Forfeit | src/features/settlement/wallet/service.ts:164-193 | pays the unburned part of an active hold and drops the rest; a fraction outside [0,1] throws; the new state is the one of the specification the properties are proved about |
| WalletService.WalletService.RecordSpend | src/features/settlement/wallet/service.ts:238-254 | adds to the rolling spend row, starting the daily part anew on a new day; the new state is the one of the specification the properties are proved about |
| Spends.RecordOutcome | src/features/settlement/wallet/service.ts:238-254 | A spend is recorded exactly if it is positive, in the lifetime total and in the day's part of that row only |
| WalletService.WalletService.GetOrCreate | src/features/settlement/wallet/memory.ts:17-24 | Hands out one shared live row per wallet and creates it zeroed |
| WalletService.WalletService.BalanceOf | src/features/settlement/wallet/service.ts:73-76 | The available amount, zero for an unknown wallet |
| LockQueue.StepKeepsQueue | src/features/settlement/wallet/service.ts:52-67 | Every await-level step keeps: waits point to earlier calls only, no earlier call on a shared key is forgotten, a call starts only after them, and a key without a tail has nobody left to wait for |
| LockQueue.JoinKeepsWaits | src/features/settlement/wallet/service.ts:53-59 | Joining behind the found tails covers every earlier call on the keys |
| LockQueue.StartKeepsOrder | src/features/settlement/wallet/service.ts:56-57 | A section whose waits are done starts after every earlier call on its keys |
| LockQueue.CleanKeepsTails | src/features/settlement/wallet/service.ts:62-66 | Deleting a tail that is still one's own loses no waiter |
| LockQueue.MutualExclusion | src/features/settlement/wallet/service.ts:46-67 | At most one critical section per key runs at a time |
| LockQueue.SomebodyCanMove | src/features/settlement/wallet/service.ts:46-67 | No deadlock: some call up to the earliest unfinished one can always take its next step |
| LockQueue.RunKeepsQueue | src/features/settlement/wallet/service.ts:52-67 | The queue is in order at every moment of every run, whatever the critical sections do and whatever they share |
| LockQueue.RunKeepsInv | src/features/settlement/wallet/service.ts:52-67 | At every moment of every run whose calls share with an unfinished call nothing but locked keys, a running section sees in its places what the one-after-the-other run would show it; places of finished calls may be used again |
| LockQueue.IdlePlaceSerial | src/features/settlement/wallet/service.ts:131-134 | What a call finds outside the lock, in a place no unfinished call uses, is what the serial run of all earlier calls leaves there |
| LockQueue.InterleavingIsSerial | src/features/settlement/wallet/service.ts:46-67 | Whenever all calls that joined have finished, every such interleaving has left exactly what running them one after another in joining order leaves, for any bodies that keep to their places |
| LockQueue.RunsAlone | src/features/settlement/wallet/service.ts:52-67 | Any run that has come to rest can go on with any call, from its join to its end |
| WalletQueue.JobsAreLocal | src/features/settlement/wallet/service.ts:78-193 | The wallet's own sections, cut at every await, touch only the rows they lock, their local, and the hold they take or settle |
| WalletQueue.AdmittedIff | src/features/settlement/wallet/service.ts:130-176 | A call is admitted exactly if the specification's call returns or throws only for want of balance, which is found out inside the lock |
| WalletQueue.CallPlayed | src/features/settlement/wallet/service.ts:78-193 | An admitted call that runs alone, stretch by stretch, leaves the rows and the holds that the specification's call leaves |
| WalletQueue.AfterAllIsRun | src/features/settlement/wallet/service.ts:78-193 | Calls one by one, with holds under names, are a run of the specification |
| WalletQueue.WalletRunKeeps | src/features/settlement/wallet/service.ts:130-134 | In every run each call would have passed its checks, and seen the same hold, had its turn come in the serial run |
| WalletQueue.OverlappingCallsSerialise | src/features/settlement/wallet/service.ts:46-193 | Any await-level interleaving of wallet calls, holds taken and settled within it, no two in flight naming one hold: whenever all that joined have finished, all rows and all holds are those of the same calls one by one in joining order, a run of the specification |
| WalletQueue.CallsRun | src/features/settlement/wallet/service.ts:78-193 | Such runs exist for every list of calls that the books admit in turn, holds taken and settled within it |
| WalletQueue.OverlappingReleasesPayTwice | src/features/settlement/wallet/service.ts:130-142 | From any books in order, two releases of one active hold can both pass the check before the lock, pay it out twice and break the books |
| EscrowRuns.CallKeepsIff | src/features/settlement/escrow/service.ts:94-426 | From books in order a call keeps them in order if and only if its guard holds: opening fails before the first hold or is distinct and fully funded, no delivery on a refunded milestone, nobody else settles or imitates an escrow hold |
| EscrowRuns.RunKeepsInv | src/features/settlement/escrow/service.ts:94-511 | Over every guarded run: milestone holds are active, captured or returned as the milestones say, stake and bond ids name active holds, no active escrow hold is unnamed, an escalation exists exactly while disputed, and each settled milestone has exactly one receipt, over its amount and saying delivered exactly if it was paid |
| EscrowRuns.StartsInOrder | src/features/settlement/escrow/service.ts:134-168 | The empty service satisfies the invariant |
| EscrowRuns.OpenKeepsIff | src/features/settlement/escrow/service.ts:134-168 | Holds taken before a failing one stay behind: open keeps the books exactly when it fails at once or goes through with distinct ids |
| EscrowRuns.FundingOutcome | src/features/settlement/escrow/service.ts:134-145 | Funding goes through exactly when all amounts are positive and the payer can afford their sum |
| EscrowRuns.OpenOutcome | src/features/settlement/escrow/service.ts:94-168 | A valid new contract opens exactly when payer and provider can fund milestones and then stake |
| EscrowRuns.OpenHolds | src/features/settlement/escrow/service.ts:134-155 | The hold table grows by one hold per milestone, in order, and the stake |
| EscrowRuns.OpenRecordShape | src/features/settlement/escrow/service.ts:134-168 | The stored record is open, all milestones pending, each naming its own hold |
| EscrowRuns.DeliverKeepsIff | src/features/settlement/escrow/service.ts:182-218 | Delivering keeps the books exactly unless the milestone was refunded |
| EscrowRuns.WalletKeepsIff | src/features/settlement/wallet/service.ts:103-193 | Another wallet user breaks the escrow books exactly by settling or imitating an escrow hold |
| EscrowRuns.ResolveEffect | src/features/settlement/escrow/service.ts:434-479 | A redeemed ruling settles the whole escrow, pays everyone as ruled and closes it as resolved or timed out; a refused one changes nothing |
| EscrowOutcomes.AcceptOutcome | src/features/settlement/escrow/service.ts:221-243 | Accepting succeeds exactly for the payer of an open escrow on a delivered or paid milestone, and leaves it released and the others alone; the last milestone closes the escrow |
| EscrowOutcomes.DeliverOutcome | src/features/settlement/escrow/service.ts:182-218 | Delivering succeeds exactly for the payee of an open escrow, except on a refunded milestone that its checksum decides; hash and time are recorded, a bare checksum decides at once, and the last milestone closes the escrow. The excepted call throws and leaves the mark |
| EscrowOutcomes.DisputeOutcome | src/features/settlement/escrow/service.ts:253-280 | Disputing succeeds exactly for a party, on an unsettled milestone, within the window, with an affordable bond |
| EscrowOutcomes.TimeoutOutcome | src/features/settlement/escrow/service.ts:365-376 | The timeout succeeds exactly on an open escrow from deliver_by on |
| EscrowOutcomes.ResolveOutcome | src/features/settlement/escrow/service.ts:434-462 | Redeeming succeeds exactly for a party of an escalated escrow once there is a ruling |
| EscrowOutcomes.FrivolousBondIff | src/features/settlement/escrow/service.ts:321-332 | A disputer whose dispute the checksum rejects is down by the bond if and only if it is not the payee, who gets the bond whoever posted it |
| EscrowOutcomes.DeliverRefused | src/features/settlement/escrow/service.ts:182-196 | Why a delivery throws - closed, not the provider, no such milestone, already settled - and that nothing changes except the mark in the last case |
| EscrowOutcomes.AcceptRefused | src/features/settlement/escrow/service.ts:221-239 | Why an acceptance throws, changing nothing |
| EscrowOutcomes.DisputeRefused | src/features/settlement/escrow/service.ts:253-285 | Why a dispute throws, the window and the bond included, moving no money |
| EscrowOutcomes.TimeoutRefused | src/features/settlement/escrow/service.ts:365-376 | A timeout that throws changes nothing |
| EscrowOutcomes.ResolveRefused | src/features/settlement/escrow/service.ts:434-462 | Why a ruling is not redeemed, changing nothing |
| EscrowOutcomes.UnknownRefused | src/features/settlement/escrow/service.ts:702-709 | Every call on an escrow that does not exist throws not found and changes nothing |
| EscrowTerms.OpeningTerms | src/features/settlement/escrow/service.ts:94-168 | A contract opens exactly if its milestones add up to a positive total under a new id, every amount is positive, and payer and provider can afford total and slashable stake; exactly that is then locked |
| EscrowTerms.DeliveryTerms | src/features/settlement/escrow/service.ts:182-218 | Handing in work: how the milestone ends on which hash, what each balance gets, when the stake returns and when the escrow closes |
| EscrowTerms.AcceptanceTerms | src/features/settlement/escrow/service.ts:221-243 | Accepting delivered work pays the provider; the stake returns with the last settlement |
| EscrowTerms.DisputeTerms | src/features/settlement/escrow/service.ts:253-360 | A dispute that goes through, from the agreed and the delivered hash alone: a match pays the provider the amount and the bond, a mismatch refunds, slashes and returns the bond, anything else locks the bond and escalates |
| EscrowTerms.RulingTerms | src/features/settlement/escrow/service.ts:545-590 | A redeemed ruling: the milestone goes to the provider exactly if its own dispute is upheld or the payer's rejected, the stake is slashed exactly if not, the bond returns exactly if the ruling is for the disputer, and all other open amounts go back to the payer |
| EscrowTerms.TimeoutTerms | src/features/settlement/escrow/service.ts:365-426 | From deliver_by on: all open amounts to the payer, or all to the provider, as the contract says, or an escalation that lists exactly the open milestones |
| EscrowTerms.TimeoutRulingTerms | src/features/settlement/escrow/service.ts:592-614 | A ruling on a timeout sends all open amounts to the provider if approved, else to the payer, and the stake back |
| EscrowBooks.CallWrites | src/features/settlement/escrow/service.ts:484-511 | Every call, also one that throws: what it adds to the spends falls on the UTC day of the call, and of the receipts for work that was not delivered exactly those for the milestone in dispute say disputed |
| EscrowCalls.DeliverKeeps | src/features/settlement/escrow/service.ts:182-218 | Delivering leaves the record in order, and balances and spends move exactly as it says, if and only if the milestone was not refunded before |
| EscrowCalls.RedeliveryMarks | src/features/settlement/escrow/service.ts:193-218 | Delivering a refunded milestone again: the mark stays although the settlement throws |
| EscrowCalls.JudgeIs | src/features/settlement/escrow/service.ts:203-213 | On delivery only a milestone with a bare, agreed checksum is settled: captured on a matching hash, refunded on any other |
| EscrowCalls.VerdictSaid | src/features/settlement/escrow/service.ts:656-668 | The verdict in a dispute: pass exactly on equal hashes and fail on different ones, with a checksum agreed, bare or beside a schema, and a hash delivered; otherwise none |
| EscrowCalls.WinnerIs | src/features/settlement/escrow/service.ts:545-573 | Who wins a ruling: the provider exactly if its own dispute is upheld or the payer's rejected |
| EscrowCalls.AcceptKeeps | src/features/settlement/escrow/service.ts:221-243 | The same for accept |
| EscrowCalls.DisputeEffect | src/features/settlement/escrow/service.ts:253-360 | What each verdict of a dispute does to money and milestones: pass pays the provider and the bond goes to the payee, fail slashes the stake, refunds and returns the bond, otherwise only the bond is locked |
| EscrowMoves.CaptureEffect | src/features/settlement/escrow/service.ts:484-495 | Capturing an unsettled milestone succeeds, pays it once, records the spend and one receipt, and frees the stake if it was the last |
| EscrowMoves.RefundEffect | src/features/settlement/escrow/service.ts:498-511 | Refunding likewise returns it to the payer |
| EscrowMoves.SettledAgain | src/features/settlement/escrow/service.ts:484-511 | Settling a settled milestone again the same way does nothing, and the other way throws and changes nothing |
| EscrowMoves.StakeEffect | src/features/settlement/escrow/service.ts:533-543 | The stake goes back with the last settlement and not before |
| EscrowMoves.SlashEffect | src/features/settlement/escrow/service.ts:515-526 | Slashing forfeits the whole stake and pays the payer exactly the share |
| EscrowMoves.SlashedShareProportional | src/features/settlement/escrow/service.ts:515-526 | The payer's share is the milestone's proportion of the stake to within one millionth of the stake, and all of it for a single milestone |
| EscrowMoves.SlashBurns | src/features/settlement/escrow/service.ts:515-526 | Exactly the rest of a slashed stake is burned |
| EscrowMoves.SlashFraction | src/features/settlement/escrow/service.ts:517-524 | Dividing to 20 places and rounding to 6 gives a burn fraction in [0,1] within a millionth of the exact one |
| EscrowMoves.CloseBondEffect | src/features/settlement/escrow/service.ts:323-349 | Closing the bond pays it to its owner or the winner, in full, and clears it |
| EscrowSettlement.SweepEffect | src/features/settlement/escrow/service.ts:401-425 | Refund or release at timeout settles every milestone of any contract the same way and leaves nothing locked; captured plus refunded is the total exactly, and the escrow ends released if every milestone was, else resolved |
| EscrowSettlement.TimeoutEffect | src/features/settlement/escrow/service.ts:365-426 | The timeout call in every case, arbitration included; a sweep never leaves the escrow timed out |
| EscrowSettlement.TimeoutRulingEffect | src/features/settlement/escrow/service.ts:592-614 | A ruling on a timeout pays or refunds every open milestone; the stake returns |
| EscrowSettlement.DisputeRulingEffect | src/features/settlement/escrow/service.ts:545-590 | A ruling on a dispute pays or slashes and refunds the milestone, settles the bond, refunds the rest and leaves nothing locked |
| EscrowSettlement.SettledLocksNothing | src/features/settlement/escrow/service.ts:533-543 | With all milestones settled and no bond, no active hold of the escrow is left and captured plus refunded equals the total |
| EscrowInvariant.SettledAddsUp | src/domain/escrow.ts:56-59 | Amounts that sum to the total are captured and refunded to the total |
| EscrowInvariant.InvFramed | src/features/settlement/escrow/service.ts:94-479 | One escrow's call does not disturb any other escrow |
| EscrowFinality.FinalForever | src/features/settlement/escrow/service.ts:694-709 | A finished escrow and the holds taken for it never change again |
| EscrowFinality.DisputeStrandsIff | src/features/settlement/escrow/service.ts:317-359 | A dispute decided on the spot finishes the escrow and leaves nothing locked if and only if every other milestone was settled before |
| EscrowLeftovers.UnnamedForever | src/features/settlement/escrow/service.ts:94-627 | In any run a hold that no record names stays as it is unless a wallet call settles it: no escrow call ever does |
| EscrowExamples.OpenCanStrand | src/features/settlement/escrow/service.ts:134-145 | From the empty service: an open that can afford only its first milestone throws and leaves that money locked, whatever the parties call from then on |
| EscrowExamples.DisputeCanStrand | src/features/settlement/escrow/service.ts:355-359 | From the empty service: a dispute on one of two milestones leaves the other's hold locked whatever is called from then on |
| EscrowExamples.RedeliveryCanBreak | src/features/settlement/escrow/service.ts:193-212 | From the empty service: a second delivery of a refunded milestone throws and leaves the record saying delivered over a returned hold |
| EscrowExamples.PayeeKeepsBond | src/features/settlement/escrow/service.ts:321-328 | From the empty service: the payee disputes its own passing work with a bond, is paid and has the bond back |
| EscrowService.EscrowService.Open | src/features/settlement/escrow/service.ts:94-168 | Object method (one hold per milestone in order, then the stake): its new state and its error are those of the specification function, on every path; books in order stay in order exactly if the guard holds |
| EscrowService.EscrowService.Deliver | src/features/settlement/escrow/service.ts:182-218 | Object method (marks, judges and recomputes): its new state and its error are those of the specification function, on every path; books in order stay in order exactly if the guard holds |
| EscrowService.EscrowService.Accept | src/features/settlement/escrow/service.ts:221-243 | Object method (captures and recomputes): its new state and its error are those of the specification function, on every path; books in order stay in order exactly if the guard holds |
| EscrowService.EscrowService.Dispute | src/features/settlement/escrow/service.ts:253-280 | Object method (checks in order, then decides): its new state and its error are those of the specification function, on every path; books in order stay in order exactly if the guard holds |
| EscrowService.EscrowService.DecideDispute | src/features/settlement/escrow/service.ts:282-359 | Object method (bond, verdict, settlement and closing state): its new state and its error are those of the specification function, on every path |
| EscrowService.EscrowService.OnTimeout | src/features/settlement/escrow/service.ts:365-417 | Object method (arbitrates or sweeps): its new state and its error are those of the specification function, on every path; books in order stay in order exactly if the guard holds |
| EscrowService.EscrowService.ResolveEscalation | src/features/settlement/escrow/service.ts:434-479 | Object method (redeems and settles): its new state and its error are those of the specification function, on every path; books in order stay in order exactly if the guard holds |
| EscrowService.EscrowService.CaptureMilestone | src/features/settlement/escrow/service.ts:484-495 | Object method (capture, mark, spend, receipt, stake): its new state and its error are those of the specification function, on every path |
| EscrowService.EscrowService.RefundMilestone | src/features/settlement/escrow/service.ts:498-511 | Object method (release, mark, receipt, stake): its new state and its error are those of the specification function, on every path |
| EscrowService.EscrowService.SlashProviderStake | src/features/settlement/escrow/service.ts:515-526 | Object method (forfeit and clear): its new state and its error are those of the specification function, on every path |
| EscrowService.EscrowService.MaybeReleaseStake | src/features/settlement/escrow/service.ts:533-543 | Object method (release and clear when all are settled): its new state and its error are those of the specification function, on every path |
| EscrowService.EscrowService.SettlePending | src/features/settlement/escrow/service.ts:401-407 | Object method (the loop over pending milestones): its new state and its error are those of the specification function, on every path |
| EscrowService.EscrowService.SettleDisputeRuling | src/features/settlement/escrow/service.ts:552-590 | Object method (winner, bond and the rest): its new state and its error are those of the specification function, on every path |
| EscrowService.EscrowService.SettleTimeoutRuling | src/features/settlement/escrow/service.ts:596-614 | Object method (the loop over listed milestones): its new state and its error are those of the specification function, on every path |
| EscrowService.EscrowService.RefundRemainingPending | src/features/settlement/escrow/service.ts:619-627 | Object method (the loop over what is left): its new state and its error are those of the specification function, on every path |
| Merkle.MerkleRoot | src/shared/crypto/merkle.ts:10-23 | The level loop computes the root of the level functions |
| Merkle.MerkleProof | src/shared/crypto/merkle.ts:31-51 | The proof loop computes the path of the level functions, nothing out of range |
| Merkle.VerifyProof | src/shared/crypto/merkle.ts:53-59 | The climb loop accepts exactly when the climb reaches the root |
| Merkle.ProofComplete | src/shared/crypto/merkle.ts:31-59 | Every leaf's own proof climbs to the root and is as long as the ceiling of log2 of the leaf count |
| Merkle.ProofSpellsIndex | src/shared/crypto/merkle.ts:31-51 | On level n of a leaf's proof the sibling is to the left exactly if bit n of the index is set |
| Merkle.ClimbInjective | src/shared/crypto/merkle.ts:53-59 | With an injective hash, climbs of one shape meet only from the same leaf with the same siblings |
| Merkle.ProofSoundIff | src/shared/crypto/merkle.ts:53-59 | A proof of the shape of index i is accepted exactly for the leaf at i with its own siblings |
| Merkle.RootIsTreeHash | src/shared/crypto/merkle.ts:10-23 | The level-by-level root is the hash of the recursive tree of least height |
| Merkle.RootsEqualIff | src/shared/crypto/merkle.ts:10-23 | Trees of one height have equal roots exactly when they are the same tree |
| Merkle.RootBinding | src/shared/crypto/merkle.ts:10-23 | Lists of equal length with equal roots are equal |
| Merkle.RepeatedLeafCollides | src/shared/crypto/merkle.ts:4-5 | Equal length is needed: repeating an odd last leaf keeps the root |
| HashChain.ExtendsIff | src/shared/crypto/hash.ts:14-15 | A link keeps a chain exactly when it follows the last one |
| HashChain.LastHashBinds | src/shared/crypto/hash.ts:14-15 | Chains of one length with the same last hash are the same chain |
| Ledger.LedgerService.Append | src/core/ledger/ledger.ts:57-89 | Appends the entry built on the current head |
| Ledger.LedgerService.VerifyChain | src/core/ledger/ledger.ts:110-130 | Accepts exactly the lists that appends from the empty ledger produce |
| Ledger.SameLastHashSameLedger | src/core/ledger/ledger.ts:21-29 | Accepted ledgers with the same last hash agree on every field of every entry, whatever their lengths |
| Ledger.SameRootSameLedger | src/core/ledger/ledger.ts:105-108 | So do accepted ledgers of equal length with the same Merkle root |
| Ledger.StepKeepsChainIff | src/core/ledger/ledger.ts:58-87 | An await-level step keeps the ledger accepted exactly when it is not a checked push after somebody else's push |
| Ledger.VerifiedIffUnraced | src/core/ledger/ledger.ts:57-89 | In every run of overlapping appends the ledger is accepted if and only if no checked push came after another push |
| Ledger.OverlappingAppendsFork | src/core/ledger/ledger.ts:76-87 | Two appends started together both pass the check and fork the chain |
| Board.MemoryPostRepo.AppendPost | src/features/board/memory.ts:22-33 | Refuses a known id or a number that does not follow the head, else stores the post |
| Board.AcceptedIff | src/features/board/memory.ts:22-33 | A draft is stored exactly when its id is new and the head it read is still the head; a stale one changes nothing |
| Board.StepKeepsBoard | src/features/board/service.ts:122-136 | One step of any post, tombstone or anchor keeps the stored chain |
| Board.RunKeepsBoard | src/features/board/service.ts:240-263 | Over every interleaving the board is a gapless chain from genesis with unique ids and every anchored root is that of a stored prefix |
| Board.RunKeepsEntries | src/features/board/memory.ts:30-32 | Stored entries never change or move |
| Board.PromptAnchorExact | src/features/board/service.ts:379-386 | An anchor written before another append holds the root of exactly the posts up to its number |
| Board.PostAloneStored | src/features/board/service.ts:122-136 | A post that nobody interrupts is stored under the next number on the head it read, and its anchor covers exactly the posts up to it |
| Board.HeadPinsBoard | src/features/board/service.ts:122-126 | Boards of one length with the same last hash hold the same posts |
| Board.AnchorPinsBoard | src/features/board/service.ts:310-314 | Boards of one length with the same Merkle root hold the same posts |
| Idempotency.MemoryIdempotencyStore.Execute | src/infrastructure/persistence/memory/idempotency-store.ts:20-43 | From the call to its first await: cached answer, join, or a new run in the slot |
| Idempotency.MemoryIdempotencyStore.SettleRun | src/infrastructure/persistence/memory/idempotency-store.ts:36-40 | A value is cached, a throw is not |
| Idempotency.MemoryIdempotencyStore.ReleaseSlot | src/infrastructure/persistence/memory/idempotency-store.ts:44-50 | The first caller frees the slot whatever happened |
| Idempotency.SingleFlight | src/infrastructure/persistence/memory/idempotency-store.ts:20-50 | At every moment two runs of one key that have not failed are the same run |
| Idempotency.EveryoneGetsTheValue | src/infrastructure/persistence/memory/idempotency-store.ts:23-33 | Whoever returns normally returns the value of the one successful run |
| Idempotency.ReturnsComeFromRuns | src/infrastructure/persistence/memory/idempotency-store.ts:23-25 | A normal return implies a successful run |
| Idempotency.ThrowsComeFromRuns | src/infrastructure/persistence/memory/idempotency-store.ts:20-50 | A throw implies a failed run of the key |
| Idempotency.LeavesWithResult | src/infrastructure/persistence/memory/idempotency-store.ts:23-50 | Whoever waits for a run leaves with that run's own value or throw, and a call on a key that has succeeded leaves at once with its value |
| Idempotency.RunsAgainIff | src/infrastructure/persistence/memory/idempotency-store.ts:44-48 | A key runs again exactly when all its runs failed and their first callers left |
| Nonce.MemoryNonceStore.CheckAndConsume | src/infrastructure/persistence/memory/nonce-store.ts:9-18 | Prunes, then accepts an unexpired unseen nonce |
| Nonce.MemoryNonceStore.Prune | src/infrastructure/persistence/memory/nonce-store.ts:20-24 | The loop keeps exactly the unexpired entries |
| Nonce.PruningInvisible | src/infrastructure/persistence/memory/nonce-store.ts:9-24 | With a clock that never goes back, every answer is that of a store that never forgets |
| Nonce.AcceptedIff | src/infrastructure/persistence/memory/nonce-store.ts:9-18 | In every run a nonce is accepted exactly if its expiry is a date still to come and every earlier acceptance of it has expired |
| Nonce.AcceptedAtMostOnce | src/infrastructure/persistence/memory/nonce-store.ts:9-18 | A signed (nonce, expiry) pair is accepted at most once in any run |
| Approvals.ApprovalQueue.Enqueue | src/features/governance/approvals.ts:35-47 | A new pending approval under a fresh id |
| Approvals.ApprovalQueue.Resolve | src/features/governance/approvals.ts:64-79 | Pending turns into the ruling; repeating it is fine, flipping it a conflict |
| Approvals.ApprovalQueue.Consume | src/features/governance/approvals.ts:90-109 | Errors in order; success - exactly for a ruled, unused approval of this agent and this action in every field - marks it consumed and returns the ruling |
| Approvals.WalletSigner.SignWithinPolicy | src/core/policy/signer.ts:46-96 | Signs exactly what policy allows or a matching, unused, approving clearance covers; nothing else changes the queue |
| Approvals.ResolvedIff | src/features/governance/approvals.ts:64-79 | A ruling goes through exactly on a pending approval or as a repetition, and sets status and decision |
| Approvals.RedeemedIff | src/features/governance/approvals.ts:12-21 | A redemption goes through exactly for the approval's agent and its action with every field equal, the amount by value, once ruled on and unused; else conflict or forbidden |
| Approvals.EndConsumeKeepsIff | src/features/governance/approvals.ts:90-109 | A redemption on a stale read keeps one-use exactly when nobody redeemed in between |
| Approvals.EndResolveKeepsIff | src/features/governance/approvals.ts:64-79 | A resolution on a stale read keeps rulings exactly when the approval is still pending or ruled the same |
| Approvals.StepKeepsIff | src/features/governance/approvals.ts:64-109 | From a desk in order every step leaves it in order if and only if it is safe: what it is about to use up is unused by now, what it is about to rule on is pending or ruled the same |
| Approvals.OrderIffSafe | src/features/governance/approvals.ts:35-109 | In every run, however enqueues, resolutions, redemptions and signatures overlap: statuses, rulings, uses and signatures are in order all along if and only if every step was safe |
| Approvals.OneSignaturePerApproval | src/core/policy/signer.ts:69-82 | In every run whose steps were safe so far, cleared signatures map one-to-one to approvals that a supervisor approved and that were enqueued for exactly that agent and action |
| Approvals.ClearedAsEnqueued | src/core/policy/signer.ts:69-82 | In every run, safe or not: a cleared signature is for exactly the agent and action that were enqueued under its approval, and a supervisor approved it |
| Approvals.OutrightWithinThreshold | src/core/policy/signer.ts:60-96 | In every run: a spend, tip or escrow signed without a clearance was within the delegation and, in the threshold's currency, not above it |
| Approvals.RulingsLast | src/features/governance/approvals.ts:64-79 | In every run whose steps were safe so far, a ruling once made does not change |
| Approvals.UncrowdedStaysSafe | src/features/governance/approvals.ts:64-109 | Runs in which no two calls on one approval overlap are safe |
| Approvals.OverlappingRulingsFlip | src/features/governance/approvals.ts:64-79 | From the empty desk: an approval and a denial that overlap both go through, and the second overwrites the first |
| Approvals.LateRulingSignsTwice | src/features/governance/approvals.ts:64-109 | From the empty desk: two overlapping approvals, with redemptions that do not overlap, let one clearance sign twice |
| Approvals.RedemptionsRace | src/features/governance/approvals.ts:87-109 | From the empty desk: two overlapping redemptions both sign |
| Approvals.OverlappingRedemptionsSignTwice | src/features/governance/approvals.ts:87-109 | The same on any desk in order, for any approved entry |
| Policy.EvaluateMonotone | src/core/policy/evaluator.ts:52-159 | A tighter delegation or more recorded spending never lets an action get further |
| Policy.SpendDecided | src/core/policy/evaluator.ts:84-123 | A spend or tip needs approval exactly if it is listed and within all three caps and over the threshold, is allowed exactly if not over it, breaks exactly on mixed currencies, and is denied otherwise |
| Policy.EscrowDecided | src/core/policy/evaluator.ts:142-154 | The same for an escrow commitment |
| Policy.OthersDecided | src/core/policy/evaluator.ts:125-159 | Exactly when a message, a post of either kind or a stake is allowed; an unknown kind never is |
| Policy.MatchesIff | src/domain/taxonomy.ts:11-19 | A pattern matches exactly as "*", as the id itself, or as a subtree whose segments the id begins with |
| Policy.ListedIff | src/domain/taxonomy.ts:23-30 | Listed exactly if some allowed pattern matches and no denied one does |
| Policy.SubtreePattern | src/domain/taxonomy.ts:11-19 | A pattern ending in ".*" matches exactly the ids whose dotted segments begin with the pattern's own: the string test is prefix order on segments, so "a.b.*" never matches "a.bc" |
| Policy.ListedKept | src/domain/taxonomy.ts:23-30 | Fewer allow patterns and more deny patterns never list more |
| Policy.ListsSomethingIff | src/domain/taxonomy.ts:11-30 | An allow-list and a deny-list together list some id exactly if some allowed pattern is not covered by a single denied one |
| SpendCaps.RecordShows | src/features/settlement/wallet/service.ts:238-254 | The rolling row keeps agreeing with the sums over the full spending history |
| SpendCaps.WithinCaps | src/core/policy/evaluator.ts:84-123 | Getting past the evaluator means fitting under all three caps |
| SpendCaps.PaidWithinCaps | src/features/settlement/facilitator/service.ts:157-252 | A successful USDC payment, cleared or not, leaves the payer's history within lifetime and daily cap |
| SpendCaps.PaySucceedsIff | src/features/settlement/facilitator/service.ts:157-252 | A USDC pay succeeds exactly if it settles a positive listed amount within the cap per payment, with the payer's whole history within the other two, and was cleared if over the threshold |
| SpendCaps.EveryPayWithinCaps | src/features/settlement/facilitator/service.ts:157-252 | The same after every successful pay of every run, with captures recorded in between |
| SpendCaps.OtherCurrencyForgotten | src/features/settlement/wallet/service.ts:256-261 | In another currency the evaluator sees no history |
| SpendCaps.CapsEnforcedIff | src/features/settlement/wallet/service.ts:209-236 | For any delegations and any payer: both caps hold after every successful pay of every run if and only if the currency is USDC or the delegation lets nothing through in it, which is a test on its three caps and its four lists |
| SpendCaps.CanPayIff | src/core/policy/evaluator.ts:84-123 | A first pay in a currency can succeed exactly if the delegation's caps are in it and positive and its lists leave a category and a counterparty |
| SpendCaps.OtherCurrencyUncapped | src/features/settlement/wallet/service.ts:256-261 | An instance: a delegation of any size in another currency can be exceeded |
| SpendRaces.FinishWithinIff | src/features/settlement/facilitator/service.ts:183-249 | A USDC pay judged on an old reading leaves its payer within both caps if and only if what was spent since the reading fits into the room it saw |
| SpendRaces.EveryPayWithinIff | src/features/settlement/facilitator/service.ts:183-249 | The same over every run of overlapping pays and captures, with days that never go back |
| SpendRaces.AloneFits | src/features/settlement/facilitator/service.ts:183-249 | With nothing recorded for the payer since the reading, a pay always fits |
| SpendRaces.OverlappingPaysExceed | src/features/settlement/facilitator/service.ts:183-249 | Two pays of the whole cap that overlap both succeed and spend twice the lifetime cap |
| Reputation.LiveAccumulator.IngestReceipt | src/core/reputation/reputation.service.ts:49-95 | The in-place fold; a second currency throws after the job was counted |
| Reputation.FoldDigests | src/core/reputation/reputation.service.ts:49-95 | The fold of a list whose value-moving receipts share a currency is a digest of the set of its receipts: counts, sums, samples, first and last |
| Reputation.MetricsDependOnSet | src/core/reputation/repo.ts:48-73 | Metrics depend on the set of distinct receipts only, not on order or repeats; refunds may name any currency |
| Reputation.IngestedIffOneCurrency | src/core/reputation/reputation.service.ts:83-87 | In whatever order and however often repeated, a payee's receipts are all ingested without a throw if and only if those that move value share one currency |
| Reputation.FirstCurrencyWins | src/core/reputation/reputation.service.ts:194-205 | With two currencies the order decides the settled value |
| Reputation.MetricsBounded | src/core/reputation/repo.ts:48-89 | Rates add to at most one, counterparties never exceed jobs, and p50 <= p95, both measured |
| Reputation.PercentilesMeasured | src/core/reputation/repo.ts:79-89 | Nearest-rank percentiles are elements of the samples, in order |
| Reputation.PercentilesMean | src/core/reputation/repo.ts:79-89 | The published latencies are the least samples with a half and with 95 percent of the samples at or below them |
| Reputation.MetricsMean | src/core/reputation/repo.ts:48-73 | The metrics in terms of the distinct receipts: rates are shares of the jobs, a partial delivery counts half, the value is what was not refunded, counterparties are the distinct payers |
| Reputation.IngestRefuses | src/core/reputation/reputation.service.ts:49-60 | A receipt that names nobody throws before it is counted; a repeated one changes nothing |
| Reputation.TrustMonotone | src/domain/reputation.ts:61-83 | Trust lies in [0,1] and is monotone in every metric |
| Reputation.TrustMeans | src/domain/reputation.ts:61-83 | Trust in points of a hundred: 45 for success, 20 for uptime, 20 for speed against four seconds, 15 for stake against 250, minus 30 for disputes and 15 for refunds, discounted for low diversity and two percent a flag |
| Similarity.TermFrequencies | src/features/registry/ranking.ts:78-82 | The loop counts exactly the occurrences of each token |
| Similarity.DotProduct | src/features/registry/ranking.ts:89-93 | The loop over common terms computes the dot product |
| Similarity.CauchySchwarz | src/features/registry/ranking.ts:89-101 | The dot product squared is at most the product of the squared norms |
| Similarity.SimilarityBounded | src/features/registry/ranking.ts:84-102 | The similarity lies in [0,1] |
| Similarity.SimilaritySymmetric | src/features/registry/ranking.ts:84-102 | It is unique and symmetric |
| Similarity.EqualTextsAlike | src/features/registry/ranking.ts:84-102 | It is 1 on equal texts with a token |
| Similarity.HalfDecided | src/features/registry/ranking.ts:110-116 | The 0.5 threshold, decided without a root |
| Ranking.MatchesCapability | src/features/registry/ranking.ts:110-116 | Same taxonomy, or close enough when semantic recall is on |
| Ranking.HardFilter | src/features/registry/ranking.ts:118-194 | The loop keeps exactly the listings that meet every bound, in stored order |
| Ranking.NarrowerKeepsFewer | src/features/registry/ranking.ts:118-194 | Tightening a bound only shrinks the survivors |
| Ranking.DroppedIff | src/features/registry/ranking.ts:118-194 | A listing is dropped exactly for one of the ten listed reasons |
| Ranking.CoreBounded | src/features/registry/ranking.ts:269-306 | The core is a weighted average in [0,1], the score too |
| Ranking.ScoreMonotone | src/features/registry/ranking.ts:217-306 | A listing that is nowhere worse - schemas, price, latency, slashable stake, provider's trust, history and last settlement - never scores lower, under any nonnegative weights |
| Ranking.SignalsMeasure | src/features/registry/ranking.ts:232-267 | Each signal on its own scale: headroom under the ceiling, target against latency, slashable stake against 250, age against thirty days, half where the query asks nothing |
| Ranking.SchemaFraction | src/features/registry/ranking.ts:219-228 | The schema signal is the part of the requested schemas that the listing has |
| Ranking.CoreIsAverage | src/features/registry/ranking.ts:295-303 | The core times the sum of the weights is the sum of the signals, each under its own weight |
| Ranking.ScoreIsCoreAndBoost | src/features/registry/ranking.ts:303-306 | The score adds a twentieth of history and freshness, cut off at one |
| Ranking.WeightsDefault | src/features/registry/ranking.ts:205-215 | A weight left out defaults, a given one is taken |
| Ranking.Discover | src/features/registry/service.ts:161-166 | Filter, score, sort and cut |
| Ranking.RankingUnique | src/features/registry/ranking.ts:314-318 | The ranking is the one sorted permutation under score descending, id ascending |
| Ranking.RankedByScoreThenId | src/features/registry/ranking.ts:314-318 | Higher scores come first, and of equal scores the id that is first in the dictionary |
| Ranking.StoredOrderIrrelevant | src/features/registry/ranking.ts:314-318 | The stored order of listings does not matter |
| Ranking.CutKeepsTheBest | src/features/registry/service.ts:166 | Cutting drops nothing that ranks above a kept entry |
| Mailroom.MemoryMessageRepo.Append | src/features/mailroom/memory.ts:24-33 | The next cursor, the log and the recipient's bucket |
| Mailroom.MemoryMessageRepo.Inbox | src/features/mailroom/memory.ts:39-50 | The loop returns the first entries past the cursor |
| Mailroom.PollDelivers | src/features/mailroom/service.ts:226-230 | A poll hands over the next messages, as many as asked or as there are |
| Mailroom.AddressedIff | src/features/mailroom/memory.ts:24-33 | Exactly the messages that name the reader are addressed to it |
| Mailroom.EverythingOnceInOrder | src/features/mailroom/service.ts:221-231 | Polling with any positive limits between any sends delivers every addressed message once and in order |
| Mailroom.StateTells | src/domain/message.ts:58-81 | After any messages the state says what the conversation has come to: closed by a rejection or by a receipt after the commitment, else the furthest of committed, agreed, offered, asked for |
| Mailroom.RootTakenIff | src/features/mailroom/service.ts:299-308 | Exactly which root messages are taken |
| Mailroom.ReplyTakenIff | src/features/mailroom/service.ts:322-341 | Exactly which replies a thread takes in which state |
| Mailroom.PersistKeepsFoldIff | src/features/mailroom/service.ts:340-371 | Persisting keeps a thread the fold of its messages exactly when the state that was read leads to the same place as the state that is there |
| Mailroom.RunFoldsIff | src/features/mailroom/service.ts:340-371 | However sends overlap, all stored states are folds of the accepted messages all along if and only if no send persisted a state that disagrees with the one that was there |
| Mailroom.AgreeingRunForward | src/features/mailroom/service.ts:340-371 | In every such run threads never move backwards and stay closed |
| Mailroom.RunOnwardIff | src/features/mailroom/service.ts:295-371 | However sends overlap, every step keeps the folds, moves no thread backwards and adds to no closed one if and only if every send agreed with the state that was there and found its thread open |
| Mailroom.RunOnward | src/features/mailroom/service.ts:295-371 | Between any two moments of such a run: no thread at an earlier stage, accepted messages only added, none to a closed thread |
| Mailroom.RunOrderedIff | src/features/mailroom/service.ts:180-199 | However sends overlap, messages are persisted in the order of the log all along if and only if each send persisted the message that was next in its thread |
| Mailroom.LogFolds | src/features/mailroom/service.ts:180-199 | In runs whose sends agreed and persisted in turn, a thread's state is the fold over its messages in the log as soon as none of them waits to be persisted |
| Mailroom.UncrowdedRunAgrees | src/features/mailroom/service.ts:295-371 | Runs in which no two sends on a thread overlap and root messages have fresh threads meet all these conditions |
| Mailroom.OverlappingRepliesGoBack | src/features/mailroom/service.ts:320-371 | Overlapping replies can take a thread from agreed back to offered |

## Left out

- Signatures, envelope freshness and nonces in front of every call: they only decide whether the modelled part runs.
- The payer's policy check and parking in `open`: the escrow model starts after it; what the signer checks is in Approvals.
- The approval behind an escalation: `resolveEscalation` takes the redeemed ruling as a parameter, and that a ruling is redeemed once is proved for safe runs of the queue in Approvals.
- Ledger and reputation calls inside escrow: kept as the list of receipts, which always succeeds; reputation signals are not modelled.
- `result_schema_ref`, hold and record timestamps, and the text of errors.
- The composite strings `did::currency` and `scope::key`: modelled as pairs, so collisions of the separator are outside the model.
- Binary floating point: the burn fraction is computed in exact decimals with the 20-place division and the 6-place rounding, the rest of the arithmetic is exact; rates, trust, scores and similarity are reals.
- Escrow.RecomputeState: the code's inner test for a refunded milestone is always true there, since all-released was tested before.
- WalletQueue.OverlappingCallsSerialise: a call that fails its check before the lock throws at once and takes no part in the run; the name that a hold draws at the end is a parameter of the call, and `recordSpend`, whose key is its own, is not among the calls.
- Idempotency.MemoryIdempotencyStore.Execute: a run that synchronously re-enters its own key before its slot is set is not modelled.
- Reputation.MetricsDependOnSet: receipts that move value are in one currency and a receipt id names one receipt; equal instants written as different strings are one time here.
- Reputation.TrustMonotone: stake, uptime and flags are inputs; the setters and the signed snapshot cache are not modelled.
- Similarity.TermFrequencies: works on tokens; lower-casing and splitting of the text are not modelled.
- SpendCaps.PaidWithinCaps: a pay is one step from usage read to recorded spend, and SpendRaces cuts it in two, reading and recording; the rail's own transfers are not modelled.
- EscrowRuns.RunKeepsInv: an escrow call is one step. The service awaits between its tests and its marks and has no lock of its own; two calls that overlap on one escrow, and wallet calls of other escrows between the holds of one call, are outside the model.
- Board queries, subscriptions and flags, mailroom postage, flags and agreements, registry publishing and quotes, and everything behind HTTP, storage adapters and configuration.
